/** What rebuild and verification compute from raw ledger entries. */
module Projection {
  import opened Text
  import opened Ledger
  import opened Replay
  import opened Scripts
  import opened Protocol

  datatype ReadResult = Events(events: seq<Event>) | Failed(error: DecodeError)

  /** One board's events, oldest first, or the first decoding error among that board's
      entries.  Entries of other boards are not even decoded. */
  function ReadBoard(entries: seq<Entry>, boardId: string): ReadResult {
    if entries == [] then Events([]) else
      var last := entries[|entries| - 1];
      match ReadBoard(entries[..|entries| - 1], boardId)
      case Failed(error) => Failed(error)
      case Events(events) =>
        if Field(last, BOARD_FIELD) != boardId then Events(events) else
        match EntryToEvent(last)
        case Rejected(error) => Failed(error)
        case Ok(e) => Events(events + [e])
  }

  /** The sorted set the fold commands build from an empty key. */
  function Fold(events: seq<Event>): Zset {
    if events == [] then map[] else Command(Fold(events[..|events| - 1]), events[|events| - 1])
  }

  lemma FoldAppend(events: seq<Event>, e: Event)
    ensures Fold(events + [e]) == Command(Fold(events), e)
  {
    assert (events + [e])[..|events|] == events;
  }

  lemma ReadBoardAppend(entries: seq<Entry>, last: Entry, boardId: string)
    ensures ReadBoard(entries + [last], boardId) ==
      match ReadBoard(entries, boardId)
      case Failed(error) => Failed(error)
      case Events(events) =>
        if Field(last, BOARD_FIELD) != boardId then Events(events) else
        match EntryToEvent(last)
        case Rejected(error) => Failed(error)
        case Ok(e) => Events(events + [e])
  {
    assert (entries + [last])[..|entries|] == entries;
  }

  lemma {:induction false} ReadBoardFailsOnPrefix(entries: seq<Entry>, boardId: string, n: nat)
    requires n <= |entries| && ReadBoard(entries[..n], boardId).Failed?
    ensures ReadBoard(entries, boardId) == ReadBoard(entries[..n], boardId)
  {
    if n == |entries| {
      assert entries[..n] == entries;
    } else {
      var init := entries[..|entries| - 1];
      assert init[..n] == entries[..n];
      ReadBoardFailsOnPrefix(init, boardId, n);
    }
  }

  /** The board's own entries before position i decode, and the one at i is rejected with this error. */
  predicate FailsAt(entries: seq<Entry>, boardId: string, i: nat, error: DecodeError)
    requires i < |entries|
  {
    && Field(entries[i], "board_id") == boardId && EntryToEvent(entries[i]) == Rejected(error)
    && forall j :: 0 <= j < i && Field(entries[j], "board_id") == boardId ==> EntryToEvent(entries[j]).Ok?
  }

  /** Reading fails exactly when some entry of this board does not decode, with the error of the first
      one that does not. */
  lemma {:induction false} ReadFailsIff(entries: seq<Entry>, boardId: string)
    ensures ReadBoard(entries, boardId).Failed?
       <==> exists i :: 0 <= i < |entries| && Field(entries[i], "board_id") == boardId
                        && EntryToEvent(entries[i]).Rejected?
    ensures ReadBoard(entries, boardId).Failed? ==>
              exists i: nat :: i < |entries| && FailsAt(entries, boardId, i, ReadBoard(entries, boardId).error)
  {
    hide EntryToEvent;
    if entries != [] {
      var n := |entries| - 1;
      var init := entries[..n];
      ReadFailsIff(init, boardId);
      assert forall i :: 0 <= i < n ==> init[i] == entries[i];
      if ReadBoard(init, boardId).Failed? {
        var i: nat :| i < n && FailsAt(init, boardId, i, ReadBoard(init, boardId).error);
        assert FailsAt(entries, boardId, i, ReadBoard(entries, boardId).error);
      } else if ReadBoard(entries, boardId).Failed? {
        assert FailsAt(entries, boardId, n, ReadBoard(entries, boardId).error);
      }
    }
  }

  /** On entries the write path appended, reading a board returns exactly its events. */
  lemma {:induction false} ReadBoardOfEncoded(events: seq<Event>, boardId: string)
    requires forall i :: 0 <= i < |events| ==> ValidEvent(events[i])
    ensures ReadBoard(Encode(events), boardId) == Events(BoardEvents(events, boardId))
  {
    if events != [] {
      var n := |events| - 1;
      ReadBoardOfEncoded(events[..n], boardId);
      assert Encode(events)[..n] == Encode(events[..n]);
      EntryRoundTrip(events[n]);
    }
  }

  /** The double arithmetic of the fold commands computes the integer replay at every step, on
      every board that replays in range. */
  lemma {:induction false} FoldIsReplay(events: seq<Event>, k: nat)
    requires BoardInRange(events) && k <= |events|
    ensures Fold(events[..k]) == ReplayAll(events[..k])
  {
    if k > 0 {
      FoldIsReplay(events, k - 1);
      CommandExtendsReplay(events, k - 1);
      assert events[..k] == events[..k - 1] + [events[k - 1]];
      FoldAppend(events[..k - 1], events[k - 1]);
    }
  }

  // ---- the difference of two projections --------------------------------------------------

  datatype Mismatch = Mismatch(
    boardId: string, playerId: string,
    liveScore: int, livePresent: bool, replayScore: int, replayPresent: bool)

  predicate Differs(live: Zset, replay: Zset, p: string) {
    (p in live || p in replay) && !(p in live && p in replay && live[p] == replay[p])
  }

  /** A report's live side is the live projection's, its replay side the replay's; an absent side has
      score 0. */
  predicate ShowsSides(m: Mismatch, boardId: string, live: Zset, replay: Zset) {
    && m.boardId == boardId
    && (m.livePresent <==> m.playerId in live)
    && (m.livePresent ==> m.liveScore == live[m.playerId]) && (!m.livePresent ==> m.liveScore == 0)
    && (m.replayPresent <==> m.playerId in replay)
    && (m.replayPresent ==> m.replayScore == replay[m.playerId]) && (!m.replayPresent ==> m.replayScore == 0)
  }

  /** Each differing or one-sided player is listed exactly once, with its scores and presence on
      both sides, and no other player is. */
  ghost predicate IsDiff(ms: seq<Mismatch>, boardId: string, live: Zset, replay: Zset) {
    && (forall i :: 0 <= i < |ms| ==>
          Differs(live, replay, ms[i].playerId) && ShowsSides(ms[i], boardId, live, replay))
    && (forall i, j :: 0 <= i < j < |ms| ==> ms[i].playerId != ms[j].playerId)
    && (forall p :: Differs(live, replay, p) ==> Listed(ms, p))
  }

  ghost predicate Listed(ms: seq<Mismatch>, p: string) {
    exists i :: 0 <= i < |ms| && ms[i].playerId == p
  }

  /** No mismatch is reported exactly when the projections are equal. */
  lemma DiffIsEmptyIff(ms: seq<Mismatch>, boardId: string, live: Zset, replay: Zset)
    requires IsDiff(ms, boardId, live, replay)
    ensures ms == [] <==> live == replay
  {
    if ms == [] {
      forall p: string ensures !Differs(live, replay, p) {
        assert !Listed(ms, p);
      }
      assert forall p :: p in live ==> !Differs(live, replay, p);
      assert forall p :: p in replay ==> !Differs(live, replay, p);
      assert live.Keys == replay.Keys;
    } else {
      assert Differs(live, replay, ms[0].playerId);
    }
  }

  /** Any two correct reports list the same mismatches, whatever order the maps were walked
      in. */
  lemma DiffIsUnique(ms: seq<Mismatch>, ns: seq<Mismatch>, boardId: string, live: Zset, replay: Zset)
    requires IsDiff(ms, boardId, live, replay) && IsDiff(ns, boardId, live, replay)
    ensures forall m :: m in ms <==> m in ns
  {
    forall m | m in ms ensures m in ns {
      var i :| 0 <= i < |ms| && ms[i] == m;
      assert Listed(ns, m.playerId);
    }
    forall m | m in ns ensures m in ms {
      var i :| 0 <= i < |ns| && ns[i] == m;
      assert Listed(ms, m.playerId);
    }
  }

  lemma ListedIffDiffers(ms: seq<Mismatch>, boardId: string, live: Zset, replay: Zset, p: string)
    requires IsDiff(ms, boardId, live, replay)
    ensures Listed(ms, p) <==>
              (p in live) != (p in replay) || (p in live && p in replay && live[p] != replay[p])
  {
    assert Listed(ms, p) <==> Differs(live, replay, p);
  }

  /** What a rebuild does on a board in range, of any store the scripts produced: the read cannot fail, so the drop is
      never reached with an error pending, and the fold gives the board's replay. */
  lemma RebuildRestoresReplay(db: Db, boardId: string)
    requires LedgerOk(db) && BoardInRange(BoardEvents(db.ledger, boardId))
    ensures ReadBoard(Encode(db.ledger), boardId) == Events(BoardEvents(db.ledger, boardId))
    ensures Fold(BoardEvents(db.ledger, boardId)) == BoardReplay(db.ledger, boardId)
  {
    hide EntryToEvent, EventToEntry;
    ReadBoardOfEncoded(db.ledger, boardId);
    var events := BoardEvents(db.ledger, boardId);
    FoldIsReplay(events, |events|);
    assert events[..|events|] == events;
  }

  /** Verification is exact: it shows the live projection next to the replay of the ledger, and its
      report is empty if and only if they are equal; right after a rebuild it therefore is. */
  lemma VerifyIsExact(db: Db, boardId: string, ms: seq<Mismatch>)
    requires LedgerOk(db) && BoardInRange(BoardEvents(db.ledger, boardId))
    requires IsDiff(ms, boardId, LiveOf(db, boardId), Fold(BoardEvents(db.ledger, boardId)))
    ensures ms == [] <==> LiveOf(db, boardId) == BoardReplay(db.ledger, boardId)
    ensures forall m :: m in ms ==>
              var live, replay := LiveOf(db, boardId), BoardReplay(db.ledger, boardId);
              && m.boardId == boardId
              && (m.livePresent <==> m.playerId in live)
              && m.liveScore == (if m.playerId in live then live[m.playerId] else 0)
              && (m.replayPresent <==> m.playerId in replay)
              && m.replayScore == (if m.playerId in replay then replay[m.playerId] else 0)
    ensures forall p :: Listed(ms, p) <==>
              var live, replay := LiveOf(db, boardId), BoardReplay(db.ledger, boardId);
              (p in live) != (p in replay) || (p in live && p in replay && live[p] != replay[p])
  {
    hide LedgerOk, BoardInRange, BoardEvents, BoardReplay, LiveOf, ReadBoard, Encode, Fold;
    RebuildRestoresReplay(db, boardId);
    forall p: string {
      ListedIffDiffers(ms, boardId, LiveOf(db, boardId), BoardReplay(db.ledger, boardId), p);
    }
    DiffIsEmptyIff(ms, boardId, LiveOf(db, boardId), BoardReplay(db.ledger, boardId));
  }
}
