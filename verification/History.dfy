/** The player history index: a sorted set of entry ids per player and board, ordered by a packed
    stream id, and the page read through it. */
module History {
  import opened Lists
  import opened Text
  import opened Ledger
  import opened Replay
  import opened Ranking
  import opened Consumers
  import opened Scripts
  import Binary64

  const SEQ_SCALE: nat := 4096
  const TWO_41: nat := 0x200_0000_0000

  /** strconv.ParseInt to 64 bits. */
  function ParseInt64(s: string): Option<int> {
    match ParseInt(s)
    case None => None
    case Some(v) => if InInt64(v) then Some(v) else None
  }

  /** The sorted-set score of a stream id: both halves packed, the sequence clamped, the int64
      product stored as a double. */
  function StreamIdScore(entryId: string): Option<int> {
    match Cut(entryId, '-')
    case None => None
    case Some((millisText, seqText)) =>
      match ParseInt64(millisText)
      case None => None
      case Some(millis) =>
        match ParseInt64(seqText)
        case None => None
        case Some(seqNo) =>
          var clamped := if seqNo >= SEQ_SCALE then SEQ_SCALE - 1 else seqNo;
          Some(Binary64.Round(Wrap64(millis * SEQ_SCALE + clamped)))
  }

  function Clamp(seqNo: nat): nat {
    if seqNo >= SEQ_SCALE then SEQ_SCALE - 1 else seqNo
  }

  /** The integer the score stands for. */
  function Packed(id: StreamId): nat {
    id.ms * SEQ_SCALE + Clamp(id.seqNo)
  }

  lemma NatTextParses(n: nat)
    ensures ParseInt(NatText(n)) == Some(n)
  {
    IntTextRoundTrip(n);
    assert IntText(n) == NatText(n);
  }

  lemma IdTextParses(id: StreamId)
    requires id.ms <= INT64_MAX && id.seqNo <= INT64_MAX
    ensures Cut(id.ToText(), '-') == Some((NatText(id.ms), NatText(id.seqNo)))
    ensures ParseInt64(NatText(id.ms)) == Some(id.ms) && ParseInt64(NatText(id.seqNo)) == Some(id.seqNo)
  {
    IdTextCut(id.ms, id.seqNo);
    NatTextParses(id.ms);
    NatTextParses(id.seqNo);
  }

  lemma ScoreOfParts(s: string, millisText: string, seqText: string, id: StreamId)
    requires Cut(s, '-') == Some((millisText, seqText))
    requires ParseInt64(millisText) == Some(id.ms) && ParseInt64(seqText) == Some(id.seqNo)
    ensures StreamIdScore(s) == Some(Binary64.Round(Wrap64(Packed(id))))
  {
  }

  /** On the ids Redis issues (until the packed value leaves int64, some 70 000 years on) the
      score is the packed id as a double. */
  lemma ScoreOfId(id: StreamId)
    requires id.seqNo <= INT64_MAX && Packed(id) <= INT64_MAX
    ensures StreamIdScore(id.ToText()) == Some(Binary64.Round(Packed(id)))
    ensures Packed(id) == id.ms * 4096 + (if id.seqNo > 4095 then 4095 else id.seqNo)
  {
    IdTextParses(id);
    ScoreOfParts(id.ToText(), NatText(id.ms), NatText(id.seqNo), id);
    WrapIsIdentity(Packed(id));
  }

  /** An id whose text is not "millis-seq" gets no score, and with it no pipeline is sent. */
  lemma MalformedIdHasNoScore(s: string)
    requires '-' !in s
    ensures StreamIdScore(s) == None
  {
    forall i | 0 <= i < |s| ensures s[i] != '-' {
      assert s[i] in s;
    }
  }

  predicate InBudget(id: StreamId) {
    id.ms < TWO_41 && id.seqNo < SEQ_SCALE
  }

  /** Inside the budget the score is the packed id itself, with no rounding. */
  lemma BudgetIsExact(id: StreamId)
    requires id.ms < TWO_41 && id.seqNo <= INT64_MAX
    ensures StreamIdScore(id.ToText()) == Some(Packed(id))
  {
    Binary64.SmallIsExact(Packed(id));
    ScoreOfId(id);
  }

  /** The score of the id holds the packed value without rounding. */
  predicate ScoreIsExact(ms: nat, seqNo: nat) {
    StreamIdScore(StreamId(ms, seqNo).ToText()) == Some(ms * 4096 + seqNo)
  }

  lemma TwicePlusOneIsOdd(n: nat, half: nat)
    requires n == 2 * half + 1
    ensures n % 2 == 1
  {
  }

  lemma PastBudgetIsInexact(ms: nat)
    requires ms >= TWO_41 && ms * SEQ_SCALE + SEQ_SCALE <= INT64_MAX
    ensures !ScoreIsExact(ms, 1)
  {
    ScoreOfId(StreamId(ms, 1));
    TwicePlusOneIsOdd(ms * SEQ_SCALE + 1, ms * 2048);
    Binary64.LargeOddIsInexact(ms * SEQ_SCALE + 1);
  }

  /** 2^41 is exactly the limit: all sequence numbers of a millisecond are stored exactly if and
      only if the millisecond is below it.  (Single ids beyond it can still be exact, when the
      packed value is even.) */
  lemma MillisecondIsExactIff(ms: nat)
    requires ms * SEQ_SCALE + SEQ_SCALE <= INT64_MAX
    ensures (forall seqNo: nat :: seqNo < 4096 ==> ScoreIsExact(ms, seqNo)) <==> ms < 0x200_0000_0000
  {
    if ms < TWO_41 {
      forall seqNo: nat | seqNo < SEQ_SCALE ensures ScoreIsExact(ms, seqNo) {
        BudgetIsExact(StreamId(ms, seqNo));
      }
    } else {
      PastBudgetIsInexact(ms);
    }
  }

  lemma PackedOrder(a: StreamId, b: StreamId)
    requires Before(a, b)
    ensures Packed(a) <= Packed(b)
    ensures Packed(a) == Packed(b) <==> a.ms == b.ms && a.seqNo >= SEQ_SCALE - 1
  {
  }

  /** The score never inverts the order of two entries, at any time, clamped or not. */
  lemma ScoreNeverInverts(a: StreamId, b: StreamId)
    requires Before(a, b) && a.seqNo <= INT64_MAX && b.seqNo <= INT64_MAX && Packed(b) <= INT64_MAX
    ensures StreamIdScore(a.ToText()).Some? && StreamIdScore(b.ToText()).Some?
    ensures StreamIdScore(a.ToText()).value <= StreamIdScore(b.ToText()).value
  {
    PackedOrder(a, b);
    ScoreOfId(a);
    ScoreOfId(b);
    Binary64.RoundMonotone(Packed(a), Packed(b));
  }

  /** Below 2^41 milliseconds two entries tie, and so can be misordered, exactly when they share a
      millisecond and both sequence numbers are 4095 or more. */
  lemma BudgetTiesIff(a: StreamId, b: StreamId)
    requires Before(a, b) && b.ms < TWO_41 && a.seqNo <= INT64_MAX && b.seqNo <= INT64_MAX
    ensures StreamIdScore(a.ToText()) == StreamIdScore(b.ToText())
       <==> a.ms == b.ms && a.seqNo >= 4095 && b.seqNo >= 4095
  {
    PackedOrder(a, b);
    BudgetIsExact(a);
    BudgetIsExact(b);
  }

  // ---- the index --------------------------------------------------------------------------

  datatype Owner = Owner(playerId: string, boardId: string)

  type Index = map<Owner, Zset>

  /** The key of the sorted set. */
  function KeyOfOwner(o: Owner): string {
    o.playerId + ":" + o.boardId
  }

  /** Different players or boards have different keys: an index by pairs is an index by keys. */
  lemma KeyOfOwnerInjective(o: Owner, o': Owner)
    requires ':' !in o.playerId && ':' !in o'.playerId && KeyOfOwner(o) == KeyOfOwner(o')
    ensures o == o'
  {
    CutRoundTrip(o.playerId, ':', o.boardId);
    CutRoundTrip(o'.playerId, ':', o'.boardId);
  }

  function MembersOf(index: Index, owner: Owner): Zset {
    if owner in index then index[owner] else map[]
  }

  /** One ZADD of the pipeline; no score when the id's text does not parse. */
  datatype Pointer = Pointer(owner: Owner, member: string, score: Option<int>)

  function PointerOf(e: Event): Pointer {
    Pointer(Owner(e.playerId, e.boardId), e.id.ToText(), StreamIdScore(e.id.ToText()))
  }

  function AddPointer(index: Index, p: Pointer): Index {
    match p.score
    case None => index
    case Some(score) => index[p.owner := MembersOf(index, p.owner)[p.member := score]]
  }

  function IndexEvent(index: Index, e: Event): Index {
    AddPointer(index, PointerOf(e))
  }

  function IndexOf(trace: seq<Event>): Index {
    Fold(IndexEvent, map[], trace)
  }

  predicate Indexable(e: Event) {
    StreamIdScore(e.id.ToText()).Some?
  }

  /** Only an id whose halves leave int64 has no score. */
  lemma IndexableIff(e: Event)
    ensures Indexable(e) <==> e.id.ms <= 0x7fff_ffff_ffff_ffff && e.id.seqNo <= 0x7fff_ffff_ffff_ffff
  {
    IdTextCut(e.id.ms, e.id.seqNo);
    NatTextParses(e.id.ms);
    NatTextParses(e.id.seqNo);
  }

  function PointersOf(trace: seq<Event>): (pointers: seq<Pointer>)
    ensures |pointers| == |trace|
    ensures forall i {:trigger pointers[i]} :: 0 <= i < |trace| ==> pointers[i] == PointerOf(trace[i])
  {
    seq(|trace|, i requires 0 <= i < |trace| => PointerOf(trace[i]))
  }

  /** The text is the id of one of these events of player p on board b, and has a score. */
  ghost predicate IsPointer(events: seq<Event>, p: string, b: string, member: string) {
    && StreamIdScore(member).Some?
    && exists e :: e in events && e.playerId == p && e.boardId == b && e.id.ToText() == member
  }

  /** From one index to another, the sorted set of player p on board b got this member with its id's
      score if an event sent names it, and otherwise has it as before. */
  ghost predicate Pointed(before: Index, after: Index, sent: seq<Event>, p: string, b: string, member: string) {
    var z, z' := MembersOf(before, Owner(p, b)), MembersOf(after, Owner(p, b));
    if IsPointer(sent, p, b, member) then member in z' && StreamIdScore(member) == Some(z'[member])
    else (member in z' <==> member in z) && (member in z ==> z'[member] == z[member])
  }

  lemma OnePointed(index: Index, e: Event, p: string, b: string, member: string)
    ensures Pointed(index, IndexEvent(index, e), [e], p, b, member)
  {
    hide StreamIdScore;
    assert e in [e];
  }

  lemma {:induction false} FoldPoints(index: Index, events: seq<Event>, p: string, b: string, member: string)
    ensures Pointed(index, Fold(IndexEvent, index, events), events, p, b, member)
  {
    hide StreamIdScore;
    if events != [] {
      var init, last := events[..|events| - 1], events[|events| - 1];
      FoldPoints(index, init, p, b, member);
      OnePointed(Fold(IndexEvent, index, init), last, p, b, member);
      assert events == init + [last];
      assert IsPointer(events, p, b, member) <==> IsPointer(init, p, b, member) || IsPointer([last], p, b, member);
      hide IndexEvent;
    }
  }

  /** A member of the index of a player and board is the id of an applied event of that player and
      board, and has the id's score.  Order and repetition of the applications do not matter: a
      replayed batch changes nothing. */
  lemma MemberIsApplied(trace: seq<Event>, p: string, b: string, member: string) returns (e: Event)
    requires member in MembersOf(IndexOf(trace), Owner(p, b))
    ensures e in trace && e.playerId == p && e.boardId == b && e.id.ToText() == member
    ensures StreamIdScore(member) == Some(MembersOf(IndexOf(trace), Owner(p, b))[member])
  {
    hide StreamIdScore;
    FoldPoints(map[], trace, p, b, member);
    e :| e in trace && e.playerId == p && e.boardId == b && e.id.ToText() == member;
  }

  /** And every applied event is in the index of its player and board, with its id's score. */
  lemma AppliedIsMember(trace: seq<Event>, e: Event)
    requires e in trace && StreamIdScore(e.id.ToText()).Some?
    ensures var z := MembersOf(IndexOf(trace), Owner(e.playerId, e.boardId));
            e.id.ToText() in z && StreamIdScore(e.id.ToText()) == Some(z[e.id.ToText()])
  {
    hide StreamIdScore;
    FoldPoints(map[], trace, e.playerId, e.boardId, e.id.ToText());
  }

  /** Crash safety of the view, over every consumer run: each decodable event of player p on board b
      up to the cursor whose id has a score is in their index with that score, and every member of
      the index is the id of a ledger event of theirs. */
  lemma IndexIsSound(c: Consumer, steps: seq<Step>, p: string, b: string)
    requires ConsumerOk(c) && LegalRun(c, steps)
    ensures var d := Run(c, steps);
            var z := MembersOf(IndexOf(d.trace), Owner(p, b));
            && (forall e :: e in EventsOf(Passed(d)) && e.playerId == p && e.boardId == b
                            && StreamIdScore(e.id.ToText()).Some? ==>
                  && e.id.ToText() in z
                  && StreamIdScore(e.id.ToText()) == Some(z[e.id.ToText()]))
            && (forall m :: m in z ==>
                  && StreamIdScore(m) == Some(z[m])
                  && exists e :: e in EventsOf(d.entries) && e.playerId == p && e.boardId == b && e.id.ToText() == m)
  {
    hide StreamIdScore, EntryToEvent;
    RunKeepsOk(c, steps);
    var d := Run(c, steps);
    var z := MembersOf(IndexOf(d.trace), Owner(p, b));
    forall e | e in EventsOf(Passed(d)) && e.playerId == p && e.boardId == b && StreamIdScore(e.id.ToText()).Some?
      ensures e.id.ToText() in z && StreamIdScore(e.id.ToText()) == Some(z[e.id.ToText()])
    {
      AppliedIsMember(d.trace, e);
    }
    forall m | m in z
      ensures StreamIdScore(m) == Some(z[m])
      ensures exists e :: e in EventsOf(d.entries) && e.playerId == p && e.boardId == b && e.id.ToText() == m
    {
      var e := MemberIsApplied(d.trace, p, b, m);
    }
  }

  /** The commands of a batch; none at all when one event has no score. */
  method BuildPipeline(events: seq<Event>) returns (pipe: Option<seq<Pointer>>)
    ensures pipe.None? <==> exists e :: e in events && !Indexable(e)
    ensures pipe.Some? ==> pipe.value == PointersOf(events)
  {
    hide StreamIdScore;
    var pointers: seq<Pointer> := [];
    for i := 0 to |events|
      invariant pointers == PointersOf(events[..i])
      invariant forall e :: e in events[..i] ==> Indexable(e)
    {
      var pointer := PointerOf(events[i]);
      if pointer.score.None? {
        assert !Indexable(events[i]);
        return None;
      }
      assert events[..i + 1] == events[..i] + [events[i]];
      pointers := pointers + [pointer];
    }
    assert events[..|events|] == events;
    return Some(pointers);
  }

  class PlayerHistoryStore {
    var index: Index

    constructor ()
      ensures index == map[]
    {
      index := map[];
    }

    /** Sends the first `count` commands of a pipeline. */
    method Send(pipe: seq<Pointer>, count: nat, ghost events: seq<Event>)
      requires pipe == PointersOf(events) && count <= |pipe|
      modifies this
      ensures index == Fold(IndexEvent, old(index), events[..count])
    {
      for i := 0 to count
        invariant index == Fold(IndexEvent, old(index), events[..i])
      {
        index := AddPointer(index, pipe[i]);
        FoldAppend(IndexEvent, old(index), events[..i], events[i]);
        assert events[..i + 1] == events[..i] + [events[i]];
      }
    }

    /** Builds the whole pipeline, then sends it; the send may stop after any number of its
        commands.  One event without a score fails the batch before anything is sent. */
    method ApplyPlayerHistory(events: seq<Event>, fault: Fault) returns (failed: bool)
      requires fault.NoFault? || fault.ApplyStops?
      modifies this
      ensures (exists e :: e in events && !Indexable(e)) ==> failed && index == old(index)
      ensures (forall e :: e in events ==> Indexable(e)) ==>
                var sent := if fault.ApplyStops? && fault.done < |events| then events[..fault.done] else events;
                && (failed <==> fault.ApplyStops?)
                && index == Fold(IndexEvent, old(index), sent)
                && (forall p, b, m :: Pointed(old(index), index, sent, p, b, m))
    {
      var pipe := BuildPipeline(events);
      if pipe.None? {
        return true;
      }
      var count := if fault.ApplyStops? && fault.done < |events| then fault.done else |events|;
      Send(pipe.value, count, events);
      assert events[..|events|] == events;
      forall p, b, m ensures Pointed(old(index), index, events[..count], p, b, m) {
        FoldPoints(old(index), events[..count], p, b, m);
      }
      return fault.ApplyStops?;
    }
  }

  // ---- the history page -------------------------------------------------------------------

  /** XRANGE of one id. */
  function FindEntry(entries: seq<Entry>, idText: string): (found: Option<Entry>)
    ensures found.Some? ==> found.value in entries && found.value.id.ToText() == idText
    ensures found.None? ==> forall entry :: entry in entries ==> entry.id.ToText() != idText
  {
    if entries == [] then None
    else if entries[0].id.ToText() == idText then Some(entries[0])
    else FindEntry(entries[1..], idText)
  }

  datatype HistoryResult = HistoryPage(events: seq<Event>) | BadEntry(error: DecodeError)

  /** Resolves index pointers to events; a pointer without an entry is skipped, an entry that
      does not decode fails the read. */
  function Resolve(entries: seq<Entry>, ids: seq<string>): HistoryResult {
    if ids == [] then HistoryPage([]) else
      match Resolve(entries, ids[..|ids| - 1])
      case BadEntry(error) => BadEntry(error)
      case HistoryPage(events) =>
        match FindEntry(entries, ids[|ids| - 1])
        case None => HistoryPage(events)
        case Some(entry) =>
          match EntryToEvent(entry)
          case Rejected(error) => BadEntry(error)
          case Ok(e) => HistoryPage(events + [e])
  }

  lemma {:induction false} ResolveStopsAtError(entries: seq<Entry>, ids: seq<string>, n: nat)
    requires n <= |ids| && Resolve(entries, ids[..n]).BadEntry?
    ensures Resolve(entries, ids) == Resolve(entries, ids[..n])
  {
    if n == |ids| {
      assert ids[..n] == ids;
    } else {
      assert ids[..|ids| - 1][..n] == ids[..n];
      ResolveStopsAtError(entries, ids[..|ids| - 1], n);
    }
  }

  /** The entry a pointer names is in the ledger and decodes to the event. */
  predicate LeadsTo(entries: seq<Entry>, id: string, e: Event) {
    var found := FindEntry(entries, id);
    found.Some? && EntryToEvent(found.value) == Ok(e)
  }

  /** The entry a pointer names is in the ledger and does not decode. */
  predicate LeadsNowhere(entries: seq<Entry>, id: string) {
    var found := FindEntry(entries, id);
    found.Some? && EntryToEvent(found.value).Rejected?
  }

  /** A page of pointers fails exactly when one of them names an entry that does not decode; otherwise
      it is the events of those that name an entry, and each of them if all do. */
  lemma {:induction false} ResolvedIff(entries: seq<Entry>, ids: seq<string>)
    ensures var r := Resolve(entries, ids);
            && (r.BadEntry? <==> exists i :: 0 <= i < |ids| && LeadsNowhere(entries, ids[i]))
            && (r.HistoryPage? ==>
                  && (forall e :: e in r.events <==> exists i :: 0 <= i < |ids| && LeadsTo(entries, ids[i], e))
                  && |r.events| <= |ids|
                  && (|r.events| == |ids| <==> forall i :: 0 <= i < |ids| ==> FindEntry(entries, ids[i]).Some?)
                  && (|r.events| == |ids| ==> forall i :: 0 <= i < |ids| ==> LeadsTo(entries, ids[i], r.events[i])))
  {
    hide EntryToEvent, FindEntry;
    if ids != [] {
      var n := |ids| - 1;
      ResolvedIff(entries, ids[..n]);
      assert forall i :: 0 <= i < n ==> ids[..n][i] == ids[i];
    }
  }

  function IdsOf(rows: seq<Row>): (ids: seq<string>)
    ensures |ids| == |rows|
    ensures forall i :: 0 <= i < |rows| ==> ids[i] == rows[i].playerId
  {
    seq(|rows|, i requires 0 <= i < |rows| => rows[i].playerId)
  }

  /** The newest `limit` pointers of the index. */
  ghost function NewestIds(z: Zset, limit: int): seq<string> {
    if limit <= 0 then [] else IdsOf(Ranked(z)[..if limit < |z| then limit else |z|])
  }

  /** Fetches each pointed-to entry and decodes it. */
  method FetchEvents(entries: seq<Entry>, ids: seq<string>) returns (r: HistoryResult)
    ensures r == Resolve(entries, ids)
  {
    var events: seq<Event> := [];
    for i := 0 to |ids|
      invariant Resolve(entries, ids[..i]) == HistoryPage(events)
    {
      assert ids[..i + 1][..i] == ids[..i];
      var found := FindEntry(entries, ids[i]);
      if found.Some? {
        var decoded := EntryToEvent(found.value);
        if decoded.Rejected? {
          ResolveStopsAtError(entries, ids, i + 1);
          return BadEntry(decoded.error);
        }
        events := events + [decoded.event];
      }
    }
    assert ids[..|ids|] == ids;
    return HistoryPage(events);
  }

  /** Reads a page of entry ids from the player's index, newest first, then fetches them. */
  method PlayerHistory(entries: seq<Entry>, index: Index, playerId: string, boardId: string, limit: int)
    returns (r: HistoryResult)
    ensures r == Resolve(entries, NewestIds(MembersOf(index, Owner(playerId, boardId)), limit))
  {
    if limit <= 0 {
      return HistoryPage([]);
    }
    var z := MembersOf(index, Owner(playerId, boardId));
    var rows := ZRevRange(z, 0, limit - 1);
    assert rows == Ranked(z)[..if limit < |z| then limit else |z|];
    var ids := IdsOf(rows);
    if |ids| == 0 {
      return HistoryPage([]);
    }
    r := FetchEvents(entries, ids);
  }

  // ---- the page is a ledger scan ----------------------------------------------------------

  function OwnEvents(events: seq<Event>, p: string, b: string): seq<Event> {
    if events == [] then [] else
      var rest := OwnEvents(events[..|events| - 1], p, b);
      var e := events[|events| - 1];
      if e.playerId == p && e.boardId == b then rest + [e] else rest
  }

  /** The newest min(limit, n) of a player's events on a board, newest first. */
  function NewestOwn(events: seq<Event>, p: string, b: string, limit: int): seq<Event> {
    if limit <= 0 then [] else First(Reverse(OwnEvents(events, p, b)), limit)
  }

  lemma {:induction false} OwnEventsMember(events: seq<Event>, p: string, b: string, e: Event)
    ensures e in OwnEvents(events, p, b) <==> e in events && e.playerId == p && e.boardId == b
  {
    if events != [] {
      var init, last := events[..|events| - 1], events[|events| - 1];
      OwnEventsMember(init, p, b, e);
      assert events == init + [last];
    }
  }

  predicate OldestFirst(events: seq<Event>) {
    forall i, j :: 0 <= i < j < |events| ==> Before(events[i].id, events[j].id)
  }

  lemma {:induction false} OwnEventsOrdered(events: seq<Event>, p: string, b: string)
    requires Increasing(EventIds(events))
    ensures OldestFirst(OwnEvents(events, p, b))
  {
    if events != [] {
      var n, ids := |events| - 1, EventIds(events);
      var init := events[..n];
      assert EventIds(init) == ids[..n];
      OwnEventsOrdered(init, p, b);
      var own := OwnEvents(init, p, b);
      forall i | 0 <= i < |own| ensures Before(own[i].id, events[n].id) {
        OwnEventsMember(init, p, b, own[i]);
        var k :| 0 <= k < n && init[k] == own[i];
        assert Before(ids[k], ids[n]);
      }
    }
  }

  lemma OwnEventsMembers(events: seq<Event>, p: string, b: string)
    ensures forall e :: e in OwnEvents(events, p, b) ==> e in events && e.playerId == p && e.boardId == b
    ensures forall e :: e in events && e.playerId == p && e.boardId == b ==> e in OwnEvents(events, p, b)
  {
    forall e: Event ensures e in OwnEvents(events, p, b) <==> e in events && e.playerId == p && e.boardId == b {
      OwnEventsMember(events, p, b, e);
    }
  }

  /** The newest min(limit, n) of the n ledger events of player p on board b, newest first. */
  ghost predicate IsNewestPage(page: seq<Event>, ledger: seq<Event>, p: string, b: string, limit: int) {
    && |page| <= (if limit > 0 then limit else 0)
    && (forall i, j :: 0 <= i < j < |page| ==> Before(page[j].id, page[i].id))
    && (forall e :: e in page ==> e in ledger && e.playerId == p && e.boardId == b)
    && (forall e :: e in ledger && e.playerId == p && e.boardId == b && e !in page ==>
          |page| >= limit && forall i :: 0 <= i < |page| ==> Before(e.id, page[i].id))
  }

  /** The first of a list read backwards are its last ones. */
  lemma FirstOfReverse(own: seq<Event>, k: nat)
    requires OldestFirst(own)
    ensures var page := First(Reverse(own), k);
            && (forall i, j :: 0 <= i < j < |page| ==> Before(page[j].id, page[i].id))
            && (forall e :: e in page ==> e in own)
            && (forall e :: e in own && e !in page ==>
                  |page| >= k && forall i :: 0 <= i < |page| ==> Before(e.id, page[i].id))
  {
    var page := First(Reverse(own), k);
    forall i | 0 <= i < |page| ensures page[i] == own[|own| - 1 - i] {
    }
    forall e | e in own && e !in page
      ensures |page| >= k && forall i :: 0 <= i < |page| ==> Before(e.id, page[i].id)
    {
      var j :| 0 <= j < |own| && own[j] == e;
      assert Reverse(own)[|own| - 1 - j] == e && page == Reverse(own)[..|page|];
    }
  }

  lemma NewestOwnIsNewest(ledger: seq<Event>, p: string, b: string, limit: int)
    requires Increasing(EventIds(ledger))
    ensures IsNewestPage(NewestOwn(ledger, p, b, limit), ledger, p, b, limit)
  {
    OwnEventsOrdered(ledger, p, b);
    OwnEventsMembers(ledger, p, b);
    FirstOfReverse(OwnEvents(ledger, p, b), if limit > 0 then limit else 0);
    hide OwnEvents, Before;
  }

  /** The index row of an event. */
  function RowOf(e: Event): Row {
    Row(e.id.ToText(), Binary64.Round(Packed(e.id)))
  }

  function RowsOf(events: seq<Event>): (rows: seq<Row>)
    ensures |rows| == |events|
    ensures forall i :: 0 <= i < |events| ==> rows[i] == RowOf(events[i])
  {
    seq(|events|, i requires 0 <= i < |events| => RowOf(events[i]))
  }

  ghost predicate AllInBudget(events: seq<Event>) {
    forall e :: e in events ==> InBudget(e.id)
  }

  /** Ids whose packed value fits int64: all that Redis issues for some 70 000 years. */
  ghost predicate AllStorable(events: seq<Event>) {
    forall e :: e in events ==> e.id.seqNo <= INT64_MAX && Packed(e.id) <= INT64_MAX
  }

  /** Where two ids have equal scores, their texts are in the order of the ids. */
  predicate TiesKeepOrder(events: seq<Event>) {
    forall i, j :: 0 <= i < j < |events| && RowOf(events[i]).score == RowOf(events[j]).score ==>
      Less(RowOf(events[i]).playerId, RowOf(events[j]).playerId)
  }

  lemma RowsOfMember(events: seq<Event>, r: Row)
    ensures r in RowsOf(Reverse(events)) <==> exists e :: e in events && RowOf(e) == r
  {
    hide RowOf;
    var rows, n := RowsOf(Reverse(events)), |events|;
    if r in rows {
      var i :| 0 <= i < n && rows[i] == r;
      assert events[n - 1 - i] in events;
    }
    if e :| e in events && RowOf(e) == r {
      var i :| 0 <= i < n && events[i] == e;
      assert rows[n - 1 - i] == r;
    }
  }

  lemma ScoresInOrder(a: Event, b: Event)
    requires Before(a.id, b.id)
    ensures RowOf(a).score <= RowOf(b).score
    ensures InBudget(a.id) && InBudget(b.id) ==> RowOf(a).score < RowOf(b).score
  {
    PackedOrder(a.id, b.id);
    Binary64.RoundMonotone(Packed(a.id), Packed(b.id));
    if InBudget(a.id) && InBudget(b.id) {
      Binary64.SmallIsExact(Packed(a.id));
      Binary64.SmallIsExact(Packed(b.id));
    }
  }

  /** In the budget there are no ties. */
  lemma BudgetKeepsOrder(own: seq<Event>)
    requires OldestFirst(own) && AllInBudget(own)
    ensures TiesKeepOrder(own) && AllStorable(own)
  {
    hide RowOf;
    forall i, j | 0 <= i < j < |own| ensures RowOf(own[i]).score < RowOf(own[j]).score {
      assert own[i] in own && own[j] in own;
      ScoresInOrder(own[i], own[j]);
    }
  }

  /** The rows of a player's events, newest first, are in leaderboard order exactly when ties keep the
      order of the ids. */
  lemma NewestFirstIsSortedIff(own: seq<Event>)
    requires OldestFirst(own)
    ensures Sorted(RowsOf(Reverse(own))) <==> TiesKeepOrder(own)
  {
    hide RowOf;
    var rows, n := RowsOf(Reverse(own)), |own|;
    forall i, j | 0 <= i < j < n
      ensures Above(RowOf(own[j]), RowOf(own[i])) <==>
              (RowOf(own[i]).score == RowOf(own[j]).score ==> Less(RowOf(own[i]).playerId, RowOf(own[j]).playerId))
    {
      ScoresInOrder(own[i], own[j]);
    }
    forall i | 0 <= i < n ensures rows[i] == RowOf(own[n - 1 - i]) {
    }
    if Sorted(rows) {
      forall i, j | 0 <= i < j < n ensures Above(RowOf(own[j]), RowOf(own[i])) {
        assert Above(rows[n - 1 - j], rows[n - 1 - i]);
      }
    }
  }

  /** A storable event's row is the only one its id has in the index. */
  lemma RowIsIndexed(trace: seq<Event>, e: Event)
    requires e in trace && e.id.seqNo <= INT64_MAX && Packed(e.id) <= INT64_MAX
    ensures var z := MembersOf(IndexOf(trace), Owner(e.playerId, e.boardId));
            RowOf(e).playerId in z && z[RowOf(e).playerId] == RowOf(e).score
  {
    ScoreOfId(e.id);
    AppliedIsMember(trace, e);
  }

  lemma IndexedIsRow(trace: seq<Event>, p: string, b: string, r: Row)
    requires forall e :: e in trace && e.playerId == p && e.boardId == b ==>
               e.id.seqNo <= INT64_MAX && Packed(e.id) <= INT64_MAX
    requires var z := MembersOf(IndexOf(trace), Owner(p, b)); r.playerId in z && z[r.playerId] == r.score
    ensures exists e :: e in trace && e.playerId == p && e.boardId == b && RowOf(e) == r
  {
    var e := MemberIsApplied(trace, p, b, r.playerId);
    ScoreOfId(e.id);
    assert RowOf(e) == r;
  }

  /** With the whole ledger applied, the index of a player and board has exactly the rows of that
      player's own events. */
  lemma IndexHasOwnRows(trace: seq<Event>, events: seq<Event>, p: string, b: string, r: Row)
    requires AllStorable(OwnEvents(events, p, b)) && forall e :: e in trace <==> e in events
    ensures var z := MembersOf(IndexOf(trace), Owner(p, b));
            r in RowsOf(Reverse(OwnEvents(events, p, b))) <==> r.playerId in z && z[r.playerId] == r.score
  {
    OwnEventsMembers(events, p, b);
    var own, z := OwnEvents(events, p, b), MembersOf(IndexOf(trace), Owner(p, b));
    RowsOfMember(own, r);
    if r in RowsOf(Reverse(own)) {
      var e :| e in own && RowOf(e) == r;
      RowIsIndexed(trace, e);
    }
    if r.playerId in z && z[r.playerId] == r.score {
      IndexedIsRow(trace, p, b, r);
    }
  }

  /** Read newest first it is their reverse ledger order if and only if ties keep the order. */
  lemma IndexRanksNewestFirstIff(trace: seq<Event>, events: seq<Event>, p: string, b: string)
    requires Increasing(EventIds(events)) && AllStorable(OwnEvents(events, p, b))
    requires forall e :: e in trace <==> e in events
    ensures Ranked(MembersOf(IndexOf(trace), Owner(p, b))) == RowsOf(Reverse(OwnEvents(events, p, b)))
       <==> TiesKeepOrder(OwnEvents(events, p, b))
  {
    OwnEventsOrdered(events, p, b);
    var own, z := OwnEvents(events, p, b), MembersOf(IndexOf(trace), Owner(p, b));
    var rows := RowsOf(Reverse(own));
    NewestFirstIsSortedIff(own);
    forall r: Row ensures r in rows <==> r.playerId in z && z[r.playerId] == r.score {
      IndexHasOwnRows(trace, events, p, b, r);
    }
    hide OwnEvents, MembersOf, IndexOf, TiesKeepOrder, RowOf, AllStorable;
    if Sorted(rows) {
      RankingIsRanked(rows, z);
    }
  }

  lemma LaterHasOtherText(events: seq<Event>, i: nat)
    requires Increasing(EventIds(events)) && 0 < i < |events|
    ensures events[0].id.ToText() != events[i].id.ToText()
  {
    var a, b := EventIds(events)[0], EventIds(events)[i];
    assert Before(a, b);
    if a.ToText() == b.ToText() {
      IdTextInjective(a.ms, a.seqNo, b.ms, b.seqNo);
    }
  }

  lemma {:induction false} FindEntryOfEncoded(events: seq<Event>, i: nat)
    requires Increasing(EventIds(events)) && i < |events|
    ensures FindEntry(Encode(events), events[i].id.ToText()) == Some(EventToEntry(events[i]))
  {
    if i > 0 {
      LaterHasOtherText(events, i);
      assert Encode(events)[1..] == Encode(events[1..]);
      assert EventIds(events[1..]) == EventIds(events)[1..];
      FindEntryOfEncoded(events[1..], i - 1);
    }
  }

  lemma PointerLeadsBack(events: seq<Event>, e: Event)
    requires Increasing(EventIds(events)) && e in events && ValidEvent(e)
    ensures LeadsTo(Encode(events), e.id.ToText(), e)
  {
    var i :| 0 <= i < |events| && events[i] == e;
    FindEntryOfEncoded(events, i);
    EntryRoundTrip(e);
  }

  lemma {:induction false} ResolveAll(entries: seq<Entry>, wanted: seq<Event>)
    requires forall e :: e in wanted ==> LeadsTo(entries, e.id.ToText(), e)
    ensures Resolve(entries, IdsOf(RowsOf(wanted))) == HistoryPage(wanted)
  {
    if wanted != [] {
      var n := |wanted| - 1;
      ResolveAll(entries, wanted[..n]);
      assert IdsOf(RowsOf(wanted))[..n] == IdsOf(RowsOf(wanted[..n]));
      assert LeadsTo(entries, wanted[n].id.ToText(), wanted[n]);
      assert wanted[..n] + [wanted[n]] == wanted;
    }
  }

  lemma NewestAreOwn(own: seq<Event>, k: nat)
    requires k <= |own|
    ensures forall e :: e in Reverse(own)[..k] ==> e in own
    ensures IdsOf(RowsOf(Reverse(own))[..k]) == IdsOf(RowsOf(Reverse(own)[..k]))
  {
  }

  lemma OwnLeadBack(db: Db, p: string, b: string)
    requires LedgerOk(db)
    ensures forall e :: e in OwnEvents(db.ledger, p, b) ==> LeadsTo(Encode(db.ledger), e.id.ToText(), e)
  {
    forall e | e in OwnEvents(db.ledger, p, b) ensures LeadsTo(Encode(db.ledger), e.id.ToText(), e) {
      OwnEventsMember(db.ledger, p, b, e);
      PointerLeadsBack(db.ledger, e);
    }
  }

  /** The history page refines a ledger scan: with the index up to date and ties among the player's own
      ids in order, the page is exactly the newest min(limit, n) events of that player and board,
      newest first, none skipped. */
  lemma HistoryIsLedgerScan(trace: seq<Event>, db: Db, p: string, b: string, limit: int)
    requires LedgerOk(db) && forall e :: e in trace <==> e in db.ledger
    requires AllStorable(OwnEvents(db.ledger, p, b)) && TiesKeepOrder(OwnEvents(db.ledger, p, b))
    ensures Resolve(Encode(db.ledger), NewestIds(MembersOf(IndexOf(trace), Owner(p, b)), limit))
         == HistoryPage(NewestOwn(db.ledger, p, b, limit))
    ensures IsNewestPage(NewestOwn(db.ledger, p, b, limit), db.ledger, p, b, limit)
  {
    NewestOwnIsNewest(db.ledger, p, b, limit);
    if limit > 0 {
      IndexRanksNewestFirstIff(trace, db.ledger, p, b);
      OwnLeadBack(db, p, b);
      var own := OwnEvents(db.ledger, p, b);
      var k := if limit < |own| then limit else |own|;
      hide TiesKeepOrder, RowOf, LeadsTo, AllStorable;
      NewestAreOwn(own, k);
      ResolveAll(Encode(db.ledger), Reverse(own)[..k]);
    }
  }

  lemma {:induction false} EventsOfRows(rows: seq<Row>, own: seq<Event>) returns (events: seq<Event>)
    requires forall r :: r in rows ==> exists e :: e in own && RowOf(e) == r
    ensures RowsOf(events) == rows && forall e :: e in events ==> e in own
  {
    if rows == [] {
      events := [];
    } else {
      var n := |rows| - 1;
      assert rows[n] in rows;
      var last :| last in own && RowOf(last) == rows[n];
      forall r | r in rows[..n] ensures exists e :: e in own && RowOf(e) == r {
        assert r in rows;
      }
      var init := EventsOfRows(rows[..n], own);
      events := init + [last];
      assert rows == rows[..n] + [rows[n]];
    }
  }

  /** A page long enough for the whole index shows its events in index order. */
  lemma WholePageIsIndex(trace: seq<Event>, db: Db, p: string, b: string, limit: int) returns (events: seq<Event>)
    requires LedgerOk(db) && forall e :: e in trace <==> e in db.ledger
    requires AllStorable(OwnEvents(db.ledger, p, b))
    requires limit > |MembersOf(IndexOf(trace), Owner(p, b))|
    ensures RowsOf(events) == Ranked(MembersOf(IndexOf(trace), Owner(p, b)))
    ensures Resolve(Encode(db.ledger), NewestIds(MembersOf(IndexOf(trace), Owner(p, b)), limit)) == HistoryPage(events)
  {
    var z, own := MembersOf(IndexOf(trace), Owner(p, b)), OwnEvents(db.ledger, p, b);
    OwnLeadBack(db, p, b);
    forall r | r in Ranked(z) ensures exists e :: e in own && RowOf(e) == r {
      IndexHasOwnRows(trace, db.ledger, p, b, r);
      RowsOfMember(own, r);
    }
    hide RowOf, LeadsTo, MembersOf, IndexOf, OwnEvents, AllStorable;
    events := EventsOfRows(Ranked(z), own);
    ResolveAll(Encode(db.ledger), events);
    assert Ranked(z)[..|z|] == Ranked(z);
  }

  /** And ties in order are exactly what it takes: all pages of a player's history are the ledger scan
      if and only if no two of the player's events have equal scores with the later text below the
      earlier. */
  lemma HistoryIsLedgerScanIff(trace: seq<Event>, db: Db, p: string, b: string)
    requires LedgerOk(db) && forall e :: e in trace <==> e in db.ledger
    requires AllStorable(OwnEvents(db.ledger, p, b))
    ensures (forall limit: int ::
               Resolve(Encode(db.ledger), NewestIds(MembersOf(IndexOf(trace), Owner(p, b)), limit))
               == HistoryPage(NewestOwn(db.ledger, p, b, limit)))
       <==> TiesKeepOrder(OwnEvents(db.ledger, p, b))
  {
    var z, own := MembersOf(IndexOf(trace), Owner(p, b)), OwnEvents(db.ledger, p, b);
    if TiesKeepOrder(own) {
      forall limit: int
        ensures Resolve(Encode(db.ledger), NewestIds(z, limit)) == HistoryPage(NewestOwn(db.ledger, p, b, limit))
      {
        HistoryIsLedgerScan(trace, db, p, b, limit);
      }
    } else {
      var limit := |z| + |own| + 1;
      IndexRanksNewestFirstIff(trace, db.ledger, p, b);
      var events := WholePageIsIndex(trace, db, p, b, limit);
      hide TiesKeepOrder, RowOf, MembersOf, IndexOf, OwnEvents, AllStorable, Resolve, NewestIds;
      assert NewestOwn(db.ledger, p, b, limit) == Reverse(own);
      assert events != Reverse(own);
    }
  }

  // ---- the history consumer ---------------------------------------------------------------

  /** A batch ApplyPlayerHistory refuses: an event in it has no score. */
  ghost predicate Refused(batch: seq<Entry>) {
    exists e :: e in EventsOf(batch) && !Indexable(e)
  }

  /** One round of the history consumer: a refused batch fails before anything is sent, and the cursor
      stays. */
  ghost function HistoryRound(c: Consumer, fault: Fault): Consumer {
    if Refused(NextBatch(c.entries, c.cursor)) then c else Round(c, fault)
  }

  ghost function HistoryRounds(c: Consumer, k: nat): Consumer {
    if k == 0 then c else HistoryRound(HistoryRounds(c, k - 1), NoFault)
  }

  /** A refused batch wedges the consumer for good, whatever is appended and however often it retries:
      every later round leaves cursor and view as they are. */
  lemma RefusedForGood(c: Consumer, entries: seq<Entry>, fault: Fault)
    requires Refused(NextBatch(c.entries, c.cursor))
    requires c.entries <= entries && Position(entries, c.cursor) == Position(c.entries, c.cursor)
    ensures HistoryRound(c.(entries := entries), fault) == c.(entries := entries)
  {
    hide EntryToEvent, Indexable;
    var batch, later := NextBatch(c.entries, c.cursor), NextBatch(entries, c.cursor);
    assert later == batch + later[|batch|..];
    EventsOfConcat(batch, later[|batch|..]);
    var e :| e in EventsOf(batch) && !Indexable(e);
    assert e in EventsOf(later);
  }

  /** Without such ids, Redis's own among them, the history consumer runs as any other. */
  lemma {:induction false} RoundsAreNotRefused(c: Consumer, k: nat)
    requires ConsumerOk(c) && c.phase.Idle? && forall e :: e in EventsOf(c.entries) ==> Indexable(e)
    ensures HistoryRounds(c, k) == Rounds(c, k)
  {
    hide EventsOf, Indexable, NextBatch, Round, ConsumerOk, Unread;
    if k > 0 {
      RoundsAreNotRefused(c, k - 1);
      RoundsProgress(c, k - 1);
      BatchEventsAreDecoded(Rounds(c, k - 1));
    }
  }

  lemma BatchEventsAreDecoded(d: Consumer)
    ensures forall e :: e in EventsOf(NextBatch(d.entries, d.cursor)) ==> e in EventsOf(d.entries)
  {
    hide EntryToEvent;
    var n := Position(d.entries, d.cursor);
    var m := n + |NextBatch(d.entries, d.cursor)|;
    assert d.entries == d.entries[..n] + d.entries[n..m] + d.entries[m..];
    EventsOfConcat(d.entries[..n] + d.entries[n..m], d.entries[m..]);
    EventsOfConcat(d.entries[..n], d.entries[n..m]);
  }

  /** End to end: whatever crashes the consumer went through before, after enough successful rounds
      without new writes every history page of a player whose ties keep order is the ledger scan. */
  lemma HistoryCatchesUp(c: Consumer, db: Db, k: nat, p: string, b: string, limit: int)
    requires ConsumerOk(c) && c.phase.Idle? && Unread(c) <= k * BATCH_COUNT
    requires LedgerOk(db) && c.entries == Encode(db.ledger)
    requires AllStorable(OwnEvents(db.ledger, p, b)) && TiesKeepOrder(OwnEvents(db.ledger, p, b))
    requires forall e :: e in db.ledger ==> Indexable(e)
    ensures Resolve(Encode(db.ledger), NewestIds(MembersOf(IndexOf(HistoryRounds(c, k).trace), Owner(p, b)), limit))
         == HistoryPage(NewestOwn(db.ledger, p, b, limit))
    ensures IsNewestPage(NewestOwn(db.ledger, p, b, limit), db.ledger, p, b, limit)
  {
    EncodedAllDecode(db.ledger);
    RoundsAreNotRefused(c, k);
    RoundsDrain(c, k);
    HistoryIsLedgerScan(Rounds(c, k).trace, db, p, b, limit);
  }
}
