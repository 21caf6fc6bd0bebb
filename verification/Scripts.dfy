/** The four Lua scripts as atomic steps over a typed database: ledger, boards, profiles, live
    projections and idempotency records. */
module Scripts {
  import opened Text
  import opened Ledger
  import opened Replay
  import Binary64

  datatype Lifecycle = Active | Closed

  /** Identity of a score idempotency record. */
  datatype Key = Key(boardId: string, playerId: string, key: string)

  /** Fingerprint of an applied score write. */
  datatype Rec = Rec(id: StreamId, op: Op, amount: int)

  datatype Profile = Profile(name: string, createdAt: string)

  datatype Creation = Creation(playerId: string, name: string)

  datatype Db = Db(
    ledger: seq<Event>,
    boards: map<string, Lifecycle>,
    profiles: map<string, Profile>,
    live: map<string, Zset>,
    records: map<Key, Rec>,
    creations: map<string, Creation>)

  const EMPTY := Db([], map[], map[], map[], map[], map[])

  /** A missing key reads as an empty sorted set. */
  function LiveOf(db: Db, boardId: string): Zset {
    if boardId in db.live then db.live[boardId] else map[]
  }

  // ---- score writes -----------------------------------------------------------------------

  datatype Write = Write(
    op: Op, playerId: string, boardId: string, amount: int, requestId: string, key: string)

  /** What the HTTP handlers establish before a write reaches the script. */
  predicate Accepted(w: Write) {
    Clean(w.playerId) && Clean(w.boardId) && InRange(w.amount) && w.requestId != ""
  }

  datatype Outcome =
    | Applied(id: StreamId)
    | Deduped(id: StreamId)
    | PlayerNotFound
    | BoardNotFound
    | BoardClosed
    | KeyConflict
    | ScoreOutOfRange

  function KeyOf(w: Write): Key {
    Key(w.boardId, w.playerId, w.key)
  }

  predicate SameFingerprint(r: Rec, w: Write) {
    r.op == w.op && r.amount == w.amount
  }

  /** The score the script bounds before it writes anything. */
  function Resulting(db: Db, w: Write): int {
    Binary64.Add(
      if w.op.Set? then 0 else ScoreOf(LiveOf(db, w.boardId), w.playerId),
      Binary64.Round(w.amount))
  }

  function NewEvent(db: Db, w: Write, now: nat): Event {
    Event(NextId(LastId(EventIds(db.ledger)), now), w.op, w.playerId, w.boardId, w.amount, w.requestId)
  }

  function ScoreOutcome(db: Db, w: Write, now: nat): Outcome {
    if w.key != "" && KeyOf(w) in db.records then
      if SameFingerprint(db.records[KeyOf(w)], w) then Deduped(db.records[KeyOf(w)].id) else KeyConflict
    else if w.playerId !in db.profiles then PlayerNotFound
    else if w.boardId !in db.boards then BoardNotFound
    else if db.boards[w.boardId].Closed? then BoardClosed
    else if !InRange(Resulting(db, w)) then ScoreOutOfRange
    else Applied(NewEvent(db, w, now).id)
  }

  /** Only an applied write changes the database: it moves the projection, the ledger and, when
      the client sent a key, the record together. */
  function ApplyScore(db: Db, w: Write, now: nat): Db {
    if !ScoreOutcome(db, w, now).Applied? then db else
      var e := NewEvent(db, w, now);
      db.(
        live := db.live[w.boardId := Command(LiveOf(db, w.boardId), e)],
        ledger := db.ledger + [e],
        records := if w.key == "" then db.records else db.records[KeyOf(w) := Rec(e.id, w.op, w.amount)])
  }

  // ---- player creation --------------------------------------------------------------------

  datatype CreateOutcome = Created(playerId: string) | Existing(playerId: string) | IdTaken | NameConflict

  function CreateOutcomeOf(db: Db, name: string, candidate: string, key: string): CreateOutcome {
    if key != "" && key in db.creations then
      if db.creations[key].name == name then Existing(db.creations[key].playerId) else NameConflict
    else if candidate in db.profiles then IdTaken
    else Created(candidate)
  }

  function CreatePlayer(db: Db, name: string, createdAt: string, candidate: string, key: string): Db {
    if !CreateOutcomeOf(db, name, candidate, key).Created? then db else
      db.(
        profiles := db.profiles[candidate := Profile(name, createdAt)],
        creations := if key == "" then db.creations else db.creations[key := Creation(candidate, name)])
  }

  // ---- boards -----------------------------------------------------------------------------

  function CreateBoard(db: Db, boardId: string, state: Lifecycle): Db {
    if boardId in db.boards then db else db.(boards := db.boards[boardId := state])
  }

  function SetBoardState(db: Db, boardId: string, state: Lifecycle): Db {
    if boardId !in db.boards then db else db.(boards := db.boards[boardId := state])
  }

  // ---- record expiry ----------------------------------------------------------------------

  function ExpireRecord(db: Db, k: Key): Db {
    db.(records := db.records - {k})
  }

  function ExpireCreation(db: Db, key: string): Db {
    db.(creations := db.creations - {key})
  }

  // ---- invariants of the database ---------------------------------------------------------

  /** The ledger holds facts: valid events with increasing ids, about players and boards that
      exist. */
  ghost predicate LedgerOk(db: Db) {
    && Increasing(EventIds(db.ledger))
    && forall i :: 0 <= i < |db.ledger| ==>
         && ValidEvent(db.ledger[i])
         && db.ledger[i].playerId in db.profiles
         && db.ledger[i].boardId in db.boards
  }

  /** Every board's events replay in range, at every prefix. */
  ghost predicate RangeOk(db: Db) {
    forall b: string :: BoardInRange(BoardEvents(db.ledger, b))
  }

  /** Event i is the one the record under k fingerprints. */
  predicate Names(ledger: seq<Event>, i: nat, k: Key, r: Rec)
    requires i < |ledger|
  {
    var e := ledger[i];
    e.id == r.id && e.boardId == k.boardId && e.playerId == k.playerId && e.op == r.op && e.amount == r.amount
  }

  /** The record under k names an existing ledger event with its fingerprint. */
  ghost predicate RecordOk(db: Db, k: Key)
    requires k in db.records
  {
    && Clean(k.boardId) && Clean(k.playerId) && k.key != "" && InRange(db.records[k].amount)
    && exists i: nat :: i < |db.ledger| && Names(db.ledger, i, k, db.records[k])
  }

  /** Different records name different events. */
  ghost predicate RecordsDistinct(db: Db) {
    forall k, l :: k in db.records && l in db.records && db.records[k].id == db.records[l].id ==> k == l
  }

  ghost predicate RecordsOk(db: Db) {
    RecordsDistinct(db) && forall k :: k in db.records ==> RecordOk(db, k)
  }

  ghost predicate CreationsOk(db: Db) {
    && (forall p :: p in db.profiles ==> Clean(p))
    && (forall k :: k in db.creations ==>
          var c := db.creations[k];
          k != "" && c.playerId in db.profiles && db.profiles[c.playerId].name == c.name)
    && (forall k, l ::
          k in db.creations && l in db.creations && db.creations[k].playerId == db.creations[l].playerId ==> k == l)
  }

  /** What holds of ledger, records and profiles whatever happens to the projections. */
  ghost predicate FactsOk(db: Db) {
    LedgerOk(db) && RecordsOk(db) && CreationsOk(db)
  }

  ghost predicate DbOk(db: Db) {
    FactsOk(db) && RangeOk(db)
  }

  lemma EmptyIsOk()
    ensures DbOk(EMPTY)
  {
  }

  // ---- what one applied write does --------------------------------------------------------

  /** The script's bound is on the true sum: its double arithmetic is exact. */
  lemma ResultingIsExact(db: Db, w: Write)
    requires Accepted(w) && AllInRange(LiveOf(db, w.boardId))
    ensures Resulting(db, w)
         == (if w.op.Set? then 0 else ScoreOf(LiveOf(db, w.boardId), w.playerId)) + w.amount
  {
    var current := if w.op.Set? then 0 else ScoreOf(LiveOf(db, w.boardId), w.playerId);
    assert InRange(current);
    Binary64.SmallIsExact(w.amount);
    Binary64.SmallIsExact(current + w.amount);
  }

  /** With the live projection equal to the replay, the accepted event moves both to the same
      new content, and the board stays in range. */
  lemma AppliedMovesTogether(db: Db, w: Write, now: nat)
    requires BoardInRange(BoardEvents(db.ledger, w.boardId)) && Accepted(w)
    requires LiveOf(db, w.boardId) == BoardReplay(db.ledger, w.boardId)
    requires ScoreOutcome(db, w, now).Applied?
    ensures var db' := ApplyScore(db, w, now);
            && LiveOf(db', w.boardId) == BoardReplay(db'.ledger, w.boardId)
            && BoardInRange(BoardEvents(db'.ledger, w.boardId))
  {
    hide Binary64.Round, Binary64.Add;
    var e, events := NewEvent(db, w, now), BoardEvents(db.ledger, w.boardId);
    ReplayIsInRange(events);
    ResultingIsExact(db, w);
    CommandIsExact(ReplayAll(events), e);
    BoardEventsAppend(db.ledger, e, w.boardId);
    RangeAfterIff(events, e);
    hide BoardInRange, AllInRange;
    ReplayAppend(map[], events, e);
  }

  lemma AppliedKeepsLedgerOk(db: Db, w: Write, now: nat)
    requires LedgerOk(db) && Accepted(w) && ScoreOutcome(db, w, now).Applied?
    ensures LedgerOk(ApplyScore(db, w, now))
  {
    var e := NewEvent(db, w, now);
    AppendKeepsIncreasing(EventIds(db.ledger), now);
    assert EventIds(db.ledger + [e]) == EventIds(db.ledger) + [e.id];
  }

  lemma AppliedKeepsRangeOk(db: Db, w: Write, now: nat)
    requires RangeOk(db) && Accepted(w) && ScoreOutcome(db, w, now).Applied?
    requires LiveOf(db, w.boardId) == BoardReplay(db.ledger, w.boardId)
    ensures RangeOk(ApplyScore(db, w, now))
  {
    AppliedMovesTogether(db, w, now);
    hide BoardInRange;
    forall b: string ensures BoardInRange(BoardEvents(ApplyScore(db, w, now).ledger, b)) {
      BoardEventsAppend(db.ledger, NewEvent(db, w, now), b);
      assert BoardInRange(BoardEvents(db.ledger, b));
    }
  }

  /** A recorded entry is in the ledger, so no newly issued id equals it. */
  lemma RecordedBefore(db: Db, k: Key, id: StreamId)
    requires LedgerOk(db) && RecordsOk(db) && k in db.records
    requires Before(LastId(EventIds(db.ledger)), id)
    ensures db.records[k].id != id
  {
    assert RecordOk(db, k);
    var i: nat :| i < |db.ledger| && Names(db.ledger, i, k, db.records[k]);
    var ids := EventIds(db.ledger);
    assert ids[i] == db.records[k].id;
    assert i == |ids| - 1 || Before(ids[i], ids[|ids| - 1]);
  }

  lemma AppliedKeepsRecordOk(db: Db, w: Write, now: nat, k: Key)
    requires RecordsOk(db) && Accepted(w) && ScoreOutcome(db, w, now).Applied?
    requires k in ApplyScore(db, w, now).records
    ensures RecordOk(ApplyScore(db, w, now), k)
  {
    var db' := ApplyScore(db, w, now);
    if k == KeyOf(w) && w.key != "" {
      assert Names(db'.ledger, |db.ledger|, k, db'.records[k]);
    } else {
      assert RecordOk(db, k);
      var i: nat :| i < |db.ledger| && Names(db.ledger, i, k, db.records[k]);
      assert Names(db'.ledger, i, k, db'.records[k]);
    }
  }

  lemma AppliedKeepsDistinct(db: Db, w: Write, now: nat)
    requires RecordsDistinct(db) && ScoreOutcome(db, w, now).Applied?
    requires forall k :: k in db.records ==> db.records[k].id != NewEvent(db, w, now).id
    ensures RecordsDistinct(ApplyScore(db, w, now))
  {
  }

  lemma AppliedKeepsRecordsOk(db: Db, w: Write, now: nat)
    requires LedgerOk(db) && RecordsOk(db) && Accepted(w) && ScoreOutcome(db, w, now).Applied?
    ensures RecordsOk(ApplyScore(db, w, now))
  {
    forall k | k in ApplyScore(db, w, now).records ensures RecordOk(ApplyScore(db, w, now), k) {
      AppliedKeepsRecordOk(db, w, now, k);
    }
    forall k | k in db.records ensures db.records[k].id != NewEvent(db, w, now).id {
      RecordedBefore(db, k, NewEvent(db, w, now).id);
    }
    AppliedKeepsDistinct(db, w, now);
  }

  /** Every score write keeps ledger, record and creation invariants, whatever state the projections
      are in. */
  lemma ScoreWriteKeepsFacts(db: Db, w: Write, now: nat)
    requires FactsOk(db) && Accepted(w)
    ensures FactsOk(ApplyScore(db, w, now))
  {
    if ScoreOutcome(db, w, now).Applied? {
      AppliedKeepsLedgerOk(db, w, now);
      AppliedKeepsRecordsOk(db, w, now);
    }
  }

  /** On a board whose projection is the replay of its events it keeps the range too. */
  lemma ScoreWriteKeepsDbOk(db: Db, w: Write, now: nat)
    requires DbOk(db) && Accepted(w)
    requires ScoreOutcome(db, w, now).Applied? ==> LiveOf(db, w.boardId) == BoardReplay(db.ledger, w.boardId)
    ensures DbOk(ApplyScore(db, w, now))
  {
    hide FactsOk, RangeOk;
    ScoreWriteKeepsFacts(db, w, now);
    if ScoreOutcome(db, w, now).Applied? {
      AppliedKeepsRangeOk(db, w, now);
    }
  }

  lemma CreatePlayerKeepsFacts(db: Db, name: string, createdAt: string, candidate: string, key: string)
    requires FactsOk(db) && Clean(candidate)
    ensures FactsOk(CreatePlayer(db, name, createdAt, candidate, key))
  {
  }

  lemma CreatePlayerKeepsDbOk(db: Db, name: string, createdAt: string, candidate: string, key: string)
    requires DbOk(db) && Clean(candidate)
    ensures DbOk(CreatePlayer(db, name, createdAt, candidate, key))
  {
    CreatePlayerKeepsFacts(db, name, createdAt, candidate, key);
    hide FactsOk, BoardInRange;
  }

  lemma ExpiryKeepsFacts(db: Db, k: Key)
    requires FactsOk(db)
    ensures FactsOk(ExpireRecord(db, k))
  {
    var db' := ExpireRecord(db, k);
    forall l | l in db'.records ensures RecordOk(db', l) {
      assert RecordOk(db, l);
    }
  }

  lemma CreationExpiryKeepsFacts(db: Db, key: string)
    requires FactsOk(db)
    ensures FactsOk(ExpireCreation(db, key))
  {
    var db' := ExpireCreation(db, key);
    forall l | l in db'.records ensures RecordOk(db', l) {
      assert RecordOk(db, l);
    }
  }

  /** Boards are only added, projections are free to change. */
  lemma MoreBoardsKeepFacts(db: Db, boards: map<string, Lifecycle>, live: map<string, Zset>)
    requires FactsOk(db) && forall b :: b in db.boards ==> b in boards
    ensures FactsOk(db.(boards := boards, live := live))
  {
    var db' := db.(boards := boards, live := live);
    forall l | l in db.records ensures RecordOk(db', l) {
      assert RecordOk(db, l);
    }
  }
}
