/** The Redis database as the scripts and the storage layer see it: text keys, text records and
    raw stream entries.  Each method is proved against the typed step of module Scripts. */
module Store {
  import opened Text
  import opened Ledger
  import opened Replay
  import opened Scripts
  import opened Projection
  import Binary64

  const ACTIVE_TEXT := "active"
  const CLOSED_TEXT := "closed"

  function StateText(state: Lifecycle): string {
    match state
    case Active => ACTIVE_TEXT
    case Closed => CLOSED_TEXT
  }

  function KeyText(k: Key): string {
    FieldText(k.boardId, k.playerId, k.key)
  }

  function RecText(r: Rec): string {
    RecordText(r.id.ToText(), OpText(r.op), IntText(r.amount))
  }

  function CreationText(c: Creation): string {
    c.playerId + "|" + c.name
  }

  /** The reply { code, entry_id } of the write script. */
  function CodeOf(o: Outcome): int {
    match o
    case Applied(_) => 1
    case Deduped(_) => 0
    case PlayerNotFound => -1
    case BoardNotFound => -2
    case BoardClosed => -3
    case KeyConflict => -4
    case ScoreOutOfRange => -5
  }

  function EntryOf(o: Outcome): string {
    match o
    case Applied(id) => id.ToText()
    case Deduped(id) => id.ToText()
    case _ => ""
  }

  function CreateReply(o: CreateOutcome): (int, string) {
    match o
    case Created(playerId) => (1, playerId)
    case Existing(playerId) => (0, playerId)
    case IdTaken => (-1, "")
    case NameConflict => (-4, "")
  }

  datatype ApplyError =
    | NoError | ErrNotFound | ErrBoardNotFound | ErrBoardClosed | ErrIdempotencyConflict | ErrScoreOutOfRange

  datatype AdminError = Done | UnknownBoard | Inconsistent(error: DecodeError)

  predicate CleanKey(k: Key) {
    Clean(k.boardId) && Clean(k.playerId) && k.key != ""
  }

  ghost predicate Owned(f: string, records: map<Key, Rec>) {
    exists k :: k in records && KeyText(k) == f
  }

  /** The text hash holds exactly the typed records, one field each. */
  ghost predicate EncodesRecords(raw: map<string, string>, records: map<Key, Rec>) {
    && (forall k {:trigger KeyText(k)} ::
          k in records ==> CleanKey(k) && KeyText(k) in raw && raw[KeyText(k)] == RecText(records[k]))
    && (forall f {:trigger Owned(f, records)} :: f in raw ==> Owned(f, records))
  }

  ghost predicate EncodesCreations(raw: map<string, string>, creations: map<string, Creation>) {
    && raw.Keys == creations.Keys
    && forall k :: k in creations ==> Clean(creations[k].playerId) && raw[k] == CreationText(creations[k])
  }

  ghost predicate EncodesBoards(raw: map<string, string>, boards: map<string, Lifecycle>) {
    && raw.Keys == boards.Keys
    && forall b :: b in boards ==> raw[b] == StateText(boards[b])
  }

  lemma EncodeAppend(events: seq<Event>, e: Event)
    ensures Encode(events + [e]) == Encode(events) + [EventToEntry(e)]
  {
  }

  lemma KeyTextInjective(k: Key, l: Key)
    requires CleanKey(k) && CleanKey(l) && KeyText(k) == KeyText(l)
    ensures k == l
  {
    FieldInjective(k.boardId, k.playerId, k.key, l.boardId, l.playerId, l.key);
  }

  /** A field is stored exactly when its typed record is. */
  lemma FieldPresentIff(raw: map<string, string>, records: map<Key, Rec>, k: Key)
    requires EncodesRecords(raw, records) && CleanKey(k)
    ensures KeyText(k) in raw <==> k in records
  {
    if KeyText(k) in raw {
      assert Owned(KeyText(k), records);
      var l :| l in records && KeyText(l) == KeyText(k);
      KeyTextInjective(k, l);
    }
  }

  lemma RecordTextSplits(r: Rec)
    ensures SplitRecord(RecText(r)) == Some((r.id.ToText(), OpText(r.op), IntText(r.amount)))
  {
    NatTextHasNoDash(r.id.ms);
    NatTextHasNoDash(r.id.seqNo);
    RecordRoundTrip(r.id.ToText(), OpText(r.op), IntText(r.amount));
  }

  lemma StoreRecord(raw: map<string, string>, records: map<Key, Rec>, k: Key, r: Rec)
    requires EncodesRecords(raw, records) && CleanKey(k)
    ensures EncodesRecords(raw[KeyText(k) := RecText(r)], records[k := r])
  {
    var raw', records' := raw[KeyText(k) := RecText(r)], records[k := r];
    forall l | l in records' && l != k
      ensures CleanKey(l) && KeyText(l) in raw' && raw'[KeyText(l)] == RecText(records'[l])
    {
      if KeyText(l) == KeyText(k) {
        KeyTextInjective(k, l);
      }
    }
    forall f | f in raw' ensures Owned(f, records') {
      if f == KeyText(k) {
        assert k in records';
      } else {
        assert Owned(f, records);
        var l :| l in records && KeyText(l) == f;
        assert l in records';
      }
    }
  }

  lemma ForgetRecord(raw: map<string, string>, records: map<Key, Rec>, k: Key)
    requires EncodesRecords(raw, records) && CleanKey(k)
    ensures EncodesRecords(raw - {KeyText(k)}, records - {k})
  {
    var raw', records' := raw - {KeyText(k)}, records - {k};
    forall l | l in records' ensures CleanKey(l) && KeyText(l) in raw' {
      if KeyText(l) == KeyText(k) {
        KeyTextInjective(k, l);
      }
    }
    forall f | f in raw' ensures Owned(f, records') {
      assert Owned(f, records);
      var l :| l in records && KeyText(l) == f;
      assert l in records';
    }
  }

  /** The text fields hold exactly the typed database. */
  ghost predicate Encodes(
    ledger: seq<Entry>, boards: map<string, string>, profiles: map<string, Profile>, live: map<string, Zset>,
    records: map<string, string>, creations: map<string, string>, db: Db)
  {
    && ledger == Encode(db.ledger)
    && live == db.live
    && profiles == db.profiles
    && EncodesBoards(boards, db.boards)
    && EncodesRecords(records, db.records)
    && EncodesCreations(creations, db.creations)
  }

  /** The record the script leaves in the hash after an applied write. */
  lemma CommitEncodes(
    ledger: seq<Entry>, boards: map<string, string>, profiles: map<string, Profile>, live: map<string, Zset>,
    records: map<string, string>, creations: map<string, string>, db: Db, w: Write, now: nat)
    requires Encodes(ledger, boards, profiles, live, records, creations, db)
    requires Accepted(w) && ScoreOutcome(db, w, now).Applied?
    ensures var e := NewEvent(db, w, now);
            Encodes(
              ledger + [EventToEntry(e)], boards, profiles,
              live[w.boardId := Command(LiveOf(db, w.boardId), e)],
              if w.key == "" then records else records[KeyText(KeyOf(w)) := RecText(Rec(e.id, w.op, w.amount))],
              creations, ApplyScore(db, w, now))
  {
    var e := NewEvent(db, w, now);
    EncodeAppend(db.ledger, e);
    if w.key != "" {
      StoreRecord(records, db.records, KeyOf(w), Rec(e.id, w.op, w.amount));
    }
  }

  /** ZADD or ZINCRBY with the amount as text. */
  method ApplyCommand(opType: string, playerId: string, amount: string, zset: Zset, ghost e: Event)
    returns (zset': Zset)
    requires opType == OpText(e.op) && amount == IntText(e.amount) && playerId == e.playerId
    ensures zset' == Command(zset, e)
  {
    IntTextRoundTrip(e.amount);
    assert OpText(Set)[0] != OpText(Increment)[0];
    if opType == "set" {
      zset' := ZAdd(zset, playerId, ParseInt(amount).value);
    } else {
      zset' := ZIncrBy(zset, playerId, ParseInt(amount).value);
    }
  }

  /** HSET of the record, when the client sent a key. */
  method SaveRecord(
    records: map<string, string>, id: StreamId, opType: string, playerId: string, boardId: string,
    amount: string, idemKey: string, ghost w: Write) returns (records': map<string, string>)
    requires opType == OpText(w.op) && amount == IntText(w.amount)
    requires playerId == w.playerId && boardId == w.boardId && idemKey == w.key
    ensures records'
         == if w.key == "" then records else records[KeyText(KeyOf(w)) := RecText(Rec(id, w.op, w.amount))]
    ensures records'
         == if idemKey == "" then records
            else records[boardId + ":" + playerId + ":" + idemKey := id.ToText() + "|" + opType + "|" + amount]
  {
    records' := records;
    if idemKey != "" {
      records' := records[boardId + ":" + playerId + ":" + idemKey := id.ToText() + "|" + opType + "|" + amount];
    }
  }

  /** The entry XADD appends. */
  method NewEntry(
    id: StreamId, opType: string, playerId: string, boardId: string, amount: string, reqId: string, ghost e: Event)
    returns (entry: Entry)
    requires e == Event(id, e.op, playerId, boardId, e.amount, reqId)
    requires opType == OpText(e.op) && amount == IntText(e.amount)
    ensures entry == EventToEntry(e)
    ensures entry == Entry(id, map[
      "type" := opType, "player_id" := playerId, "board_id" := boardId, "amount" := amount, "request_id" := reqId])
  {
    entry := Entry(id, map[
      TYPE_FIELD := opType, PLAYER_FIELD := playerId, BOARD_FIELD := boardId,
      AMOUNT_FIELD := amount, REQUEST_FIELD := reqId]);
  }

  /** The script's three writes: projection, ledger, record. */
  method Commit(
    ledger: seq<Entry>, live: map<string, Zset>, records: map<string, string>,
    opType: string, playerId: string, amount: string, reqId: string, boardId: string, idemKey: string, now: nat,
    ghost w: Write, ghost boards: map<string, string>, ghost profiles: map<string, Profile>,
    ghost creations: map<string, string>, ghost db: Db)
    returns (ledger': seq<Entry>, live': map<string, Zset>, records': map<string, string>, id: StreamId)
    requires Encodes(ledger, boards, profiles, live, records, creations, db)
    requires Accepted(w) && ScoreOutcome(db, w, now).Applied?
    requires opType == OpText(w.op) && amount == IntText(w.amount)
    requires playerId == w.playerId && boardId == w.boardId && reqId == w.requestId && idemKey == w.key
    ensures Encodes(ledger', boards, profiles, live', records', creations, ApplyScore(db, w, now))
    ensures ScoreOutcome(db, w, now) == Applied(id)
    ensures ledger' == ledger + [Entry(id, map[
      "type" := opType, "player_id" := playerId, "board_id" := boardId, "amount" := amount, "request_id" := reqId])]
    ensures records'
         == if idemKey == "" then records
            else records[boardId + ":" + playerId + ":" + idemKey := id.ToText() + "|" + opType + "|" + amount]
  {
    CommitEncodes(ledger, boards, profiles, live, records, creations, db, w, now);
    EncodedIds(db.ledger);
    ghost var e := NewEvent(db, w, now);
    var zset := ApplyCommand(opType, playerId, amount, if boardId in live then live[boardId] else map[], e);
    live' := live[boardId := zset];
    id := NextId(LastId(EntryIds(ledger)), now);
    var entry := NewEntry(id, opType, playerId, boardId, amount, reqId, e);
    ledger' := ledger + [entry];
    records' := SaveRecord(records, id, opType, playerId, boardId, amount, idemKey, w);
  }

  class Store {
    var ledger: seq<Entry>
    var boards: map<string, string>
    var profiles: map<string, Profile>
    var live: map<string, Zset>
    var scratch: map<string, Zset>
    var records: map<string, string>
    var creations: map<string, string>
    /** The typed database the text encodes. */
    ghost var db: Db

    ghost predicate Valid()
      reads this
    {
      Encodes(ledger, boards, profiles, live, records, creations, db)
    }

    constructor ()
      ensures Valid() && db == EMPTY && scratch == map[]
    {
      ledger, boards, profiles, live, scratch := [], map[], map[], map[], map[];
      records, creations := map[], map[];
      db := EMPTY;
    }

    /** The script's idempotency check: looks the field up and compares the stored
        fingerprint with the write's. */
    method CheckRecord(dedupeField: string, opType: string, amount: string, ghost w: Write)
      returns (seen: bool, same: bool, entryId: string)
      requires Valid() && Accepted(w) && w.key != "" && dedupeField == KeyText(KeyOf(w))
      requires opType == OpText(w.op) && amount == IntText(w.amount)
      ensures seen <==> KeyOf(w) in db.records
      ensures seen ==> (same <==> SameFingerprint(db.records[KeyOf(w)], w))
      ensures seen ==> entryId == db.records[KeyOf(w)].id.ToText()
    {
      FieldPresentIff(records, db.records, KeyOf(w));
      if dedupeField !in records {
        return false, false, "";
      }
      var text := records[dedupeField];
      ghost var r := db.records[KeyOf(w)];
      RecordTextSplits(r);
      var sep1 := Find(text, '|', 0);
      var sep2 := Find(text, '|', sep1 + 1);
      var seenEntry, seenOp, seenAmount := text[..sep1], text[sep1 + 1..sep2], text[sep2 + 1..];
      assert OpText(Set)[0] != OpText(Increment)[0];
      if seenAmount == amount {
        IntTextInjective(r.amount, w.amount);
      }
      return true, seenOp == opType && seenAmount == amount, seenEntry;
    }

    /** The script's existence, closed and range checks, before any write: 1 to go on, else the
        rejection code. */
    method CheckWrite(opType: string, playerId: string, amount: string, boardId: string, maxAbs: int, ghost w: Write)
      returns (code: int)
      requires Valid() && Accepted(w) && maxAbs == SCORE_MAX
      requires opType == OpText(w.op) && amount == IntText(w.amount)
      requires playerId == w.playerId && boardId == w.boardId
      requires w.key == "" || KeyOf(w) !in db.records
      ensures code == CodeOf(ScoreOutcome(db, w, 0))
      ensures code == -1 <==> playerId !in profiles
      ensures code == -2 <==> playerId in profiles && boardId !in boards
      ensures code == -3 <==> playerId in profiles && boardId in boards && boards[boardId] == "closed"
      ensures code == -5 <==>
                playerId in profiles && boardId in boards && boards[boardId] != "closed" && !InRange(Resulting(db, w))
      ensures code == 1 <==>
                playerId in profiles && boardId in boards && boards[boardId] != "closed" && InRange(Resulting(db, w))
    {
      if playerId !in profiles {
        return -1;
      }
      if boardId !in boards {
        return -2;
      }
      assert CLOSED_TEXT[0] != ACTIVE_TEXT[0];
      if boards[boardId] == CLOSED_TEXT {
        return -3;
      }
      IntTextRoundTrip(w.amount);
      var current := 0;
      if opType != "set" {
        current := ScoreOf(if boardId in live then live[boardId] else map[], playerId);
      }
      assert opType == "set" <==> w.op.Set? by {
        assert OpText(Set)[0] != OpText(Increment)[0];
      }
      var resulting := Binary64.Add(current, Binary64.Round(ParseInt(amount).value));
      assert resulting == Resulting(db, w);
      return if resulting > maxAbs || resulting < -maxAbs then -5 else 1;
    }

    /** Everything the script does before its first write: 1 to go on, else the final reply. */
    method Decide(
      opType: string, playerId: string, amount: string, boardId: string, idemKey: string,
      maxAbs: int, ghost now: nat, ghost w: Write) returns (code: int, entryId: string)
      requires Valid() && Accepted(w) && maxAbs == SCORE_MAX
      requires opType == OpText(w.op) && amount == IntText(w.amount)
      requires playerId == w.playerId && boardId == w.boardId && idemKey == w.key
      ensures code == CodeOf(ScoreOutcome(db, w, now))
      ensures code != 1 ==> entryId == EntryOf(ScoreOutcome(db, w, now))
      ensures var seen := idemKey != "" && Key(boardId, playerId, idemKey) in db.records;
              && (code == 0 <==> seen && db.records[Key(boardId, playerId, idemKey)].op == w.op
                                      && db.records[Key(boardId, playerId, idemKey)].amount == w.amount)
              && (code == -4 <==> seen && code != 0)
              && (code == -1 <==> !seen && playerId !in profiles)
              && (code == -2 <==> !seen && playerId in profiles && boardId !in boards)
              && (code == -3 <==> !seen && playerId in profiles && boardId in boards && boards[boardId] == "closed")
              && (code == -5 <==> !seen && playerId in profiles && boardId in boards && boards[boardId] != "closed"
                                  && !InRange(Resulting(db, w)))
              && (code == 1 <==> !seen && playerId in profiles && boardId in boards && boards[boardId] != "closed"
                                 && InRange(Resulting(db, w)))
    {
      if idemKey != "" {
        var seen, same, seenEntry := CheckRecord(boardId + ":" + playerId + ":" + idemKey, opType, amount, w);
        if seen {
          if same {
            return 0, seenEntry;
          }
          return -4, "";
        }
      }
      code := CheckWrite(opType, playerId, amount, boardId, maxAbs, w);
      return code, "";
    }

    method Save(ledger': seq<Entry>, live': map<string, Zset>, records': map<string, string>, ghost db': Db)
      requires Encodes(ledger', boards, profiles, live', records', creations, db')
      modifies this`ledger, this`live, this`records, this`db
      ensures Valid() && db == db' && ledger == ledger' && live == live' && records == records'
    {
      ledger, live, records, db := ledger', live', records', db';
    }

    /** The write script: which reply it gives when, in the order of its checks, and what it then
        writes. */
    method ApplyScoreScript(
      opType: string, playerId: string, amount: string, reqId: string, boardId: string, idemKey: string,
      maxAbs: int, now: nat, ghost w: Write) returns (code: int, entryId: string)
      requires Valid() && Accepted(w) && maxAbs == SCORE_MAX
      requires opType == OpText(w.op) && amount == IntText(w.amount)
      requires playerId == w.playerId && boardId == w.boardId && reqId == w.requestId && idemKey == w.key
      modifies this
      ensures Valid() && scratch == old(scratch)
      ensures db == ApplyScore(old(db), w, now)
      ensures code == CodeOf(ScoreOutcome(old(db), w, now)) && entryId == EntryOf(ScoreOutcome(old(db), w, now))
      ensures var seen := idemKey != "" && Key(boardId, playerId, idemKey) in old(db).records;
              var known := playerId in old(profiles);
              var open := boardId in old(boards) && old(boards)[boardId] != "closed";
              && (code == 0 <==> seen && old(db).records[Key(boardId, playerId, idemKey)].op == w.op
                                      && old(db).records[Key(boardId, playerId, idemKey)].amount == w.amount)
              && (code == -4 <==> seen && code != 0)
              && (code == -1 <==> !seen && !known)
              && (code == -2 <==> !seen && known && boardId !in old(boards))
              && (code == -3 <==> !seen && known && boardId in old(boards) && old(boards)[boardId] == "closed")
              && (code == -5 <==> !seen && known && open && !InRange(Resulting(old(db), w)))
              && (code == 1 <==> !seen && known && open && InRange(Resulting(old(db), w)))
      ensures profiles == old(profiles) && boards == old(boards) && creations == old(creations)
      ensures code != 1 ==> ledger == old(ledger) && live == old(live) && records == old(records)
      ensures code == 1 ==>
                && (exists id: StreamId :: entryId == id.ToText() && ledger == old(ledger) + [Entry(id, map[
                      "type" := opType, "player_id" := playerId, "board_id" := boardId, "amount" := amount,
                      "request_id" := reqId])])
                && records == if idemKey == "" then old(records)
                              else old(records)[boardId + ":" + playerId + ":" + idemKey
                                                := entryId + "|" + opType + "|" + amount]
    {
      code, entryId := Decide(opType, playerId, amount, boardId, idemKey, maxAbs, now, w);
      if code != 1 {
        return code, entryId;
      }
      var ledger', live', records', id := Commit(
        ledger, live, records, opType, playerId, amount, reqId, boardId, idemKey, now,
        w, boards, profiles, creations, db);
      Save(ledger', live', records', ApplyScore(db, w, now));
      return 1, id.ToText();
    }

    /** applyEvent: runs the script on decimal text and maps its code to an error. */
    method ApplyEvent(op: Op, playerId: string, boardId: string, amount: int, reqId: string, idempKey: string, now: nat)
      returns (err: ApplyError)
      requires Valid() && Accepted(Write(op, playerId, boardId, amount, reqId, idempKey))
      modifies this
      ensures Valid() && scratch == old(scratch)
      ensures var w := Write(op, playerId, boardId, amount, reqId, idempKey);
              && db == ApplyScore(old(db), w, now)
              && (err.NoError? <==> ScoreOutcome(old(db), w, now).Applied? || ScoreOutcome(old(db), w, now).Deduped?)
      ensures var k := Key(boardId, playerId, idempKey);
              var w := Write(op, playerId, boardId, amount, reqId, idempKey);
              var seen := idempKey != "" && k in old(db).records;
              var same := seen && old(db).records[k].op == op && old(db).records[k].amount == amount;
              var known := playerId in old(profiles);
              var open := boardId in old(boards) && old(boards)[boardId] != "closed";
              && (err == ErrNotFound <==> !seen && !known)
              && (err == ErrBoardNotFound <==> !seen && known && boardId !in old(boards))
              && (err == ErrBoardClosed <==>
                    !seen && known && boardId in old(boards) && old(boards)[boardId] == "closed")
              && (err == ErrIdempotencyConflict <==> seen && !same)
              && (err == ErrScoreOutOfRange <==> !seen && known && open && !InRange(Resulting(old(db), w)))
              && (err == NoError <==> same || (!seen && known && open && InRange(Resulting(old(db), w))))
              && (err != NoError || same ==> ledger == old(ledger) && live == old(live) && records == old(records))
    {
      var code, _ := ApplyScoreScript(
        OpText(op), playerId, IntText(amount), reqId, boardId, idempKey, SCORE_MAX, now,
        Write(op, playerId, boardId, amount, reqId, idempKey));
      match code {
        case 1 => err := NoError;
        case 0 => err := NoError;
        case -1 => err := ErrNotFound;
        case -2 => err := ErrBoardNotFound;
        case -3 => err := ErrBoardClosed;
        case -4 => err := ErrIdempotencyConflict;
        case _ => err := ErrScoreOutOfRange;
      }
    }

    /** The player creation script. */
    method CreatePlayerScript(name: string, createdAt: string, playerId: string, idemKey: string)
      returns (code: int, id: string)
      requires Valid() && Clean(playerId)
      modifies this
      ensures Valid() && scratch == old(scratch)
      ensures db == CreatePlayer(old(db), name, createdAt, playerId, idemKey)
      ensures (code, id) == CreateReply(CreateOutcomeOf(old(db), name, playerId, idemKey))
      ensures var seen := idemKey != "" && idemKey in old(creations);
              && (code == 0 <==> seen && old(creations)[idemKey] == id + "|" + name)
              && (code == -4 <==> seen && code != 0)
              && (code == -1 <==> !seen && playerId in old(profiles))
              && (code == 1 <==> !seen && playerId !in old(profiles))
      ensures ledger == old(ledger) && boards == old(boards) && live == old(live) && records == old(records)
      ensures code != 1 ==> profiles == old(profiles) && creations == old(creations)
      ensures code == 1 ==>
                && id == playerId
                && profiles == old(profiles)[playerId := Profile(name, createdAt)]
                && creations == if idemKey == "" then old(creations)
                                else old(creations)[idemKey := playerId + "|" + name]
    {
      var haveKey := idemKey != "";
      if haveKey && idemKey in creations {
        var seen := creations[idemKey];
        ghost var c := db.creations[idemKey];
        assert seen == c.playerId + ['|'] + c.name;
        CutRoundTrip(c.playerId, '|', c.name);
        var sep := Find(seen, '|', 0);
        var seenId, seenName := seen[..sep], seen[sep + 1..];
        if seenName == name {
          return 0, seenId;
        }
        return -4, "";
      }
      if playerId in profiles {
        return -1, "";
      }
      profiles := profiles[playerId := Profile(name, createdAt)];
      if haveKey {
        creations := creations[idemKey := playerId + "|" + name];
      }
      db := CreatePlayer(db, name, createdAt, playerId, idemKey);
      return 1, playerId;
    }

    /** The board creation script. */
    method CreateBoardScript(boardId: string, boardState: string, ghost state: Lifecycle) returns (code: int)
      requires Valid() && boardState == StateText(state)
      modifies this
      ensures Valid() && scratch == old(scratch)
      ensures db == CreateBoard(old(db), boardId, state)
      ensures code == (if boardId in old(boards) then 0 else 1)
      ensures boards == if boardId in old(boards) then old(boards) else old(boards)[boardId := boardState]
      ensures db == old(db).(boards := if boardId in old(boards) then old(db).boards
                                       else old(db).boards[boardId := state])
    {
      if boardId in boards {
        return 0;
      }
      boards := boards[boardId := boardState];
      db := CreateBoard(db, boardId, state);
      return 1;
    }

    /** The board state script. */
    method SetBoardStateScript(boardId: string, boardState: string, ghost state: Lifecycle) returns (code: int)
      requires Valid() && boardState == StateText(state)
      modifies this
      ensures Valid() && scratch == old(scratch)
      ensures db == SetBoardState(old(db), boardId, state)
      ensures code == (if boardId in old(boards) then 1 else 0)
      ensures boards == if boardId in old(boards) then old(boards)[boardId := boardState] else old(boards)
      ensures db == old(db).(boards := if boardId in old(boards) then old(db).boards[boardId := state]
                                       else old(db).boards)
    {
      if boardId !in boards {
        return 0;
      }
      boards := boards[boardId := boardState];
      db := SetBoardState(db, boardId, state);
      return 1;
    }

    /** Redis drops an expired field of the idempotency hash. */
    method ExpireField(ghost k: Key, field: string)
      requires Valid() && CleanKey(k) && field == KeyText(k)
      modifies this
      ensures Valid() && scratch == old(scratch)
      ensures db == ExpireRecord(old(db), k)
      ensures records == old(records) - {field} && db == old(db).(records := old(db).records - {k})
    {
      ForgetRecord(records, db.records, k);
      records := records - {field};
      db := ExpireRecord(db, k);
    }

    // ---- projection administration --------------------------------------------------------
    // These work on any entries, also on ones the write path would not append.

    method ReadBoardEvents(boardId: string) returns (result: ReadResult)
      ensures result == ReadBoard(ledger, boardId)
    {
      var events: seq<Event> := [];
      for i := 0 to |ledger|
        invariant ReadBoard(ledger[..i], boardId) == Events(events)
      {
        assert ledger[..i + 1] == ledger[..i] + [ledger[i]];
        ReadBoardAppend(ledger[..i], ledger[i], boardId);
        if Field(ledger[i], BOARD_FIELD) == boardId {
          var decoded := EntryToEvent(ledger[i]);
          if decoded.Rejected? {
            ReadBoardFailsOnPrefix(ledger, boardId, i + 1);
            return Failed(decoded.error);
          }
          events := events + [decoded.event];
        }
      }
      assert ledger[..|ledger|] == ledger;
      return Events(events);
    }

    /** Drops the board's projection and folds its events, one command each.  An error leaves
        everything as it was; otherwise only this board's projection changes. */
    method RebuildProjection(boardId: string) returns (err: AdminError)
      modifies this`live, this`db
      ensures boardId !in boards ==> err == UnknownBoard
      ensures boardId in boards ==>
                match ReadBoard(ledger, boardId)
                case Failed(error) => err == Inconsistent(error)
                case Events(events) =>
                  && err == Done
                  && (if boardId in live then live[boardId] else map[]) == Fold(events)
      ensures err != Done ==> live == old(live) && db == old(db)
      ensures live - {boardId} == old(live) - {boardId}
      ensures db == old(db).(live := db.live)
      ensures old(Valid()) ==> Valid()
    {
      if boardId !in boards {
        return UnknownBoard;
      }
      var result := ReadBoardEvents(boardId);
      if result.Failed? {
        return Inconsistent(result.error);
      }
      live := FoldInto(result.events, boardId, live);
      db := db.(live := live);
      return Done;
    }

    /** Replays the board into the scratch key, diffs it with the live projection, and removes
        the scratch key.  The live projection is only read. */
    method VerifyProjection(boardId: string) returns (err: AdminError, mismatches: seq<Mismatch>)
      modifies this`scratch
      ensures boardId !in boards ==> err == UnknownBoard
      ensures boardId in boards ==>
                match ReadBoard(ledger, boardId)
                case Failed(error) => err == Inconsistent(error)
                case Events(events) =>
                  && err == Done
                  && var z := if boardId in live then live[boardId] else map[];
                     && IsDiff(mismatches, boardId, z, Fold(events))
                     && (forall m :: m in mismatches ==>
                           && m.boardId == boardId
                           && (m.livePresent <==> m.playerId in z)
                           && m.liveScore == (if m.playerId in z then z[m.playerId] else 0)
                           && (m.replayPresent <==> m.playerId in Fold(events))
                           && m.replayScore == (if m.playerId in Fold(events) then Fold(events)[m.playerId] else 0))
      ensures err != Done ==> mismatches == [] && scratch == old(scratch)
      ensures err == Done ==> scratch == old(scratch) - {boardId}
    {
      mismatches := [];
      if boardId !in boards {
        return UnknownBoard, [];
      }
      var result := ReadBoardEvents(boardId);
      if result.Failed? {
        return Inconsistent(result.error), [];
      }
      scratch := FoldInto(result.events, boardId, scratch);
      mismatches := DiffBoard(
        boardId,
        if boardId in live then live[boardId] else map[],
        if boardId in scratch then scratch[boardId] else map[]);
      scratch := scratch - {boardId};
      err := Done;
    }
  }

  /** Drops the board's key, then folds the events forward, one command each. */
  method FoldInto(events: seq<Event>, boardId: string, keys: map<string, Zset>) returns (keys': map<string, Zset>)
    ensures (if boardId in keys' then keys'[boardId] else map[]) == Fold(events)
    ensures keys' - {boardId} == keys - {boardId}
  {
    keys' := keys - {boardId};
    for i := 0 to |events|
      invariant (if boardId in keys' then keys'[boardId] else map[]) == Fold(events[..i])
      invariant keys' - {boardId} == keys - {boardId}
    {
      var e := events[i];
      var zset := if boardId in keys' then keys'[boardId] else map[];
      match e.op {
        case Set => zset := ZAdd(zset, e.playerId, e.amount);
        case Increment => zset := ZIncrBy(zset, e.playerId, e.amount);
      }
      keys' := keys'[boardId := zset];
      assert events[..i + 1] == events[..i] + [e];
      FoldAppend(events[..i], e);
    }
    assert events[..|events|] == events;
  }

  /** The report on the players of a set. */
  ghost predicate DiffOf(ms: seq<Mismatch>, boardId: string, live: Zset, replay: Zset, done: set<string>) {
    && (forall i :: 0 <= i < |ms| ==>
          && ms[i].playerId in done
          && Differs(live, replay, ms[i].playerId) && ShowsSides(ms[i], boardId, live, replay))
    && (forall i, j :: 0 <= i < j < |ms| ==> ms[i].playerId != ms[j].playerId)
    && (forall p :: p in done && Differs(live, replay, p) ==> Listed(ms, p))
  }

  lemma DiffGrows(ms: seq<Mismatch>, m: Mismatch, boardId: string, live: Zset, replay: Zset, done: set<string>)
    requires DiffOf(ms, boardId, live, replay, done) && m.playerId !in done
    requires Differs(live, replay, m.playerId) && ShowsSides(m, boardId, live, replay)
    ensures DiffOf(ms + [m], boardId, live, replay, done + {m.playerId})
  {
    ListedKept(ms, ms + [m]);
    assert (ms + [m])[|ms|] == m;
    hide Differs, ShowsSides;
  }

  /** Walks the live map, then the rebuilt map, in whatever order the maps yield their keys. */
  method DiffBoard(boardId: string, live: Zset, rebuilt: Zset) returns (mismatches: seq<Mismatch>)
    ensures IsDiff(mismatches, boardId, live, rebuilt)
  {
    mismatches := [];
    var todo := live.Keys;
    ghost var done: set<string> := {};
    while todo != {}
      invariant done == live.Keys - todo && todo <= live.Keys
      invariant DiffOf(mismatches, boardId, live, rebuilt, done)
    {
      var id :| id in todo;
      todo := todo - {id};
      if id !in rebuilt || rebuilt[id] != live[id] {
        var m := Mismatch(boardId, id, live[id], true, if id in rebuilt then rebuilt[id] else 0, id in rebuilt);
        DiffGrows(mismatches, m, boardId, live, rebuilt, done);
        mismatches := mismatches + [m];
      }
      done := done + {id};
    }
    todo := rebuilt.Keys;
    while todo != {}
      invariant done == live.Keys + (rebuilt.Keys - todo) && todo <= rebuilt.Keys
      invariant DiffOf(mismatches, boardId, live, rebuilt, done)
    {
      var id :| id in todo;
      todo := todo - {id};
      if id !in live {
        var m := Mismatch(boardId, id, 0, false, rebuilt[id], true);
        DiffGrows(mismatches, m, boardId, live, rebuilt, done);
        mismatches := mismatches + [m];
      }
      done := done + {id};
    }
  }

  lemma ListedKept(before: seq<Mismatch>, after: seq<Mismatch>)
    requires before <= after
    ensures forall p :: Listed(before, p) ==> Listed(after, p)
  {
    forall p | Listed(before, p) ensures Listed(after, p) {
      var i :| 0 <= i < |before| && before[i].playerId == p;
      assert after[i].playerId == p;
    }
  }
}
