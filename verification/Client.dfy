/** The client's retry protocol end to end: a pending key per unfinished write, over a network that
    may lose, delay and duplicate requests and lose answers, against the idempotent scripts. */
module Client {
  import opened Text
  import opened Ledger
  import opened Scripts
  import opened Protocol
  import opened Idempotency
  import Binary64

  /** A write as the user entered it: what method, URL and body spell out. */
  datatype Payload =
    | ScorePayload(op: Op, playerId: string, boardId: string, amount: int)
    | PlayerPayload(name: string)

  // ---- the key map ------------------------------------------------------------------------

  /** The pending map after a send took its key. */
  function KeysAtSend(pending: map<Payload, string>, payload: Payload, uuid: string): map<Payload, string> {
    if payload in pending then pending else pending[payload := uuid]
  }

  // ---- the server's side of one write -----------------------------------------------------

  datatype Made = EventMade(id: StreamId) | ProfileMade(playerId: string)

  /** What the server chooses or learns per delivery. */
  datatype Arrival = Arrival(now: nat, requestId: string, createdAt: string, candidate: string)

  function WriteOf(payload: Payload, key: string, a: Arrival): Write
    requires payload.ScorePayload?
  {
    Write(payload.op, payload.playerId, payload.boardId, payload.amount, a.requestId, key)
  }

  function StepOf(payload: Payload, key: string, a: Arrival): Step {
    match payload
    case ScorePayload(_, _, _, _) => ScoreStep(WriteOf(payload, key, a), a.now)
    case PlayerPayload(name) => PlayerStep(name, a.createdAt, a.candidate, key)
  }

  /** The event or profile a delivery adds, if it adds one. */
  function Caused(db: Db, payload: Payload, key: string, a: Arrival): Option<Made> {
    match payload
    case ScorePayload(_, _, _, _) =>
      var o := ScoreOutcome(db, WriteOf(payload, key, a), a.now);
      if o.Applied? then Some(EventMade(o.id)) else None
    case PlayerPayload(name) =>
      var o := CreateOutcomeOf(db, name, a.candidate, key);
      if o.Created? then Some(ProfileMade(o.playerId)) else None
  }

  /** Whether the server answers the delivery with success. */
  predicate Accepts(db: Db, payload: Payload, key: string, a: Arrival) {
    match payload
    case ScorePayload(_, _, _, _) =>
      var o := ScoreOutcome(db, WriteOf(payload, key, a), a.now);
      o.Applied? || o.Deduped?
    case PlayerPayload(name) =>
      var o := CreateOutcomeOf(db, name, a.candidate, key);
      o.Created? || o.Existing?
  }

  /** What the idempotency record under the key names. */
  function Recorded(db: Db, payload: Payload, key: string): Option<Made> {
    match payload
    case ScorePayload(_, p, b, _) =>
      if Key(b, p, key) in db.records then Some(EventMade(db.records[Key(b, p, key)].id)) else None
    case PlayerPayload(_) =>
      if key in db.creations then Some(ProfileMade(db.creations[key].playerId)) else None
  }

  /** The record under the key, if there is one, has this payload's fingerprint. */
  predicate Matches(db: Db, payload: Payload, key: string) {
    match payload
    case ScorePayload(op, p, b, amount) =>
      Key(b, p, key) in db.records ==>
        db.records[Key(b, p, key)].op == op && db.records[Key(b, p, key)].amount == amount
    case PlayerPayload(name) => key in db.creations ==> db.creations[key].name == name
  }

  /** The made event or profile is in the store, with the payload's content. */
  ghost predicate InStore(db: Db, payload: Payload, what: Made) {
    match payload
    case ScorePayload(op, p, b, amount) =>
      what.EventMade? && exists e :: e in db.ledger && e.id == what.id && e.op == op && e.playerId == p
                                     && e.boardId == b && e.amount == amount
    case PlayerPayload(name) =>
      what.ProfileMade? && what.playerId in db.profiles && db.profiles[what.playerId].name == name
  }

  /** One delivery: without a record it either changes nothing or makes the event or profile and
      records it; with a matching record it changes nothing and is answered with success. */
  lemma OneDelivery(s: System, payload: Payload, key: string, a: Arrival)
    requires key != "" && Matches(s.db, payload, key)
    ensures var s' := Next(s, StepOf(payload, key, a));
            var made := Caused(s.db, payload, key, a);
            && Matches(s'.db, payload, key)
            && (made.None? ==> s' == s)
            && (made.Some? ==> Recorded(s.db, payload, key).None? && Recorded(s'.db, payload, key) == made
                               && InStore(s'.db, payload, made.value))
            && (Accepts(s.db, payload, key, a) ==> Recorded(s'.db, payload, key).Some?)
            && (Recorded(s.db, payload, key).Some? ==> Accepts(s.db, payload, key, a))
  {
    hide Binary64.Add, Replay.Command;
    if payload.ScorePayload? {
      var w := WriteOf(payload, key, a);
      if ScoreOutcome(s.db, w, a.now).Applied? {
        var e := NewEvent(s.db, w, a.now);
        assert ApplyScore(s.db, w, a.now).ledger[|s.db.ledger|] == e;
      }
    }
  }

  /** Steps that neither use the key nor expire its records. */
  predicate Foreign(step: Step, key: string) {
    match step
    case ScoreStep(w, _) => w.key != key
    case PlayerStep(_, _, _, k) => k != key
    case ExpireStep(k) => k.key != key
    case ExpireCreationStep(k) => k != key
    case _ => true
  }

  lemma ForeignKeepsRecord(s: System, step: Step, payload: Payload, key: string)
    requires Foreign(step, key)
    ensures Recorded(Next(s, step).db, payload, key) == Recorded(s.db, payload, key)
    ensures Matches(Next(s, step).db, payload, key) == Matches(s.db, payload, key)
  {
    hide Binary64.Add, Replay.Command;
  }

  lemma StepKeepsStored(s: System, step: Step, payload: Payload, what: Made)
    requires InStore(s.db, payload, what)
    ensures InStore(Next(s, step).db, payload, what)
  {
    hide Binary64.Add, Replay.Command;
    StepGrowsByOne(s, step);
    if payload.ScorePayload? {
      var e :| e in s.db.ledger && e.id == what.id && e.op == payload.op && e.playerId == payload.playerId
               && e.boardId == payload.boardId && e.amount == payload.amount;
      assert e in Next(s, step).db.ledger;
    }
  }

  // ---- client, network and server ---------------------------------------------------------

  datatype Status = InFlight | Succeeded | GaveUp

  /** A logical write the user meant, and the key of its first send. */
  datatype Intent = Intent(payload: Payload, key: string)

  /** One sendIdempotentJSON call.  A call made while an earlier intent of the same payload has not
      been seen to succeed is that intent's retry.  `answered`: the server answered some delivery of
      this call with success. */
  datatype Call = Call(payload: Payload, key: string, intent: nat, status: Status, answered: bool)

  datatype Effect = Effect(intent: nat, what: Made)

  /** The client is `pending` and its calls; the rest is bookkeeping of this model: the keys it ever
      generated, its intents and the unfinished one of each payload, and every event or profile its
      requests made. */
  datatype World = World(
    sys: System, pending: map<Payload, string>, calls: seq<Call>,
    issued: set<string>, intents: seq<Intent>, open: map<Payload, nat>, effects: seq<Effect>)

  datatype Move =
    | Send(payload: Payload, uuid: string)
    | Arrive(call: nat, arrival: Arrival)   // any request ever sent, any number of times
    | SeeSuccess(call: nat)
    | SeeFailure(call: nat)                 // an error answer, a lost answer, a lost request
    | Other(step: Step)

  /** No write used the key before. */
  predicate Unused(w: World, key: string) {
    && key != "" && key !in w.issued
    && (forall k :: k in w.sys.db.records ==> k.key != key)
    && key !in w.sys.db.creations
  }

  /** Random keys are new, other clients do not know them, and no record of them expires. */
  predicate Possible(w: World, m: Move) {
    match m
    case Send(payload, uuid) => payload in w.pending || Unused(w, uuid)
    case Arrive(i, _) => i < |w.calls|
    case SeeSuccess(i) => i < |w.calls| && w.calls[i].status.InFlight? && w.calls[i].answered
    case SeeFailure(i) => i < |w.calls| && w.calls[i].status.InFlight?
    case Other(step) => forall key :: key in w.issued ==> Foreign(step, key)
  }

  /** The page's busy flag: no write is started while one is in flight.  Only this much of it is
      needed: no new key for a payload with a call in flight. */
  predicate NotBusy(w: World, m: Move) {
    m.Send? && m.payload !in w.pending ==>
      forall i :: 0 <= i < |w.calls| && w.calls[i].status.InFlight? ==> w.calls[i].payload != m.payload
  }

  function Sent(w: World, payload: Payload, uuid: string): World {
    var pending := KeysAtSend(w.pending, payload, uuid);
    var intents := if payload in w.open then w.intents else w.intents + [Intent(payload, pending[payload])];
    var intent := if payload in w.open then w.open[payload] else |w.intents|;
    w.(pending := pending,
       issued := w.issued + {pending[payload]},
       intents := intents,
       open := w.open[payload := intent],
       calls := w.calls + [Call(payload, pending[payload], intent, InFlight, false)])
  }

  function Arrived(w: World, i: nat, a: Arrival): World
    requires i < |w.calls|
  {
    var c := w.calls[i];
    var made := Caused(w.sys.db, c.payload, c.key, a);
    w.(sys := Next(w.sys, StepOf(c.payload, c.key, a)),
       calls := w.calls[i := c.(answered := c.answered || Accepts(w.sys.db, c.payload, c.key, a))],
       effects := if made.Some? then w.effects + [Effect(c.intent, made.value)] else w.effects)
  }

  function SawSuccess(w: World, i: nat): World
    requires i < |w.calls|
  {
    var c := w.calls[i];
    w.(pending := w.pending - {c.payload},
       open := if c.payload in w.open && w.open[c.payload] == c.intent then w.open - {c.payload} else w.open,
       calls := w.calls[i := c.(status := Succeeded)])
  }

  function SawFailure(w: World, i: nat): World
    requires i < |w.calls|
  {
    w.(calls := w.calls[i := w.calls[i].(status := GaveUp)])
  }

  function Moved(w: World, m: Move): World
    requires Possible(w, m)
  {
    match m
    case Send(payload, uuid) => Sent(w, payload, uuid)
    case Arrive(i, a) => Arrived(w, i, a)
    case SeeSuccess(i) => SawSuccess(w, i)
    case SeeFailure(i) => SawFailure(w, i)
    case Other(step) => w.(sys := Next(w.sys, step))
  }

  class WriteKeys {
    var pending: map<Payload, string>

    constructor ()
      ensures pending == map[]
    {
      pending := map[];
    }

    /** The key map is that of world w. */
    ghost predicate Follows(w: World)
      reads this
    {
      pending == w.pending
    }

    /** The part of a send before its request. */
    method BeginSend(payload: Payload, randomUUID: string, ghost w: World) returns (key: string)
      requires Follows(w) && Possible(w, Send(payload, randomUUID))
      modifies this
      ensures Follows(Moved(w, Send(payload, randomUUID)))
      ensures key == Moved(w, Send(payload, randomUUID)).calls[|w.calls|].key
      ensures key == if payload in old(pending) then old(pending)[payload] else randomUUID
      ensures pending == old(pending)[payload := key]
    {
      if payload !in pending {
        pending := pending[payload := randomUUID];
      }
      key := pending[payload];
    }

    /** The part after the answer of one of the calls, or after its failure. */
    method EndSend(payload: Payload, succeeded: bool, ghost w: World, ghost call: nat)
      requires Follows(w) && Possible(w, if succeeded then SeeSuccess(call) else SeeFailure(call))
      requires w.calls[call].payload == payload
      modifies this
      ensures Follows(Moved(w, if succeeded then SeeSuccess(call) else SeeFailure(call)))
      ensures pending == if succeeded then old(pending) - {payload} else old(pending)
    {
      if succeeded {
        pending := pending - {payload};
      }
    }
  }

  predicate PossibleRun(w: World, moves: seq<Move>)
    decreases |moves|
  {
    moves == [] || (Possible(w, moves[0]) && PossibleRun(Moved(w, moves[0]), moves[1..]))
  }

  function RunOf(w: World, moves: seq<Move>): World
    requires PossibleRun(w, moves)
    decreases |moves|
  {
    if moves == [] then w else RunOf(Moved(w, moves[0]), moves[1..])
  }

  predicate NeverBusy(w: World, moves: seq<Move>)
    requires PossibleRun(w, moves)
    decreases |moves|
  {
    moves == [] || (NotBusy(w, moves[0]) && NeverBusy(Moved(w, moves[0]), moves[1..]))
  }

  function Fresh(sys: System): World {
    World(sys, map[], [], {}, [], map[], [])
  }

  // ---- the invariant ----------------------------------------------------------------------

  predicate HasEffect(effects: seq<Effect>, intent: nat) {
    exists k :: 0 <= k < |effects| && effects[k].intent == intent
  }

  /** An intent had its effect exactly when its key is recorded, and then it is the recorded one,
      in the store with the payload's content; until then it is unfinished. */
  ghost predicate IntentOk(w: World, j: nat)
    requires j < |w.intents|
  {
    var intent := w.intents[j];
    var made := Recorded(w.sys.db, intent.payload, intent.key);
    && intent.key != "" && intent.key in w.issued
    && Matches(w.sys.db, intent.payload, intent.key)
    && (made.Some? ==> Effect(j, made.value) in w.effects && InStore(w.sys.db, intent.payload, made.value))
    && (made.None? ==>
          !HasEffect(w.effects, j) && intent.payload in w.open && w.open[intent.payload] == j)
  }

  /** Different intents have different keys. */
  ghost predicate IntentsOk(w: World) {
    && (forall j: nat :: j < |w.intents| ==> IntentOk(w, j))
    && (forall i, j :: 0 <= i < j < |w.intents| ==> w.intents[i].key != w.intents[j].key)
  }

  /** Every call of an intent carries the intent's key; one that was answered with success has
      its key recorded. */
  ghost predicate CallOk(w: World, c: Call) {
    && c.intent < |w.intents| && w.intents[c.intent] == Intent(c.payload, c.key)
    && (c.answered ==> Recorded(w.sys.db, c.payload, c.key).Some?)
    && (c.status.Succeeded? ==> c.answered)
    && (c.status.InFlight? && c.payload in w.open ==> w.open[c.payload] == c.intent)
  }

  ghost predicate CallsOk(w: World) {
    forall i :: 0 <= i < |w.calls| ==> CallOk(w, w.calls[i])
  }

  /** Exactly the unfinished intents have their key pending. */
  ghost predicate PendingOk(w: World) {
    && w.pending.Keys == w.open.Keys
    && forall p :: p in w.open ==> w.open[p] < |w.intents| && w.intents[w.open[p]] == Intent(p, w.pending[p])
  }

  /** No intent had two effects. */
  ghost predicate EffectsOk(w: World) {
    && (forall i, j :: 0 <= i < j < |w.effects| ==> w.effects[i].intent != w.effects[j].intent)
    && (forall i :: 0 <= i < |w.effects| ==> w.effects[i].intent < |w.intents|)
  }

  ghost predicate WorldOk(w: World) {
    IntentsOk(w) && CallsOk(w) && PendingOk(w) && EffectsOk(w)
  }

  lemma FreshIsOk(sys: System)
    ensures WorldOk(Fresh(sys))
  {
  }

  // ---- each move keeps it -----------------------------------------------------------------

  lemma RetryKeepsOk(w: World, payload: Payload, uuid: string)
    requires WorldOk(w) && payload in w.pending
    ensures WorldOk(Sent(w, payload, uuid))
  {
    hide Recorded, Matches, InStore, HasEffect;
    var w' := Sent(w, payload, uuid);
    forall j: nat | j < |w.intents| ensures IntentOk(w', j) {
      assert IntentOk(w, j);
    }
    forall i | 0 <= i < |w.calls| ensures CallOk(w', w.calls[i]) {
      assert CallOk(w, w.calls[i]);
    }
  }

  lemma FirstSendKeepsIntents(w: World, payload: Payload, uuid: string)
    requires WorldOk(w) && payload !in w.pending && Unused(w, uuid)
    ensures IntentsOk(Sent(w, payload, uuid))
  {
    hide InStore;
    var w' := Sent(w, payload, uuid);
    forall j: nat | j < |w.intents| ensures IntentOk(w', j) && w.intents[j].key != uuid {
      assert IntentOk(w, j);
    }
    assert IntentOk(w', |w.intents|);
  }

  lemma FirstSendKeepsOk(w: World, payload: Payload, uuid: string)
    requires WorldOk(w) && payload !in w.pending && Unused(w, uuid) && NotBusy(w, Send(payload, uuid))
    ensures WorldOk(Sent(w, payload, uuid))
  {
    hide Recorded, Matches, InStore, IntentOk;
    var w' := Sent(w, payload, uuid);
    FirstSendKeepsIntents(w, payload, uuid);
    forall i | 0 <= i < |w.calls| ensures CallOk(w', w.calls[i]) {
      assert CallOk(w, w.calls[i]);
    }
  }

  lemma SuccessKeepsOk(w: World, i: nat)
    requires WorldOk(w) && Possible(w, SeeSuccess(i))
    ensures WorldOk(SawSuccess(w, i))
  {
    hide Recorded, Matches, InStore, HasEffect;
    var w' := SawSuccess(w, i);
    assert CallOk(w, w.calls[i]);
    forall j: nat | j < |w.intents| ensures IntentOk(w', j) {
      assert IntentOk(w, j);
    }
    forall k | 0 <= k < |w.calls| ensures CallOk(w', w'.calls[k]) {
      assert CallOk(w, w.calls[k]);
    }
  }

  lemma FailureKeepsOk(w: World, i: nat)
    requires WorldOk(w) && Possible(w, SeeFailure(i))
    ensures WorldOk(SawFailure(w, i))
  {
    hide Recorded, Matches, InStore, HasEffect;
    var w' := SawFailure(w, i);
    forall j: nat | j < |w.intents| ensures IntentOk(w', j) {
      assert IntentOk(w, j);
    }
    forall k | 0 <= k < |w.calls| ensures CallOk(w', w'.calls[k]) {
      assert CallOk(w, w.calls[k]);
    }
  }

  /** A system step that leaves an intent's record and effects alone keeps the intent. */
  lemma StepKeepsIntent(w: World, step: Step, effects: seq<Effect>, j: nat)
    requires j < |w.intents| && IntentOk(w, j) && Foreign(step, w.intents[j].key)
    requires w.effects <= effects && (HasEffect(effects, j) ==> HasEffect(w.effects, j))
    ensures IntentOk(w.(sys := Next(w.sys, step), effects := effects), j)
    ensures var intent := w.intents[j];
            Recorded(Next(w.sys, step).db, intent.payload, intent.key) == Recorded(w.sys.db, intent.payload, intent.key)
  {
    var intent := w.intents[j];
    ForeignKeepsRecord(w.sys, step, intent.payload, intent.key);
    var made := Recorded(w.sys.db, intent.payload, intent.key);
    hide Recorded, Matches, Next, Foreign, HasEffect;
    if made.Some? {
      StepKeepsStored(w.sys, step, intent.payload, made.value);
      hide InStore;
      assert Effect(j, made.value) in effects;
    }
  }

  lemma OtherKeepsOk(w: World, step: Step)
    requires WorldOk(w) && Possible(w, Other(step))
    ensures WorldOk(Moved(w, Other(step)))
  {
    hide Recorded, Matches, InStore, HasEffect, Next, Foreign;
    var w' := Moved(w, Other(step));
    forall j: nat | j < |w.intents|
      ensures IntentOk(w', j)
      ensures Recorded(w'.sys.db, w.intents[j].payload, w.intents[j].key)
           == Recorded(w.sys.db, w.intents[j].payload, w.intents[j].key)
    {
      assert IntentOk(w, j);
      StepKeepsIntent(w, step, w.effects, j);
    }
    forall k | 0 <= k < |w.calls| ensures CallOk(w', w.calls[k]) {
      assert CallOk(w, w.calls[k]);
    }
  }

  lemma OwnDeliveryKeepsIntent(w: World, i: nat, a: Arrival)
    requires WorldOk(w) && i < |w.calls|
    ensures IntentOk(Arrived(w, i, a), w.calls[i].intent)
    ensures var c := w.calls[i];
            Caused(w.sys.db, c.payload, c.key, a).Some? ==> !HasEffect(w.effects, c.intent)
    ensures var c := w.calls[i];
            var db' := Arrived(w, i, a).sys.db;
            && (Recorded(w.sys.db, c.payload, c.key).Some? || Accepts(w.sys.db, c.payload, c.key, a) ==>
                  Recorded(db', c.payload, c.key).Some?)
  {
    var c := w.calls[i];
    assert CallOk(w, c) && IntentOk(w, c.intent);
    OneDelivery(w.sys, c.payload, c.key, a);
    hide Recorded, Matches, InStore, Next, StepOf, Caused, Accepts;
    var made := Caused(w.sys.db, c.payload, c.key, a);
    if made.Some? {
      var w' := Arrived(w, i, a);
      assert w'.effects[|w.effects|] == Effect(c.intent, made.value);
    }
  }

  lemma OtherIntentsKept(w: World, i: nat, a: Arrival, j: nat)
    requires WorldOk(w) && i < |w.calls| && j < |w.intents| && j != w.calls[i].intent
    ensures IntentOk(Arrived(w, i, a), j)
    ensures var intent := w.intents[j];
            Recorded(Arrived(w, i, a).sys.db, intent.payload, intent.key)
            == Recorded(w.sys.db, intent.payload, intent.key)
  {
    var c := w.calls[i];
    assert CallOk(w, c) && IntentOk(w, j);
    var step := StepOf(c.payload, c.key, a);
    assert Foreign(step, w.intents[j].key);
    hide Recorded, Matches, InStore, Next, StepOf, Foreign, Caused, Accepts;
    StepKeepsIntent(w, step, Arrived(w, i, a).effects, j);
  }

  lemma ArriveKeepsOk(w: World, i: nat, a: Arrival)
    requires WorldOk(w) && i < |w.calls|
    ensures WorldOk(Arrived(w, i, a))
  {
    var c := w.calls[i];
    var w' := Arrived(w, i, a);
    assert CallOk(w, c);
    OwnDeliveryKeepsIntent(w, i, a);
    hide Recorded, Matches, InStore, Next, StepOf, Caused, Accepts, IntentOk;
    forall j: nat | j < |w.intents| && j != c.intent
      ensures IntentOk(w', j)
      ensures Recorded(w'.sys.db, w.intents[j].payload, w.intents[j].key)
           == Recorded(w.sys.db, w.intents[j].payload, w.intents[j].key)
    {
      OtherIntentsKept(w, i, a, j);
    }
    forall k | 0 <= k < |w.calls| ensures CallOk(w', w'.calls[k]) {
      assert CallOk(w, w.calls[k]);
    }
  }

  lemma MoveKeepsOk(w: World, m: Move)
    requires WorldOk(w) && Possible(w, m) && NotBusy(w, m)
    ensures WorldOk(Moved(w, m))
  {
    hide WorldOk;
    match m
    case Send(payload, uuid) =>
      if payload in w.pending {
        RetryKeepsOk(w, payload, uuid);
      } else {
        FirstSendKeepsOk(w, payload, uuid);
      }
    case Arrive(i, a) => ArriveKeepsOk(w, i, a);
    case SeeSuccess(i) => SuccessKeepsOk(w, i);
    case SeeFailure(i) => FailureKeepsOk(w, i);
    case Other(step) => OtherKeepsOk(w, step);
  }

  lemma {:induction false} RunKeepsWorldOk(w: World, moves: seq<Move>)
    requires WorldOk(w) && PossibleRun(w, moves) && NeverBusy(w, moves)
    ensures WorldOk(RunOf(w, moves))
    decreases |moves|
  {
    hide WorldOk;
    if moves != [] {
      MoveKeepsOk(w, moves[0]);
      RunKeepsWorldOk(Moved(w, moves[0]), moves[1..]);
    }
  }

  /** Which sends are one write: until a write is seen to succeed every further send of its payload is
      its retry, under its key; the first send after that is a new write, under the new key. */
  lemma SendStartsNewWriteIff(w: World, payload: Payload, uuid: string)
    requires WorldOk(w)
    ensures var sent := Sent(w, payload, uuid);
            var call := sent.calls[|w.calls|];
            && call.payload == payload && sent.intents[call.intent] == Intent(payload, call.key)
            && (payload !in w.pending ==>
                  call.key == uuid && call.intent == |w.intents| && |sent.intents| == |w.intents| + 1)
            && (payload in w.pending ==>
                  call.key == w.pending[payload] && call.intent < |w.intents| && sent.intents == w.intents)
    ensures forall i :: 0 <= i < |w.calls| && Possible(w, SeeSuccess(i)) ==>
              w.calls[i].payload !in SawSuccess(w, i).pending
    ensures forall i :: 0 <= i < |w.calls| && Possible(w, SeeFailure(i)) ==> SawFailure(w, i).pending == w.pending
  {
    hide IntentsOk, CallsOk, EffectsOk;
  }

  /** End-to-end exactly-once.  Over every run in which requests and answers are lost, delayed and
      duplicated, other clients and administrators do anything, and calls are retried any number of
      times: no logical write makes two events or two profiles, and one whose success the client
      has seen made exactly one, which is in the store with the payload's content. */
  lemma ExactlyOnce(sys: System, moves: seq<Move>, i: nat)
    requires PossibleRun(Fresh(sys), moves) && NeverBusy(Fresh(sys), moves)
    requires i < |RunOf(Fresh(sys), moves).calls|
    ensures var w := RunOf(Fresh(sys), moves);
            var c := w.calls[i];
            && (forall a, b :: 0 <= a < b < |w.effects| ==> w.effects[a].intent != w.effects[b].intent)
            && (c.status.Succeeded? ==>
                  exists made :: Effect(c.intent, made) in w.effects && InStore(w.sys.db, c.payload, made))
  {
    FreshIsOk(sys);
    RunKeepsWorldOk(Fresh(sys), moves);
    var w := RunOf(Fresh(sys), moves);
    assert CallOk(w, w.calls[i]) && IntentOk(w, w.calls[i].intent);
    hide InStore, Matches;
    if w.calls[i].status.Succeeded? {
      var made := Recorded(w.sys.db, w.calls[i].payload, w.calls[i].key);
      assert Effect(w.calls[i].intent, made.value) in w.effects;
    }
  }

  /** Also a write whose answer the client never saw: each effect is in the store, with the content
      of the write the user meant. */
  lemma EffectsAreStored(sys: System, moves: seq<Move>, k: nat)
    requires PossibleRun(Fresh(sys), moves) && NeverBusy(Fresh(sys), moves)
    requires k < |RunOf(Fresh(sys), moves).effects|
    ensures var w := RunOf(Fresh(sys), moves);
            var e := w.effects[k];
            e.intent < |w.intents| && InStore(w.sys.db, w.intents[e.intent].payload, e.what)
  {
    FreshIsOk(sys);
    RunKeepsWorldOk(Fresh(sys), moves);
    var w := RunOf(Fresh(sys), moves);
    hide InStore, Matches, Recorded;
    var j := w.effects[k].intent;
    assert IntentOk(w, j) && HasEffect(w.effects, j);
    var made := Recorded(w.sys.db, w.intents[j].payload, w.intents[j].key);
    var i :| 0 <= i < |w.effects| && w.effects[i] == Effect(j, made.value);
  }

  lemma DeliveryGrows(s: System, payload: Payload, key: string, a: Arrival)
    ensures var s' := Next(s, StepOf(payload, key, a));
            if Caused(s.db, payload, key, a).None? then s' == s
            else |s'.db.ledger| + |s'.db.profiles| == |s.db.ledger| + |s.db.profiles| + 1
  {
    hide Binary64.Add, Replay.Command;
  }

  /** The effects are all there is: a delivery of the client's request adds one event or profile
      when it adds an effect, and changes nothing when it does not. */
  lemma EffectsCountWrites(w: World, i: nat, a: Arrival)
    requires i < |w.calls|
    ensures var w' := Arrived(w, i, a);
            && |w'.sys.db.ledger| + |w'.sys.db.profiles| - |w.sys.db.ledger| - |w.sys.db.profiles|
               == |w'.effects| - |w.effects|
            && (w'.effects == w.effects ==> w'.sys == w.sys)
  {
    hide Next, Caused, StepOf, Accepts;
    var c := w.calls[i];
    DeliveryGrows(w.sys, c.payload, c.key, a);
  }

  // ---- without the busy flag --------------------------------------------------------------

  lemma {:induction false} RunExtends(w: World, moves: seq<Move>, m: Move)
    requires PossibleRun(w, moves) && Possible(RunOf(w, moves), m)
    ensures PossibleRun(w, moves + [m]) && RunOf(w, moves + [m]) == Moved(RunOf(w, moves), m)
    decreases |moves|
  {
    hide Moved, Possible;
    if moves == [] {
      assert ([] + [m])[1..] == [];
    } else {
      assert (moves + [m])[1..] == moves[1..] + [m];
      RunExtends(Moved(w, moves[0]), moves[1..], m);
    }
  }

  lemma OwnStepRecords(s: System, payload: Payload, key: string, a: Arrival, other: string)
    requires other != key
    requires (forall k :: k in s.db.records ==> k.key != other) && other !in s.db.creations
    ensures var db' := Next(s, StepOf(payload, key, a)).db;
            (forall k :: k in db'.records ==> k.key != other) && other !in db'.creations
  {
    hide Binary64.Add, Replay.Command;
  }

  /** The server accepts the payload under two new keys, one after the other. */
  predicate AcceptedTwice(s: System, payload: Payload, key: string, a: Arrival, key': string, a': Arrival) {
    && Caused(s.db, payload, key, a).Some?
    && Caused(Next(s, StepOf(payload, key, a)).db, payload, key', a').Some?
  }

  /** The next write of a payload has begun while call x of an earlier one is in flight. */
  ghost predicate Overtaken(w: World, x: nat, n: nat, payload: Payload) {
    && x < n < |w.calls| && w.calls[x].payload == payload && w.calls[x].status.InFlight?
    && w.calls[n].payload == payload && w.calls[n].status.InFlight?
    && payload in w.open && w.open[payload] == w.calls[n].intent != w.calls[x].intent
    && payload in w.pending
  }

  lemma BusySendOvertakes(w: World, payload: Payload, uuid: string, x: nat)
    requires WorldOk(w) && payload !in w.pending
    requires x < |w.calls| && w.calls[x].payload == payload && w.calls[x].status.InFlight?
    ensures Overtaken(Sent(w, payload, uuid), x, |w.calls|, payload)
    ensures Recorded(w.sys.db, payload, w.calls[x].key).Some?
  {
    hide Recorded, Matches, InStore, HasEffect;
    assert CallOk(w, w.calls[x]) && IntentOk(w, w.calls[x].intent);
  }

  /** Delivering the overtaken call again changes nothing, and the server answers it with success. */
  lemma LateDelivery(w: World, x: nat, a: Arrival)
    requires x < |w.calls| && w.calls[x].key != ""
    requires Matches(w.sys.db, w.calls[x].payload, w.calls[x].key)
    requires Recorded(w.sys.db, w.calls[x].payload, w.calls[x].key).Some?
    ensures Arrived(w, x, a) == w.(calls := w.calls[x := w.calls[x].(answered := true)])
  {
    OneDelivery(w.sys, w.calls[x].payload, w.calls[x].key, a);
    hide Recorded, Matches, InStore, Next, StepOf, Caused, Accepts;
  }

  /** What the late success, the lost answer and the retry do to the overtaking write. */
  lemma TailOfDuplicate(
    w: World, x: nat, n: nat, payload: Payload, a: Arrival, uuid': string, a': Arrival)
    requires Overtaken(w, x, n, payload) && w.calls[x].answered && |w.calls| == n + 1
    requires Unused(w, uuid') && w.calls[n].key != uuid'
    requires AcceptedTwice(w.sys, payload, w.calls[n].key, a, uuid', a')
    ensures var w1 := SawSuccess(w, x);
            var w2 := Arrived(w1, n, a);
            var w3 := SawFailure(w2, n);
            var w4 := Sent(w3, payload, uuid');
            var w5 := Arrived(w4, n + 1, a');
            && Possible(w, SeeSuccess(x)) && Possible(w1, Arrive(n, a)) && Possible(w2, SeeFailure(n))
            && Possible(w3, Send(payload, uuid')) && Possible(w4, Arrive(n + 1, a'))
            && |w5.effects| == |w.effects| + 2
            && w5.effects[|w.effects|].intent == w5.effects[|w.effects| + 1].intent == w.calls[n].intent
  {
    OwnStepRecords(w.sys, payload, w.calls[n].key, a, uuid');
    hide Next, StepOf, Caused, Accepts;
  }

  lemma TailRun(
    w0: World, begun: seq<Move>, x: nat, n: nat, payload: Payload, a: Arrival, uuid': string, a': Arrival)
    returns (moves: seq<Move>)
    requires PossibleRun(w0, begun)
    requires var w := RunOf(w0, begun);
             && Overtaken(w, x, n, payload) && w.calls[x].answered && |w.calls| == n + 1
             && Unused(w, uuid') && w.calls[n].key != uuid'
             && AcceptedTwice(w.sys, payload, w.calls[n].key, a, uuid', a')
    ensures begun <= moves && PossibleRun(w0, moves)
    ensures var w, t := RunOf(w0, begun), RunOf(w0, moves);
            && |t.effects| == |w.effects| + 2
            && t.effects[|w.effects|].intent == t.effects[|w.effects| + 1].intent == w.calls[n].intent
  {
    TailOfDuplicate(RunOf(w0, begun), x, n, payload, a, uuid', a');
    hide Possible, Overtaken, Unused, AcceptedTwice, Sent, Arrived, SawSuccess, SawFailure;
    hide PossibleRun, RunOf;
    RunExtends(w0, begun, SeeSuccess(x));
    moves := begun + [SeeSuccess(x)];
    RunExtends(w0, moves, Arrive(n, a));
    moves := moves + [Arrive(n, a)];
    RunExtends(w0, moves, SeeFailure(n));
    moves := moves + [SeeFailure(n)];
    RunExtends(w0, moves, Send(payload, uuid'));
    moves := moves + [Send(payload, uuid')];
    RunExtends(w0, moves, Arrive(n + 1, a'));
    moves := moves + [Arrive(n + 1, a')];
  }

  /** The busy rule is needed wherever it is broken: take any state a run within the rule can reach, and
      any send that breaks it.  If the server accepts that payload twice, the run can go on to make two
      events or profiles of the one write just begun. */
  lemma BusySendCanDuplicate(
    w: World, payload: Payload, uuid: string, x: nat, a: Arrival, uuid': string, a': Arrival)
    returns (moves: seq<Move>)
    requires WorldOk(w) && Possible(w, Send(payload, uuid)) && payload !in w.pending
    requires x < |w.calls| && w.calls[x].payload == payload && w.calls[x].status.InFlight?
    requires Unused(w, uuid') && uuid' != uuid && AcceptedTwice(w.sys, payload, uuid, a, uuid', a')
    ensures !NotBusy(w, Send(payload, uuid))
    ensures [Send(payload, uuid)] <= moves && PossibleRun(w, moves)
    ensures var t := RunOf(w, moves);
            var k := |w.effects|;
            |t.effects| == k + 2 && t.effects[k].intent == t.effects[k + 1].intent == |w.intents|
  {
    BusySendOvertakes(w, payload, uuid, x);
    OvertakenIsOk(w, payload, uuid, x);
    hide WorldOk, IntentOk, CallOk, Recorded, Matches, Next, StepOf, Caused, Accepts, AcceptedTwice, Arrived;
    var w1 := Sent(w, payload, uuid);
    LateDelivery(w1, x, a);
    RunExtends(w, [], Send(payload, uuid));
    RunExtends(w, [] + [Send(payload, uuid)], Arrive(x, a));
    moves := TailRun(w, [] + [Send(payload, uuid)] + [Arrive(x, a)], x, |w.calls|, payload, a, uuid', a');
  }

  lemma OvertakenIsOk(w: World, payload: Payload, uuid: string, x: nat)
    requires WorldOk(w) && payload !in w.pending && x < |w.calls| && w.calls[x].payload == payload
    ensures w.calls[x].key != "" && Matches(w.sys.db, payload, w.calls[x].key)
    ensures Sent(w, payload, uuid).calls[|w.calls|].intent == |w.intents|
  {
    hide Recorded, Matches, InStore, HasEffect;
    assert CallOk(w, w.calls[x]) && IntentOk(w, w.calls[x].intent);
  }

  /** A success deletes whatever key its payload has pending.  That is the key of an unfinished
      intent exactly when the call served another intent than the open one. */
  lemma SuccessDropsOpenKeyIff(w: World, i: nat)
    requires PendingOk(w) && Possible(w, SeeSuccess(i))
    ensures var p := w.calls[i].payload;
            (p in SawSuccess(w, i).open && p !in SawSuccess(w, i).pending)
            <==> p in w.open && w.open[p] != w.calls[i].intent
  {
  }

  const REPEATED := ScorePayload(Set, "p", "b", 5)

  /** Player "p" and an open board "b" exist. */
  predicate Arena(db: Db) {
    "p" in db.profiles && "b" in db.boards && db.boards["b"].Active?
  }

  lemma RepeatedArrives(w: World, i: nat, a: Arrival)
    requires i < |w.calls| && w.calls[i].payload == REPEATED && Arena(w.sys.db) && w.calls[i].key != ""
    ensures var w' := Arrived(w, i, a);
            var c := w.calls[i];
            var isNew := Key("b", "p", c.key) !in w.sys.db.records;
            && Arena(w'.sys.db)
            && w'.pending == w.pending && w'.open == w.open && w'.issued == w.issued && w'.intents == w.intents
            && |w'.effects| == |w.effects| + (if isNew then 1 else 0)
            && w.effects <= w'.effects
            && (isNew ==> w'.effects[|w.effects|].intent == c.intent)
            && w'.sys.db.records.Keys == w.sys.db.records.Keys + {Key("b", "p", c.key)}
            && w'.sys.db.creations == w.sys.db.creations
            && (isNew ==> w'.calls == w.calls[i := c.(answered := true)])
            && (!isNew && Matches(w.sys.db, REPEATED, c.key) ==> w'.calls == w.calls[i := c.(answered := true)])
            && (isNew ==> Matches(w'.sys.db, REPEATED, c.key))
  {
    Binary64.SmallIsExact(5);
  }

  const ARRIVAL := Arrival(0, "r", "", "")

  /** Two overlapping calls of one write have ended, and the late one's success took the key of the
      next write, whose call is still in flight. */
  predicate KeyTaken(w: World) {
    && Arena(w.sys.db) && w.sys.db.records.Keys == {Key("b", "p", "1")} && w.sys.db.creations == map[]
    && w.pending == map[] && w.open == map[REPEATED := 1] && |w.intents| == 2 && w.issued == {"1", "2"}
    && |w.calls| == 3 && w.calls[2] == Call(REPEATED, "2", 1, InFlight, false) && |w.effects| == 1
  }

  lemma OverlapTakesKey(sys: System) returns (moves: seq<Move>)
    requires Arena(sys.db) && sys.db.records == map[] && sys.db.creations == map[]
    ensures PossibleRun(Fresh(sys), moves) && KeyTaken(RunOf(Fresh(sys), moves))
  {
    hide Arrived, Caused, Accepts, Next, StepOf, Recorded;
    var w0 := Fresh(sys);
    var w1 := Sent(w0, REPEATED, "1");
    var w2 := Sent(w1, REPEATED, "x");
    RepeatedArrives(w2, 0, ARRIVAL);
    var w3 := Arrived(w2, 0, ARRIVAL);
    var w4 := SawSuccess(w3, 0);
    var w5 := Sent(w4, REPEATED, "2");
    RepeatedArrives(w5, 1, ARRIVAL);
    var w6 := Arrived(w5, 1, ARRIVAL);
    var w7 := SawSuccess(w6, 1);
    assert KeyTaken(w7);
    moves := [];
    RunExtends(w0, moves, Send(REPEATED, "1"));
    moves := moves + [Send(REPEATED, "1")];
    RunExtends(w0, moves, Send(REPEATED, "x"));
    moves := moves + [Send(REPEATED, "x")];
    RunExtends(w0, moves, Arrive(0, ARRIVAL));
    moves := moves + [Arrive(0, ARRIVAL)];
    RunExtends(w0, moves, SeeSuccess(0));
    moves := moves + [SeeSuccess(0)];
    RunExtends(w0, moves, Send(REPEATED, "2"));
    moves := moves + [Send(REPEATED, "2")];
    RunExtends(w0, moves, Arrive(1, ARRIVAL));
    moves := moves + [Arrive(1, ARRIVAL)];
    RunExtends(w0, moves, SeeSuccess(1));
    moves := moves + [SeeSuccess(1)];
  }

  /** Without the busy flag exactly-once fails: after such an overlap a lost answer and a retry
      make one logical write two events. */
  lemma OverlapDuplicates(sys: System) returns (moves: seq<Move>)
    requires Arena(sys.db) && sys.db.records == map[] && sys.db.creations == map[]
    ensures PossibleRun(Fresh(sys), moves)
    ensures var w := RunOf(Fresh(sys), moves);
            |w.intents| == 2 && |w.effects| == 3 && w.effects[1].intent == w.effects[2].intent
  {
    hide Arrived, Caused, Accepts, Next, StepOf, Recorded;
    moves := OverlapTakesKey(sys);
    var w0 := Fresh(sys);
    var w7 := RunOf(w0, moves);
    RepeatedArrives(w7, 2, ARRIVAL);
    var w8 := Arrived(w7, 2, ARRIVAL);
    var w9 := SawFailure(w8, 2);
    var w10 := Sent(w9, REPEATED, "3");
    RepeatedArrives(w10, 3, ARRIVAL);
    RunExtends(w0, moves, Arrive(2, ARRIVAL));
    moves := moves + [Arrive(2, ARRIVAL)];
    RunExtends(w0, moves, SeeFailure(2));
    moves := moves + [SeeFailure(2)];
    RunExtends(w0, moves, Send(REPEATED, "3"));
    moves := moves + [Send(REPEATED, "3")];
    RunExtends(w0, moves, Arrive(3, ARRIVAL));
    moves := moves + [Arrive(3, ARRIVAL)];
  }
}
