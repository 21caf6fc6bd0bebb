/** The append-only ledger: stream ids, raw stream entries, and the decoding of an entry into an
    event. */
module Ledger {
  import opened Text
  import Binary64

  // ---- stream ids -------------------------------------------------------------------------

  datatype StreamId = StreamId(ms: nat, seqNo: nat) {
    function ToText(): string {
      IdText(ms, seqNo)
    }
  }

  /** Redis compares stream ids as pairs of numbers. */
  predicate Before(a: StreamId, b: StreamId) {
    a.ms < b.ms || (a.ms == b.ms && a.seqNo < b.seqNo)
  }

  /** The id "0-0": no entry has it, every entry comes after it. */
  const HEAD := StreamId(0, 0)

  // ---- events -----------------------------------------------------------------------------

  const SCORE_MAX: int := 10_000_000_000_000
  const INT64_MAX: int := 0x7fff_ffff_ffff_ffff

  /** score.Validate. */
  predicate InRange(v: int) {
    -SCORE_MAX <= v <= SCORE_MAX
  }

  predicate InInt64(v: int) {
    -INT64_MAX - 1 <= v <= INT64_MAX
  }

  datatype Op = Set | Increment

  function OpText(op: Op): string {
    match op
    case Set => "set"
    case Increment => "increment"
  }

  datatype Event = Event(
    id: StreamId, op: Op, playerId: string, boardId: string, amount: int, requestId: string)

  /** What every event the write path appends satisfies. */
  predicate ValidEvent(e: Event) {
    && Clean(e.playerId)
    && Clean(e.boardId)
    && InRange(e.amount)
    && e.requestId != ""
  }

  // ---- raw entries ------------------------------------------------------------------------

  datatype Entry = Entry(id: StreamId, fields: map<string, string>)

  const TYPE_FIELD := "type"
  const PLAYER_FIELD := "player_id"
  const BOARD_FIELD := "board_id"
  const AMOUNT_FIELD := "amount"
  const REQUEST_FIELD := "request_id"

  /** A string field of an entry, "" if absent. */
  function Field(entry: Entry, name: string): string {
    if name in entry.fields then entry.fields[name] else ""
  }

  datatype DecodeError =
    | MissingField(name: string)
    | UnknownType(text: string)
    | InvalidPlayer(text: string)
    | InvalidAmount(text: string)
    | AmountOutOfRange(amount: int)

  datatype Decoded = Ok(event: Event) | Rejected(error: DecodeError)

  /** Reads a decimal amount through a double, as ParseFloat and exactInt64 do. */
  function ParseAmount(s: string): Option<int> {
    match ParseInt(s)
    case None => None
    case Some(v) => if InInt64(Binary64.Round(v)) then Some(Binary64.Round(v)) else None
  }

  function EntryToEvent(entry: Entry): Decoded {
    var rawType := Field(entry, TYPE_FIELD);
    if rawType == "" then Rejected(MissingField(TYPE_FIELD)) else
    if rawType != OpText(Set) && rawType != OpText(Increment) then Rejected(UnknownType(rawType)) else
    var playerId := Field(entry, PLAYER_FIELD);
    if playerId == "" then Rejected(MissingField(PLAYER_FIELD)) else
    if !Clean(playerId) then Rejected(InvalidPlayer(playerId)) else
    var boardId := Field(entry, BOARD_FIELD);
    if boardId == "" then Rejected(MissingField(BOARD_FIELD)) else
    var rawAmount := Field(entry, AMOUNT_FIELD);
    if rawAmount == "" then Rejected(MissingField(AMOUNT_FIELD)) else
    match ParseAmount(rawAmount)
    case None => Rejected(InvalidAmount(rawAmount))
    case Some(amount) =>
      if !InRange(amount) then Rejected(AmountOutOfRange(amount)) else
      var requestId := Field(entry, REQUEST_FIELD);
      if requestId == "" then Rejected(MissingField(REQUEST_FIELD)) else
      Ok(Event(entry.id, if rawType == OpText(Set) then Set else Increment,
               playerId, boardId, amount, requestId))
  }

  /** The entry the write script appends for an event. */
  function EventToEntry(e: Event): Entry {
    Entry(e.id, map[
      TYPE_FIELD := OpText(e.op), PLAYER_FIELD := e.playerId, BOARD_FIELD := e.boardId,
      AMOUNT_FIELD := IntText(e.amount), REQUEST_FIELD := e.requestId])
  }

  function Encode(events: seq<Event>): (entries: seq<Entry>)
    ensures |entries| == |events|
    ensures forall i :: 0 <= i < |events| ==> entries[i] == EventToEntry(events[i])
  {
    seq(|events|, i requires 0 <= i < |events| => EventToEntry(events[i]))
  }

  lemma AmountRoundTrip(amount: int)
    requires InRange(amount)
    ensures ParseAmount(IntText(amount)) == Some(amount)
  {
    IntTextRoundTrip(amount);
    Binary64.SmallIsExact(amount);
  }

  /** Every entry the write path appends decodes to exactly the event written: a well-formed
      run never rejects an entry. */
  lemma EntryRoundTrip(e: Event)
    requires ValidEvent(e)
    ensures EntryToEvent(EventToEntry(e)) == Ok(e)
  {
    AmountRoundTrip(e.amount);
    IntTextChars(e.amount);
    assert OpText(Set)[0] != OpText(Increment)[0];
  }

  /** Decoding accepts an entry only with a clean player, an amount in range and a request id;
      and the decoded values are the entry's own. */
  lemma DecodedIsFaithful(entry: Entry)
    requires EntryToEvent(entry).Ok?
    ensures var e := EntryToEvent(entry).event;
            && e.id == entry.id
            && (e.op == Set ==> Field(entry, "type") == "set")
            && (e.op == Increment ==> Field(entry, "type") == "increment")
            && e.playerId == Field(entry, "player_id") && Clean(e.playerId)
            && e.boardId == Field(entry, "board_id") != ""
            && ParseInt(Field(entry, "amount")) == Some(e.amount) && InRange(e.amount)
            && e.requestId == Field(entry, "request_id") != ""
  {
    var v := ParseInt(Field(entry, AMOUNT_FIELD)).value;
    RoundedInRangeIsExact(v);
  }

  /** What exactly the decoder accepts. */
  lemma DecodesIff(entry: Entry)
    ensures EntryToEvent(entry).Ok?
       <==> && (Field(entry, "type") == "set" || Field(entry, "type") == "increment")
            && Field(entry, "player_id") != ""
            && ':' !in Field(entry, "player_id") && '|' !in Field(entry, "player_id")
            && Field(entry, "board_id") != ""
            && ParseInt(Field(entry, "amount")).Some?
            && -10_000_000_000_000 <= ParseInt(Field(entry, "amount")).value <= 10_000_000_000_000
            && Field(entry, "request_id") != ""
  {
    var amount := ParseInt(Field(entry, AMOUNT_FIELD));
    if amount.Some? {
      if InRange(amount.value) {
        Binary64.SmallIsExact(amount.value);
      }
      if InRange(Binary64.Round(amount.value)) {
        RoundedInRangeIsExact(amount.value);
      }
    }
  }

  /** The fields in the order in which decoding checks them. */
  const FIELD_ORDER := ["type", "player_id", "board_id", "amount", "request_id"]

  /** The field has a value an event can have. */
  predicate FieldOk(entry: Entry, name: string) {
    var text := Field(entry, name);
    && text != ""
    && (name == "type" ==> text == "set" || text == "increment")
    && (name == "player_id" ==> Clean(text))
    && (name == "amount" ==>
          ParseInt(text).Some? && -10_000_000_000_000 <= ParseInt(text).value <= 10_000_000_000_000)
  }

  /** The field an error complains about, and the text it quotes from it. */
  function FieldOf(error: DecodeError): string {
    match error
    case MissingField(name) => name
    case UnknownType(_) => "type"
    case InvalidPlayer(_) => "player_id"
    case InvalidAmount(_) => "amount"
    case AmountOutOfRange(_) => "amount"
  }

  /** A rejected entry is rejected for the first bad field in the order, as missing exactly when the
      field is empty. */
  lemma RejectionNamesFirstBadField(entry: Entry) returns (i: nat)
    requires EntryToEvent(entry).Rejected?
    ensures i < |FIELD_ORDER| && FieldOf(EntryToEvent(entry).error) == FIELD_ORDER[i]
    ensures !FieldOk(entry, FIELD_ORDER[i]) && forall j :: 0 <= j < i ==> FieldOk(entry, FIELD_ORDER[j])
    ensures EntryToEvent(entry).error.MissingField? <==> Field(entry, FIELD_ORDER[i]) == ""
    ensures EntryToEvent(entry).error.AmountOutOfRange? ==> ParseInt(Field(entry, "amount")).Some?
  {
    var error := EntryToEvent(entry).error;
    DecodesIff(entry);
    var amount := ParseInt(Field(entry, "amount"));
    if amount.Some? {
      if InRange(amount.value) {
        Binary64.SmallIsExact(amount.value);
      }
      if InRange(Binary64.Round(amount.value)) {
        RoundedInRangeIsExact(amount.value);
      }
    }
    hide Binary64.Round;
    if FieldOf(error) == "type" {
      i := 0;
    } else if FieldOf(error) == "player_id" {
      i := 1;
    } else if FieldOf(error) == "board_id" {
      i := 2;
    } else if FieldOf(error) == "amount" {
      i := 3;
    } else {
      i := 4;
    }
  }

  /** A value whose rounding is a legal score was that score: the decoder never rewrites an
      amount it accepts. */
  lemma RoundedInRangeIsExact(v: int)
    requires InRange(Binary64.Round(v))
    ensures Binary64.Round(v) == v
  {
    var n: nat := if v < 0 then -v else v;
    if n > Binary64.TWO_53 {
      Binary64.RoundMonotone(Binary64.TWO_53, n);
      Binary64.SmallIsExact(Binary64.TWO_53);
      assert false;
    }
    Binary64.SmallIsExact(v);
  }

  // ---- the stream -------------------------------------------------------------------------

  function LastId(ids: seq<StreamId>): StreamId {
    if ids == [] then HEAD else ids[|ids| - 1]
  }

  /** XADD with an automatic id: the first id after the last one that is not before the clock. */
  function NextId(last: StreamId, now: nat): (id: StreamId)
    ensures Before(last, id) && id.ms >= now
    ensures forall other :: Before(last, other) && other.ms >= now ==> other == id || Before(id, other)
  {
    if now > last.ms then StreamId(now, 0) else StreamId(last.ms, last.seqNo + 1)
  }

  predicate Increasing(ids: seq<StreamId>) {
    && (forall i :: 0 <= i < |ids| ==> Before(HEAD, ids[i]))
    && (forall i, j :: 0 <= i < j < |ids| ==> Before(ids[i], ids[j]))
  }

  function EventIds(events: seq<Event>): (ids: seq<StreamId>)
    ensures |ids| == |events|
    ensures forall i :: 0 <= i < |events| ==> ids[i] == events[i].id
  {
    seq(|events|, i requires 0 <= i < |events| => events[i].id)
  }

  function EntryIds(entries: seq<Entry>): (ids: seq<StreamId>)
    ensures |ids| == |entries|
    ensures forall i :: 0 <= i < |entries| ==> ids[i] == entries[i].id
  {
    seq(|entries|, i requires 0 <= i < |entries| => entries[i].id)
  }

  lemma EncodedIds(events: seq<Event>)
    ensures EntryIds(Encode(events)) == EventIds(events)
  {
  }

  lemma EncodedSlice(events: seq<Event>, p: nat, q: nat)
    requires p <= q <= |events|
    ensures Encode(events)[p..q] == Encode(events[p..q])
  {
  }

  /** Number of leading ids that do not come after a cursor. */
  function CountUpTo(ids: seq<StreamId>, cursor: StreamId): (n: nat)
    ensures n <= |ids|
    ensures n < |ids| ==> Before(cursor, ids[n])
    ensures forall i :: 0 <= i < n ==> !Before(cursor, ids[i])
  {
    if ids == [] || Before(cursor, ids[0]) then 0 else
      var n := CountUpTo(ids[1..], cursor);
      assert forall i :: 1 <= i < n + 1 ==> ids[i] == ids[1..][i - 1];
      n + 1
  }

  /** XREAD and XRANGE with an exclusive start return the entries past that count. */
  lemma CountSplits(ids: seq<StreamId>, cursor: StreamId, i: nat)
    requires Increasing(ids) && i < |ids|
    ensures i < CountUpTo(ids, cursor) <==> !Before(cursor, ids[i])
  {
    var n := CountUpTo(ids, cursor);
    if i >= n {
      var first, later := ids[n], ids[i];
      assert Before(cursor, first);
      assert first == later || Before(first, later);
    }
  }

  lemma CountAtEntry(ids: seq<StreamId>, i: nat)
    requires Increasing(ids) && i < |ids|
    ensures CountUpTo(ids, ids[i]) == i + 1
  {
    CountSplits(ids, ids[i], i);
    if i + 1 < |ids| {
      CountSplits(ids, ids[i], i + 1);
    }
  }

  lemma CountAtHead(ids: seq<StreamId>)
    requires Increasing(ids)
    ensures CountUpTo(ids, HEAD) == 0
  {
  }

  lemma AppendKeepsIncreasing(ids: seq<StreamId>, now: nat)
    requires Increasing(ids)
    ensures Increasing(ids + [NextId(LastId(ids), now)])
  {
  }
}
