/** The at-least-once loop that tails the ledger into a view: load cursor, read batch, apply, save
    cursor, with a crash possible between any two commands. */
module Consumers {
  import opened Text
  import opened Ledger

  const BATCH_COUNT: nat := 10

  // ---- batches ----------------------------------------------------------------------------

  /** The events of the entries that decode, in order. */
  function EventsOf(entries: seq<Entry>): (events: seq<Event>)
    ensures |events| <= |entries|
  {
    if entries == [] then [] else
      var rest := EventsOf(entries[..|entries| - 1]);
      match EntryToEvent(entries[|entries| - 1])
      case Ok(e) => rest + [e]
      case Rejected(_) => rest
  }

  datatype RejectedEntry = RejectedEntry(id: StreamId, error: DecodeError)

  function RejectedOf(entries: seq<Entry>): (rejected: seq<RejectedEntry>)
    ensures |rejected| + |EventsOf(entries)| == |entries|
  {
    if entries == [] then [] else
      var last := entries[|entries| - 1];
      var rest := RejectedOf(entries[..|entries| - 1]);
      match EntryToEvent(last)
      case Ok(_) => rest
      case Rejected(error) => rest + [RejectedEntry(last.id, error)]
  }

  /** Rejected is exactly what does not decode, by id and error. */
  lemma {:induction false} RejectedOfMember(entries: seq<Entry>, r: RejectedEntry)
    ensures r in RejectedOf(entries)
       <==> exists i :: 0 <= i < |entries| && entries[i].id == r.id && EntryToEvent(entries[i]) == Rejected(r.error)
  {
    hide EntryToEvent;
    if entries != [] {
      var n := |entries| - 1;
      RejectedOfMember(entries[..n], r);
      assert forall i :: 0 <= i < n ==> entries[..n][i] == entries[i];
    }
  }

  lemma {:induction false} EventsOfConcat(a: seq<Entry>, b: seq<Entry>)
    ensures EventsOf(a + b) == EventsOf(a) + EventsOf(b)
    decreases |b|
  {
    hide EntryToEvent;
    if b == [] {
      assert a + b == a;
    } else {
      var init, whole := b[..|b| - 1], a + b;
      EventsOfConcat(a, init);
      assert whole[..|whole| - 1] == a + init && whole[|whole| - 1] == b[|b| - 1];
    }
  }

  lemma {:induction false} EventsOfMember(entries: seq<Entry>, e: Event)
    ensures e in EventsOf(entries) <==> exists i :: 0 <= i < |entries| && EntryToEvent(entries[i]) == Ok(e)
  {
    hide EntryToEvent;
    if entries != [] {
      var n := |entries| - 1;
      var init := entries[..n];
      EventsOfMember(init, e);
      assert forall i :: 0 <= i < n ==> init[i] == entries[i];
    }
  }

  lemma DecodingKeepsId(entry: Entry)
    ensures EntryToEvent(entry).Ok? ==> EntryToEvent(entry).event.id == entry.id
  {
  }

  lemma {:induction false} DecodedAreBefore(entries: seq<Entry>, id: StreamId)
    requires forall i :: 0 <= i < |entries| ==> Before(entries[i].id, id)
    ensures forall e :: e in EventsOf(entries) ==> Before(e.id, id)
  {
    hide EntryToEvent;
    if entries != [] {
      DecodedAreBefore(entries[..|entries| - 1], id);
      DecodingKeepsId(entries[|entries| - 1]);
    }
  }

  lemma IdsBefore(entries: seq<Entry>)
    requires entries != [] && Increasing(EntryIds(entries))
    ensures var n := |entries| - 1;
            && Increasing(EntryIds(entries[..n])) && Before(HEAD, entries[n].id)
            && forall i :: 0 <= i < n ==> Before(entries[..n][i].id, entries[n].id)
  {
    var n, ids := |entries| - 1, EntryIds(entries);
    assert EntryIds(entries[..n]) == ids[..n];
    forall i | 0 <= i < n ensures Before(entries[..n][i].id, entries[n].id) {
      assert Before(ids[i], ids[n]);
    }
    assert Before(HEAD, ids[n]);
  }

  lemma AppendedInOrder(events: seq<Event>, last: Event)
    requires Increasing(EventIds(events)) && Before(HEAD, last.id)
    requires forall e :: e in events ==> Before(e.id, last.id)
    ensures Increasing(EventIds(events + [last]))
  {
    var ids := EventIds(events + [last]);
    forall i, j | 0 <= i < j < |ids| ensures Before(ids[i], ids[j]) {
      if j < |events| {
        assert Before(EventIds(events)[i], EventIds(events)[j]);
      } else {
        assert events[i] in events;
      }
    }
    forall i | 0 <= i < |ids| ensures Before(HEAD, ids[i]) {
      if i < |events| {
        assert Before(HEAD, EventIds(events)[i]);
      }
    }
  }

  lemma {:induction false} DecodedAreOrdered(entries: seq<Entry>)
    requires Increasing(EntryIds(entries))
    ensures Increasing(EventIds(EventsOf(entries)))
  {
    hide EntryToEvent, Before, EntryIds, EventIds;
    if entries != [] {
      var init, last := entries[..|entries| - 1], entries[|entries| - 1];
      IdsBefore(entries);
      DecodedAreOrdered(init);
      DecodedAreBefore(init, last.id);
      DecodingKeepsId(last);
      if EntryToEvent(last).Ok? {
        AppendedInOrder(EventsOf(init), EntryToEvent(last).event);
      }
    }
  }

  lemma {:induction false} EncodedAllDecode(events: seq<Event>)
    requires forall i :: 0 <= i < |events| ==> ValidEvent(events[i])
    ensures EventsOf(Encode(events)) == events
  {
    hide EntryToEvent, EventToEntry;
    if events != [] {
      var n := |events| - 1;
      EncodedAllDecode(events[..n]);
      assert Encode(events)[..n] == Encode(events[..n]);
      EntryRoundTrip(events[n]);
      assert events[..n] + [events[n]] == events;
    }
  }

  /** Number of ledger entries a cursor has passed; no cursor means the stream head. */
  function Position(entries: seq<Entry>, cursor: Option<StreamId>): (n: nat)
    ensures n <= |entries|
  {
    CountUpTo(EntryIds(entries), if cursor.Some? then cursor.value else HEAD)
  }

  function NextBatch(entries: seq<Entry>, cursor: Option<StreamId>): seq<Entry> {
    var n := Position(entries, cursor);
    entries[n..if n + BATCH_COUNT < |entries| then n + BATCH_COUNT else |entries|]
  }

  datatype LedgerBatch = LedgerBatch(events: seq<Event>, rejected: seq<RejectedEntry>, lastId: StreamId)

  /** XREAD after the cursor, split into decoded events and rejected entries. */
  method ReadLedgerBatch(entries: seq<Entry>, cursor: Option<StreamId>) returns (batch: LedgerBatch)
    ensures var messages := NextBatch(entries, cursor);
            && batch.events == EventsOf(messages)
            && batch.rejected == RejectedOf(messages)
            && batch.lastId == (if messages == [] then HEAD else messages[|messages| - 1].id)
  {
    hide EntryToEvent;
    var messages := NextBatch(entries, cursor);
    if messages == [] {
      return LedgerBatch([], [], HEAD);
    }
    var events: seq<Event> := [];
    var rejected: seq<RejectedEntry> := [];
    for i := 0 to |messages|
      invariant events == EventsOf(messages[..i])
      invariant rejected == RejectedOf(messages[..i])
    {
      assert messages[..i + 1][..i] == messages[..i];
      match EntryToEvent(messages[i]) {
        case Ok(e) => events := events + [e];
        case Rejected(error) => rejected := rejected + [RejectedEntry(messages[i].id, error)];
      }
    }
    assert messages[..|messages|] == messages;
    return LedgerBatch(events, rejected, messages[|messages| - 1].id);
  }

  // ---- the step machine -------------------------------------------------------------------

  datatype Phase = Idle | Busy(batch: seq<Entry>, done: nat)

  /** `trace` records every command the consumer ever executed against its view; the view is a
      function of it. */
  datatype Consumer = Consumer(
    entries: seq<Entry>, cursor: Option<StreamId>, phase: Phase, trace: seq<Event>)

  datatype Step = Append(entry: Entry) | Begin | Command | Save | Crash

  predicate Legal(c: Consumer, step: Step) {
    match step
    case Append(entry) => Before(LastId(EntryIds(c.entries)), entry.id)
    case Begin => c.phase.Idle? && NextBatch(c.entries, c.cursor) != []
    case Command => c.phase.Busy? && c.phase.done < |EventsOf(c.phase.batch)|
    case Save => c.phase.Busy? && c.phase.done == |EventsOf(c.phase.batch)| && c.phase.batch != []
    case Crash => true
  }

  function Next(c: Consumer, step: Step): Consumer
    requires Legal(c, step)
  {
    match step
    case Append(entry) => c.(entries := c.entries + [entry])
    case Begin => c.(phase := Busy(NextBatch(c.entries, c.cursor), 0))
    case Command =>
      c.(phase := c.phase.(done := c.phase.done + 1), trace := c.trace + [EventsOf(c.phase.batch)[c.phase.done]])
    case Save => c.(phase := Idle, cursor := Some(c.phase.batch[|c.phase.batch| - 1].id))
    case Crash => c.(phase := Idle)
  }

  predicate LegalRun(c: Consumer, steps: seq<Step>)
    decreases |steps|
  {
    steps == [] || (Legal(c, steps[0]) && LegalRun(Next(c, steps[0]), steps[1..]))
  }

  function Run(c: Consumer, steps: seq<Step>): Consumer
    requires LegalRun(c, steps)
    decreases |steps|
  {
    if steps == [] then c else Run(Next(c, steps[0]), steps[1..])
  }

  function Fresh(entries: seq<Entry>): Consumer {
    Consumer(entries, None, Idle, [])
  }

  // ---- invariants -------------------------------------------------------------------------

  function Passed(c: Consumer): seq<Entry> {
    c.entries[..Position(c.entries, c.cursor)]
  }

  /** The cursor, if any, is the id of a ledger entry. */
  ghost predicate CursorOk(c: Consumer) {
    c.cursor.Some? ==> exists i :: 0 <= i < |c.entries| && c.entries[i].id == c.cursor.value
  }

  ghost predicate PhaseOk(c: Consumer) {
    c.phase.Busy? ==>
      var n := Position(c.entries, c.cursor);
      && 0 < |c.phase.batch| && n + |c.phase.batch| <= |c.entries|
      && c.phase.batch == c.entries[n..n + |c.phase.batch|]
      && c.phase.done <= |EventsOf(c.phase.batch)|
      && forall e :: e in EventsOf(c.phase.batch)[..c.phase.done] ==> e in c.trace
  }

  /** No event up to the cursor is missing from the view, and the view saw only ledger events. */
  ghost predicate TraceOk(c: Consumer) {
    && (forall e :: e in EventsOf(Passed(c)) ==> e in c.trace)
    && (forall e :: e in c.trace ==> e in EventsOf(c.entries))
  }

  ghost predicate ConsumerOk(c: Consumer) {
    Increasing(EntryIds(c.entries)) && CursorOk(c) && PhaseOk(c) && TraceOk(c)
  }

  lemma FreshIsOk(entries: seq<Entry>)
    requires Increasing(EntryIds(entries))
    ensures ConsumerOk(Fresh(entries)) && Position(entries, None) == 0
  {
    CountAtHead(EntryIds(entries));
  }

  lemma CursorIndex(c: Consumer) returns (n: nat)
    requires Increasing(EntryIds(c.entries)) && CursorOk(c)
    ensures n == Position(c.entries, c.cursor) && n <= |c.entries|
    ensures c.cursor.None? ==> n == 0
    ensures c.cursor.Some? ==> n > 0 && c.entries[n - 1].id == c.cursor.value
  {
    if c.cursor.None? {
      CountAtHead(EntryIds(c.entries));
      n := 0;
    } else {
      var i :| 0 <= i < |c.entries| && c.entries[i].id == c.cursor.value;
      CountAtEntry(EntryIds(c.entries), i);
      n := i + 1;
    }
  }

  /** Growth of the ledger does not move a cursor. */
  lemma AppendKeepsPosition(c: Consumer, entry: Entry)
    requires Increasing(EntryIds(c.entries)) && CursorOk(c) && Before(LastId(EntryIds(c.entries)), entry.id)
    ensures Increasing(EntryIds(c.entries + [entry]))
    ensures Position(c.entries + [entry], c.cursor) == Position(c.entries, c.cursor)
  {
    hide EntryToEvent;
    var ids := EntryIds(c.entries + [entry]);
    forall i, j | 0 <= i < j < |ids| ensures Before(ids[i], ids[j]) {
      var before := EntryIds(c.entries);
      assert j < |before| ==> Before(before[i], before[j]);
      assert i < |before| - 1 ==> Before(before[i], before[|before| - 1]);
    }
    forall i | 0 <= i < |ids| ensures Before(HEAD, ids[i]) {
      var before := EntryIds(c.entries);
      assert |before| > 0 ==> Before(HEAD, before[|before| - 1]);
      assert i < |before| ==> Before(HEAD, before[i]);
    }
    var n := CursorIndex(c);
    var c' := c.(entries := c.entries + [entry]);
    if c.cursor.Some? {
      assert c'.entries[n - 1].id == c.cursor.value;
      CountAtEntry(ids, n - 1);
    } else {
      CountAtHead(ids);
    }
  }

  lemma AppendKeepsPhaseOk(c: Consumer, entry: Entry)
    requires PhaseOk(c) && Position(c.entries + [entry], c.cursor) == Position(c.entries, c.cursor)
    ensures PhaseOk(c.(entries := c.entries + [entry]))
  {
  }

  lemma AppendKeepsTraceOk(c: Consumer, entry: Entry)
    requires TraceOk(c) && Position(c.entries + [entry], c.cursor) == Position(c.entries, c.cursor)
    ensures TraceOk(c.(entries := c.entries + [entry]))
  {
    assert Passed(c.(entries := c.entries + [entry])) == Passed(c);
    EventsOfConcat(c.entries, [entry]);
  }

  lemma AppendKeepsOk(c: Consumer, entry: Entry)
    requires ConsumerOk(c) && Legal(c, Append(entry))
    ensures ConsumerOk(Next(c, Append(entry)))
  {
    AppendKeepsPosition(c, entry);
    AppendKeepsPhaseOk(c, entry);
    AppendKeepsTraceOk(c, entry);
    if c.cursor.Some? {
      var i :| 0 <= i < |c.entries| && c.entries[i].id == c.cursor.value;
      assert (c.entries + [entry])[i].id == c.cursor.value;
    }
  }

  lemma BatchIsInLedger(c: Consumer)
    requires PhaseOk(c) && c.phase.Busy?
    ensures forall e :: e in EventsOf(c.phase.batch) ==> e in EventsOf(c.entries)
  {
    var n := Position(c.entries, c.cursor);
    var m := n + |c.phase.batch|;
    assert c.entries == c.entries[..n] + c.phase.batch + c.entries[m..];
    EventsOfConcat(c.entries[..n] + c.phase.batch, c.entries[m..]);
    EventsOfConcat(c.entries[..n], c.phase.batch);
  }

  lemma CommandKeepsPhaseOk(c: Consumer)
    requires PhaseOk(c) && Legal(c, Command)
    ensures PhaseOk(Next(c, Command))
  {
    var events := EventsOf(c.phase.batch);
    var k := c.phase.done;
    assert events[..k + 1] == events[..k] + [events[k]];
  }

  lemma CommandKeepsOk(c: Consumer)
    requires ConsumerOk(c) && Legal(c, Command)
    ensures ConsumerOk(Next(c, Command))
  {
    CommandKeepsPhaseOk(c);
    BatchIsInLedger(c);
    assert EventsOf(c.phase.batch)[c.phase.done] in EventsOf(c.phase.batch);
    assert TraceOk(Next(c, Command));
  }

  lemma SaveAdvances(c: Consumer)
    requires ConsumerOk(c) && Legal(c, Save)
    ensures Position(c.entries, Next(c, Save).cursor) == Position(c.entries, c.cursor) + |c.phase.batch|
  {
    var n := Position(c.entries, c.cursor);
    var last := n + |c.phase.batch| - 1;
    assert c.phase.batch[|c.phase.batch| - 1] == c.entries[last];
    CountAtEntry(EntryIds(c.entries), last);
  }

  lemma PassedBySave(c: Consumer)
    requires ConsumerOk(c) && Legal(c, Save)
    ensures EventsOf(Passed(Next(c, Save))) == EventsOf(Passed(c)) + EventsOf(c.phase.batch)
    ensures CursorOk(Next(c, Save))
  {
    hide EntryToEvent, TraceOk;
    SaveAdvances(c);
    var n := Position(c.entries, c.cursor);
    assert c.entries[n + |c.phase.batch| - 1].id == Next(c, Save).cursor.value;
    assert Passed(Next(c, Save)) == c.entries[..n] + c.phase.batch;
    EventsOfConcat(c.entries[..n], c.phase.batch);
  }

  lemma SaveKeepsOk(c: Consumer)
    requires ConsumerOk(c) && Legal(c, Save)
    ensures ConsumerOk(Next(c, Save))
  {
    hide EventsOf, CursorOk, Passed, Position;
    PassedBySave(c);
    assert EventsOf(c.phase.batch)[..c.phase.done] == EventsOf(c.phase.batch);
  }

  lemma NextKeepsOk(c: Consumer, step: Step)
    requires ConsumerOk(c) && Legal(c, step)
    ensures ConsumerOk(Next(c, step))
    ensures Position(c.entries, c.cursor) <= Position(Next(c, step).entries, Next(c, step).cursor)
    ensures c.trace <= Next(c, step).trace && c.entries <= Next(c, step).entries
  {
    match step
    case Append(entry) => AppendKeepsOk(c, entry); AppendKeepsPosition(c, entry);
    case Begin =>
    case Command => CommandKeepsOk(c);
    case Save => SaveKeepsOk(c); SaveAdvances(c);
    case Crash =>
  }

  /** Crash safety, over every run with appends, crashes between any two commands, and restarts:
      the cursor never moves back, every decodable event up to the cursor was applied to the view,
      and the view was given only events of the ledger. */
  lemma {:induction false} RunKeepsOk(c: Consumer, steps: seq<Step>)
    requires ConsumerOk(c) && LegalRun(c, steps)
    ensures ConsumerOk(Run(c, steps))
    ensures Position(c.entries, c.cursor) <= Position(Run(c, steps).entries, Run(c, steps).cursor)
    ensures c.trace <= Run(c, steps).trace && c.entries <= Run(c, steps).entries
    decreases |steps|
  {
    if steps != [] {
      NextKeepsOk(c, steps[0]);
      RunKeepsOk(Next(c, steps[0]), steps[1..]);
    }
  }

  // ---- runs without a crash ---------------------------------------------------------------

  /** Nothing was applied twice: the trace is the decoded ledger up to the cursor, and the part of
      the current batch already applied. */
  ghost predicate Exact(c: Consumer) {
    c.trace == EventsOf(Passed(c)) + (if c.phase.Busy? && c.phase.done <= |EventsOf(c.phase.batch)|
                                      then EventsOf(c.phase.batch)[..c.phase.done] else [])
  }

  lemma AppendKeepsExact(c: Consumer, entry: Entry)
    requires ConsumerOk(c) && Exact(c) && Legal(c, Append(entry))
    ensures Exact(Next(c, Append(entry)))
  {
    AppendKeepsPosition(c, entry);
    assert Passed(Next(c, Append(entry))) == Passed(c);
  }

  lemma CommandKeepsExact(c: Consumer)
    requires ConsumerOk(c) && Exact(c) && Legal(c, Command)
    ensures Exact(Next(c, Command))
  {
    var events := EventsOf(c.phase.batch);
    var k := c.phase.done;
    assert events[..k + 1] == events[..k] + [events[k]];
    assert Passed(Next(c, Command)) == Passed(c);
  }

  lemma SaveKeepsExact(c: Consumer)
    requires ConsumerOk(c) && Exact(c) && Legal(c, Save)
    ensures Exact(Next(c, Save))
  {
    SaveAdvances(c);
    var n := Position(c.entries, c.cursor);
    assert Passed(Next(c, Save)) == c.entries[..n] + c.phase.batch;
    EventsOfConcat(c.entries[..n], c.phase.batch);
    assert EventsOf(c.phase.batch)[..c.phase.done] == EventsOf(c.phase.batch);
  }

  lemma NextKeepsExact(c: Consumer, step: Step)
    requires ConsumerOk(c) && Exact(c) && Legal(c, step) && !step.Crash?
    ensures Exact(Next(c, step))
  {
    match step
    case Append(entry) => AppendKeepsExact(c, entry);
    case Begin =>
    case Command => CommandKeepsExact(c);
    case Save => SaveKeepsExact(c);
  }

  predicate CrashFree(steps: seq<Step>) {
    forall i :: 0 <= i < |steps| ==> !steps[i].Crash?
  }

  /** Without a crash every event up to the cursor was applied exactly once, in ledger order. */
  lemma {:induction false} CrashFreeRunIsExact(c: Consumer, steps: seq<Step>)
    requires ConsumerOk(c) && Exact(c) && LegalRun(c, steps) && CrashFree(steps)
    ensures Exact(Run(c, steps))
    decreases |steps|
  {
    hide EntryToEvent;
    if steps != [] {
      NextKeepsExact(c, steps[0]);
      NextKeepsOk(c, steps[0]);
      assert forall i :: 0 <= i < |steps[1..]| ==> steps[1..][i] == steps[i + 1];
      CrashFreeRunIsExact(Next(c, steps[0]), steps[1..]);
    }
  }

  // ---- processOnce ------------------------------------------------------------------------

  /** Where one round fails or the process dies; the pipeline may stop after any number of its
      commands. */
  datatype Fault = NoFault | LoadFails | ReadFails | ApplyStops(done: nat) | SaveFails

  /** The commands of a round that reach the view. */
  function AppliedOf(events: seq<Event>, fault: Fault): seq<Event> {
    match fault
    case LoadFails => []
    case ReadFails => []
    case ApplyStops(done) => if done < |events| then events[..done] else events
    case _ => events
  }

  /** Whether the round gets as far as saving its cursor.  A batch without events skips the
      apply, so an apply fault cannot stop it. */
  predicate Saves(events: seq<Event>, fault: Fault) {
    fault.NoFault? || (fault.ApplyStops? && events == [])
  }

  function Round(c: Consumer, fault: Fault): Consumer {
    var batch := NextBatch(c.entries, c.cursor);
    var events := EventsOf(batch);
    if batch == [] then c else
      c.(trace := c.trace + AppliedOf(events, fault),
         cursor := if Saves(events, fault) then Some(batch[|batch| - 1].id) else c.cursor)
  }

  /** One turn of the loop: what was appended to the ledger since the last, and this round's fault. */
  datatype Turn = Turn(appended: seq<Entry>, fault: Fault)

  function AfterTurns(c: Consumer, turns: seq<Turn>): Consumer {
    if turns == [] then c else
      var d := AfterTurns(c, turns[..|turns| - 1]);
      Round(d.(entries := d.entries + turns[|turns| - 1].appended), turns[|turns| - 1].fault)
  }

  function Fold<V>(command: (V, Event) -> V, view: V, events: seq<Event>): V {
    if events == [] then view else command(Fold(command, view, events[..|events| - 1]), events[|events| - 1])
  }

  lemma {:induction false} FoldConcat<V>(command: (V, Event) -> V, view: V, a: seq<Event>, b: seq<Event>)
    ensures Fold(command, view, a + b) == Fold(command, Fold(command, view, a), b)
    decreases |b|
  {
    if b == [] {
      assert a + b == a;
    } else {
      FoldConcat(command, view, a, b[..|b| - 1]);
      assert (a + b)[..|a + b| - 1] == a + b[..|b| - 1];
    }
  }

  lemma FoldAppend<V>(command: (V, Event) -> V, view: V, events: seq<Event>, e: Event)
    ensures Fold(command, view, events + [e]) == command(Fold(command, view, events), e)
  {
    assert (events + [e])[..|events|] == events;
  }

  class ViewConsumer<V> {
    /** One pipeline command against the view. */
    const command: (V, Event) -> V
    /** Persisted: survives a crash, as the view does. */
    var cursor: Option<StreamId>
    var view: V
    ghost const start: V
    ghost var trace: seq<Event>

    ghost predicate Valid()
      reads this
    {
      view == Fold(command, start, trace)
    }

    ghost function State(entries: seq<Entry>): Consumer
      reads this
    {
      Consumer(entries, cursor, Idle, trace)
    }

    constructor (command: (V, Event) -> V, empty: V)
      ensures Valid() && this.command == command && start == empty
      ensures cursor == None && trace == []
    {
      this.command := command;
      cursor := None;
      view := empty;
      start := empty;
      trace := [];
    }

    /** One round.  Returns the number of processed entries and whether it failed. */
    method ProcessOnce(entries: seq<Entry>, fault: Fault) returns (n: nat, failed: bool)
      requires Valid()
      modifies this
      ensures Valid()
      ensures State(entries) == Round(old(State(entries)), fault)
      ensures var batch := NextBatch(entries, old(cursor));
              var events := EventsOf(batch);
              && (failed <==> fault.LoadFails? || fault.ReadFails?
                              || (batch != [] && !Saves(events, fault)))
              && n == (if batch == [] || !(fault.SaveFails? || Saves(events, fault)) then 0 else |batch|)
      ensures var batch := NextBatch(entries, old(cursor));
              var events := EventsOf(batch);
              match fault
              case LoadFails => view == old(view) && cursor == old(cursor)
              case ReadFails => view == old(view) && cursor == old(cursor)
              case ApplyStops(done) =>
                && view == Fold(command, old(view), if done < |events| then events[..done] else events)
                && cursor == (if batch != [] && events == [] then Some(batch[|batch| - 1].id) else old(cursor))
              case SaveFails => view == Fold(command, old(view), events) && cursor == old(cursor)
              case NoFault =>
                && view == Fold(command, old(view), events)
                && cursor == (if batch != [] then Some(batch[|batch| - 1].id) else old(cursor))
    {
      assert Fold(command, view, []) == view;
      hide EntryToEvent, Fold, EventsOf, RejectedOf, NextBatch;
      if fault.LoadFails? {
        return 0, true;
      }
      var after := cursor;
      if fault.ReadFails? {
        return 0, true;
      }
      var batch := ReadLedgerBatch(entries, after);
      n := |batch.events| + |batch.rejected|;
      if n == 0 {
        return 0, false;
      }
      if |batch.events| > 0 {
        var stopped := ApplyBatch(batch.events, fault);
        if stopped {
          return 0, true;
        }
      }
      if fault.SaveFails? {
        return n, true;
      }
      cursor := Some(batch.lastId);
      return n, false;
    }

    /** The loop until cancellation, while the ledger grows: a failed round is retried, whatever
        failed. */
    method Run(entries: seq<Entry>, turns: seq<Turn>) returns (ledger: seq<Entry>)
      requires Valid()
      modifies this
      ensures Valid() && State(ledger) == AfterTurns(old(State(entries)), turns)
    {
      ledger := entries;
      for i := 0 to |turns|
        invariant Valid() && State(ledger) == AfterTurns(old(State(entries)), turns[..i])
      {
        ledger := ledger + turns[i].appended;
        var _, _ := ProcessOnce(ledger, turns[i].fault);
        assert turns[..i + 1][..i] == turns[..i];
      }
      assert turns[..|turns|] == turns;
    }

    /** The view's pipeline, one command per event. */
    method ApplyBatch(events: seq<Event>, fault: Fault) returns (stopped: bool)
      requires Valid() && !fault.LoadFails? && !fault.ReadFails? && events != []
      modifies this`view, this`trace
      ensures Valid() && trace == old(trace) + AppliedOf(events, fault)
      ensures stopped <==> fault.ApplyStops?
      ensures view == Fold(command, old(view), AppliedOf(events, fault))
    {
      var count := if fault.ApplyStops? && fault.done < |events| then fault.done else |events|;
      for i := 0 to count
        invariant Valid() && trace == old(trace) + events[..i]
        invariant view == Fold(command, old(view), events[..i])
      {
        FoldAppend(command, old(view), events[..i], events[i]);
        view := command(view, events[i]);
        FoldAppend(command, start, trace, events[i]);
        trace := trace + [events[i]];
        assert events[..i + 1] == events[..i] + [events[i]];
      }
      assert events[..|events|] == events;
      stopped := fault.ApplyStops?;
    }
  }

  // ---- rounds and runs --------------------------------------------------------------------

  ghost predicate Reaches(c: Consumer, steps: seq<Step>, d: Consumer) {
    LegalRun(c, steps) && Run(c, steps) == d
  }

  lemma {:induction false} ReachesNext(c: Consumer, steps: seq<Step>, d: Consumer, step: Step)
    requires Reaches(c, steps, d) && Legal(d, step)
    ensures Reaches(c, steps + [step], Next(d, step))
    decreases |steps|
  {
    if steps == [] {
      assert ([] + [step])[1..] == [];
    } else {
      ReachesNext(Next(c, steps[0]), steps[1..], d, step);
      assert (steps + [step])[1..] == steps[1..] + [step];
    }
  }

  /** c in the middle of a batch, with k of the batch's commands executed. */
  function MidBatch(c: Consumer, batch: seq<Entry>, k: nat): Consumer
    requires k <= |EventsOf(batch)|
  {
    c.(phase := Busy(batch, k), trace := c.trace + EventsOf(batch)[..k])
  }

  lemma CommandAdvances(c: Consumer, batch: seq<Entry>, k: nat)
    requires k < |EventsOf(batch)|
    ensures Legal(MidBatch(c, batch, k), Command)
    ensures Next(MidBatch(c, batch, k), Command) == MidBatch(c, batch, k + 1)
  {
    var events := EventsOf(batch);
    assert events[..k + 1] == events[..k] + [events[k]];
  }

  lemma {:induction false} ReachesMidBatch(c: Consumer, batch: seq<Entry>, k: nat) returns (steps: seq<Step>)
    requires c.phase.Idle? && batch == NextBatch(c.entries, c.cursor) != [] && k <= |EventsOf(batch)|
    ensures Reaches(c, steps, MidBatch(c, batch, k))
  {
    if k == 0 {
      assert c.trace + EventsOf(batch)[..0] == c.trace;
      ReachesNext(c, [], c, Begin);
      steps := [] + [Begin];
    } else {
      var init := ReachesMidBatch(c, batch, k - 1);
      CommandAdvances(c, batch, k - 1);
      ReachesNext(c, init, MidBatch(c, batch, k - 1), Command);
      steps := init + [Command];
    }
  }

  /** Every round of the loop, whatever its fault, is a run of the step machine: what holds for
      all runs holds for all sequences of rounds. */
  lemma RoundIsRun(c: Consumer, fault: Fault) returns (steps: seq<Step>)
    requires c.phase.Idle?
    ensures Reaches(c, steps, Round(c, fault))
  {
    var batch := NextBatch(c.entries, c.cursor);
    var events := EventsOf(batch);
    var applied := AppliedOf(events, fault);
    if batch == [] {
      steps := [];
    } else {
      var init := ReachesMidBatch(c, batch, |applied|);
      assert events[..|applied|] == applied;
      var last := if Saves(events, fault) then Save else Crash;
      ReachesNext(c, init, MidBatch(c, batch, |applied|), last);
      steps := init + [last];
    }
  }

  function Unread(c: Consumer): nat {
    |c.entries| - Position(c.entries, c.cursor)
  }

  lemma RoundKeepsOk(c: Consumer, fault: Fault)
    requires ConsumerOk(c) && c.phase.Idle?
    ensures ConsumerOk(Round(c, fault)) && Round(c, fault).phase.Idle?
  {
    var steps := RoundIsRun(c, fault);
    RunKeepsOk(c, steps);
  }

  /** Without new writes a successful round shortens the unread ledger by a full batch, or
      empties it. */
  lemma RoundProgress(c: Consumer)
    requires ConsumerOk(c) && c.phase.Idle?
    ensures Unread(Round(c, NoFault)) == (if Unread(c) > 10 then Unread(c) - 10 else 0)
  {
    var batch := NextBatch(c.entries, c.cursor);
    if batch != [] {
      var last := Position(c.entries, c.cursor) + |batch| - 1;
      assert batch[|batch| - 1] == c.entries[last];
      CountAtEntry(EntryIds(c.entries), last);
    }
  }

  function Rounds(c: Consumer, k: nat): Consumer {
    if k == 0 then c else Round(Rounds(c, k - 1), NoFault)
  }

  /** State d of an idle consumer that started at c, with n entries left to read. */
  ghost predicate IdleWith(c: Consumer, d: Consumer, n: nat) {
    ConsumerOk(d) && d.phase.Idle? && d.entries == c.entries && Unread(d) == n
  }

  lemma OneRound(c: Consumer, d: Consumer, n: nat)
    requires IdleWith(c, d, n)
    ensures IdleWith(c, Round(d, NoFault), if n > BATCH_COUNT then n - BATCH_COUNT else 0)
  {
    RoundKeepsOk(d, NoFault);
    RoundProgress(d);
  }

  /** k successful rounds without new writes read k full batches, or reach the end. */
  lemma {:induction false} RoundsProgress(c: Consumer, k: nat)
    requires ConsumerOk(c) && c.phase.Idle?
    ensures IdleWith(c, Rounds(c, k), if Unread(c) > k * BATCH_COUNT then Unread(c) - k * BATCH_COUNT else 0)
  {
    hide EntryToEvent, Round;
    if k > 0 {
      RoundsProgress(c, k - 1);
      assert k * BATCH_COUNT == (k - 1) * BATCH_COUNT + BATCH_COUNT;
      OneRound(c, Rounds(c, k - 1),
               if Unread(c) > (k - 1) * BATCH_COUNT then Unread(c) - (k - 1) * BATCH_COUNT else 0);
    }
  }

  lemma DrainedIsComplete(c: Consumer)
    requires ConsumerOk(c) && Unread(c) == 0
    ensures forall e :: e in c.trace <==> e in EventsOf(c.entries)
  {
    assert c.entries[..|c.entries|] == c.entries;
  }

  /** So enough successful rounds bring the view up to date: the cursor is at the end, and every
      decodable event of the ledger, and nothing else, was applied. */
  lemma RoundsDrain(c: Consumer, k: nat)
    requires ConsumerOk(c) && c.phase.Idle? && Unread(c) <= k * BATCH_COUNT
    ensures Rounds(c, k).entries == c.entries && Unread(Rounds(c, k)) == 0
    ensures forall e :: e in Rounds(c, k).trace <==> e in EventsOf(c.entries)
  {
    RoundsProgress(c, k);
    DrainedIsComplete(Rounds(c, k));
  }

  // ---- the loop ---------------------------------------------------------------------------

  /** Appending several entries at once. */
  lemma {:induction false} GrowthKeepsOk(c: Consumer, more: seq<Entry>)
    requires ConsumerOk(c) && c.phase.Idle? && Increasing(EntryIds(c.entries + more))
    ensures ConsumerOk(c.(entries := c.entries + more))
    ensures Position(c.entries + more, c.cursor) == Position(c.entries, c.cursor)
    decreases |more|
  {
    if more == [] {
      assert c.entries + more == c.entries;
    } else {
      var init, last := more[..|more| - 1], more[|more| - 1];
      var longer := c.entries + init;
      assert c.entries + more == longer + [last];
      var ids := EntryIds(longer + [last]);
      assert EntryIds(longer) == ids[..|longer|];
      GrowthKeepsOk(c, init);
      assert Before(LastId(EntryIds(longer)), last.id) by {
        assert ids[|longer|] == last.id;
        assert longer != [] ==> Before(ids[|longer| - 1], ids[|longer|]);
      }
      hide ConsumerOk;
      AppendStep(c.(entries := longer), last);
    }
  }

  lemma AppendStep(c: Consumer, entry: Entry)
    requires ConsumerOk(c) && Before(LastId(EntryIds(c.entries)), entry.id)
    ensures ConsumerOk(c.(entries := c.entries + [entry]))
    ensures Position(c.entries + [entry], c.cursor) == Position(c.entries, c.cursor)
  {
    AppendKeepsOk(c, entry);
    AppendKeepsPosition(c, entry);
  }

  lemma RoundMovesOn(c: Consumer, fault: Fault)
    requires ConsumerOk(c) && c.phase.Idle?
    ensures ConsumerOk(Round(c, fault)) && Round(c, fault).phase.Idle?
    ensures Position(c.entries, c.cursor) <= Position(c.entries, Round(c, fault).cursor)
    ensures Round(c, fault).entries == c.entries
  {
    var steps := RoundIsRun(c, fault);
    RunKeepsOk(c, steps);
  }

  /** Crash safety of the loop itself: with any growth of the ledger between rounds and any fault in
      each, every state between rounds is consistent, and the cursor never moves back. */
  lemma {:induction false} LoopKeepsOk(c: Consumer, turns: seq<Turn>)
    requires ConsumerOk(c) && c.phase.Idle? && Increasing(EntryIds(AfterTurns(c, turns).entries))
    ensures var d := AfterTurns(c, turns);
            && ConsumerOk(d) && d.phase.Idle? && c.entries <= d.entries
            && Position(c.entries, c.cursor) <= Position(d.entries, d.cursor)
  {
    hide ConsumerOk, Round;
    if turns != [] {
      var init, last := turns[..|turns| - 1], turns[|turns| - 1];
      var d := AfterTurns(c, init);
      RoundKeepsEntries(d.(entries := d.entries + last.appended), last.fault);
      assert EntryIds(d.entries) == EntryIds(d.entries + last.appended)[..|d.entries|];
      LoopKeepsOk(c, init);
      GrowthKeepsOk(d, last.appended);
      RoundMovesOn(d.(entries := d.entries + last.appended), last.fault);
    }
  }

  lemma RoundKeepsEntries(c: Consumer, fault: Fault)
    ensures Round(c, fault).entries == c.entries
  {
  }
}
