/** Daily activity: per UTC day, a sorted set counting each player's events.  Counting is not
    idempotent, so a batch replayed after a crash is counted again. */
module Activity {
  import opened Text
  import opened Ledger
  import opened Replay
  import opened Consumers
  import Binary64

  const DAY_MS: nat := 86_400_000

  /** UTC day of an event: whole days of its id's milliseconds. */
  function DayOf(e: Event): nat {
    e.id.ms / DAY_MS
  }

  type Activity = map<nat, Zset>

  function CountsOn(a: Activity, day: nat): Zset {
    if day in a then a[day] else map[]
  }

  /** ZINCRBY of 1 in the day's sorted set. */
  function Tick(a: Activity, e: Event): Activity {
    a[DayOf(e) := ZIncrBy(CountsOn(a, DayOf(e)), e.playerId, 1)]
  }

  function ActivityOf(trace: seq<Event>): Activity {
    Fold(Tick, map[], trace)
  }

  /** An event of player p in the UTC day, a day being 86 400 000 milliseconds from the epoch on. */
  predicate IsTick(e: Event, day: nat, p: string) {
    e.playerId == p && day * 86_400_000 <= e.id.ms < (day + 1) * 86_400_000
  }

  lemma TickedOnItsDay(e: Event, day: nat)
    ensures DayOf(e) == day <==> day * 86_400_000 <= e.id.ms < (day + 1) * 86_400_000
  {
  }

  /** Number of a player's events on a day. */
  function Ticks(events: seq<Event>, day: nat, p: string): nat {
    if events == [] then 0 else
      Ticks(events[..|events| - 1], day, p) + (if IsTick(events[|events| - 1], day, p) then 1 else 0)
  }

  // ---- the stored count -------------------------------------------------------------------

  /** A double counts exactly up to 2^53, and there it stops: 2^53 + 1 rounds back. */
  function Saturated(n: nat): nat {
    if n < Binary64.TWO_53 then n else Binary64.TWO_53
  }

  lemma RoundsBack()
    ensures Binary64.RoundNat(Binary64.TWO_53 + 1) == Binary64.TWO_53
  {
    var half := Binary64.TWO_53 / 2;
    assert (Binary64.TWO_53 + 1) / 2 == half;
    assert Binary64.Truncate(half) == half && Binary64.Mantissa(half) == half && Binary64.Ulp(half) == 1;
  }

  lemma TickAdds(n: nat)
    ensures Binary64.Add(Saturated(n), Binary64.Round(1)) == Saturated(n + 1)
  {
    Binary64.SmallIsExact(1);
    if n < Binary64.TWO_53 {
      Binary64.SmallIsExact(n + 1);
    } else {
      RoundsBack();
    }
  }

  /** The positions of a player's events of a day. */
  function TicksAt(events: seq<Event>, day: nat, p: string): set<nat> {
    set i: nat | i < |events| && IsTick(events[i], day, p)
  }

  lemma {:induction false} TicksAreCounted(events: seq<Event>, day: nat, p: string)
    ensures Ticks(events, day, p) == |TicksAt(events, day, p)|
  {
    if events != [] {
      var n := |events| - 1;
      var init := events[..n];
      TicksAreCounted(init, day, p);
      assert forall i :: 0 <= i < n ==> init[i] == events[i];
      if IsTick(events[n], day, p) {
        assert TicksAt(events, day, p) == TicksAt(init, day, p) + {n};
      } else {
        assert TicksAt(events, day, p) == TicksAt(init, day, p);
      }
    }
  }

  lemma OneTick(a: Activity, e: Event, day: nat, p: string, n: nat)
    requires ScoreOf(CountsOn(a, day), p) == Saturated(n)
    ensures var z := CountsOn(Tick(a, e), day);
            && ScoreOf(z, p) == Saturated(n + (if IsTick(e, day, p) then 1 else 0))
            && (p in z <==> p in CountsOn(a, day) || IsTick(e, day, p))
  {
    TickAdds(n);
    TickedOnItsDay(e, day);
    hide Saturated, DayOf;
  }

  /** Commands add to a count, whatever it was, one for each event of the player and day, until it
      stops at 2^53; other counts stay. */
  lemma {:induction false} FoldCounts(a: Activity, events: seq<Event>, day: nat, p: string, n: nat)
    requires ScoreOf(CountsOn(a, day), p) == Saturated(n)
    ensures var z := CountsOn(Fold(Tick, a, events), day);
            && ScoreOf(z, p) == Saturated(n + Ticks(events, day, p))
            && (p in z <==> p in CountsOn(a, day) || Ticks(events, day, p) > 0)
  {
    if events != [] {
      var init, last := events[..|events| - 1], events[|events| - 1];
      FoldCounts(a, init, day, p, n);
      OneTick(Fold(Tick, a, init), last, day, p, n + Ticks(init, day, p));
      hide Saturated, DayOf, Tick, IsTick, ScoreOf, CountsOn;
    }
  }

  lemma TicksAtIs(events: seq<Event>, day: nat, p: string)
    ensures forall i :: i in TicksAt(events, day, p) <==>
              && 0 <= i < |events| && events[i].playerId == p
              && day * 86_400_000 <= events[i].id.ms < (day + 1) * 86_400_000
  {
  }

  /** A stored count is the number of applied events of that player in that day's milliseconds (up to
      2^53), each application counted, and a player without one is absent. */
  lemma CountIsTicks(trace: seq<Event>, day: nat, p: string)
    ensures var z, at := CountsOn(ActivityOf(trace), day), TicksAt(trace, day, p);
            && (forall i :: i in at <==>
                  && 0 <= i < |trace| && trace[i].playerId == p
                  && day * 86_400_000 <= trace[i].id.ms < (day + 1) * 86_400_000)
            && ScoreOf(z, p) == Saturated(|at|)
            && (p in z <==> |at| > 0)
            && |at| == Ticks(trace, day, p)
  {
    FoldCounts(map[], trace, day, p, 0);
    TicksAreCounted(trace, day, p);
    TicksAtIs(trace, day, p);
    hide Fold, Ticks, Saturated, TicksAt, Tick;
  }

  class ActivityStore {
    var activity: Activity

    constructor ()
      ensures activity == map[]
    {
      activity := map[];
    }

    /** One tick per event; the pipeline may stop after any number of them. */
    method ApplyDailyCounts(events: seq<Event>, fault: Fault) returns (failed: bool)
      requires fault.NoFault? || fault.ApplyStops?
      modifies this
      ensures activity == Fold(Tick, old(activity), AppliedOf(events, fault))
      ensures failed <==> fault.ApplyStops?
      ensures var sent := if fault.ApplyStops? && fault.done < |events| then events[..fault.done] else events;
              forall day: nat, p: string, n: nat :: ScoreOf(CountsOn(old(activity), day), p) == Saturated(n) ==>
                ScoreOf(CountsOn(activity, day), p) == Saturated(n + |TicksAt(sent, day, p)|)
    {
      hide DayOf, ZIncrBy, CountsOn;
      var count := if fault.ApplyStops? && fault.done < |events| then fault.done else |events|;
      for i := 0 to count
        invariant activity == Fold(Tick, old(activity), events[..i])
      {
        var day := DayOf(events[i]);
        activity := activity[day := ZIncrBy(CountsOn(activity, day), events[i].playerId, 1)];
        FoldAppend(Tick, old(activity), events[..i], events[i]);
        assert events[..i + 1] == events[..i] + [events[i]];
      }
      assert events[..|events|] == events;
      hide Fold;
      forall day: nat, p: string, n: nat | ScoreOf(CountsOn(old(activity), day), p) == Saturated(n)
        ensures ScoreOf(CountsOn(activity, day), p) == Saturated(n + |TicksAt(events[..count], day, p)|)
      {
        FoldCounts(old(activity), events[..count], day, p, n);
        TicksAreCounted(events[..count], day, p);
      }
      return fault.ApplyStops?;
    }
  }

  // ---- re-applications --------------------------------------------------------------------

  /** The distinct events of a player and day. */
  function Distinct(events: seq<Event>, day: nat, p: string): set<Event> {
    set e | e in events && IsTick(e, day, p)
  }

  /** Commands for an event that had been executed before. */
  function Reapplied(trace: seq<Event>, day: nat, p: string): nat {
    if trace == [] then 0 else
      var init, last := trace[..|trace| - 1], trace[|trace| - 1];
      Reapplied(init, day, p) + (if IsTick(last, day, p) && last in init then 1 else 0)
  }

  lemma DistinctGrows(init: seq<Event>, last: Event, day: nat, p: string)
    ensures |Distinct(init + [last], day, p)|
         == |Distinct(init, day, p)| + (if IsTick(last, day, p) && last !in init then 1 else 0)
  {
    if IsTick(last, day, p) && last !in init {
      assert Distinct(init + [last], day, p) == Distinct(init, day, p) + {last};
    } else {
      assert Distinct(init + [last], day, p) == Distinct(init, day, p);
    }
  }

  /** A count exceeds the number of distinct applied events by exactly the number of
      re-applications. */
  lemma {:induction false} CountIsDistinctPlusReapplied(trace: seq<Event>, day: nat, p: string)
    ensures Ticks(trace, day, p) == |Distinct(trace, day, p)| + Reapplied(trace, day, p)
  {
    if trace != [] {
      var init, last := trace[..|trace| - 1], trace[|trace| - 1];
      CountIsDistinctPlusReapplied(init, day, p);
      DistinctGrows(init, last, day, p);
      assert trace == init + [last];
    }
  }

  lemma {:induction false} NoDuplicates(events: seq<Event>, day: nat, p: string)
    requires forall i, j :: 0 <= i < j < |events| ==> events[i] != events[j]
    ensures Reapplied(events, day, p) == 0
  {
    if events != [] {
      NoDuplicates(events[..|events| - 1], day, p);
    }
  }

  /** Counts never lose events: over every consumer run, with crashes anywhere, a stored count is
      at least the number of that player's ledger events of that day up to the cursor. */
  lemma CountsNeverLose(c: Consumer, steps: seq<Step>, day: nat, p: string)
    requires ConsumerOk(c) && LegalRun(c, steps)
    ensures var d := Run(c, steps);
            var passed := EventsOf(Passed(d));
            && Ticks(d.trace, day, p)
               == Ticks(passed, day, p) + |Distinct(d.trace, day, p) - Distinct(passed, day, p)|
                  + Reapplied(d.trace, day, p)
            && ScoreOf(CountsOn(ActivityOf(d.trace), day), p) >= Saturated(|TicksAt(passed, day, p)|)
  {
    hide EntryToEvent;
    RunKeepsOk(c, steps);
    var d := Run(c, steps);
    var passed := EventsOf(Passed(d));
    PassedAreDistinct(d, day, p);
    CountIsDistinctPlusReapplied(d.trace, day, p);
    CountIsDistinctPlusReapplied(passed, day, p);
    DistinctGap(passed, d.trace, day, p);
    CountIsTicks(d.trace, day, p);
    CountIsTicks(passed, day, p);
    TicksAreCounted(passed, day, p);
    hide TicksAt, Ticks, Reapplied, Tick, Fold;
  }

  lemma DistinctGap(some: seq<Event>, all: seq<Event>, day: nat, p: string)
    requires forall e :: e in some ==> e in all
    ensures |Distinct(all, day, p)| == |Distinct(some, day, p)| + |Distinct(all, day, p) - Distinct(some, day, p)|
  {
    var few, many := Distinct(some, day, p), Distinct(all, day, p);
    assert few <= many;
    assert many == few + (many - few);
  }

  lemma PassedAreDistinct(d: Consumer, day: nat, p: string)
    requires Increasing(EntryIds(d.entries))
    ensures Reapplied(EventsOf(Passed(d)), day, p) == 0
  {
    hide EntryToEvent;
    assert EntryIds(Passed(d)) == EntryIds(d.entries)[..Position(d.entries, d.cursor)];
    DecodedAreOrdered(Passed(d));
    var events := EventsOf(Passed(d));
    forall i, j | 0 <= i < j < |events| ensures events[i] != events[j] {
      assert Before(EventIds(events)[i], EventIds(events)[j]);
    }
    NoDuplicates(events, day, p);
  }

  // ---- how far a count can be off ---------------------------------------------------------

  lemma {:induction false} TicksConcat(a: seq<Event>, b: seq<Event>, day: nat, p: string)
    ensures Ticks(a + b, day, p) == Ticks(a, day, p) + Ticks(b, day, p)
    decreases |b|
  {
    if b == [] {
      assert a + b == a;
    } else {
      TicksConcat(a, b[..|b| - 1], day, p);
      assert (a + b)[..|a + b| - 1] == a + b[..|b| - 1];
    }
  }

  lemma {:induction false} TicksBounded(events: seq<Event>, day: nat, p: string)
    ensures Ticks(events, day, p) <= |events|
  {
    if events != [] {
      TicksBounded(events[..|events| - 1], day, p);
    }
  }

  function Crashes(steps: seq<Step>): nat {
    if steps == [] then 0 else (if steps[0].Crash? then 1 else 0) + Crashes(steps[1..])
  }

  /** The part of the current batch already applied. */
  function InHand(c: Consumer): seq<Event> {
    if c.phase.Busy? && c.phase.done <= |EventsOf(c.phase.batch)| then EventsOf(c.phase.batch)[..c.phase.done] else []
  }

  /** The ticks a consumer without crashes would have made: those of the passed ledger and of the
      part of the current batch already applied. */
  function Expected(c: Consumer, day: nat, p: string): nat {
    Ticks(EventsOf(Passed(c)), day, p) + Ticks(InHand(c), day, p)
  }

  predicate SmallBatch(c: Consumer) {
    c.phase.Busy? ==> |c.phase.batch| <= BATCH_COUNT
  }

  /** Ticks beyond the expected ones. */
  function Excess(c: Consumer, day: nat, p: string): int {
    Ticks(c.trace, day, p) - Expected(c, day, p)
  }

  lemma OneMoreTick(events: seq<Event>, k: nat, day: nat, p: string)
    requires k < |events|
    ensures Ticks(events[..k + 1], day, p) == Ticks(events[..k], day, p) + Ticks([events[k]], day, p)
  {
    assert events[..k + 1] == events[..k] + [events[k]];
    TicksConcat(events[..k], [events[k]], day, p);
  }

  lemma CommandKeepsExcess(c: Consumer, day: nat, p: string)
    requires ConsumerOk(c) && Legal(c, Command)
    ensures Excess(Next(c, Command), day, p) == Excess(c, day, p)
  {
    hide EventsOf, Ticks, ConsumerOk;
    var events, k := EventsOf(c.phase.batch), c.phase.done;
    TicksConcat(c.trace, [events[k]], day, p);
    OneMoreTick(events, k, day, p);
    assert Passed(Next(c, Command)) == Passed(c);
  }

  lemma SaveKeepsExcess(c: Consumer, day: nat, p: string)
    requires ConsumerOk(c) && Legal(c, Save)
    ensures Excess(Next(c, Save), day, p) == Excess(c, day, p)
  {
    hide EntryToEvent;
    PassedBySave(c);
    TicksConcat(EventsOf(Passed(c)), EventsOf(c.phase.batch), day, p);
    assert EventsOf(c.phase.batch)[..c.phase.done] == EventsOf(c.phase.batch);
  }

  /** A crash turns the ticks in hand into excess; no other step makes any. */
  lemma NextExcess(c: Consumer, step: Step, day: nat, p: string)
    requires ConsumerOk(c) && Legal(c, step)
    ensures Excess(Next(c, step), day, p)
         == Excess(c, day, p) + (if step.Crash? then Ticks(InHand(c), day, p) else 0)
  {
    hide EntryToEvent;
    match step
    case Append(entry) =>
      AppendKeepsPosition(c, entry);
      assert Passed(Next(c, step)) == Passed(c);
    case Begin =>
      assert EventsOf(NextBatch(c.entries, c.cursor))[..0] == [];
    case Command => CommandKeepsExcess(c, day, p);
    case Save => SaveKeepsExcess(c, day, p);
    case Crash =>
  }

  /** The ticks in hand at the crashes of a run. */
  function CrashTicks(c: Consumer, steps: seq<Step>, day: nat, p: string): nat
    requires LegalRun(c, steps)
    decreases |steps|
  {
    if steps == [] then 0 else
      (if steps[0].Crash? then Ticks(InHand(c), day, p) else 0) + CrashTicks(Next(c, steps[0]), steps[1..], day, p)
  }

  /** Over every run the excess grows by exactly the ticks that were in hand at the crashes. */
  lemma {:induction false} ExcessIsCrashTicks(c: Consumer, steps: seq<Step>, day: nat, p: string)
    requires ConsumerOk(c) && LegalRun(c, steps)
    ensures Excess(Run(c, steps), day, p) == Excess(c, day, p) + CrashTicks(c, steps, day, p)
    decreases |steps|
  {
    hide EntryToEvent, Excess, InHand, Next, Legal;
    if steps != [] {
      NextExcess(c, steps[0], day, p);
      NextKeepsOk(c, steps[0]);
      ExcessIsCrashTicks(Next(c, steps[0]), steps[1..], day, p);
    }
  }

  /** No crash strikes after a tick of this player and day in the batch in hand. */
  predicate HarmlessCrashes(c: Consumer, steps: seq<Step>, day: nat, p: string)
    requires LegalRun(c, steps)
    decreases |steps|
  {
    steps == [] ||
    ((steps[0].Crash? ==> forall e :: e in InHand(c) ==> !IsTick(e, day, p))
     && HarmlessCrashes(Next(c, steps[0]), steps[1..], day, p))
  }

  lemma {:induction false} NoTicksIff(events: seq<Event>, day: nat, p: string)
    ensures Ticks(events, day, p) == 0 <==> forall e :: e in events ==> !IsTick(e, day, p)
  {
    if events != [] {
      var init, last := events[..|events| - 1], events[|events| - 1];
      NoTicksIff(init, day, p);
      assert events == init + [last];
    }
  }

  lemma {:induction false} NoCrashTicksIff(c: Consumer, steps: seq<Step>, day: nat, p: string)
    requires LegalRun(c, steps)
    ensures CrashTicks(c, steps, day, p) == 0 <==> HarmlessCrashes(c, steps, day, p)
    decreases |steps|
  {
    hide InHand, Next, Legal, IsTick;
    if steps != [] {
      NoTicksIff(InHand(c), day, p);
      NoCrashTicksIff(Next(c, steps[0]), steps[1..], day, p);
    }
  }

  lemma BatchesAreSmall(c: Consumer, step: Step)
    requires SmallBatch(c) && Legal(c, step)
    ensures SmallBatch(Next(c, step))
  {
    hide EntryToEvent;
  }

  /** Each crash over-counts a player's day by at most one batch. */
  lemma {:induction false} CrashTicksBounded(c: Consumer, steps: seq<Step>, day: nat, p: string)
    requires SmallBatch(c) && LegalRun(c, steps)
    ensures CrashTicks(c, steps, day, p) <= 10 * Crashes(steps)
    decreases |steps|
  {
    hide EntryToEvent, Next, Legal;
    if steps != [] {
      TicksBounded(InHand(c), day, p);
      BatchesAreSmall(c, steps[0]);
      CrashTicksBounded(Next(c, steps[0]), steps[1..], day, p);
    }
  }

  lemma ExpectedIsNumber(c: Consumer, day: nat, p: string)
    ensures Expected(c, day, p) == |TicksAt(EventsOf(Passed(c)) + InHand(c), day, p)|
  {
    hide EventsOf, Passed, InHand;
    TicksConcat(EventsOf(Passed(c)), InHand(c), day, p);
    TicksAreCounted(EventsOf(Passed(c)) + InHand(c), day, p);
  }

  lemma SaturatedIff(right: nat, extra: nat)
    ensures Saturated(right + extra) == Saturated(right) <==> extra == 0 || right >= Binary64.TWO_53
  {
  }

  lemma FreshHasNoExcess(entries: seq<Entry>, day: nat, p: string)
    requires Increasing(EntryIds(entries))
    ensures ConsumerOk(Fresh(entries)) && SmallBatch(Fresh(entries)) && Excess(Fresh(entries), day, p) == 0
  {
    hide EntryToEvent;
    FreshIsOk(entries);
    assert Passed(Fresh(entries)) == [];
  }

  /** From the stream head, on every run: a count is the number of applied events of the player in the
      day's milliseconds, up to 2^53; they are those the ledger up to the cursor and the batch in hand
      call for, plus the ticks in hand at the crashes (at most ten each).  So it is right if and only
      if no crash struck after a tick of that player and day in the batch in hand, or the right count
      has reached 2^53. */
  lemma CountsFromHead(entries: seq<Entry>, steps: seq<Step>, day: nat, p: string)
    requires Increasing(EntryIds(entries)) && LegalRun(Fresh(entries), steps)
    ensures var d := Run(Fresh(entries), steps);
            var count := ScoreOf(CountsOn(ActivityOf(d.trace), day), p);
            var at := TicksAt(d.trace, day, p);
            && (forall i :: i in at <==>
                  && 0 <= i < |d.trace| && d.trace[i].playerId == p
                  && day * 86_400_000 <= d.trace[i].id.ms < (day + 1) * 86_400_000)
            && count == Saturated(|at|)
            && Expected(d, day, p) == |TicksAt(EventsOf(Passed(d)) + InHand(d), day, p)|
            && count == Saturated(Expected(d, day, p) + CrashTicks(Fresh(entries), steps, day, p))
            && CrashTicks(Fresh(entries), steps, day, p) <= 10 * Crashes(steps)
            && (count == Saturated(Expected(d, day, p)) <==>
                  HarmlessCrashes(Fresh(entries), steps, day, p) || Expected(d, day, p) >= Binary64.TWO_53)
  {
    FreshHasNoExcess(entries, day, p);
    hide Passed, InHand, EventsOf, TicksAt, Ticks, Expected, Run, LegalRun, ConsumerOk, Increasing;
    hide Saturated, CountsOn, ActivityOf, ScoreOf, CrashTicks, HarmlessCrashes, Crashes, Fresh, SmallBatch;
    ExcessIsCrashTicks(Fresh(entries), steps, day, p);
    CrashTicksBounded(Fresh(entries), steps, day, p);
    NoCrashTicksIff(Fresh(entries), steps, day, p);
    CountIsTicks(Run(Fresh(entries), steps).trace, day, p);
    ExpectedIsNumber(Run(Fresh(entries), steps), day, p);
    SaturatedIff(Expected(Run(Fresh(entries), steps), day, p), CrashTicks(Fresh(entries), steps, day, p));
  }

  // ---- a run that counts twice ------------------------------------------------------------

  const LONE_EVENT := Event(StreamId(1, 0), Set, "p", "b", 5, "r")

  /** The consumer of a one-entry ledger dies between applying the entry and saving its cursor, and
      starts again. */
  lemma CrashAppliesTwice(entries: seq<Entry>, e: Event) returns (steps: seq<Step>)
    requires |entries| == 1 && Increasing(EntryIds(entries)) && EventsOf(entries) == [e]
    ensures Reaches(Fresh(entries), steps, Consumer(entries, Some(entries[0].id), Idle, [e, e]))
  {
    hide EventsOf;
    CountAtHead(EntryIds(entries));
    assert entries[0..1] == entries;
    var c0 := Fresh(entries);
    var c1 := Consumer(entries, None, Busy(entries, 0), []);
    var c2 := Consumer(entries, None, Busy(entries, 1), [e]);
    var c3 := Consumer(entries, None, Idle, [e]);
    var c4 := Consumer(entries, None, Busy(entries, 0), [e]);
    var c5 := Consumer(entries, None, Busy(entries, 1), [e, e]);
    ReachesNext(c0, [], c0, Begin);
    ReachesNext(c0, [] + [Begin], c1, Command);
    ReachesNext(c0, [] + [Begin] + [Command], c2, Crash);
    ReachesNext(c0, [] + [Begin] + [Command] + [Crash], c3, Begin);
    ReachesNext(c0, [] + [Begin] + [Command] + [Crash] + [Begin], c4, Command);
    ReachesNext(c0, [] + [Begin] + [Command] + [Crash] + [Begin] + [Command], c5, Save);
    steps := [] + [Begin] + [Command] + [Crash] + [Begin] + [Command] + [Save];
  }

  lemma LoneIsValid()
    ensures ValidEvent(LONE_EVENT)
  {
  }

  lemma LoneLedger()
    ensures var entries := Encode([LONE_EVENT]);
            && Increasing(EntryIds(entries)) && EventsOf(entries) == [LONE_EVENT]
            && Position(entries, Some(entries[0].id)) == 1
  {
    hide EventsOf, EventToEntry, ValidEvent;
    LoneIsValid();
    EncodedAllDecode([LONE_EVENT]);
    EncodedIds([LONE_EVENT]);
    CountAtEntry(EntryIds(Encode([LONE_EVENT])), 0);
  }

  lemma LoneCounts()
    ensures Ticks([LONE_EVENT], 0, "p") == 1
    ensures ScoreOf(CountsOn(ActivityOf([LONE_EVENT, LONE_EVENT]), 0), "p") == 2
  {
    assert [LONE_EVENT] + [LONE_EVENT] == [LONE_EVENT, LONE_EVENT];
    TicksConcat([LONE_EVENT], [LONE_EVENT], 0, "p");
    CountIsTicks([LONE_EVENT, LONE_EVENT], 0, "p");
  }

  /** So a day with one event shows two. */
  lemma CrashCountsTwice() returns (entries: seq<Entry>, steps: seq<Step>)
    ensures Increasing(EntryIds(entries)) && EventsOf(entries) == [LONE_EVENT]
    ensures LegalRun(Fresh(entries), steps)
    ensures var d := Run(Fresh(entries), steps);
            && d.entries == entries && d.phase.Idle? && Passed(d) == entries
            && Ticks(EventsOf(entries), 0, "p") == 1
            && ScoreOf(CountsOn(ActivityOf(d.trace), 0), "p") == 2
  {
    hide EventsOf, EventToEntry, Ticks, ActivityOf, Position;
    entries := Encode([LONE_EVENT]);
    LoneLedger();
    LoneCounts();
    steps := CrashAppliesTwice(entries, LONE_EVENT);
  }
}
