/** Standings as of a past moment, folded from a prefix of the ledger. */
module TimeTravel {
  import opened Text
  import opened Ledger
  import opened Replay
  import opened Scripts
  import opened Protocol
  import opened Ranking
  import opened Projection
  import opened Idempotency

  datatype AsOf = Scores(scores: Zset) | Corrupt(error: DecodeError) | Overflow(id: StreamId)

  /** SliceOutOfRange: the int64 sum of offset and limit wrapped, and slicing up to it panics. */
  datatype AsOfPage = PageOf(rows: seq<Standing>, total: nat) | FailedPage(error: AsOf) | SliceOutOfRange

  /** Number of leading ids with a millisecond part below the cutoff: XRANGE from the start up to,
      not including, "cutoff-0". */
  function CountBefore(ids: seq<StreamId>, cutoff: nat): (n: nat)
    ensures n <= |ids|
    ensures n < |ids| ==> ids[n].ms >= cutoff
    ensures forall i :: 0 <= i < n ==> ids[i].ms < cutoff
  {
    if ids == [] || ids[0].ms >= cutoff then 0 else
      var n := CountBefore(ids[1..], cutoff);
      assert forall i :: 1 <= i < n + 1 ==> ids[i] == ids[1..][i - 1];
      n + 1
  }

  /** One step of the historical fold, over int64 with its overflow guard. */
  function AsOfApply(z: Zset, e: Event): AsOf {
    if e.op.Set? then Scores(z[e.playerId := e.amount]) else
      var current := ScoreOf(z, e.playerId);
      var sum := Wrap64(current + e.amount);
      if (e.amount > 0 && sum < current) || (e.amount < 0 && sum > current) then Overflow(e.id)
      else Scores(z[e.playerId := sum])
  }

  /** The guard is exact: on int64 scores and amounts the fold stops at an event if and only if the
      true score leaves int64 there, and otherwise applies the event. */
  lemma OverflowGuardIsExact(z: Zset, e: Event)
    requires InInt64(ScoreOf(z, e.playerId)) && InInt64(e.amount)
    ensures AsOfApply(z, e)
         == if e.op == Increment
               && !(-0x8000_0000_0000_0000 <= ScoreOf(z, e.playerId) + e.amount <= 0x7fff_ffff_ffff_ffff)
            then Overflow(e.id) else Scores(Apply(z, e))
  {
    var sum := ScoreOf(z, e.playerId) + e.amount;
    if InInt64(sum) {
      WrapIsIdentity(sum);
    } else {
      assert Wrap64(sum) == if sum > 0 then sum - 2 * (INT64_MAX + 1) else sum + 2 * (INT64_MAX + 1);
    }
  }

  function AsOfStep(z: Zset, entry: Entry, boardId: string): AsOf {
    if Field(entry, BOARD_FIELD) != boardId then Scores(z) else
    match EntryToEvent(entry)
    case Rejected(error) => Corrupt(error)
    case Ok(e) => AsOfApply(z, e)
  }

  /** The fold over raw entries, stopping at the first error. */
  function AsOfScores(entries: seq<Entry>, boardId: string): AsOf {
    if entries == [] then Scores(map[]) else
      match AsOfScores(entries[..|entries| - 1], boardId)
      case Scores(z) => AsOfStep(z, entries[|entries| - 1], boardId)
      case error => error
  }

  lemma {:induction false} AsOfStopsAtError(entries: seq<Entry>, boardId: string, n: nat)
    requires n <= |entries| && !AsOfScores(entries[..n], boardId).Scores?
    ensures AsOfScores(entries, boardId) == AsOfScores(entries[..n], boardId)
  {
    if n == |entries| {
      assert entries[..n] == entries;
    } else {
      var init := entries[..|entries| - 1];
      assert init[..n] == entries[..n];
      AsOfStopsAtError(init, boardId, n);
    }
  }

  lemma WrapOfSum(a: nat, b: nat)
    requires a <= INT64_MAX && b <= INT64_MAX
    ensures a + b <= INT64_MAX ==> Wrap64(a + b) == a + b
    ensures a + b > INT64_MAX ==> Wrap64(a + b) < 0
  {
  }

  /** One event of the fold, with the guard against overflow. */
  method FoldEvent(scores: Zset, e: Event) returns (r: AsOf)
    ensures r == AsOfApply(scores, e)
  {
    match e.op {
      case Set =>
        return Scores(scores[e.playerId := e.amount]);
      case Increment =>
        var current := ScoreOf(scores, e.playerId);
        var sum := Wrap64(current + e.amount);
        if (e.amount > 0 && sum < current) || (e.amount < 0 && sum > current) {
          return Overflow(e.id);
        }
        return Scores(scores[e.playerId := sum]);
    }
  }

  /** Folds the ledger prefix before the cutoff, sorts, and cuts the page. */
  method ListStandingsAsOf(entries: seq<Entry>, boardId: string, before: nat, limit: int, offset: nat)
    returns (r: AsOfPage)
    requires InInt64(limit) && offset <= INT64_MAX
    ensures var answer := AsOfScores(entries[..CountBefore(EntryIds(entries), before)], boardId);
            match answer
            case Scores(z) =>
              r == if offset < |z| && offset + limit > INT64_MAX then SliceOutOfRange
                   else PageOf(Page(z, limit, offset), |z|)
            case error => r == FailedPage(error)
    ensures r.PageOf? ==>
              var answer := AsOfScores(entries[..CountBefore(EntryIds(entries), before)], boardId);
              answer.Scores? && forall s :: s in r.rows ==> Placed(s, answer.scores)
  {
    hide EntryToEvent, AsOfApply;
    var range := entries[..CountBefore(EntryIds(entries), before)];
    var scores: Zset := map[];
    for i := 0 to |range|
      invariant AsOfScores(range[..i], boardId) == Scores(scores)
    {
      assert range[..i + 1][..i] == range[..i];
      if Field(range[i], BOARD_FIELD) == boardId {
        var decoded := EntryToEvent(range[i]);
        if decoded.Rejected? {
          AsOfStopsAtError(range, boardId, i + 1);
          return FailedPage(Corrupt(decoded.error));
        }
        var next := FoldEvent(scores, decoded.event);
        if !next.Scores? {
          AsOfStopsAtError(range, boardId, i + 1);
          return FailedPage(next);
        }
        scores := next.scores;
      }
    }
    assert range[..|range|] == range;
    r := PageOfScores(scores, limit, offset);
    PageIsPlaced(scores, limit, offset);
  }

  /** Sorts, ranks and slices. */
  method PageOfScores(scores: Zset, limit: int, offset: nat) returns (r: AsOfPage)
    requires InInt64(limit) && offset <= INT64_MAX
    ensures r == if offset < |scores| && offset + limit > INT64_MAX then SliceOutOfRange
                 else PageOf(Page(scores, limit, offset), |scores|)
  {
    var rows := RankRows(scores);
    RankingIsRanked(rows, scores);
    var standings := RankAll(rows);
    var total := |standings|;
    if offset >= total || limit <= 0 {
      return PageOf([], total);
    }
    var sum := Wrap64(offset + limit);
    WrapOfSum(offset, limit);
    var end := if sum < total then sum else total;
    if end < offset {
      return SliceOutOfRange;
    }
    return PageOf(standings[offset..end], total);
  }

  // ---- agreement with the replay ----------------------------------------------------------

  lemma StepIsApply(z: Zset, e: Event)
    requires ValidEvent(e) && AllInRange(z)
    ensures AsOfApply(z, e) == Scores(Apply(z, e))
  {
    var current := ScoreOf(z, e.playerId);
    assert InRange(current);
    WrapIsIdentity(current + e.amount);
  }

  /** One written entry in the historical fold. */
  lemma AsOfOneMore(z: Zset, e: Event, boardId: string)
    requires ValidEvent(e) && AllInRange(z)
    ensures AsOfStep(z, EventToEntry(e), boardId) == Scores(if e.boardId == boardId then Apply(z, e) else z)
  {
    assert Field(EventToEntry(e), BOARD_FIELD) == e.boardId;
    EntryRoundTrip(e);
    StepIsApply(z, e);
  }

  lemma ReplayOneMore(ledger: seq<Event>, n: nat, boardId: string)
    requires 0 < n <= |ledger|
    ensures var e := ledger[n - 1];
            var z := BoardReplay(ledger[..n - 1], boardId);
            BoardReplay(ledger[..n], boardId) == if e.boardId == boardId then Apply(z, e) else z
  {
    var e := ledger[n - 1];
    assert ledger[..n] == ledger[..n - 1] + [e];
    BoardEventsAppend(ledger[..n - 1], e, boardId);
    ReplayAppend(map[], BoardEvents(ledger[..n - 1], boardId), e);
  }

  /** On every ledger that replays the board in range the historical fold of a prefix is its integer
      replay: no entry is rejected and the overflow branch is never taken. */
  lemma {:induction false} AsOfIsReplay(db: Db, boardId: string, n: nat)
    requires LedgerOk(db) && BoardInRange(BoardEvents(db.ledger, boardId)) && n <= |db.ledger|
    ensures AsOfScores(Encode(db.ledger)[..n], boardId) == Scores(BoardReplay(db.ledger[..n], boardId))
  {
    hide AsOfStep, EventToEntry, Apply, BoardInRange, AllInRange, ValidEvent;
    if n > 0 {
      AsOfIsReplay(db, boardId, n - 1);
      LedgerPrefixInRange(db.ledger, n - 1, boardId);
      AsOfOneMore(BoardReplay(db.ledger[..n - 1], boardId), db.ledger[n - 1], boardId);
      ReplayOneMore(db.ledger, n, boardId);
      assert Encode(db.ledger)[..n][..n - 1] == Encode(db.ledger)[..n - 1];
    }
  }

  // ---- agreement with the live board ------------------------------------------------------

  /** The ledger events with millis below the cutoff. */
  function EventsBefore(ledger: seq<Event>, cutoff: nat): seq<Event> {
    ledger[..CountBefore(EventIds(ledger), cutoff)]
  }

  /** What ListStandingsAsOf answers on a database. */
  function AsOfAnswer(db: Db, boardId: string, cutoff: nat): AsOf {
    AsOfScores(Encode(db.ledger)[..CountBefore(EntryIds(Encode(db.ledger)), cutoff)], boardId)
  }

  lemma AnswerIsReplay(db: Db, boardId: string, cutoff: nat)
    requires LedgerOk(db) && BoardInRange(BoardEvents(db.ledger, boardId))
    ensures AsOfAnswer(db, boardId, cutoff) == Scores(BoardReplay(EventsBefore(db.ledger, cutoff), boardId))
  {
    EncodedIds(db.ledger);
    AsOfIsReplay(db, boardId, CountBefore(EventIds(db.ledger), cutoff));
  }

  /** After i steps the board has exactly its events among the first n
      of the final ledger, the last of them being the newest in the ledger; with none of them, i is 0. */
  ghost predicate IsMoment(steps: seq<Step>, i: nat, boardId: string, n: nat)
    requires i <= |steps| && n <= |Run(INITIAL, steps).db.ledger|
  {
    var s := Run(INITIAL, steps[..i]);
    && BoardEvents(s.db.ledger, boardId) == BoardEvents(Run(INITIAL, steps).db.ledger[..n], boardId)
    && (i == 0 || (s.db.ledger != [] && s.db.ledger[|s.db.ledger| - 1].boardId == boardId))
  }

  /** The last step of a run appended an event of the board: the board is open, so no rebuild of it
      is under way. */
  lemma AppendIsOutsideWindow(s: System, step: Step, boardId: string)
    requires BoardFine(s, boardId) && Careful(s, step, boardId) && |Next(s, step).db.ledger| > |s.db.ledger|
    requires Next(s, step).db.ledger[|s.db.ledger|].boardId == boardId
    ensures boardId !in Next(s, step).windows
  {
    hide BoardInRange, Command;
  }

  lemma SplitLast(steps: seq<Step>, boardId: string)
    requires steps != [] && CarefulRun(INITIAL, steps, boardId)
    ensures var init := steps[..|steps| - 1];
            && CarefulRun(INITIAL, init, boardId) && BoardFine(Run(INITIAL, init), boardId)
            && Careful(Run(INITIAL, init), steps[|steps| - 1], boardId)
            && Run(INITIAL, steps) == Next(Run(INITIAL, init), steps[|steps| - 1])
  {
    hide Next, Careful, BoardFine;
    var init := steps[..|steps| - 1];
    LastIsCareful(INITIAL, steps, boardId);
    ReachableBoards(init, boardId);
    assert init + [steps[|steps| - 1]] == steps;
    RunAppend(INITIAL, init, steps[|steps| - 1]);
  }

  lemma {:induction false} LastIsCareful(s: System, steps: seq<Step>, boardId: string)
    requires steps != [] && CarefulRun(s, steps, boardId)
    ensures var init := steps[..|steps| - 1];
            CarefulRun(s, init, boardId) && Careful(Run(s, init), steps[|steps| - 1], boardId)
    decreases |steps|
  {
    hide Next, Careful;
    var init := steps[..|steps| - 1];
    if |steps| > 1 {
      LastIsCareful(Next(s, steps[0]), steps[1..], boardId);
      assert steps[1..][..|steps| - 2] == init[1..];
    }
  }

  lemma MomentOfInit(steps: seq<Step>, i: nat, boardId: string, n: nat, m: nat)
    requires steps != [] && i < |steps|
    requires m <= |Run(INITIAL, steps[..|steps| - 1]).db.ledger| && n <= |Run(INITIAL, steps).db.ledger|
    requires IsMoment(steps[..|steps| - 1], i, boardId, m)
    requires BoardEvents(Run(INITIAL, steps[..|steps| - 1]).db.ledger[..m], boardId)
          == BoardEvents(Run(INITIAL, steps).db.ledger[..n], boardId)
    ensures IsMoment(steps, i, boardId, n)
  {
    assert steps[..|steps| - 1][..i] == steps[..i];
  }

  /** Every run that keeps the rule for the board has such a moment for every prefix of the ledger,
      with no rebuild of the board under way: an accepted write means an open board. */
  lemma {:induction false} CutoffMoment(steps: seq<Step>, boardId: string, n: nat) returns (i: nat)
    requires CarefulRun(INITIAL, steps, boardId) && n <= |Run(INITIAL, steps).db.ledger|
    ensures i <= |steps| && IsMoment(steps, i, boardId, n)
    ensures boardId !in Run(INITIAL, steps[..i]).windows
    decreases |steps|
  {
    if steps == [] {
      i := 0;
    } else {
      var init, last := steps[..|steps| - 1], steps[|steps| - 1];
      SplitLast(steps, boardId);
      LastStepGrows(steps, boardId);
      hide Next, Careful, BoardFine, IsMoment, Run, CarefulRun, BoardEvents;
      var ledger, longer := Run(INITIAL, init).db.ledger, Run(INITIAL, steps).db.ledger;
      if n > |ledger| && longer[n - 1].boardId == boardId {
        AppendIsOutsideWindow(Run(INITIAL, init), last, boardId);
        i := |steps|;
        WholeRunIsMoment(steps, boardId, n);
        assert steps[..i] == steps;
      } else {
        var m := if n > |ledger| then n - 1 else n;
        if n > |ledger| {
          OtherBoardsEvent(ledger, longer, n, boardId);
        }
        i := CutoffMoment(init, boardId, m);
        MomentOfInit(steps, i, boardId, n, m);
        assert steps[..i] == init[..i];
      }
    }
  }

  lemma LastStepGrows(steps: seq<Step>, boardId: string)
    requires steps != [] && CarefulRun(INITIAL, steps, boardId)
    ensures var ledger, longer := Run(INITIAL, steps[..|steps| - 1]).db.ledger, Run(INITIAL, steps).db.ledger;
            && ledger <= longer && |longer| <= |ledger| + 1
            && (forall n: nat :: n <= |ledger| ==> longer[..n] == ledger[..n])
  {
    SplitLast(steps, boardId);
    StepGrowsByOne(Run(INITIAL, steps[..|steps| - 1]), steps[|steps| - 1]);
  }

  lemma OtherBoardsEvent(ledger: seq<Event>, longer: seq<Event>, n: nat, boardId: string)
    requires ledger <= longer && |longer| == |ledger| + 1 == n && longer[n - 1].boardId != boardId
    ensures BoardEvents(ledger[..n - 1], boardId) == BoardEvents(longer[..n], boardId)
  {
    assert longer[..n] == ledger + [longer[n - 1]] && ledger[..n - 1] == ledger;
    BoardEventsAppend(ledger, longer[n - 1], boardId);
  }

  lemma WholeRunIsMoment(steps: seq<Step>, boardId: string, n: nat)
    requires n == |Run(INITIAL, steps).db.ledger| > 0
    requires Run(INITIAL, steps).db.ledger[n - 1].boardId == boardId
    ensures IsMoment(steps, |steps|, boardId, n)
  {
    assert steps[..|steps|] == steps;
    assert Run(INITIAL, steps).db.ledger[..n] == Run(INITIAL, steps).db.ledger;
  }

  lemma {:induction false} PrefixIsCareful(s: System, steps: seq<Step>, i: nat, boardId: string)
    requires CarefulRun(s, steps, boardId) && i <= |steps|
    ensures CarefulRun(s, steps[..i], boardId)
    decreases |steps|
  {
    hide Next, Careful;
    if i > 0 {
      PrefixIsCareful(Next(s, steps[0]), steps[1..], i - 1, boardId);
      assert steps[..i][1..] == steps[1..][..i - 1];
    }
  }

  /** Time travel refines the live board.  For every run that keeps the rebuild rule
      for the board, and every cutoff, there is a moment of the run, when the board's last event before
      the cutoff was the newest in the ledger, at which the live board showed
      what asking for the cutoff at the end of the run answers: row for row, with ranks and tie
      order, for every page. */
  lemma TimeTravelRefinesLive(steps: seq<Step>, boardId: string, cutoff: nat) returns (i: nat)
    requires CarefulRun(INITIAL, steps, boardId)
    ensures i <= |steps|
    ensures var past := Run(INITIAL, steps[..i]);
            var now := Run(INITIAL, steps);
            && IsMoment(steps, i, boardId, |EventsBefore(now.db.ledger, cutoff)|)
            && boardId !in past.windows
            && AsOfAnswer(now.db, boardId, cutoff) == Scores(LiveOf(past.db, boardId))
            && (forall limit: int, offset: nat ::
                  ServableOnly(Page(LiveOf(past.db, boardId), limit, offset))
                  == Page(AsOfAnswer(now.db, boardId, cutoff).scores, limit, offset))
  {
    var now := Run(INITIAL, steps);
    var n := CountBefore(EventIds(now.db.ledger), cutoff);
    i := CutoffMoment(steps, boardId, n);
    AnswerAtMoment(steps, i, boardId, cutoff);
    var z := LiveOf(Run(INITIAL, steps[..i]).db, boardId);
    hide Run, AsOfAnswer, IsMoment, Page, ServableOnly;
    forall limit: int, offset: nat
      ensures ServableOnly(Page(z, limit, offset)) == Page(z, limit, offset)
    {
      InRangePageIsServed(z, limit, offset);
    }
  }

  /** The same of any moment outside a rebuild of the board at which the board had exactly its events
      before the cutoff. */
  lemma AnswerAtMoment(steps: seq<Step>, i: nat, boardId: string, cutoff: nat)
    requires CarefulRun(INITIAL, steps, boardId) && i <= |steps|
    requires boardId !in Run(INITIAL, steps[..i]).windows
    requires BoardEvents(Run(INITIAL, steps[..i]).db.ledger, boardId)
          == BoardEvents(EventsBefore(Run(INITIAL, steps).db.ledger, cutoff), boardId)
    ensures var z := LiveOf(Run(INITIAL, steps[..i]).db, boardId);
            AsOfAnswer(Run(INITIAL, steps).db, boardId, cutoff) == Scores(z) && AllInRange(z)
  {
    PrefixIsCareful(INITIAL, steps, i, boardId);
    ReachableBoards(steps[..i], boardId);
    ReachableBoards(steps, boardId);
    InitialIsOk();
    CarefulIsLegal(INITIAL, steps, boardId);
    LegalRunKeepsFacts(INITIAL, steps);
    ReplayIsInRange(BoardEvents(Run(INITIAL, steps[..i]).db.ledger, boardId));
    AnswerIsReplay(Run(INITIAL, steps).db, boardId, cutoff);
  }

  // ---- stability --------------------------------------------------------------------------

  /** The ledger cannot get another event below the cutoff: the clock of every later write has
      reached it, or the ledger's last id has. */
  predicate CutoffPassed(s: System, steps: seq<Step>, cutoff: nat) {
    LastId(EventIds(s.db.ledger)).ms >= cutoff
    || forall i :: 0 <= i < |steps| ==> steps[i].ScoreStep? ==> steps[i].now >= cutoff
  }

  lemma CountUnchangedByLater(a: seq<StreamId>, id: StreamId, cutoff: nat)
    ensures CountBefore(a + [id], cutoff)
         == if CountBefore(a, cutoff) == |a| && id.ms < cutoff then |a| + 1 else CountBefore(a, cutoff)
  {
    if a == [] {
      assert ([] + [id])[1..] == [];
    } else if a[0].ms < cutoff {
      assert (a + [id])[1..] == a[1..] + [id];
      CountUnchangedByLater(a[1..], id, cutoff);
    }
  }

  /** One accepted write changes the answer's events exactly when both its clock and the ledger's
      last id are still below the cutoff. */
  lemma WriteMovesCutoffIff(db: Db, w: Write, now: nat, cutoff: nat)
    requires Increasing(EventIds(db.ledger)) && ScoreOutcome(db, w, now).Applied?
    ensures EventsBefore(ApplyScore(db, w, now).ledger, cutoff) == EventsBefore(db.ledger, cutoff)
       <==> now >= cutoff || LastId(EventIds(db.ledger)).ms >= cutoff
  {
    hide Binary64.Add, Command;
    var ids := EventIds(db.ledger);
    var e := NewEvent(db, w, now);
    assert EventIds(db.ledger + [e]) == ids + [e.id];
    CountUnchangedByLater(ids, e.id, cutoff);
    var n := CountBefore(ids, cutoff);
    if n < |ids| {
      assert n == |ids| - 1 || Before(ids[n], ids[|ids| - 1]);
      assert (db.ledger + [e])[..n] == db.ledger[..n];
    } else {
      assert ids != [] ==> ids[|ids| - 1].ms < cutoff;
      assert (db.ledger + [e])[..n] == db.ledger[..n];
    }
  }

  lemma WriteKeepsLastMs(db: Db, w: Write, now: nat)
    requires ScoreOutcome(db, w, now).Applied?
    ensures LastId(EventIds(ApplyScore(db, w, now).ledger)).ms >= LastId(EventIds(db.ledger)).ms
  {
    hide Binary64.Add, Command;
    assert EventIds(ApplyScore(db, w, now).ledger) == EventIds(db.ledger) + [NewEvent(db, w, now).id];
  }

  lemma StepKeepsCutoff(s: System, step: Step, cutoff: nat)
    requires Increasing(EventIds(s.db.ledger))
    requires step.ScoreStep? ==> step.now >= cutoff || LastId(EventIds(s.db.ledger)).ms >= cutoff
    ensures EventsBefore(Next(s, step).db.ledger, cutoff) == EventsBefore(s.db.ledger, cutoff)
    ensures LastId(EventIds(s.db.ledger)).ms >= cutoff ==> LastId(EventIds(Next(s, step).db.ledger)).ms >= cutoff
  {
    hide Binary64.Add, Command, EventsBefore, NewEvent, ScoreOutcome, Increasing;
    if step.ScoreStep? && ScoreOutcome(s.db, step.w, step.now).Applied? {
      WriteMovesCutoffIff(s.db, step.w, step.now, cutoff);
      WriteKeepsLastMs(s.db, step.w, step.now);
      hide Next;
      assert Next(s, step).db == ApplyScore(s.db, step.w, step.now);
    }
  }

  lemma {:induction false} EventsBeforeFrozen(s: System, steps: seq<Step>, cutoff: nat)
    requires FactsOk(s.db) && LegalRun(s, steps) && CutoffPassed(s, steps, cutoff)
    ensures EventsBefore(Run(s, steps).db.ledger, cutoff) == EventsBefore(s.db.ledger, cutoff)
    decreases |steps|
  {
    if steps != [] {
      assert LedgerOk(s.db);
      NextKeepsFacts(s, steps[0]);
      StepKeepsCutoff(s, steps[0], cutoff);
      hide Next, Legal, FactsOk, EventsBefore;
      assert forall i :: 0 <= i < |steps[1..]| ==> steps[1..][i] == steps[i + 1];
      EventsBeforeFrozen(Next(s, steps[0]), steps[1..], cutoff);
    }
  }

  lemma AnswerOfPrefix(db: Db, boardId: string, cutoff: nat)
    ensures AsOfAnswer(db, boardId, cutoff) == AsOfScores(Encode(EventsBefore(db.ledger, cutoff)), boardId)
  {
    EncodedIds(db.ledger);
    EncodedSlice(db.ledger, 0, CountBefore(EventIds(db.ledger), cutoff));
  }

  /** Once the cutoff has passed, no later run changes the answer for it, however boards are rebuilt
      in it. */
  lemma PastIsFrozen(s: System, steps: seq<Step>, boardId: string, cutoff: nat)
    requires FactsOk(s.db) && LegalRun(s, steps) && CutoffPassed(s, steps, cutoff)
    ensures AsOfAnswer(Run(s, steps).db, boardId, cutoff) == AsOfAnswer(s.db, boardId, cutoff)
  {
    EventsBeforeFrozen(s, steps, cutoff);
    AnswerOfPrefix(s.db, boardId, cutoff);
    AnswerOfPrefix(Run(s, steps).db, boardId, cutoff);
  }
}
