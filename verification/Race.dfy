/** Rebuilding a board that was left open: what writes accepted in the middle of a rebuild do to the
    projection and to the ledger. */
module Race {
  import opened Text
  import opened Ledger
  import opened Replay
  import opened Scripts
  import opened Protocol
  import opened Idempotency
  import opened Drift
  import Binary64

  // ---- the arithmetic of a raced fold -----------------------------------------------------

  /** The fold of a middle part of the events, on top of the part before it. */
  lemma MiddleFold(events: seq<Event>, k: nat, m: nat)
    requires k <= m <= |events|
    ensures ReplayFrom(ReplayAll(events[..k]), events[k..m]) == ReplayAll(events[..m])
  {
    ReplaySplit(map[], events[..k], events[k..m]);
    assert events[..k] + events[k..m] == events[..m];
  }

  /** A score in the middle of a raced fold is off by at most two bounds. */
  lemma RacedScore(events: seq<Event>, k: nat, m: nat, y: Zset, p: string)
    requires BoardInRange(events) && k <= m <= |events|
    requires InRange(ScoreOf(y, p))
    ensures Binary64.Distance(ScoreOf(ReplayFrom(y, events[k..m]), p), 0) <= 3 * SCORE_MAX
  {
    var z := ReplayAll(events[..k]);
    assert AllInRange(z) && AllInRange(ReplayAll(events[..m]));
    ScoreInRange(z, p);
    ScoreInRange(ReplayAll(events[..m]), p);
    MiddleFold(events, k, m);
    FoldedScore(y, events[k..m], p);
    FoldedScore(z, events[k..m], p);
  }

  /** So a raced fold is still computed exactly. */
  lemma RacedFoldsExactly(events: seq<Event>, k: nat, y: Zset)
    requires BoardInRange(events) && k <= |events| && AllInRange(y)
    ensures FoldsExactly(events, y, k)
  {
    forall m | k <= m < |events|
      ensures Command(ReplayFrom(y, events[k..m]), events[m]) == Apply(ReplayFrom(y, events[k..m]), events[m])
    {
      ScoreInRange(y, events[m].playerId);
      RacedScore(events, k, m, y, events[m].playerId);
      CommandIsExactBelow(ReplayFrom(y, events[k..m]), events[m]);
    }
  }

  // ---- one write inside a window, in closed form ----------------------------------------------------

  /** An accepted write moves the projection by its own event, exactly when the projection it finds
      is in range. */
  lemma AcceptedOnProjection(db: Db, w: Write, now: nat)
    requires Accepted(w) && ScoreOutcome(db, w, now).Applied? && AllInRange(LiveOf(db, w.boardId))
    ensures var db' := ApplyScore(db, w, now);
            && LiveOf(db', w.boardId) == Apply(LiveOf(db, w.boardId), NewEvent(db, w, now))
            && AllInRange(LiveOf(db', w.boardId))
            && BoardEvents(db'.ledger, w.boardId) == BoardEvents(db.ledger, w.boardId) + [NewEvent(db, w, now)]
  {
    var z := LiveOf(db, w.boardId);
    ScoreInRange(z, w.playerId);
    ResultingIsExact(db, w);
    CommandIsExact(z, NewEvent(db, w, now));
    BoardEventsAppend(db.ledger, NewEvent(db, w, now), w.boardId);
  }

  /** The moment of the write: the rebuild of b has read `events` and issued k of its commands. */
  ghost predicate Midway(s: System, b: string, events: seq<Event>, k: nat) {
    && b in s.windows && BoardEvents(s.db.ledger, b) == events && BoardInRange(events)
    && k <= |events| + 1
    && (if k == 0 then Reading(s, b, events) && LiveOf(s.db, b) == ReplayAll(events)
        else Folding(s, b, events, map[], 0) && s.windows[b].shown == k - 1
             && LiveOf(s.db, b) == ReplayAll(events[..k - 1]))
  }

  /** Starting a rebuild of any board and running until one of its commands is next leads there. */
  lemma QuietLeadsMidway(s: System, b: string, before: seq<Step>)
    requires b in s.db.boards && BoardInRange(BoardEvents(s.db.ledger, b))
    requires LiveOf(s.db, b) == BoardReplay(s.db.ledger, b)
    requires QuietRun(Next(s, ReadStep(b)), before, b) && b in Run(Next(s, ReadStep(b)), before).windows
    ensures Midway(Run(Next(s, ReadStep(b)), before), b, BoardEvents(s.db.ledger, b), Commands(before, b))
  {
    var events := BoardEvents(s.db.ledger, b);
    var u := Run(Next(s, ReadStep(b)), before);
    ReadOpensWindow(s, b);
    InRangeFoldsExactly(events);
    RunCountsDown(Next(s, ReadStep(b)), before, b, events);
    hide Next, Run, FoldsExactly, BoardInRange, QuietRun;
    if Commands(before, b) > 0 {
      ShownByRemaining(u, b, events);
    }
  }

  /** The score the script bounds in the middle of a rebuild is the one on the partial projection. */
  function PartialReplay(events: seq<Event>, k: nat): Zset
    requires k <= |events| + 1
  {
    if k == 0 then ReplayAll(events) else ReplayAll(events[..k - 1])
  }

  lemma PartialIsInRange(events: seq<Event>, k: nat)
    requires BoardInRange(events) && k <= |events| + 1
    ensures AllInRange(PartialReplay(events, k))
  {
    assert events[..|events|] == events;
  }

  /** The write itself, and where it leaves the rebuild. */
  lemma WriteMidway(u: System, b: string, events: seq<Event>, k: nat, w: Write, now: nat)
    requires Midway(u, b, events, k)
    requires Accepted(w) && w.boardId == b && ScoreOutcome(u.db, w, now).Applied?
    ensures var v := Next(u, ScoreStep(w, now));
            var e := NewEvent(u.db, w, now);
            && BoardEvents(v.db.ledger, b) == events + [e]
            && (k == 0 ==> Reading(v, b, events))
            && (k > 0 ==> AllInRange(Apply(ReplayAll(events[..k - 1]), e))
                          && Folding(v, b, events, Apply(ReplayAll(events[..k - 1]), e), k - 1))
  {
    PartialIsInRange(events, k);
    AcceptedOnProjection(u.db, w, now);
    hide BoardInRange, Resulting, ScoreOutcome;
    if k > 0 {
      assert events[k - 1..k - 1] == [];
    }
  }

  /** One write accepted in the middle of an open board's rebuild, and otherwise any interleaving:
      when the rebuild is done the projection is the ledger's replay exactly when the write came
      before the drop and changed nothing, or after it and the events still to be folded leave its
      effect alone. */
  lemma OpenRebuildIsRightIff(
    s: System, b: string, before: seq<Step>, w: Write, now: nat, after: seq<Step>)
    requires b in s.db.boards && BoardInRange(BoardEvents(s.db.ledger, b))
    requires LiveOf(s.db, b) == BoardReplay(s.db.ledger, b)
    requires QuietRun(Next(s, ReadStep(b)), before, b) && b in Run(Next(s, ReadStep(b)), before).windows
    requires Accepted(w) && w.boardId == b
    requires ScoreOutcome(Run(Next(s, ReadStep(b)), before).db, w, now).Applied?
    requires var v := Next(Run(Next(s, ReadStep(b)), before), ScoreStep(w, now));
             QuietRun(v, after, b) && b !in Run(v, after).windows
    ensures var u := Run(Next(s, ReadStep(b)), before);
            var t := Run(Next(u, ScoreStep(w, now)), after);
            var events, e, k := BoardEvents(s.db.ledger, b), NewEvent(u.db, w, now), Commands(before, b);
            && k <= |events|
            && BoardReplay(t.db.ledger, b) == ReplayAll(events + [e])
            && (LiveOf(t.db, b) == BoardReplay(t.db.ledger, b) <==>
                  if k == 0 then ChangesNothing(ReplayAll(events), e) else SurvivesFolding(events[k - 1..], e))
  {
    QuietLeadsMidway(s, b, before);
    hide Next, Run;
    var u := Run(Next(s, ReadStep(b)), before);
    RaceEnds(u, b, BoardEvents(s.db.ledger, b), Commands(before, b), w, now, after);
  }

  lemma RaceEnds(
    u: System, b: string, events: seq<Event>, k: nat, w: Write, now: nat, after: seq<Step>)
    requires Midway(u, b, events, k)
    requires Accepted(w) && w.boardId == b && ScoreOutcome(u.db, w, now).Applied?
    requires QuietRun(Next(u, ScoreStep(w, now)), after, b)
    requires b !in Run(Next(u, ScoreStep(w, now)), after).windows
    ensures var t := Run(Next(u, ScoreStep(w, now)), after);
            var e := NewEvent(u.db, w, now);
            && k <= |events|
            && BoardReplay(t.db.ledger, b) == ReplayAll(events + [e])
            && (LiveOf(t.db, b) == BoardReplay(t.db.ledger, b) <==>
                  if k == 0 then ChangesNothing(ReplayAll(events), e) else SurvivesFolding(events[k - 1..], e))
  {
    var v := Next(u, ScoreStep(w, now));
    var e := NewEvent(u.db, w, now);
    WriteMidway(u, b, events, k, w, now);
    if k == 0 {
      InRangeFoldsExactly(events);
      hide Next, Run, BoardInRange, FoldsExactly, NewEvent, QuietRun;
      RunCountsDown(v, after, b, events);
      assert events[0..] == events;
      UnseenWriteSurvivesIff(events, e);
    } else {
      var y := Apply(ReplayAll(events[..k - 1]), e);
      RacedFoldsExactly(events, k - 1, y);
      hide Next, Run, BoardInRange, FoldsExactly, NewEvent, QuietRun;
      QuietRunFolding(v, after, b, events, y, k - 1);
      RacingWriteSurvivesIff(events, k - 1, e);
    }
  }

  // ---- the projection of any legal run ----------------------------------------------------

  /** The commands a board's projection got since its last drop, after one more step. */
  function MixNext(s: System, step: Step, b: string, mix: seq<Event>): seq<Event> {
    match step
    case ScoreStep(w, now) =>
      if w.boardId == b && ScoreOutcome(s.db, w, now).Applied? then mix + [NewEvent(s.db, w, now)] else mix
    case DropStep(c) => if c == b && b in s.windows && !s.windows[b].dropped then [] else mix
    case FoldStep(c) =>
      if c == b && b in s.windows && s.windows[b].dropped && s.windows[b].shown < |s.windows[b].events|
      then mix + [s.windows[b].events[s.windows[b].shown]] else mix
    case _ => mix
  }

  function MixOf(s: System, steps: seq<Step>, b: string, mix: seq<Event>): seq<Event>
    decreases |steps|
  {
    if steps == [] then mix else MixOf(Next(s, steps[0]), steps[1..], b, MixNext(s, steps[0], b, mix))
  }

  ghost predicate Bounded(z: Zset, bound: int) {
    forall p: string {:trigger ScoreOf(z, p)} :: Binary64.Distance(ScoreOf(z, p), 0) <= bound
  }

  ghost predicate Near(y: Zset, z: Zset, bound: int) {
    forall p: string {:trigger ScoreOf(y, p)} :: Binary64.Distance(ScoreOf(y, p), ScoreOf(z, p)) <= bound
  }

  /** How far a board's ledger may replay for the folds of its rebuilds to stay below 2^53, whatever
      writes arrive in them: far beyond the score bound, which a wrong projection can take it past. */
  const FOLD_MAX: int := 440 * SCORE_MAX
  const NEAR_MAX: int := FOLD_MAX + SCORE_MAX
  const LIVE_MAX: int := FOLD_MAX + NEAR_MAX

  /** Every amount is in range, and every prefix replays within the limit. */
  ghost predicate Foldable(events: seq<Event>) {
    && (forall i :: 0 <= i < |events| ==> InRange(events[i].amount))
    && (forall k: nat :: k <= |events| ==> Bounded(ReplayAll(events[..k]), FOLD_MAX))
  }

  lemma InRangeIsFoldable(events: seq<Event>)
    requires BoardInRange(events)
    ensures Foldable(events)
  {
    forall k: nat | k <= |events| ensures Bounded(ReplayAll(events[..k]), FOLD_MAX) {
      assert AllInRange(ReplayAll(events[..k]));
    }
  }

  lemma PrefixIsFoldable(events: seq<Event>, more: seq<Event>)
    requires events <= more && Foldable(more)
    ensures Foldable(events)
  {
    forall i | 0 <= i < |events| ensures InRange(events[i].amount) {
      assert events[i] == more[i];
    }
    forall k: nat | k <= |events| ensures Bounded(ReplayAll(events[..k]), FOLD_MAX) {
      assert more[..k] == events[..k];
      assert Bounded(ReplayAll(more[..k]), FOLD_MAX);
    }
  }

  /** A window holds a beginning of the board's events that can be folded; after its drop the
      projection is near the partial replay. */
  ghost predicate WindowTracked(s: System, b: string)
    requires b in s.windows
  {
    var win := s.windows[b];
    && Foldable(win.events) && win.events <= BoardEvents(s.db.ledger, b) && win.shown <= |win.events|
    && (win.dropped ==> win.shown < |win.events|
                        && Near(LiveOf(s.db, b), ReplayAll(win.events[..win.shown]), NEAR_MAX))
  }

  /** The projection is the replay of its commands, and every score stays exact. */
  ghost predicate Tracked(s: System, b: string, mix: seq<Event>) {
    && LiveOf(s.db, b) == ReplayAll(mix)
    && Bounded(LiveOf(s.db, b), LIVE_MAX)
    && (b in s.windows ==> WindowTracked(s, b))
  }

  /** The bounded write on values: exact, and the new score in range. */
  lemma BoundedWrite(db: Db, w: Write, now: nat)
    requires Accepted(w) && ScoreOutcome(db, w, now).Applied?
    requires Binary64.Distance(ScoreOf(LiveOf(db, w.boardId), w.playerId), 0) <= LIVE_MAX
    ensures var z, e := LiveOf(db, w.boardId), NewEvent(db, w, now);
            LiveOf(ApplyScore(db, w, now), w.boardId) == Apply(z, e) && InRange(ScoreOf(Apply(z, e), w.playerId))
  {
    ResultingOnAny(db, w);
    CommandIsExactBelow(LiveOf(db, w.boardId), NewEvent(db, w, now));
  }

  lemma ResultingOnAny(db: Db, w: Write)
    requires Accepted(w)
    requires Binary64.Distance(ScoreOf(LiveOf(db, w.boardId), w.playerId), 0) <= LIVE_MAX
    ensures Resulting(db, w)
         == (if w.op.Set? then 0 else ScoreOf(LiveOf(db, w.boardId), w.playerId)) + w.amount
  {
    Binary64.SmallIsExact(w.amount);
    Binary64.SmallIsExact(
      (if w.op.Set? then 0 else ScoreOf(LiveOf(db, w.boardId), w.playerId)) + w.amount);
  }

  lemma WriteKeepsBounds(y: Zset, e: Event, bound: int)
    requires Bounded(y, bound) && bound >= SCORE_MAX && InRange(ScoreOf(Apply(y, e), e.playerId))
    ensures Bounded(Apply(y, e), bound)
  {
    forall p: string ensures Binary64.Distance(ScoreOf(Apply(y, e), p), 0) <= bound {
      assert p != e.playerId ==> ScoreOf(Apply(y, e), p) == ScoreOf(y, p);
    }
  }

  lemma WriteKeepsNear(y: Zset, z: Zset, e: Event)
    requires Near(y, z, NEAR_MAX) && Bounded(z, FOLD_MAX) && InRange(ScoreOf(Apply(y, e), e.playerId))
    ensures Near(Apply(y, e), z, NEAR_MAX)
  {
    forall p: string ensures Binary64.Distance(ScoreOf(Apply(y, e), p), ScoreOf(z, p)) <= NEAR_MAX {
      assert Binary64.Distance(ScoreOf(z, p), 0) <= FOLD_MAX;
      assert p != e.playerId ==> ScoreOf(Apply(y, e), p) == ScoreOf(y, p);
    }
  }

  /** Folding the same event on both sides keeps the distance, and so the bound. */
  lemma FoldKeepsNear(y: Zset, z: Zset, e: Event)
    requires Near(y, z, NEAR_MAX)
    ensures Near(Apply(y, e), Apply(z, e), NEAR_MAX)
  {
    forall p: string
      ensures Binary64.Distance(ScoreOf(Apply(y, e), p), ScoreOf(Apply(z, e), p)) <= NEAR_MAX
    {
      assert Binary64.Distance(ScoreOf(y, p), ScoreOf(z, p)) <= NEAR_MAX;
    }
  }

  lemma NearIsBounded(y: Zset, z: Zset)
    requires Near(y, z, NEAR_MAX) && Bounded(z, FOLD_MAX)
    ensures Bounded(y, LIVE_MAX)
  {
    forall p: string ensures Binary64.Distance(ScoreOf(y, p), 0) <= LIVE_MAX {
      assert Binary64.Distance(ScoreOf(z, p), 0) <= FOLD_MAX;
      assert Binary64.Distance(ScoreOf(y, p), ScoreOf(z, p)) <= NEAR_MAX;
    }
  }

  lemma WriteKeepsTracked(s: System, b: string, mix: seq<Event>, w: Write, now: nat)
    requires Tracked(s, b, mix)
    requires Accepted(w) && w.boardId == b && ScoreOutcome(s.db, w, now).Applied?
    ensures Tracked(Next(s, ScoreStep(w, now)), b, mix + [NewEvent(s.db, w, now)])
  {
    var y, e := LiveOf(s.db, b), NewEvent(s.db, w, now);
    BoundedWrite(s.db, w, now);
    ReplayAppend(map[], mix, e);
    WriteKeepsBounds(y, e, LIVE_MAX);
    BoardEventsAppend(s.db.ledger, e, b);
    if b in s.windows && s.windows[b].dropped {
      assert Bounded(ReplayAll(s.windows[b].events[..s.windows[b].shown]), FOLD_MAX);
      WriteKeepsNear(y, ReplayAll(s.windows[b].events[..s.windows[b].shown]), e);
    }
    hide Bounded, Near, Foldable, ScoreOutcome, Command;
  }

  /** One fold command on a projection near the partial replay. */
  lemma FoldOnValues(y: Zset, events: seq<Event>, m: nat)
    requires Foldable(events) && m < |events|
    requires Near(y, ReplayAll(events[..m]), NEAR_MAX)
    ensures Command(y, events[m]) == Apply(y, events[m])
    ensures Near(Apply(y, events[m]), ReplayAll(events[..m + 1]), NEAR_MAX)
    ensures Bounded(Apply(y, events[m]), LIVE_MAX)
  {
    var z, e := ReplayAll(events[..m]), events[m];
    assert Bounded(z, FOLD_MAX) && Bounded(ReplayAll(events[..m + 1]), FOLD_MAX);
    NearIsBounded(y, z);
    assert Binary64.Distance(ScoreOf(y, e.playerId), 0) <= LIVE_MAX;
    CommandIsExactBelow(y, e);
    hide Command, Foldable, Bounded;
    FoldKeepsNear(y, z, e);
    assert events[..m + 1] == events[..m] + [e];
    ReplayAppend(map[], events[..m], e);
    NearIsBounded(Apply(y, e), ReplayAll(events[..m + 1]));
  }

  lemma FoldKeepsTracked(s: System, b: string, mix: seq<Event>)
    requires Tracked(s, b, mix) && Legal(s, FoldStep(b))
    ensures var win := s.windows[b];
            win.shown < |win.events| && Tracked(Next(s, FoldStep(b)), b, mix + [win.events[win.shown]])
  {
    var win := s.windows[b];
    FoldOnValues(LiveOf(s.db, b), win.events, win.shown);
    ReplayAppend(map[], mix, win.events[win.shown]);
    hide Bounded, Near, Foldable, Command, ReplayAll, Apply;
  }

  lemma DropKeepsTracked(s: System, b: string, mix: seq<Event>)
    requires Tracked(s, b, mix) && Legal(s, DropStep(b))
    ensures Tracked(Next(s, DropStep(b)), b, [])
  {
    assert s.windows[b].events[..0] == [];
  }

  lemma NextKeepsTracked(s: System, step: Step, b: string, mix: seq<Event>)
    requires Tracked(s, b, mix) && Legal(s, step)
    requires step == ReadStep(b) ==> Foldable(BoardEvents(s.db.ledger, b))
    ensures Tracked(Next(s, step), b, MixNext(s, step, b, mix))
  {
    hide Bounded, Near, Foldable, Command, Binary64.Add;
    match step
    case ScoreStep(w, now) =>
      if ScoreOutcome(s.db, w, now).Applied? {
        if w.boardId == b {
          WriteKeepsTracked(s, b, mix, w, now);
        } else {
          BoardEventsAppend(s.db.ledger, NewEvent(s.db, w, now), b);
        }
      }
    case DropStep(c) =>
      if c == b {
        DropKeepsTracked(s, b, mix);
      }
    case FoldStep(c) =>
      if c == b {
        FoldKeepsTracked(s, b, mix);
      }
    case _ =>
  }

  lemma BoardOnlyGrows(s: System, steps: seq<Step>, b: string)
    ensures BoardEvents(s.db.ledger, b) <= BoardEvents(Run(s, steps).db.ledger, b)
  {
    LedgerOnlyGrows(s, steps);
    var ledger, longer := s.db.ledger, Run(s, steps).db.ledger;
    assert longer[..|ledger|] == ledger;
    BoardEventsOfPrefix(longer, |ledger|, b);
  }

  /** Whenever a rebuild of b read the ledger, b's events could be folded. */
  ghost predicate FoldableReads(s: System, steps: seq<Step>, b: string)
    decreases |steps|
  {
    steps == [] || ((steps[0] == ReadStep(b) ==> Foldable(BoardEvents(s.db.ledger, b)))
                    && FoldableReads(Next(s, steps[0]), steps[1..], b))
  }

  /** Which is so if the ledger at the end can be. */
  lemma {:induction false} ReadsAreFoldable(s: System, steps: seq<Step>, b: string)
    requires Foldable(BoardEvents(Run(s, steps).db.ledger, b)) || NoRead(steps, b)
    ensures FoldableReads(s, steps, b)
    decreases |steps|
  {
    hide Next, Foldable;
    if steps != [] {
      if Foldable(BoardEvents(Run(s, steps).db.ledger, b)) {
        BoardOnlyGrows(s, steps, b);
        PrefixIsFoldable(BoardEvents(s.db.ledger, b), BoardEvents(Run(s, steps).db.ledger, b));
      } else {
        assert NoRead(steps[1..], b) by {
          assert forall i :: 0 <= i < |steps[1..]| ==> steps[1..][i] == steps[i + 1];
        }
      }
      ReadsAreFoldable(Next(s, steps[0]), steps[1..], b);
    }
  }

  lemma {:induction false} RunKeepsTracked(s: System, steps: seq<Step>, b: string, mix: seq<Event>)
    requires Tracked(s, b, mix) && LegalRun(s, steps) && FoldableReads(s, steps, b)
    ensures Tracked(Run(s, steps), b, MixOf(s, steps, b, mix))
    decreases |steps|
  {
    hide Tracked, Foldable, Next, Legal, MixNext;
    if steps != [] {
      NextKeepsTracked(s, steps[0], b, mix);
      RunKeepsTracked(Next(s, steps[0]), steps[1..], b, MixNext(s, steps[0], b, mix));
    }
  }

  lemma InitialIsTracked(b: string)
    ensures Tracked(INITIAL, b, [])
  {
  }

  /** On every run, with any number of writes and rebuilds of open and closed boards: as long as the
      board's events replayed below the limit whenever a rebuild read them, the double arithmetic of its
      projection is integer arithmetic, and the projection is the replay of the commands it got since
      its last drop. */
  lemma LiveIsMix(steps: seq<Step>, b: string)
    requires LegalRun(INITIAL, steps) && FoldableReads(INITIAL, steps, b)
    ensures LiveOf(Run(INITIAL, steps).db, b) == ReplayAll(MixOf(INITIAL, steps, b, []))
  {
    InitialIsTracked(b);
    RunKeepsTracked(INITIAL, steps, b, []);
  }

  // ---- the ledger's range -----------------------------------------------------------------

  lemma AppliedCases(db: Db, w: Write, now: nat)
    ensures ScoreOutcome(db, w, now).Applied?
       <==> && (w.key == "" || KeyOf(w) !in db.records) && w.playerId in db.profiles
            && w.boardId in db.boards && db.boards[w.boardId].Active? && InRange(Resulting(db, w))
  {
  }

  /** The script's checks pass, and the write is an increment in the bound on top of the live score but
      not on top of the player's true score. */
  predicate PassesOnWrongScore(db: Db, w: Write) {
    && (w.key == "" || KeyOf(w) !in db.records) && w.playerId in db.profiles
    && w.boardId in db.boards && db.boards[w.boardId].Active? && w.op.Increment?
    && InRange(ScoreOf(LiveOf(db, w.boardId), w.playerId) + w.amount)
    && !InRange(ScoreOf(BoardReplay(db.ledger, w.boardId), w.playerId) + w.amount)
  }

  lemma TrackedWriteBreaksRangeIff(s: System, mix: seq<Event>, w: Write, now: nat)
    requires Tracked(s, w.boardId, mix) && BoardInRange(BoardEvents(s.db.ledger, w.boardId)) && Accepted(w)
    ensures ScoreOutcome(s.db, w, now).Applied?
            && !BoardInRange(BoardEvents(ApplyScore(s.db, w, now).ledger, w.boardId))
       <==> PassesOnWrongScore(s.db, w)
  {
    AppliedCases(s.db, w, now);
    assert Binary64.Distance(ScoreOf(LiveOf(s.db, w.boardId), w.playerId), 0) <= LIVE_MAX;
    ResultingOnAny(s.db, w);
    RangeAfterIff(BoardEvents(s.db.ledger, w.boardId), NewEvent(s.db, w, now));
    BoardEventsAppend(s.db.ledger, NewEvent(s.db, w, now), w.boardId);
    hide BoardInRange, ScoreOutcome, Resulting, Tracked, NewEvent, Command;
  }

  /** The script bounds a write against the projection it finds.  On every run whose board is still in
      range: the script accepts a write and leaves a ledger that replays out of range if and only if
      it passes on a wrong score. */
  lemma WriteBreaksRangeIff(steps: seq<Step>, w: Write, now: nat)
    requires LegalRun(INITIAL, steps) && Accepted(w)
    requires BoardInRange(BoardEvents(Run(INITIAL, steps).db.ledger, w.boardId))
    ensures var db := Run(INITIAL, steps).db;
            (ScoreOutcome(db, w, now).Applied?
             && !BoardInRange(BoardEvents(ApplyScore(db, w, now).ledger, w.boardId)))
            <==> PassesOnWrongScore(db, w)
  {
    hide MixOf, Tracked, BoardInRange, Foldable, ScoreOutcome, ApplyScore, PassesOnWrongScore, Next, Legal;
    InitialIsTracked(w.boardId);
    InRangeIsFoldable(BoardEvents(Run(INITIAL, steps).db.ledger, w.boardId));
    ReadsAreFoldable(INITIAL, steps, w.boardId);
    RunKeepsTracked(INITIAL, steps, w.boardId, []);
    TrackedWriteBreaksRangeIff(Run(INITIAL, steps), MixOf(INITIAL, steps, w.boardId, []), w, now);
  }

  /** And for good: no later step brings the ledger's replay back into range. */
  lemma BrokenForGood(s: System, steps: seq<Step>, b: string)
    requires !BoardInRange(BoardEvents(s.db.ledger, b))
    ensures !BoardInRange(BoardEvents(Run(s, steps).db.ledger, b))
  {
    BoardOnlyGrows(s, steps, b);
    if BoardInRange(BoardEvents(Run(s, steps).db.ledger, b)) {
      PrefixIsInRange(BoardEvents(s.db.ledger, b), BoardEvents(Run(s, steps).db.ledger, b));
    }
  }

  // ---- a rebuild with any number of writes in it ------------------------------------------

  predicate AppliedTo(s: System, step: Step, b: string) {
    step.ScoreStep? && step.w.boardId == b && ScoreOutcome(s.db, step.w, step.now).Applied?
  }

  /** A write between the ledger read and the drop: the fold never sees it. */
  function LostNow(s: System, step: Step, b: string): seq<Event> {
    if AppliedTo(s, step, b) && b in s.windows && !s.windows[b].dropped
    then [NewEvent(s.db, step.w, step.now)] else []
  }

  /** A write after the drop, with the number of events folded when it arrived; n of them once the
      rebuild is done. */
  function LateNow(s: System, step: Step, b: string, n: nat): seq<Arrival> {
    if AppliedTo(s, step, b) && !(b in s.windows && !s.windows[b].dropped)
    then [Arrival(if b in s.windows then s.windows[b].shown else n, NewEvent(s.db, step.w, step.now))] else []
  }

  function Lost(s: System, steps: seq<Step>, b: string): seq<Event>
    decreases |steps|
  {
    if steps == [] then [] else LostNow(s, steps[0], b) + Lost(Next(s, steps[0]), steps[1..], b)
  }

  function Late(s: System, steps: seq<Step>, b: string, n: nat): seq<Arrival>
    decreases |steps|
  {
    if steps == [] then [] else LateNow(s, steps[0], b, n) + Late(Next(s, steps[0]), steps[1..], b, n)
  }

  /** Since a ledger read that found `events`: the ledger got the lost and the late writes; and the
      commands since the drop are the events folded so far with the late writes where they arrived. */
  ghost predicate Traced(
    s: System, b: string, events: seq<Event>, lost: seq<Event>, late: seq<Arrival>, mix: seq<Event>)
  {
    && BoardEvents(s.db.ledger, b) == events + lost + WritesOf(late)
    && if Reading(s, b, events) then late == []
       else if b in s.windows then
         var win := s.windows[b];
         && win.events == events && win.dropped && win.shown < |events|
         && InOrder(late, win.shown) && mix == Merge(events[..win.shown], late)
       else InOrder(late, |events|) && mix == Merge(events, late)
  }

  lemma WriteTraced(
    s: System, b: string, events: seq<Event>, lost: seq<Event>, late: seq<Arrival>, mix: seq<Event>, step: Step)
    requires Traced(s, b, events, lost, late, mix) && AppliedTo(s, step, b)
    ensures Traced(Next(s, step), b, events, lost + LostNow(s, step, b),
                   late + LateNow(s, step, b, |events|), MixNext(s, step, b, mix))
  {
    hide Command, Binary64.Add;
    var e := NewEvent(s.db, step.w, step.now);
    BoardEventsAppend(s.db.ledger, e, b);
    if Reading(s, b, events) {
      assert WritesOf(late) == [] && late + [] == late;
      assert events + lost + WritesOf(late) + [e] == events + (lost + [e]) + WritesOf(late);
    } else {
      var k := if b in s.windows then s.windows[b].shown else |events|;
      assert events[..|events|] == events;
      MergeArrives(events, late, k, e);
      assert lost + [] == lost;
      assert events + lost + WritesOf(late) + [e] == events + lost + (WritesOf(late) + [e]);
    }
  }

  lemma CommandTraced(
    s: System, b: string, events: seq<Event>, lost: seq<Event>, late: seq<Arrival>, mix: seq<Event>, step: Step)
    requires Traced(s, b, events, lost, late, mix) && Legal(s, step) && IsCommandOf(step, b)
    ensures Traced(Next(s, step), b, events, lost, late, MixNext(s, step, b, mix))
  {
    hide Command;
    assert events[..0] == [];
    if step == FoldStep(b) {
      var k := s.windows[b].shown;
      MergeFolds(events, late, k);
      assert events[..|events|] == events;
    }
  }

  lemma NextTraced(
    s: System, b: string, events: seq<Event>, lost: seq<Event>, late: seq<Arrival>, mix: seq<Event>, step: Step)
    requires Traced(s, b, events, lost, late, mix) && Legal(s, step) && step != ReadStep(b)
    ensures Traced(Next(s, step), b, events, lost + LostNow(s, step, b),
                   late + LateNow(s, step, b, |events|), MixNext(s, step, b, mix))
  {
    if AppliedTo(s, step, b) {
      WriteTraced(s, b, events, lost, late, mix, step);
    } else {
      assert lost + [] == lost && late + [] == late;
      if IsCommandOf(step, b) {
        CommandTraced(s, b, events, lost, late, mix, step);
      } else {
        OtherStepsLeaveBoard(s, step, b);
        QuietStepKeepsEvents(s, step, b);
        hide Next, NewEvent;
      }
    }
  }

  lemma {:induction false} RunTraced(
    s: System, b: string, events: seq<Event>, lost: seq<Event>, late: seq<Arrival>, mix: seq<Event>,
    steps: seq<Step>)
    requires Traced(s, b, events, lost, late, mix) && LegalRun(s, steps) && NoRead(steps, b)
    ensures Traced(Run(s, steps), b, events, lost + Lost(s, steps, b),
                   late + Late(s, steps, b, |events|), MixOf(s, steps, b, mix))
    decreases |steps|
  {
    hide Traced, Legal, Next, LostNow, LateNow, MixNext;
    if steps == [] {
      assert lost + [] == lost && late + [] == late;
    } else {
      var l, a := LostNow(s, steps[0], b), LateNow(s, steps[0], b, |events|);
      NextTraced(s, b, events, lost, late, mix, steps[0]);
      assert NoRead(steps[1..], b) by {
        assert forall i :: 0 <= i < |steps[1..]| ==> steps[1..][i] == steps[i + 1];
      }
      var s', rest := Next(s, steps[0]), steps[1..];
      RunTraced(s', b, events, lost + l, late + a, MixNext(s, steps[0], b, mix), rest);
      assert lost + l + Lost(s', rest, b) == lost + (l + Lost(s', rest, b));
      assert late + a + Late(s', rest, b, |events|) == late + (a + Late(s', rest, b, |events|));
    }
  }

  lemma ReadIsTraced(s: System, b: string, mix: seq<Event>)
    requires b in s.db.boards
    ensures Traced(Next(s, ReadStep(b)), b, BoardEvents(s.db.ledger, b), [], [], mix)
  {
    assert BoardEvents(s.db.ledger, b) + [] + [] == BoardEvents(s.db.ledger, b);
  }

  /** After any run, a rebuild of a board, open or closed, that reads foldable events, with any number of
      accepted writes in it and after it, and any other steps interleaved: when it is done the
      projection is the ledger's replay if and only if no score drifts and no lost write alone made a member. */
  lemma RebuildIsRightIff(pre: seq<Step>, b: string, post: seq<Step>)
    requires LegalRun(INITIAL, pre) && b in Run(INITIAL, pre).db.boards
    requires Foldable(BoardEvents(Run(INITIAL, pre).db.ledger, b))
    requires var r := Next(Run(INITIAL, pre), ReadStep(b));
             LegalRun(r, post) && NoRead(post, b) && b !in Run(r, post).windows
    ensures var s := Run(INITIAL, pre);
            var r := Next(s, ReadStep(b));
            var t, events := Run(r, post), BoardEvents(s.db.ledger, b);
            var lost, late := Lost(r, post, b), Late(r, post, b, |events|);
            && InOrder(late, |events|)
            && BoardEvents(t.db.ledger, b) == events + lost + WritesOf(late)
            && LiveOf(t.db, b) == ReplayAll(Merge(events, late))
            && (LiveOf(t.db, b) == BoardReplay(t.db.ledger, b) <==> NoDrift(events, lost, late))
  {
    var s := Run(INITIAL, pre);
    var r := Next(s, ReadStep(b));
    var events, mix := BoardEvents(s.db.ledger, b), MixOf(INITIAL, pre, b, []);
    ReadIsTraced(s, b, mix);
    RunTraced(r, b, events, [], [], mix, post);
    var lost, late := Lost(r, post, b), Late(r, post, b, |events|);
    assert [] + lost == lost && [] + late == late;
    TrackedAfterRead(pre, b, post);
    hide Next, Run, LegalRun, Foldable, Lost, Late, MixOf, NoDrift, Merge;
    MergeIsRightIff(events, lost, late);
  }

  lemma TrackedAfterRead(pre: seq<Step>, b: string, post: seq<Step>)
    requires LegalRun(INITIAL, pre) && Foldable(BoardEvents(Run(INITIAL, pre).db.ledger, b))
    requires LegalRun(Next(Run(INITIAL, pre), ReadStep(b)), post) && NoRead(post, b)
    ensures var r := Next(Run(INITIAL, pre), ReadStep(b));
            LiveOf(Run(r, post).db, b) == ReplayAll(MixOf(r, post, b, MixOf(INITIAL, pre, b, [])))
  {
    var s, read := Run(INITIAL, pre), ReadStep(b);
    var r, mix := Next(s, read), MixOf(INITIAL, pre, b, []);
    InitialIsTracked(b);
    ReadsAreFoldable(INITIAL, pre, b);
    RunKeepsTracked(INITIAL, pre, b, []);
    NextKeepsTracked(s, read, b, mix);
    hide Next, Run, Tracked, Foldable, NoRead, MixOf;
    ReadsAreFoldable(r, post, b);
    RunKeepsTracked(r, post, b, mix);
    TrackedIsMix(Run(r, post), b, MixOf(r, post, b, mix));
  }

  lemma TrackedIsMix(s: System, b: string, mix: seq<Event>)
    requires Tracked(s, b, mix)
    ensures LiveOf(s.db, b) == ReplayAll(mix)
  {
  }

  // ---- a run that leaves the range --------------------------------------------------------

  const FULL := Write(Set, "p", "b", SCORE_MAX, "r", "")
  const MORE := Write(Increment, "p", "b", SCORE_MAX, "r", "")
  const FULL_EVENT := Event(StreamId(1, 0), Set, "p", "b", SCORE_MAX, "r")
  const MORE_EVENT := Event(StreamId(2, 0), Increment, "p", "b", SCORE_MAX, "r")

  /** Player "p" and an open board "b" exist, and no one else's events do. */
  predicate Stage(db: Db) {
    "p" in db.profiles && "b" in db.boards && db.boards["b"].Active?
  }

  lemma FullIsAccepted(db: Db)
    requires Stage(db) && db.ledger == []
    ensures ScoreOutcome(db, FULL, 1).Applied? && NewEvent(db, FULL, 1) == FULL_EVENT
    ensures ApplyScore(db, FULL, 1).ledger == [FULL_EVENT] && Stage(ApplyScore(db, FULL, 1))
  {
    Binary64.SmallIsExact(SCORE_MAX);
  }

  lemma MoreIsAccepted(db: Db)
    requires Stage(db) && db.ledger == [FULL_EVENT] && LiveOf(db, "b") == map[]
    ensures ScoreOutcome(db, MORE, 2).Applied?
    ensures ApplyScore(db, MORE, 2).ledger == [FULL_EVENT, MORE_EVENT]
  {
    Binary64.SmallIsExact(SCORE_MAX);
    assert EventIds(db.ledger) == [StreamId(1, 0)];
  }

  lemma TwiceFull()
    ensures BoardReplay([FULL_EVENT, MORE_EVENT], "b") == map["p" := 2 * SCORE_MAX]
    ensures !BoardInRange(BoardEvents([FULL_EVENT, MORE_EVENT], "b"))
  {
    assert [FULL_EVENT, MORE_EVENT] == [FULL_EVENT] + [MORE_EVENT] && [FULL_EVENT] == [] + [FULL_EVENT];
    BoardEventsAppend([], FULL_EVENT, "b");
    BoardEventsAppend([FULL_EVENT], MORE_EVENT, "b");
    ReplayAppend(map[], [], FULL_EVENT);
    ReplayAppend(map[], [FULL_EVENT], MORE_EVENT);
    var events := [FULL_EVENT, MORE_EVENT];
    assert events[..|events|] == events;
    assert ReplayAll(events)["p"] == 2 * SCORE_MAX;
    assert BoardInRange(events) ==> AllInRange(ReplayAll(events[..|events|]));
  }

  /** From the empty store: a set to the bound, a rebuild of the open board up to its drop, and an
      increment by the bound.  The increment is accepted, the ledger replays to twice the bound, and
      every later ledger has a prefix that does. */
  lemma OpenRebuildBreaksRange(more: seq<Step>) returns (steps: seq<Step>)
    ensures var t := Run(INITIAL, steps);
            && BoardReplay(t.db.ledger, "b") == map["p" := 2 * SCORE_MAX]
            && !BoardInRange(BoardEvents(Run(t, more).db.ledger, "b"))
  {
    var s1 := Next(INITIAL, PlayerStep("name", "now", "p", ""));
    var s2 := Next(s1, BoardStep("b", Active));
    var s3 := Next(s2, ScoreStep(FULL, 1));
    FullIsAccepted(s2.db);
    var s4 := Next(s3, ReadStep("b"));
    var s5 := Next(s4, DropStep("b"));
    BoardEventsAppend([], FULL_EVENT, "b");
    assert [] + [FULL_EVENT] == [FULL_EVENT];
    MoreIsAccepted(s5.db);
    var s6 := Next(s5, ScoreStep(MORE, 2));
    TwiceFull();
    hide ApplyScore, BoardInRange;
    RunAppend(INITIAL, [], PlayerStep("name", "now", "p", ""));
    steps := [] + [PlayerStep("name", "now", "p", "")];
    RunAppend(INITIAL, steps, BoardStep("b", Active));
    steps := steps + [BoardStep("b", Active)];
    RunAppend(INITIAL, steps, ScoreStep(FULL, 1));
    steps := steps + [ScoreStep(FULL, 1)];
    RunAppend(INITIAL, steps, ReadStep("b"));
    steps := steps + [ReadStep("b")];
    RunAppend(INITIAL, steps, DropStep("b"));
    steps := steps + [DropStep("b")];
    RunAppend(INITIAL, steps, ScoreStep(MORE, 2));
    steps := steps + [ScoreStep(MORE, 2)];
    BrokenForGood(s6, more, "b");
  }

  lemma OnceFull()
    ensures BoardReplay([FULL_EVENT], "b") == map["p" := SCORE_MAX]
    ensures BoardInRange(BoardEvents([FULL_EVENT], "b"))
  {
    assert [FULL_EVENT] == [] + [FULL_EVENT];
    BoardEventsAppend([], FULL_EVENT, "b");
    ReplayAppend(map[], [], FULL_EVENT);
    RangeAfterIff([], FULL_EVENT);
  }

  /** The rebuild need not be under way any more: one that lost a set to the bound has left an empty
      projection of a ledger in range, and the next increment by the bound breaks it. */
  lemma StaleProjectionBreaksRange() returns (steps: seq<Step>)
    ensures LegalRun(INITIAL, steps)
    ensures var s := Run(INITIAL, steps);
            && s.windows == map[] && LiveOf(s.db, "b") == map[]
            && BoardReplay(s.db.ledger, "b") == map["p" := SCORE_MAX]
            && BoardInRange(BoardEvents(s.db.ledger, "b"))
            && ScoreOutcome(s.db, MORE, 2).Applied?
            && BoardReplay(Next(s, ScoreStep(MORE, 2)).db.ledger, "b") == map["p" := 2 * SCORE_MAX]
  {
    var s1 := Next(INITIAL, PlayerStep("name", "now", "p", ""));
    var s2 := Next(s1, BoardStep("b", Active));
    var s3 := Next(s2, ReadStep("b"));
    FullIsAccepted(s3.db);
    var s4 := Next(s3, ScoreStep(FULL, 1));
    var s5 := Next(s4, DropStep("b"));
    assert s5.windows == map[];
    MoreIsAccepted(s5.db);
    OnceFull();
    TwiceFull();
    hide ApplyScore, BoardInRange;
    LegalAppend(INITIAL, [], PlayerStep("name", "now", "p", ""));
    steps := [] + [PlayerStep("name", "now", "p", "")];
    LegalAppend(INITIAL, steps, BoardStep("b", Active));
    steps := steps + [BoardStep("b", Active)];
    LegalAppend(INITIAL, steps, ReadStep("b"));
    steps := steps + [ReadStep("b")];
    LegalAppend(INITIAL, steps, ScoreStep(FULL, 1));
    steps := steps + [ScoreStep(FULL, 1)];
    LegalAppend(INITIAL, steps, DropStep("b"));
    steps := steps + [DropStep("b")];
  }

  lemma {:induction false} LegalAppend(s: System, steps: seq<Step>, step: Step)
    requires LegalRun(s, steps) && Legal(Run(s, steps), step)
    ensures LegalRun(s, steps + [step]) && Run(s, steps + [step]) == Next(Run(s, steps), step)
    decreases |steps|
  {
    hide Next, Legal;
    if steps == [] {
      assert ([] + [step])[1..] == [];
    } else {
      assert (steps + [step])[1..] == steps[1..] + [step];
      LegalAppend(Next(s, steps[0]), steps[1..], step);
    }
  }
}
