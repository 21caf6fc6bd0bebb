/** Whole runs of the system: any interleaving of score writes, player and board operations,
    record expiry, and the single commands of projection rebuilds. */
module Protocol {
  import opened Text
  import opened Ledger
  import opened Replay
  import opened Scripts
  import Binary64

  /** A rebuild in progress on one board: the events it read, whether it has dropped the
      projection, and how many of the events the projection currently shows. */
  datatype Window = Window(events: seq<Event>, dropped: bool, shown: nat)

  datatype System = System(db: Db, windows: map<string, Window>)

  const INITIAL := System(EMPTY, map[])

  datatype Step =
    | ScoreStep(w: Write, now: nat)
    | PlayerStep(name: string, createdAt: string, candidate: string, key: string)
    | BoardStep(boardId: string, state: Lifecycle)
    | StateStep(boardId: string, state: Lifecycle)
    | ExpireStep(k: Key)
    | ExpireCreationStep(key: string)
      // one rebuild: read the ledger, drop the projection, then one command per event
    | ReadStep(boardId: string)
    | DropStep(boardId: string)
    | FoldStep(boardId: string)

  function CloseIfDone(windows: map<string, Window>, boardId: string, win: Window): map<string, Window> {
    if win.shown >= |win.events| then windows - {boardId} else windows[boardId := win]
  }

  function Next(s: System, step: Step): System {
    match step
    case ScoreStep(w, now) => s.(db := ApplyScore(s.db, w, now))
    case PlayerStep(name, createdAt, candidate, key) => s.(db := CreatePlayer(s.db, name, createdAt, candidate, key))
    case BoardStep(b, state) => s.(db := CreateBoard(s.db, b, state))
    case StateStep(b, state) => s.(db := SetBoardState(s.db, b, state))
    case ExpireStep(k) => s.(db := ExpireRecord(s.db, k))
    case ExpireCreationStep(key) => s.(db := ExpireCreation(s.db, key))
    case ReadStep(b) =>
      if b !in s.db.boards then s else
        var events := BoardEvents(s.db.ledger, b);
        // a rebuild that crashed part way leaves its partial projection to the next one
        var shown := if b in s.windows then s.windows[b].shown else |events|;
        s.(windows := s.windows[b := Window(events, false, shown)])
    case DropStep(b) =>
      if b !in s.windows || s.windows[b].dropped then s else
        System(s.db.(live := s.db.live - {b}),
               CloseIfDone(s.windows, b, s.windows[b].(dropped := true, shown := 0)))
    case FoldStep(b) =>
      if b !in s.windows || !s.windows[b].dropped || s.windows[b].shown >= |s.windows[b].events| then s else
        var win := s.windows[b];
        System(s.db.(live := s.db.live[b := Command(LiveOf(s.db, b), win.events[win.shown])]),
               CloseIfDone(s.windows, b, win.(shown := win.shown + 1)))
  }

  /** What the handlers and the order of a rebuild's own commands guarantee. */
  predicate Legal(s: System, step: Step) {
    match step
    case ScoreStep(w, _) => Accepted(w)
    case PlayerStep(_, _, candidate, _) => Clean(candidate)
    case DropStep(b) => b in s.windows && !s.windows[b].dropped
    case FoldStep(b) => b in s.windows && s.windows[b].dropped
    case _ => true
  }

  /** The documented operating rule: rebuild a board only while it is closed, and do not reopen
      it before the rebuild is done. */
  predicate Disciplined(s: System, step: Step) {
    && Legal(s, step)
    && (step.ReadStep? && step.boardId in s.db.boards ==> s.db.boards[step.boardId].Closed?)
    && (step.StateStep? && step.boardId in s.windows ==> step.state.Closed?)
  }

  function Run(s: System, steps: seq<Step>): System
    decreases |steps|
  {
    if steps == [] then s else Run(Next(s, steps[0]), steps[1..])
  }

  predicate DisciplinedRun(s: System, steps: seq<Step>)
    decreases |steps|
  {
    steps == [] || (Disciplined(s, steps[0]) && DisciplinedRun(Next(s, steps[0]), steps[1..]))
  }

  /** A run bound by the handlers only. */
  predicate LegalRun(s: System, steps: seq<Step>)
    decreases |steps|
  {
    steps == [] || (Legal(s, steps[0]) && LegalRun(Next(s, steps[0]), steps[1..]))
  }

  /** The operating rule for one board. */
  predicate Careful(s: System, step: Step, b: string) {
    && Legal(s, step)
    && (step == ReadStep(b) && b in s.db.boards ==> s.db.boards[b].Closed?)
    && (step.StateStep? && step.boardId == b && b in s.windows ==> step.state.Closed?)
  }

  /** A run that keeps the rule for board b; anything may be done to the others. */
  predicate CarefulRun(s: System, steps: seq<Step>, b: string)
    decreases |steps|
  {
    steps == [] || (Careful(s, steps[0], b) && CarefulRun(Next(s, steps[0]), steps[1..], b))
  }

  lemma {:induction false} DisciplinedIsCareful(s: System, steps: seq<Step>, b: string)
    requires DisciplinedRun(s, steps)
    ensures CarefulRun(s, steps, b)
    decreases |steps|
  {
    hide Next, Legal;
    if steps != [] {
      DisciplinedIsCareful(Next(s, steps[0]), steps[1..], b);
    }
  }

  lemma {:induction false} CarefulIsLegal(s: System, steps: seq<Step>, b: string)
    requires CarefulRun(s, steps, b)
    ensures LegalRun(s, steps)
    decreases |steps|
  {
    hide Next, Legal;
    if steps != [] {
      CarefulIsLegal(Next(s, steps[0]), steps[1..], b);
    }
  }

  // ---- the invariant ----------------------------------------------------------------------

  /** Inside a rebuild window the board is closed, the window holds exactly the board's events,
      and the projection is the replay of the first `shown` of them. */
  ghost predicate WindowOk(s: System, b: string)
    requires b in s.windows
  {
    var win := s.windows[b];
    && b in s.db.boards && s.db.boards[b].Closed?
    && win.events == BoardEvents(s.db.ledger, b)
    && win.shown <= |win.events|
    && (win.dropped ==> win.shown < |win.events|)
    && LiveOf(s.db, b) == ReplayAll(win.events[..win.shown])
  }

  /** Outside a rebuild window a board's live projection is the replay of its events, members
      included. */
  ghost predicate LiveIsReplay(s: System, b: string) {
    LiveOf(s.db, b) == BoardReplay(s.db.ledger, b)
  }

  ghost predicate BoardOk(s: System, b: string) {
    if b in s.windows then WindowOk(s, b) else LiveIsReplay(s, b)
  }

  /** The main invariant of one board: its ledger replays in range, and its projection is the
      replay. */
  ghost predicate BoardFine(s: System, b: string) {
    BoardInRange(BoardEvents(s.db.ledger, b)) && BoardOk(s, b)
  }

  ghost predicate SystemOk(s: System) {
    FactsOk(s.db) && forall b: string :: BoardFine(s, b)
  }

  lemma InitialIsOk()
    ensures SystemOk(INITIAL)
  {
    EmptyIsOk();
  }

  lemma OwnWriteKeepsBoard(s: System, w: Write, now: nat)
    requires BoardFine(s, w.boardId) && Accepted(w) && ScoreOutcome(s.db, w, now).Applied?
    ensures BoardFine(s.(db := ApplyScore(s.db, w, now)), w.boardId)
  {
    assert w.boardId !in s.windows;
    AppliedMovesTogether(s.db, w, now);
    hide ApplyScore, BoardInRange;
  }

  lemma OtherWriteKeepsBoard(s: System, w: Write, now: nat, b: string)
    requires BoardFine(s, b) && ScoreOutcome(s.db, w, now).Applied? && w.boardId != b
    ensures BoardFine(s.(db := ApplyScore(s.db, w, now)), b)
  {
    hide Binary64.Add, Command, BoardInRange;
    BoardEventsAppend(s.db.ledger, NewEvent(s.db, w, now), b);
  }

  lemma ScoreStepKeepsBoard(s: System, w: Write, now: nat, b: string)
    requires BoardFine(s, b) && Accepted(w)
    ensures BoardFine(Next(s, ScoreStep(w, now)), b)
  {
    hide BoardFine;
    if ScoreOutcome(s.db, w, now).Applied? {
      if w.boardId == b {
        OwnWriteKeepsBoard(s, w, now);
      } else {
        OtherWriteKeepsBoard(s, w, now, b);
      }
    }
  }

  lemma ReadStepKeepsBoard(s: System, c: string, b: string)
    requires BoardFine(s, b) && Careful(s, ReadStep(c), b)
    ensures BoardFine(Next(s, ReadStep(c)), b)
  {
    hide BoardInRange;
    var events := BoardEvents(s.db.ledger, b);
    assert events[..|events|] == events;
  }

  lemma DropStepKeepsBoard(s: System, c: string, b: string)
    requires BoardFine(s, b) && Legal(s, DropStep(c))
    ensures BoardFine(Next(s, DropStep(c)), b)
  {
    hide BoardInRange;
    if c == b {
      assert s.windows[b].events[..0] == [];
    }
  }

  /** Each single fold command extends the replay by one event. */
  lemma WindowCommandIsExact(s: System, b: string)
    requires BoardFine(s, b) && Legal(s, FoldStep(b))
    ensures var win := s.windows[b];
            && win.shown < |win.events|
            && Command(LiveOf(s.db, b), win.events[win.shown]) == ReplayAll(win.events[..win.shown + 1])
  {
    CommandExtendsReplay(s.windows[b].events, s.windows[b].shown);
  }

  lemma FoldStepKeepsBoard(s: System, c: string, b: string)
    requires BoardFine(s, b) && Legal(s, FoldStep(c))
    ensures BoardFine(Next(s, FoldStep(c)), b)
  {
    hide Command, BoardInRange;
    if c == b {
      var win := s.windows[b];
      WindowCommandIsExact(s, b);
      if win.shown + 1 == |win.events| {
        assert win.events[..win.shown + 1] == win.events;
      }
    }
  }

  /** The rule for a board keeps its invariant, whatever is done to other boards. */
  lemma NextKeepsBoard(s: System, step: Step, b: string)
    requires BoardFine(s, b) && Careful(s, step, b)
    ensures BoardFine(Next(s, step), b)
  {
    match step
    case ScoreStep(w, now) => ScoreStepKeepsBoard(s, w, now, b);
    case ReadStep(c) => ReadStepKeepsBoard(s, c, b);
    case DropStep(c) => DropStepKeepsBoard(s, c, b);
    case FoldStep(c) => FoldStepKeepsBoard(s, c, b);
    case _ => hide BoardInRange;
  }

  /** Ledger, records and profiles need no rule at all. */
  lemma NextKeepsFacts(s: System, step: Step)
    requires FactsOk(s.db) && Legal(s, step)
    ensures FactsOk(Next(s, step).db)
  {
    hide FactsOk, Command;
    var s' := Next(s, step);
    match step
    case ScoreStep(w, now) => ScoreWriteKeepsFacts(s.db, w, now);
    case PlayerStep(name, createdAt, candidate, key) =>
      CreatePlayerKeepsFacts(s.db, name, createdAt, candidate, key);
    case ExpireStep(k) => ExpiryKeepsFacts(s.db, k);
    case ExpireCreationStep(key) => CreationExpiryKeepsFacts(s.db, key);
    case _ => MoreBoardsKeepFacts(s.db, s'.db.boards, s'.db.live);
  }

  lemma {:induction false} LegalRunKeepsFacts(s: System, steps: seq<Step>)
    requires FactsOk(s.db) && LegalRun(s, steps)
    ensures FactsOk(Run(s, steps).db)
    decreases |steps|
  {
    hide FactsOk, Next, Legal;
    if steps != [] {
      NextKeepsFacts(s, steps[0]);
      LegalRunKeepsFacts(Next(s, steps[0]), steps[1..]);
    }
  }

  lemma {:induction false} CarefulRunKeepsBoard(s: System, steps: seq<Step>, b: string)
    requires BoardFine(s, b) && CarefulRun(s, steps, b)
    ensures BoardFine(Run(s, steps), b)
    decreases |steps|
  {
    hide BoardFine, Next, Careful;
    if steps != [] {
      NextKeepsBoard(s, steps[0], b);
      CarefulRunKeepsBoard(Next(s, steps[0]), steps[1..], b);
    }
  }

  /** The rule for every board keeps the invariant of every board. */
  lemma RunKeepsOk(s: System, steps: seq<Step>)
    requires SystemOk(s) && DisciplinedRun(s, steps)
    ensures SystemOk(Run(s, steps))
  {
    hide FactsOk, BoardFine, Run, DisciplinedRun, LegalRun;
    DisciplinedIsCareful(s, steps, "");
    CarefulIsLegal(s, steps, "");
    LegalRunKeepsFacts(s, steps);
    forall b: string ensures BoardFine(Run(s, steps), b) {
      DisciplinedIsCareful(s, steps, b);
      CarefulRunKeepsBoard(s, steps, b);
    }
  }

  lemma BoardMembers(ledger: seq<Event>, b: string, p: string)
    ensures p in BoardReplay(ledger, b) <==> exists e :: e in ledger && e.boardId == b && e.playerId == p
  {
    var events := BoardEvents(ledger, b);
    ReplayMembers(events, p);
    if i :| 0 <= i < |events| && events[i].playerId == p {
      BoardEventsMember(ledger, b, events[i]);
    }
    if e :| e in ledger && e.boardId == b && e.playerId == p {
      BoardEventsMember(ledger, b, e);
    }
  }

  /** In every run from the empty store that keeps the operating rule for board b, whatever it does
      to other boards: outside a rebuild window b's live projection is the left fold of its events,
      and inside one the fold of those shown so far; a player is a member exactly when an event
      names the player, and every prefix of the ledger replays b in range. */
  lemma ReachableBoards(steps: seq<Step>, b: string)
    requires CarefulRun(INITIAL, steps, b)
    ensures var s := Run(INITIAL, steps);
            && BoardFine(s, b)
            && (b !in s.windows ==> LiveOf(s.db, b) == BoardReplay(s.db.ledger, b))
            && (b in s.windows ==>
                  && s.windows[b].shown <= |BoardEvents(s.db.ledger, b)|
                  && LiveOf(s.db, b) == ReplayAll(BoardEvents(s.db.ledger, b)[..s.windows[b].shown]))
            && (forall p: string :: b !in s.windows ==>
                  (p in LiveOf(s.db, b) <==> exists e :: e in s.db.ledger && e.boardId == b && e.playerId == p))
            && (forall n: nat :: n <= |s.db.ledger| ==> AllInRange(BoardReplay(s.db.ledger[..n], b)))
  {
    InitialIsOk();
    assert BoardFine(INITIAL, b);
    CarefulRunKeepsBoard(INITIAL, steps, b);
    var s := Run(INITIAL, steps);
    hide Run, CarefulRun, BoardInRange;
    forall p: string
      ensures p in BoardReplay(s.db.ledger, b)
         <==> exists e :: e in s.db.ledger && e.boardId == b && e.playerId == p
    {
      BoardMembers(s.db.ledger, b, p);
    }
    forall n: nat | n <= |s.db.ledger| ensures AllInRange(BoardReplay(s.db.ledger[..n], b)) {
      LedgerPrefixInRange(s.db.ledger, n, b);
    }
  }

  lemma LedgerPrefixInRange(ledger: seq<Event>, n: nat, b: string)
    requires n <= |ledger| && BoardInRange(BoardEvents(ledger, b))
    ensures BoardInRange(BoardEvents(ledger[..n], b)) && AllInRange(BoardReplay(ledger[..n], b))
  {
    BoardEventsOfPrefix(ledger, n, b);
    PrefixIsInRange(BoardEvents(ledger[..n], b), BoardEvents(ledger, b));
    ReplayIsInRange(BoardEvents(ledger[..n], b));
  }

  lemma ReplayWithWrite(db: Db, w: Write, now: nat)
    requires BoardInRange(BoardEvents(db.ledger, w.boardId)) && Accepted(w)
    requires LiveOf(db, w.boardId) == BoardReplay(db.ledger, w.boardId)
    ensures AllInRange(BoardReplay(db.ledger + [NewEvent(db, w, now)], w.boardId)) <==> InRange(Resulting(db, w))
  {
    var e := NewEvent(db, w, now);
    ReplayIsInRange(BoardEvents(db.ledger, w.boardId));
    ResultingIsExact(db, w);
    hide Resulting, BoardInRange;
    BoardEventsAppend(db.ledger, e, w.boardId);
    ReplayAppend(map[], BoardEvents(db.ledger, w.boardId), e);
    OneScoreChanged(BoardReplay(db.ledger, w.boardId), w.playerId, Resulting(db, w));
  }

  /** When a write is accepted, in terms of the ledger alone: the key has no live record, the player
      and the open board exist, and the ledger with the write in it still replays in range. */
  lemma WriteIsAppliedIff(s: System, w: Write, now: nat)
    requires BoardFine(s, w.boardId) && Accepted(w)
    ensures ScoreOutcome(s.db, w, now).Applied?
       <==> && (w.key == "" || KeyOf(w) !in s.db.records)
            && w.playerId in s.db.profiles
            && w.boardId in s.db.boards && s.db.boards[w.boardId].Active?
            && AllInRange(BoardReplay(s.db.ledger + [NewEvent(s.db, w, now)], w.boardId))
  {
    hide Resulting, BoardReplay, NewEvent, AllInRange, BoardInRange;
    if w.boardId !in s.windows {
      ReplayWithWrite(s.db, w, now);
    }
  }

  /** Which write gets which answer, in terms of ledger, profiles, boards and records alone, in the
      order of the script's checks; and what an accepted one writes. */
  lemma WriteOutcomeIff(s: System, w: Write, now: nat)
    requires BoardFine(s, w.boardId) && Accepted(w)
    ensures var o := ScoreOutcome(s.db, w, now);
            var k := Key(w.boardId, w.playerId, w.key);
            var seen := w.key != "" && k in s.db.records;
            var known := w.playerId in s.db.profiles;
            var open := w.boardId in s.db.boards && s.db.boards[w.boardId] == Active;
            var score := ScoreOf(BoardReplay(s.db.ledger, w.boardId), w.playerId);
            var sum := if w.op == Set then w.amount else score + w.amount;
            && (o.Deduped? <==> seen && s.db.records[k].op == w.op && s.db.records[k].amount == w.amount)
            && (o.Deduped? ==> o.id == s.db.records[k].id)
            && (o.KeyConflict? <==> seen && !(s.db.records[k].op == w.op && s.db.records[k].amount == w.amount))
            && (o.PlayerNotFound? <==> !seen && !known)
            && (o.BoardNotFound? <==> !seen && known && w.boardId !in s.db.boards)
            && (o.BoardClosed? <==> !seen && known && w.boardId in s.db.boards && s.db.boards[w.boardId] == Closed)
            && (o.ScoreOutOfRange? <==>
                  !seen && known && open && !(-10_000_000_000_000 <= sum <= 10_000_000_000_000))
            && (o.Applied? <==> !seen && known && open && -10_000_000_000_000 <= sum <= 10_000_000_000_000)
            && (o.Applied? ==>
                  var db := Next(s, ScoreStep(w, now)).db;
                  && db.ledger == s.db.ledger + [Event(o.id, w.op, w.playerId, w.boardId, w.amount, w.requestId)]
                  && LiveOf(db, w.boardId) == BoardReplay(s.db.ledger, w.boardId)[w.playerId := sum])
  {
    ReplayIsInRange(BoardEvents(s.db.ledger, w.boardId));
    hide BoardReplay, BoardInRange, Binary64.Round;
    if w.boardId !in s.windows {
      ResultingIsExact(s.db, w);
      CommandIsExact(LiveOf(s.db, w.boardId), NewEvent(s.db, w, now));
    }
    hide Resulting, Command;
  }

  // ---- opening and closing ----------------------------------------------------------------

  /** No step opens the board. */
  predicate NotReopened(steps: seq<Step>, b: string) {
    forall i :: 0 <= i < |steps| ==> steps[i] != StateStep(b, Active)
  }

  predicate StaysClosed(s: System, steps: seq<Step>, b: string)
    decreases |steps|
  {
    && b in s.db.boards && s.db.boards[b].Closed?
    && (steps != [] ==> StaysClosed(Next(s, steps[0]), steps[1..], b))
  }

  lemma StepKeepsClosed(s: System, step: Step, b: string)
    requires b in s.db.boards && s.db.boards[b].Closed? && step != StateStep(b, Active)
    ensures b in Next(s, step).db.boards && Next(s, step).db.boards[b].Closed?
  {
    hide Binary64.Add, Command;
  }

  lemma {:induction false} ClosedStaysClosed(s: System, steps: seq<Step>, b: string)
    requires b in s.db.boards && s.db.boards[b].Closed? && NotReopened(steps, b)
    ensures StaysClosed(s, steps, b)
    decreases |steps|
  {
    hide Next;
    if steps != [] {
      StepKeepsClosed(s, steps[0], b);
      assert NotReopened(steps[1..], b) by {
        assert forall i :: 0 <= i < |steps[1..]| ==> steps[1..][i] == steps[i + 1];
      }
      ClosedStaysClosed(Next(s, steps[0]), steps[1..], b);
    }
  }

  /** Closing closes: once an existing board's state was set to closed it stays closed on every run
      that does not set it to active.  Setting a state changes that board's state and nothing else,
      and makes no new board. */
  lemma ClosingCloses(s: System, b: string, state: Lifecycle, steps: seq<Step>)
    ensures var s' := Next(s, StateStep(b, state));
            && (b !in s.db.boards ==> s' == s)
            && (b in s.db.boards ==> s' == System(s.db.(boards := s.db.boards[b := state]), s.windows))
            && (b in s.db.boards && state == Closed && NotReopened(steps, b) ==> StaysClosed(s', steps, b))
  {
    if b in s.db.boards && state == Closed && NotReopened(steps, b) {
      ClosedStaysClosed(Next(s, StateStep(b, state)), steps, b);
    }
  }

  /** Opening opens: on a board in order, outside a rebuild, a write made after the state was set to
      active is applied exactly when its key is new, its player exists, and the score with it is in
      range; after it was set to closed, never. */
  lemma OpeningOpens(s: System, w: Write, now: nat, state: Lifecycle)
    requires BoardFine(s, w.boardId) && Accepted(w) && w.boardId in s.db.boards && w.boardId !in s.windows
    ensures var o := ScoreOutcome(Next(s, StateStep(w.boardId, state)).db, w, now);
            var score := ScoreOf(BoardReplay(s.db.ledger, w.boardId), w.playerId);
            var sum := if w.op == Set then w.amount else score + w.amount;
            o.Applied? <==>
              && state == Active
              && (w.key == "" || Key(w.boardId, w.playerId, w.key) !in s.db.records)
              && w.playerId in s.db.profiles
              && -10_000_000_000_000 <= sum <= 10_000_000_000_000
  {
    hide BoardInRange;
    assert BoardFine(Next(s, StateStep(w.boardId, state)), w.boardId);
    WriteOutcomeIff(Next(s, StateStep(w.boardId, state)), w, now);
  }

  // ---- rebuild ----------------------------------------------------------------------------

  /** Rebuild commands a board's window still has to issue. */
  function Remaining(s: System, b: string): nat {
    if b !in s.windows then 0 else
      var win := s.windows[b];
      if !win.dropped then |win.events| + 1
      else if win.shown <= |win.events| then |win.events| - win.shown else 0
  }

  predicate IsCommandOf(step: Step, b: string) {
    (step.DropStep? || step.FoldStep?) && step.boardId == b
  }

  function Commands(steps: seq<Step>, b: string): nat {
    if steps == [] then 0 else (if IsCommandOf(steps[0], b) then 1 else 0) + Commands(steps[1..], b)
  }

  predicate NoRead(steps: seq<Step>, b: string) {
    forall i :: 0 <= i < |steps| ==> steps[i] != ReadStep(b)
  }

  /** The step does not append an event of board b, and starts no rebuild of it. */
  predicate Quiet(s: System, step: Step, b: string) {
    && step != ReadStep(b)
    && !(step.ScoreStep? && step.w.boardId == b && ScoreOutcome(s.db, step.w, step.now).Applied?)
  }

  /** A run that is quiet for b.  No rule binds it on any other board. */
  predicate QuietRun(s: System, steps: seq<Step>, b: string)
    decreases |steps|
  {
    steps == [] || (Legal(s, steps[0]) && Quiet(s, steps[0], b) && QuietRun(Next(s, steps[0]), steps[1..], b))
  }

  /** A rebuild has read these events and not yet dropped the projection. */
  predicate Reading(s: System, b: string, events: seq<Event>) {
    b in s.windows && s.windows[b].events == events && !s.windows[b].dropped
  }

  /** A rebuild of these events has its projection at the fold of events[j..] from y, as far as it
      got; without a window, to the end. */
  predicate Folding(s: System, b: string, events: seq<Event>, y: Zset, j: nat)
    requires j <= |events|
  {
    if b in s.windows then
      var win := s.windows[b];
      && win.events == events && win.dropped && j <= win.shown < |events|
      && LiveOf(s.db, b) == ReplayFrom(y, events[j..win.shown])
    else LiveOf(s.db, b) == ReplayFrom(y, events[j..])
  }

  /** Each further fold command is exact. */
  ghost predicate FoldsExactly(events: seq<Event>, y: Zset, j: nat)
    requires j <= |events|
  {
    forall m :: j <= m < |events| ==>
      Command(ReplayFrom(y, events[j..m]), events[m]) == Apply(ReplayFrom(y, events[j..m]), events[m])
  }

  lemma QuietStepKeepsEvents(s: System, step: Step, b: string)
    requires Quiet(s, step, b)
    ensures BoardEvents(Next(s, step).db.ledger, b) == BoardEvents(s.db.ledger, b)
  {
    hide Binary64.Add, Command;
    if step.ScoreStep? && ScoreOutcome(s.db, step.w, step.now).Applied? {
      BoardEventsAppend(s.db.ledger, NewEvent(s.db, step.w, step.now), b);
    }
  }

  lemma QuietStepReading(s: System, step: Step, b: string, events: seq<Event>)
    requires Reading(s, b, events) && Legal(s, step) && Quiet(s, step, b)
    ensures var s' := Next(s, step);
            && Remaining(s, b) == Remaining(s', b) + (if IsCommandOf(step, b) then 1 else 0)
            && (if step == DropStep(b) then Folding(s', b, events, map[], 0)
                else Reading(s', b, events) && LiveOf(s'.db, b) == LiveOf(s.db, b))
  {
    hide Binary64.Add, Command;
    assert events[0..0] == [];
    if |events| == 0 {
      assert events[0..] == [];
    }
  }

  /** One more fold command, on values. */
  lemma FoldOneMore(events: seq<Event>, y: Zset, j: nat, m: nat)
    requires j <= m < |events| && FoldsExactly(events, y, j)
    ensures Command(ReplayFrom(y, events[j..m]), events[m]) == ReplayFrom(y, events[j..m + 1])
    ensures m + 1 == |events| ==> events[j..m + 1] == events[j..]
  {
    hide Command;
    assert events[j..m + 1] == events[j..m] + [events[m]];
    ReplayAppend(y, events[j..m], events[m]);
  }

  lemma FoldAdvances(s: System, b: string, events: seq<Event>, y: Zset, j: nat)
    requires j <= |events| && Folding(s, b, events, y, j) && FoldsExactly(events, y, j) && Legal(s, FoldStep(b))
    ensures Folding(Next(s, FoldStep(b)), b, events, y, j)
  {
    hide ReplayFrom, FoldsExactly;
    FoldOneMore(events, y, j, s.windows[b].shown);
    hide Command;
  }

  /** Steps other than its own commands leave a board's window and projection alone. */
  lemma OtherStepsLeaveBoard(s: System, step: Step, b: string)
    requires Legal(s, step) && Quiet(s, step, b) && !IsCommandOf(step, b)
    ensures var s' := Next(s, step);
            && LiveOf(s'.db, b) == LiveOf(s.db, b)
            && (b in s'.windows <==> b in s.windows) && (b in s.windows ==> s'.windows[b] == s.windows[b])
  {
    hide Binary64.Add, Command;
  }

  lemma QuietStepFolding(s: System, step: Step, b: string, events: seq<Event>, y: Zset, j: nat)
    requires j <= |events| && Folding(s, b, events, y, j) && FoldsExactly(events, y, j)
    requires Legal(s, step) && Quiet(s, step, b)
    ensures Folding(Next(s, step), b, events, y, j)
    ensures Remaining(s, b) == Remaining(Next(s, step), b) + (if IsCommandOf(step, b) then 1 else 0)
  {
    hide Command, FoldsExactly;
    if step == FoldStep(b) {
      FoldAdvances(s, b, events, y, j);
    } else if !IsCommandOf(step, b) {
      OtherStepsLeaveBoard(s, step, b);
      hide Next;
    }
  }

  lemma {:induction false} QuietRunFolding(
    s: System, steps: seq<Step>, b: string, events: seq<Event>, y: Zset, j: nat)
    requires j <= |events| && Folding(s, b, events, y, j) && FoldsExactly(events, y, j)
    requires QuietRun(s, steps, b)
    ensures Folding(Run(s, steps), b, events, y, j)
    ensures BoardEvents(Run(s, steps).db.ledger, b) == BoardEvents(s.db.ledger, b)
    ensures Remaining(s, b) == Remaining(Run(s, steps), b) + Commands(steps, b)
    decreases |steps|
  {
    hide Next, Folding, FoldsExactly, Legal, Quiet, Remaining, IsCommandOf;
    if steps != [] {
      QuietStepFolding(s, steps[0], b, events, y, j);
      QuietStepKeepsEvents(s, steps[0], b);
      QuietRunFolding(Next(s, steps[0]), steps[1..], b, events, y, j);
    }
  }

  /** A rebuild's remaining commands fall by one with each of its commands and by nothing else; until
      the drop the projection stays, after it the projection is the fold so far. */
  lemma {:induction false} RunCountsDown(s: System, steps: seq<Step>, b: string, events: seq<Event>)
    requires Reading(s, b, events) && FoldsExactly(events, map[], 0) && QuietRun(s, steps, b)
    ensures var t := Run(s, steps);
            && Remaining(s, b) == Remaining(t, b) + Commands(steps, b)
            && BoardEvents(t.db.ledger, b) == BoardEvents(s.db.ledger, b)
            && (if Commands(steps, b) == 0 then Reading(t, b, events) && LiveOf(t.db, b) == LiveOf(s.db, b)
                else Folding(t, b, events, map[], 0))
    decreases |steps|
  {
    hide Next, Folding, FoldsExactly, Quiet, Remaining, Reading;
    if steps != [] {
      QuietStepReading(s, steps[0], b, events);
      QuietStepKeepsEvents(s, steps[0], b);
      if steps[0] == DropStep(b) {
        QuietRunFolding(Next(s, steps[0]), steps[1..], b, events, map[], 0);
      } else {
        NoFoldWhileReading(s, steps[0], b, events);
        RunCountsDown(Next(s, steps[0]), steps[1..], b, events);
      }
    }
  }

  lemma NoFoldWhileReading(s: System, step: Step, b: string, events: seq<Event>)
    requires Reading(s, b, events) && Legal(s, step)
    ensures step != FoldStep(b)
  {
  }

  /** The projection of a board that has `Remaining` fold commands to go. */
  lemma ShownByRemaining(s: System, b: string, events: seq<Event>)
    requires Folding(s, b, events, map[], 0)
    ensures var rest := Remaining(s, b);
            && rest <= |events|
            && LiveOf(s.db, b) == ReplayAll(events[..|events| - rest])
            && (rest == 0 <==> b !in s.windows)
  {
    assert events[0..] == events[..|events|];
    if b in s.windows {
      assert events[0..s.windows[b].shown] == events[..s.windows[b].shown];
    }
  }

  lemma ReadOpensWindow(s: System, b: string)
    requires b in s.db.boards
    ensures var r := Next(s, ReadStep(b));
            && r.db == s.db && Reading(r, b, BoardEvents(s.db.ledger, b))
            && Remaining(r, b) == |BoardEvents(s.db.ledger, b)| + 1
  {
  }

  lemma InRangeFoldsExactly(events: seq<Event>)
    requires BoardInRange(events)
    ensures FoldsExactly(events, map[], 0)
  {
    forall m | 0 <= m < |events|
      ensures Command(ReplayFrom(map[], events[0..m]), events[m]) == Apply(ReplayFrom(map[], events[0..m]), events[m])
    {
      assert events[0..m] == events[..m];
      assert AllInRange(ReplayAll(events[..m]));
      CommandIsExact(ReplayAll(events[..m]), events[m]);
    }
  }

  /** Rebuild safety, needing a rule for this board only.  After the ledger read of a board that
      gets no event until the rebuild is done, whatever other steps interleave (open rebuilds of
      other boards included): after k of the rebuild's commands the projection is the replay of the
      board's first k - 1 events, and once drop and every fold have run it is the full replay. */
  lemma QuietRebuildIsSafe(s: System, b: string, steps: seq<Step>)
    requires b in s.db.boards && BoardInRange(BoardEvents(s.db.ledger, b))
    requires QuietRun(Next(s, ReadStep(b)), steps, b)
    ensures var t := Run(Next(s, ReadStep(b)), steps);
            var n := |BoardEvents(s.db.ledger, b)|;
            var k := Commands(steps, b);
            && k <= n + 1
            && BoardEvents(t.db.ledger, b) == BoardEvents(s.db.ledger, b)
            && (0 < k ==> LiveOf(t.db, b) == ReplayAll(BoardEvents(s.db.ledger, b)[..k - 1]))
            && (k == n + 1 ==> LiveOf(t.db, b) == BoardReplay(t.db.ledger, b) && b !in t.windows)
  {
    hide Next, Folding, FoldsExactly, Remaining, Reading, QuietRun, BoardInRange;
    var r := Next(s, ReadStep(b));
    var events := BoardEvents(s.db.ledger, b);
    ReadOpensWindow(s, b);
    InRangeFoldsExactly(events);
    RunCountsDown(r, steps, b, events);
    if Commands(steps, b) > 0 {
      ShownByRemaining(Run(r, steps), b, events);
      assert events[..|events|] == events;
    }
  }

  lemma {:induction false} ClosedIsQuiet(s: System, steps: seq<Step>, b: string)
    requires StaysClosed(s, steps, b) && LegalRun(s, steps) && NoRead(steps, b)
    ensures QuietRun(s, steps, b)
    decreases |steps|
  {
    hide Next, Legal;
    if steps != [] {
      assert NoRead(steps[1..], b) by {
        assert forall i :: 0 <= i < |steps[1..]| ==> steps[1..][i] == steps[i + 1];
      }
      ClosedIsQuiet(Next(s, steps[0]), steps[1..], b);
    }
  }

  /** A board that stays closed gets no event. */
  lemma {:induction false} ClosedBoardIsFrozen(s: System, steps: seq<Step>, b: string)
    requires StaysClosed(s, steps, b)
    ensures BoardEvents(Run(s, steps).db.ledger, b) == BoardEvents(s.db.ledger, b)
    decreases |steps|
  {
    hide Binary64.Add, Command;
    if steps != [] {
      if steps[0] != ReadStep(b) {
        QuietStepKeepsEvents(s, steps[0], b);
      }
      ClosedBoardIsFrozen(Next(s, steps[0]), steps[1..], b);
    }
  }

  /** The documented protection: a board that stays closed from the ledger read on is rebuilt safely,
      whatever is done to other boards; and if the rule is kept for every board, every board without
      a window still equals its own replay. */
  lemma RebuildIsSafe(s: System, b: string, steps: seq<Step>)
    requires SystemOk(s) && b in s.db.boards
    requires LegalRun(Next(s, ReadStep(b)), steps) && NoRead(steps, b)
    requires StaysClosed(Next(s, ReadStep(b)), steps, b)
    ensures var t := Run(Next(s, ReadStep(b)), steps);
            var n := |BoardEvents(s.db.ledger, b)|;
            var k := Commands(steps, b);
            && k <= n + 1
            && BoardEvents(t.db.ledger, b) == BoardEvents(s.db.ledger, b)
            && (0 < k ==> LiveOf(t.db, b) == ReplayAll(BoardEvents(s.db.ledger, b)[..k - 1]))
            && (k == n + 1 ==> LiveOf(t.db, b) == BoardReplay(t.db.ledger, b) && b !in t.windows)
            && (DisciplinedRun(Next(s, ReadStep(b)), steps) ==>
                  forall c: string :: c !in t.windows ==> LiveOf(t.db, c) == BoardReplay(t.db.ledger, c))
  {
    var r := Next(s, ReadStep(b));
    ReadOpensWindow(s, b);
    if DisciplinedRun(r, steps) {
      StillClosed(s, b, steps);
      RunKeepsOk(s, [ReadStep(b)] + steps);
      OutsideWindowsLiveIsReplay(Run(r, steps));
    }
    assert BoardFine(s, b);
    ClosedIsQuiet(r, steps, b);
    QuietRebuildIsSafe(s, b, steps);
  }

  /** The whole documented procedure: close the board, rebuild it while it is closed, open it when the
      rebuild is done.  Whatever state its projection was in and whatever else is done in between: no
      event is added from the closing on, once drop and every fold have run the projection is the
      replay of all events, and the invariant of the board holds again. */
  lemma ClosedRebuildIsSafe(s: System, b: string, waiting: seq<Step>, steps: seq<Step>)
    requires b in s.db.boards && BoardInRange(BoardEvents(s.db.ledger, b))
    requires LegalRun(Next(s, StateStep(b, Closed)), waiting) && NotReopened(waiting, b)
    requires var r := Next(Run(Next(s, StateStep(b, Closed)), waiting), ReadStep(b));
             LegalRun(r, steps) && NotReopened(steps, b) && NoRead(steps, b)
    ensures var t := Run(Next(Run(Next(s, StateStep(b, Closed)), waiting), ReadStep(b)), steps);
            var n := |BoardEvents(s.db.ledger, b)|;
            var k := Commands(steps, b);
            && k <= n + 1
            && BoardEvents(t.db.ledger, b) == BoardEvents(s.db.ledger, b)
            && (0 < k ==> LiveOf(t.db, b) == ReplayAll(BoardEvents(s.db.ledger, b)[..k - 1]))
            && (k == n + 1 ==>
                  && LiveOf(t.db, b) == BoardReplay(t.db.ledger, b) && b !in t.windows
                  && b in t.db.boards && BoardFine(t, b))
  {
    var closed := Next(s, StateStep(b, Closed));
    ClosingCloses(s, b, Closed, waiting);
    ClosedBoardIsFrozen(closed, waiting, b);
    EndsClosed(closed, waiting, b);
    var waited := Run(closed, waiting);
    ReadOpensWindow(waited, b);
    var r := Next(waited, ReadStep(b));
    ClosedStaysClosed(r, steps, b);
    EndsClosed(r, steps, b);
    ClosedIsQuiet(r, steps, b);
    QuietRebuildIsSafe(waited, b, steps);
  }

  lemma {:induction false} EndsClosed(s: System, steps: seq<Step>, b: string)
    requires StaysClosed(s, steps, b)
    ensures b in Run(s, steps).db.boards && Run(s, steps).db.boards[b].Closed?
    decreases |steps|
  {
    hide Next;
    if steps != [] {
      EndsClosed(Next(s, steps[0]), steps[1..], b);
    }
  }

  lemma StillClosed(s: System, b: string, steps: seq<Step>)
    requires b in s.db.boards && StaysClosed(Next(s, ReadStep(b)), steps, b)
    requires DisciplinedRun(Next(s, ReadStep(b)), steps)
    ensures DisciplinedRun(s, [ReadStep(b)] + steps)
    ensures Run(s, [ReadStep(b)] + steps) == Run(Next(s, ReadStep(b)), steps)
  {
    assert ([ReadStep(b)] + steps)[1..] == steps;
  }

  lemma OutsideWindowsLiveIsReplay(s: System)
    requires SystemOk(s)
    ensures forall c: string :: c !in s.windows ==> LiveOf(s.db, c) == BoardReplay(s.db.ledger, c)
  {
    forall c: string | c !in s.windows ensures LiveOf(s.db, c) == BoardReplay(s.db.ledger, c) {
      assert BoardFine(s, c);
    }
  }

  lemma {:induction false} RunAppend(s: System, steps: seq<Step>, step: Step)
    ensures Run(s, steps + [step]) == Next(Run(s, steps), step)
    decreases |steps|
  {
    if steps == [] {
      assert ([] + [step])[1..] == [];
    } else {
      assert (steps + [step])[1..] == steps[1..] + [step];
      RunAppend(Next(s, steps[0]), steps[1..], step);
    }
  }

  lemma {:induction false} RunConcat(s: System, a: seq<Step>, b: seq<Step>)
    ensures Run(s, a + b) == Run(Run(s, a), b)
    decreases |a|
  {
    if a == [] {
      assert [] + b == b;
    } else {
      assert (a + b)[1..] == a[1..] + b;
      RunConcat(Next(s, a[0]), a[1..], b);
    }
  }

  /** A set of 5 by player "p" on board "b", made at time 1. */
  const RACING := Write(Set, "p", "b", 5, "r", "")
  const RACING_EVENT := Event(StreamId(1, 0), Set, "p", "b", 5, "r")

  lemma RacingOutcome(db: Db)
    requires db.ledger == [] && db.live == map[] && "p" in db.profiles
    requires "b" in db.boards && db.boards["b"].Active?
    ensures ScoreOutcome(db, RACING, 1) == Applied(StreamId(1, 0))
    ensures NewEvent(db, RACING, 1) == RACING_EVENT
    ensures ApplyScore(db, RACING, 1).ledger == [RACING_EVENT]
    ensures ApplyScore(db, RACING, 1).live == map["b" := map["p" := 5]]
    ensures ApplyScore(db, RACING, 1).boards == db.boards
    ensures BoardReplay([RACING_EVENT], "b") == map["p" := 5]
  {
    Binary64.SmallIsExact(5);
    BoardEventsAppend([], RACING_EVENT, "b");
    ReplayAppend(map[], [], RACING_EVENT);
    assert [] + [RACING_EVENT] == [RACING_EVENT];
  }

  /** Without the rule the property fails: a board left open loses a write accepted between the
      rebuild's ledger read and its drop. */
  lemma OpenRebuildLosesWrite() returns (steps: seq<Step>)
    ensures var t := Run(INITIAL, steps);
            && "b" in t.db.boards && "b" !in t.windows
            && LiveOf(t.db, "b") == map[]
            && BoardReplay(t.db.ledger, "b") == map["p" := 5]
  {
    var setup := [PlayerStep("name", "now", "p", ""), BoardStep("b", Active)];
    var s := Next(Next(INITIAL, setup[0]), setup[1]);
    RunAppend(INITIAL, [], setup[0]);
    RunAppend(INITIAL, [setup[0]], setup[1]);
    assert [] + [setup[0]] == [setup[0]] && [setup[0]] + [setup[1]] == setup;
    var s1 := Next(s, ReadStep("b"));
    var s2 := Next(s1, ScoreStep(RACING, 1));
    var s3 := Next(s2, DropStep("b"));
    RacingOutcome(s1.db);
    RunAppend(INITIAL, setup, ReadStep("b"));
    RunAppend(INITIAL, setup + [ReadStep("b")], ScoreStep(RACING, 1));
    RunAppend(INITIAL, setup + [ReadStep("b")] + [ScoreStep(RACING, 1)], DropStep("b"));
    steps := setup + [ReadStep("b")] + [ScoreStep(RACING, 1)] + [DropStep("b")];
  }
}
