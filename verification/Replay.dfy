/** The meaning of a ledger: the left fold of one board's events into a map from player to score.
    Every view of the system is compared with this function. */
module Replay {
  import opened Text
  import opened Ledger
  import Binary64

  /** Content of a sorted set: member to score.  All scores are integers. */
  type Zset = map<string, int>

  function ScoreOf(z: Zset, member: string): int {
    if member in z then z[member] else 0
  }

  /** The effect of one event on the scores, over the integers. */
  function Apply(z: Zset, e: Event): Zset {
    z[e.playerId := if e.op.Set? then e.amount else ScoreOf(z, e.playerId) + e.amount]
  }

  function ReplayFrom(z: Zset, events: seq<Event>): Zset {
    if events == [] then z else Apply(ReplayFrom(z, events[..|events| - 1]), events[|events| - 1])
  }

  function ReplayAll(events: seq<Event>): Zset {
    ReplayFrom(map[], events)
  }

  function BoardEvents(events: seq<Event>, boardId: string): seq<Event> {
    if events == [] then [] else
      var rest := BoardEvents(events[..|events| - 1], boardId);
      if events[|events| - 1].boardId == boardId then rest + [events[|events| - 1]] else rest
  }

  function BoardReplay(events: seq<Event>, boardId: string): Zset {
    ReplayAll(BoardEvents(events, boardId))
  }

  // ---- the Redis commands -----------------------------------------------------------------

  function ZAdd(z: Zset, member: string, score: int): Zset {
    z[member := Binary64.Round(score)]
  }

  function ZIncrBy(z: Zset, member: string, delta: int): Zset {
    z[member := Binary64.Add(ScoreOf(z, member), Binary64.Round(delta))]
  }

  /** The command the write script and the rebuild issue for an event. */
  function Command(z: Zset, e: Event): Zset {
    if e.op.Set? then ZAdd(z, e.playerId, e.amount) else ZIncrBy(z, e.playerId, e.amount)
  }

  /** As long as the sum stays below 2^53, the double arithmetic of Redis is integer arithmetic. */
  lemma CommandIsExactBelow(z: Zset, e: Event)
    requires InRange(e.amount)
    requires Binary64.Distance(ScoreOf(z, e.playerId), 0) <= Binary64.TWO_53 - SCORE_MAX
    ensures Command(z, e) == Apply(z, e)
  {
    Binary64.SmallIsExact(e.amount);
    Binary64.SmallIsExact(ScoreOf(z, e.playerId) + e.amount);
  }

  /** With the score and the amount in range it does. */
  lemma CommandIsExact(z: Zset, e: Event)
    requires InRange(e.amount) && InRange(ScoreOf(z, e.playerId))
    ensures Command(z, e) == Apply(z, e)
  {
    CommandIsExactBelow(z, e);
  }

  // ---- folds ------------------------------------------------------------------------------

  predicate AllInRange(z: Zset) {
    forall p :: p in z ==> InRange(z[p])
  }

  lemma ReplayAppend(z: Zset, events: seq<Event>, e: Event)
    ensures ReplayFrom(z, events + [e]) == Apply(ReplayFrom(z, events), e)
  {
    assert (events + [e])[..|events|] == events;
  }

  lemma BoardEventsAppend(events: seq<Event>, e: Event, boardId: string)
    ensures BoardEvents(events + [e], boardId)
         == if e.boardId == boardId then BoardEvents(events, boardId) + [e] else BoardEvents(events, boardId)
  {
    assert (events + [e])[..|events|] == events;
  }

  lemma {:induction false} ReplaySplit(z: Zset, a: seq<Event>, b: seq<Event>)
    ensures ReplayFrom(z, a + b) == ReplayFrom(ReplayFrom(z, a), b)
    decreases |b|
  {
    if b == [] {
      assert a + b == a;
    } else {
      var init, last := b[..|b| - 1], b[|b| - 1];
      assert a + b == (a + init) + [last];
      ReplayAppend(z, a + init, last);
      ReplaySplit(z, a, init);
    }
  }

  /** Every prefix of one board's events is the board's share of a ledger prefix. */
  lemma {:induction false} BoardPrefix(events: seq<Event>, boardId: string, k: nat) returns (n: nat)
    requires k <= |BoardEvents(events, boardId)|
    ensures n <= |events|
    ensures BoardEvents(events[..n], boardId) == BoardEvents(events, boardId)[..k]
  {
    if k == |BoardEvents(events, boardId)| {
      n := |events|;
      assert events[..n] == events;
    } else {
      var init := events[..|events| - 1];
      n := BoardPrefix(init, boardId, k);
      assert events[..n] == init[..n];
    }
  }

  lemma {:induction false} BoardEventsMember(events: seq<Event>, boardId: string, e: Event)
    ensures e in BoardEvents(events, boardId) <==> e in events && e.boardId == boardId
  {
    if events != [] {
      var init, last := events[..|events| - 1], events[|events| - 1];
      BoardEventsMember(init, boardId, e);
      assert events == init + [last];
    }
  }

  /** A player is on the board exactly when some event names the player. */
  lemma {:induction false} ReplayMembers(events: seq<Event>, p: string)
    ensures p in ReplayAll(events) <==> exists i :: 0 <= i < |events| && events[i].playerId == p
  {
    if events != [] {
      var n := |events| - 1;
      ReplayMembers(events[..n], p);
      if p in ReplayAll(events[..n]) {
        var i :| 0 <= i < n && events[..n][i].playerId == p;
        assert events[i].playerId == p;
      }
      assert events[n].playerId == p ==> p in ReplayAll(events);
      if j :| 0 <= j < |events| && events[j].playerId == p && j < n {
        assert events[..n][j].playerId == p;
      }
    }
  }

  // ---- ranges -----------------------------------------------------------------------------

  /** Every amount is in range, and every prefix of a board's events replays in range. */
  ghost predicate BoardInRange(events: seq<Event>) {
    && (forall i :: 0 <= i < |events| ==> InRange(events[i].amount))
    && (forall k: nat :: k <= |events| ==> AllInRange(ReplayAll(events[..k])))
  }

  lemma ReplayIsInRange(events: seq<Event>)
    requires BoardInRange(events)
    ensures AllInRange(ReplayAll(events))
  {
    assert events[..|events|] == events;
  }

  lemma PrefixIsInRange(events: seq<Event>, more: seq<Event>)
    requires events <= more && BoardInRange(more)
    ensures BoardInRange(events)
  {
    forall i | 0 <= i < |events| ensures InRange(events[i].amount) {
      assert events[i] == more[i];
    }
    forall k: nat | k <= |events| ensures AllInRange(ReplayAll(events[..k])) {
      assert more[..k] == events[..k];
      assert AllInRange(ReplayAll(more[..k]));
    }
  }

  lemma {:induction false} BoardEventsOfPrefix(events: seq<Event>, n: nat, b: string)
    requires n <= |events|
    ensures BoardEvents(events[..n], b) <= BoardEvents(events, b)
  {
    if n == |events| {
      assert events[..n] == events;
    } else {
      assert events[..|events| - 1][..n] == events[..n];
      BoardEventsOfPrefix(events[..|events| - 1], n, b);
    }
  }

  lemma ScoreInRange(z: Zset, p: string)
    requires AllInRange(z)
    ensures InRange(ScoreOf(z, p))
  {
  }

  lemma OneScoreChanged(z: Zset, p: string, v: int)
    requires AllInRange(z)
    ensures AllInRange(z[p := v]) <==> InRange(v)
  {
    assert z[p := v][p] == v;
  }

  /** Appending an event keeps a board in range exactly when the resulting score is. */
  lemma RangeAfterIff(events: seq<Event>, e: Event)
    requires BoardInRange(events) && InRange(e.amount)
    ensures BoardInRange(events + [e])
       <==> e.op.Set? || InRange(ScoreOf(ReplayAll(events), e.playerId) + e.amount)
  {
    var z, longer := ReplayAll(events), events + [e];
    assert events[..|events|] == events && longer[..|longer|] == longer;
    assert AllInRange(z);
    ReplayAppend(map[], events, e);
    var score := if e.op.Set? then e.amount else ScoreOf(z, e.playerId) + e.amount;
    OneScoreChanged(z, e.playerId, score);
    if AllInRange(ReplayAll(longer)) {
      forall k: nat | k <= |longer| ensures AllInRange(ReplayAll(longer[..k])) {
        if k <= |events| {
          assert longer[..k] == events[..k];
          assert AllInRange(ReplayAll(events[..k]));
        }
      }
    } else {
      assert !AllInRange(ReplayAll(longer[..|longer|]));
    }
  }

  /** In range, each single command extends the replay by one event. */
  lemma CommandExtendsReplay(events: seq<Event>, k: nat)
    requires BoardInRange(events) && k < |events|
    ensures Command(ReplayAll(events[..k]), events[k]) == ReplayAll(events[..k + 1])
  {
    assert AllInRange(ReplayAll(events[..k]));
    CommandIsExact(ReplayAll(events[..k]), events[k]);
    assert events[..k + 1] == events[..k] + [events[k]];
    ReplayAppend(map[], events[..k], events[k]);
  }

  // ---- set is a snapshot barrier ----------------------------------------------------------

  /** Position after the player's latest set, 0 when the player was never set. */
  function AfterLastSet(events: seq<Event>, p: string): (i: nat)
    ensures i <= |events|
  {
    if events == [] then 0 else
      var e := events[|events| - 1];
      if e.playerId == p && e.op.Set? then |events| else AfterLastSet(events[..|events| - 1], p)
  }

  function SumIncrements(events: seq<Event>, p: string): int {
    if events == [] then 0 else
      var e := events[|events| - 1];
      SumIncrements(events[..|events| - 1], p) + (if e.playerId == p && e.op.Increment? then e.amount else 0)
  }

  predicate NoSet(events: seq<Event>, p: string) {
    forall i :: 0 <= i < |events| ==> !(events[i].playerId == p && events[i].op.Set?)
  }

  lemma NoSetGrows(events: seq<Event>, e: Event, p: string)
    ensures NoSet(events + [e], p) <==> NoSet(events, p) && !(e.playerId == p && e.op.Set?)
  {
    if NoSet(events + [e], p) {
      forall i | 0 <= i < |events| ensures !(events[i].playerId == p && events[i].op.Set?) {
        assert (events + [e])[i] == events[i];
      }
      assert (events + [e])[|events|] == e;
    }
  }

  /** The documented rule for a player's score: the last set value plus the increments after
      it. */
  lemma {:induction false} ScoreIsLastSetPlusIncrements(events: seq<Event>, p: string)
    ensures var i := AfterLastSet(events, p);
            && NoSet(events[i..], p)
            && (i > 0 ==> events[i - 1].op.Set? && events[i - 1].playerId == p)
            && ScoreOf(ReplayAll(events), p)
               == (if i == 0 then 0 else events[i - 1].amount) + SumIncrements(events[i..], p)
  {
    if events != [] {
      var n := |events| - 1;
      var init := events[..n];
      ScoreIsLastSetPlusIncrements(init, p);
      var i := AfterLastSet(events, p);
      if i == |events| {
        assert events[i..] == [];
      } else {
        assert events[i..] == init[i..] + [events[n]];
        NoSetGrows(init[i..], events[n], p);
        assert events[i..][..|events[i..]| - 1] == init[i..];
        hide NoSet;
      }
    }
  }

  ghost predicate AgreeExcept(y: Zset, z: Zset, p: string) {
    forall q :: q != p ==> (q in y <==> q in z) && (q in y ==> y[q] == z[q])
  }

  lemma {:induction false} ReplayAgrees(y: Zset, z: Zset, events: seq<Event>, p: string)
    requires AgreeExcept(y, z, p)
    ensures AgreeExcept(ReplayFrom(y, events), ReplayFrom(z, events), p)
  {
    if events != [] {
      ReplayAgrees(y, z, events[..|events| - 1], p);
    }
  }

  function WithoutPlayer(events: seq<Event>, p: string): seq<Event> {
    if events == [] then [] else
      var rest := WithoutPlayer(events[..|events| - 1], p);
      var e := events[|events| - 1];
      if e.playerId == p then rest else rest + [e]
  }

  lemma {:induction false} DroppingPlayerAgrees(events: seq<Event>, p: string)
    ensures AgreeExcept(ReplayAll(WithoutPlayer(events, p)), ReplayAll(events), p)
  {
    if events != [] {
      var n := |events| - 1;
      DroppingPlayerAgrees(events[..n], p);
      if events[n].playerId != p {
        ReplayAppend(map[], WithoutPlayer(events[..n], p), events[n]);
      }
    }
  }

  /** Deleting all of a player's events before one of the player's sets changes no score and no
      membership, of any player. */
  lemma SetIsSnapshotBarrier(events: seq<Event>, i: nat)
    requires i < |events| && events[i].op.Set?
    ensures ReplayAll(WithoutPlayer(events[..i], events[i].playerId) + events[i..]) == ReplayAll(events)
  {
    var p := events[i].playerId;
    var kept := WithoutPlayer(events[..i], p);
    DroppingPlayerAgrees(events[..i], p);
    var y, z := ReplayAll(kept), ReplayAll(events[..i]);
    assert Apply(y, events[i]) == Apply(z, events[i]);
    var tail := events[i + 1..];
    assert kept + events[i..] == (kept + [events[i]]) + tail;
    assert events == (events[..i] + [events[i]]) + tail;
    ReplaySplit(map[], kept + [events[i]], tail);
    ReplaySplit(map[], events[..i] + [events[i]], tail);
    ReplayAppend(map[], kept, events[i]);
    ReplayAppend(map[], events[..i], events[i]);
  }

  /** Replay never needs to look past a set: the player's score in the suffix alone is the
      player's score. */
  lemma SuffixFromSetSuffices(events: seq<Event>, i: nat)
    requires i < |events| && events[i].op.Set?
    ensures var p := events[i].playerId;
            && p in ReplayAll(events[i..]) && p in ReplayAll(events)
            && ReplayAll(events[i..])[p] == ReplayAll(events)[p]
  {
    var p := events[i].playerId;
    assert events == events[..i] + events[i..];
    ReplaySplit(map[], events[..i], events[i..]);
    SameFromSet(map[], ReplayAll(events[..i]), events[i..]);
  }

  lemma {:induction false} SameFromSet(y: Zset, z: Zset, events: seq<Event>)
    requires events != [] && events[0].op.Set?
    ensures var p := events[0].playerId;
            && p in ReplayFrom(y, events) && p in ReplayFrom(z, events)
            && ReplayFrom(y, events)[p] == ReplayFrom(z, events)[p]
  {
    if |events| > 1 {
      SameFromSet(y, z, events[..|events| - 1]);
    }
  }

  // ---- a write in the middle of a fold ----------------------------------------------------

  /** A score folded on from y: the last set decides, or else the increments add up. */
  lemma {:induction false} FoldedScore(y: Zset, events: seq<Event>, p: string)
    ensures ScoreOf(ReplayFrom(y, events), p)
         == if NoSet(events, p) then ScoreOf(y, p) + SumIncrements(events, p) else ScoreOf(ReplayAll(events), p)
  {
    if events != [] {
      var n := |events| - 1;
      var init := events[..n];
      FoldedScore(y, init, p);
      FoldedScore(map[], init, p);
      NoSetGrows(init, events[n], p);
      assert events == init + [events[n]];
    }
  }

  /** The write leaves the scores as they are. */
  predicate ChangesNothing(z: Zset, w: Event) {
    w.playerId in z && if w.op.Set? then z[w.playerId] == w.amount else w.amount == 0
  }

  /** What is still to be folded leaves the effect of the write as it should be. */
  predicate SurvivesFolding(rest: seq<Event>, w: Event) {
    if w.op.Increment? then w.amount == 0 || NoSet(rest, w.playerId)
    else if NoSet(rest, w.playerId) then SumIncrements(rest, w.playerId) == 0
    else ScoreOf(ReplayAll(rest), w.playerId) == w.amount
  }

  lemma EqualExceptOne(y: Zset, z: Zset, p: string)
    requires AgreeExcept(y, z, p) && p in y && p in z
    ensures y == z <==> y[p] == z[p]
  {
    if y[p] == z[p] {
      assert y.Keys == z.Keys;
      assert forall q :: q in y ==> y[q] == z[q];
    }
  }

  lemma {:induction false} FoldKeepsMember(y: Zset, events: seq<Event>, p: string)
    requires p in y
    ensures p in ReplayFrom(y, events)
  {
    if events != [] {
      FoldKeepsMember(y, events[..|events| - 1], p);
    }
  }

  /** A write w that arrives after k of n events were folded, while the ledger gets it last: the
      fold ends in the ledger's replay exactly when an increment of 0 or before no further set of
      its player, or a set that the player's remaining events lead back to. */
  lemma RacingWriteSurvivesIff(events: seq<Event>, k: nat, w: Event)
    requires k <= |events|
    ensures ReplayFrom(Apply(ReplayAll(events[..k]), w), events[k..]) == ReplayAll(events + [w])
       <==> SurvivesFolding(events[k..], w)
  {
    var p, rest := w.playerId, events[k..];
    var z := ReplayAll(events[..k]);
    var y := Apply(z, w);
    assert events == events[..k] + rest;
    ReplaySplit(map[], events[..k], rest);
    ReplayAppend(map[], events, w);
    ReplayAgrees(y, z, rest, p);
    FoldKeepsMember(y, rest, p);
    FoldedScore(y, rest, p);
    FoldedScore(z, rest, p);
    EqualExceptOne(ReplayFrom(y, rest), ReplayAll(events + [w]), p);
  }

  /** A fold that never sees w ends in the ledger's replay exactly when w changed nothing: an
      increment of 0 of a member, or a set to the current score. */
  lemma UnseenWriteSurvivesIff(events: seq<Event>, w: Event)
    ensures ReplayAll(events) == ReplayAll(events + [w]) <==> ChangesNothing(ReplayAll(events), w)
  {
    ReplayAppend(map[], events, w);
    var z := ReplayAll(events);
    if ChangesNothing(z, w) {
      assert Apply(z, w) == z;
    } else if w.playerId in z {
      assert Apply(z, w)[w.playerId] != z[w.playerId];
    }
  }
}
