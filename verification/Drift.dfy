/** The arithmetic of a fold with writes arriving in the middle: what the projection ends in, and by
    how much it misses the ledger. */
module Drift {
  import opened Ledger
  import opened Replay

  /** A write that reached the projection after the first `at` events were folded. */
  datatype Arrival = Arrival(at: nat, w: Event)

  /** Arrivals in order, none after the n-th event. */
  predicate InOrder(late: seq<Arrival>, n: nat) {
    && (forall i :: 0 <= i < |late| ==> late[i].at <= n)
    && (forall i, j :: 0 <= i < j < |late| ==> late[i].at <= late[j].at)
  }

  function WritesOf(late: seq<Arrival>): (writes: seq<Event>)
    ensures |writes| == |late|
    ensures forall i :: 0 <= i < |late| ==> writes[i] == late[i].w
  {
    seq(|late|, i requires 0 <= i < |late| => late[i].w)
  }

  lemma InOrderPrefix(late: seq<Arrival>, n: nat)
    requires late != [] && InOrder(late, n)
    ensures InOrder(late[..|late| - 1], late[|late| - 1].at) && late[|late| - 1].at <= n
  {
    var init, last := late[..|late| - 1], late[|late| - 1];
    forall i | 0 <= i < |init| ensures init[i].at <= last.at {
      assert late[i].at <= late[|late| - 1].at;
    }
  }

  /** The commands the projection gets: the events folded, each write where it arrived. */
  function Merge(events: seq<Event>, late: seq<Arrival>): seq<Event>
    requires InOrder(late, |events|)
    decreases |late|
  {
    if late == [] then events else
      InOrderPrefix(late, |events|);
      var last := late[|late| - 1];
      Merge(events[..last.at], late[..|late| - 1]) + [last.w] + events[last.at..]
  }

  /** Folding on after the last arrival. */
  lemma MergeSplit(events: seq<Event>, late: seq<Arrival>, k: nat)
    requires k <= |events| && InOrder(late, k)
    ensures InOrder(late, |events|)
    ensures Merge(events, late) == Merge(events[..k], late) + events[k..]
  {
    if late == [] {
      assert events == events[..k] + events[k..];
    } else {
      var at := late[|late| - 1].at;
      assert events[..k][..at] == events[..at];
      assert events[at..] == events[..k][at..] + events[k..];
    }
  }

  lemma MergeFolds(events: seq<Event>, late: seq<Arrival>, k: nat)
    requires k < |events| && InOrder(late, k)
    ensures InOrder(late, k + 1)
    ensures Merge(events[..k + 1], late) == Merge(events[..k], late) + [events[k]]
  {
    MergeSplit(events[..k + 1], late, k);
    assert events[..k + 1][..k] == events[..k] && events[..k + 1][k..] == [events[k]];
  }

  lemma MergeArrives(events: seq<Event>, late: seq<Arrival>, k: nat, w: Event)
    requires k <= |events| && InOrder(late, k)
    ensures InOrder(late + [Arrival(k, w)], k)
    ensures Merge(events[..k], late + [Arrival(k, w)]) == Merge(events[..k], late) + [w]
    ensures WritesOf(late + [Arrival(k, w)]) == WritesOf(late) + [w]
  {
    var longer := late + [Arrival(k, w)];
    assert longer[..|longer| - 1] == late;
    assert events[..k][..k] == events[..k] && events[..k][k..] == [];
  }

  // ---- scores -----------------------------------------------------------------------------

  /** What a write to p misses when it never reaches the fold of the events: all the increments of the
      lost writes, or the distance to their last set and what follows it. */
  function LostDrift(events: seq<Event>, lost: seq<Event>, p: string): int {
    if NoSet(lost, p) then SumIncrements(lost, p) else ScoreOf(ReplayAll(lost), p) - ScoreOf(ReplayAll(events), p)
  }

  /** The score a set of p ends in, when the rest of the events is folded over it. */
  function SetEndsIn(rest: seq<Event>, w: Event): int {
    if NoSet(rest, w.playerId) then w.amount + SumIncrements(rest, w.playerId)
    else ScoreOf(ReplayAll(rest), w.playerId)
  }

  /** The true score of p minus the one the fold ends in.  Lost writes count in full; then each
      increment that a set still to be folded wipes out is added, and each set starts afresh at what
      the events still to be folded make of it. */
  function Drift(events: seq<Event>, lost: seq<Event>, late: seq<Arrival>, p: string): int
    requires InOrder(late, |events|)
    decreases |late|
  {
    if late == [] then LostDrift(events, lost, p) else
      var last := late[|late| - 1];
      InOrderPrefix(late, |events|);
      var before := Drift(events, lost, late[..|late| - 1], p);
      var rest := events[last.at..];
      if last.w.playerId != p then before
      else if last.w.op.Set? then last.w.amount - SetEndsIn(rest, last.w)
      else if NoSet(rest, p) then before
      else before + last.w.amount
  }

  /** A score is what its own player's events make it. */
  lemma OtherPlayersEvent(y: Zset, rest: seq<Event>, w: Event, p: string)
    requires w.playerId != p
    ensures ScoreOf(ReplayFrom(Apply(y, w), rest), p) == ScoreOf(ReplayFrom(y, rest), p)
  {
    FoldedScore(Apply(y, w), rest, p);
    FoldedScore(y, rest, p);
  }

  /** One more arrival, on both sides. */
  lemma ArrivalDrifts(y: Zset, rest: seq<Event>, truth: Zset, w: Event, p: string)
    ensures var after := ScoreOf(Apply(truth, w), p) - ScoreOf(ReplayFrom(Apply(y, w), rest), p);
            var before := ScoreOf(truth, p) - ScoreOf(ReplayFrom(y, rest), p);
            after == if w.playerId != p then before
                     else if w.op.Set? then w.amount - SetEndsIn(rest, w)
                     else if NoSet(rest, p) then before else before + w.amount
  {
    if w.playerId != p {
      OtherPlayersEvent(y, rest, w, p);
    } else {
      FoldedScore(Apply(y, w), rest, p);
      FoldedScore(y, rest, p);
    }
  }

  lemma {:induction false} DriftIsDifference(events: seq<Event>, lost: seq<Event>, late: seq<Arrival>, p: string)
    requires InOrder(late, |events|)
    ensures Drift(events, lost, late, p)
         == ScoreOf(ReplayAll(events + lost + WritesOf(late)), p) - ScoreOf(ReplayAll(Merge(events, late)), p)
    decreases |late|
  {
    if late == [] {
      assert events + lost + WritesOf(late) == events + lost;
      ReplaySplit(map[], events, lost);
      FoldedScore(ReplayAll(events), lost, p);
    } else {
      var init, last := late[..|late| - 1], late[|late| - 1];
      InOrderPrefix(late, |events|);
      DriftIsDifference(events, lost, init, p);
      MergeSplit(events, init, last.at);
      var x, rest := Merge(events[..last.at], init), events[last.at..];
      ReplaySplit(map[], x, rest);
      ReplaySplit(map[], x + [last.w], rest);
      ReplayAppend(map[], x, last.w);
      var truth := events + lost + WritesOf(init);
      assert events + lost + WritesOf(late) == truth + [last.w];
      ReplayAppend(map[], truth, last.w);
      ArrivalDrifts(ReplayAll(x), rest, ReplayAll(truth), last.w, p);
    }
  }

  // ---- members ----------------------------------------------------------------------------

  predicate Names(events: seq<Event>, p: string) {
    exists i :: 0 <= i < |events| && events[i].playerId == p
  }

  lemma NamesConcat(a: seq<Event>, b: seq<Event>, p: string)
    ensures Names(a + b, p) <==> Names(a, p) || Names(b, p)
  {
    if Names(a, p) {
      var i :| 0 <= i < |a| && a[i].playerId == p;
      assert (a + b)[i].playerId == p;
    }
    if Names(b, p) {
      var i :| 0 <= i < |b| && b[i].playerId == p;
      assert (a + b)[|a| + i].playerId == p;
    }
  }

  lemma {:induction false} MergeNames(events: seq<Event>, late: seq<Arrival>, p: string)
    requires InOrder(late, |events|)
    ensures Names(Merge(events, late), p) <==> Names(events, p) || Names(WritesOf(late), p)
    decreases |late|
  {
    if late != [] {
      var init, last := late[..|late| - 1], late[|late| - 1];
      InOrderPrefix(late, |events|);
      var x, rest := Merge(events[..last.at], init), events[last.at..];
      MergeNames(events[..last.at], init, p);
      NamesConcat(x + [last.w], rest, p);
      NamesConcat(x, [last.w], p);
      assert events == events[..last.at] + rest;
      NamesConcat(events[..last.at], rest, p);
      assert WritesOf(late) == WritesOf(init) + [last.w];
      NamesConcat(WritesOf(init), [last.w], p);
    }
  }

  /** The ledger's replay is right in every score and every member. */
  ghost predicate NoDrift(events: seq<Event>, lost: seq<Event>, late: seq<Arrival>)
    requires InOrder(late, |events|)
  {
    && (forall p: string :: Drift(events, lost, late, p) == 0)
    && (forall e :: e in lost ==> Names(events, e.playerId) || Names(WritesOf(late), e.playerId))
  }

  lemma MemberIff(events: seq<Event>, lost: seq<Event>, late: seq<Arrival>, p: string)
    requires InOrder(late, |events|)
    ensures p in ReplayAll(events + lost + WritesOf(late))
       <==> Names(events, p) || Names(lost, p) || Names(WritesOf(late), p)
    ensures p in ReplayAll(Merge(events, late)) <==> Names(events, p) || Names(WritesOf(late), p)
  {
    ReplayMembers(events + lost + WritesOf(late), p);
    ReplayMembers(Merge(events, late), p);
    MergeNames(events, late, p);
    NamesConcat(events + lost, WritesOf(late), p);
    NamesConcat(events, lost, p);
  }

  lemma NoDriftSuffices(events: seq<Event>, lost: seq<Event>, late: seq<Arrival>)
    requires InOrder(late, |events|) && NoDrift(events, lost, late)
    ensures ReplayAll(Merge(events, late)) == ReplayAll(events + lost + WritesOf(late))
  {
    var live, truth := ReplayAll(Merge(events, late)), ReplayAll(events + lost + WritesOf(late));
    forall p: string ensures (p in live <==> p in truth) && ScoreOf(live, p) == ScoreOf(truth, p) {
      MemberIff(events, lost, late, p);
      DriftIsDifference(events, lost, late, p);
      if Names(lost, p) {
        var i :| 0 <= i < |lost| && lost[i].playerId == p;
        assert lost[i] in lost;
      }
    }
    hide Merge, ReplayAll, NoDrift;
    assert live.Keys == truth.Keys;
    forall p | p in live ensures live[p] == truth[p] {
      assert ScoreOf(live, p) == ScoreOf(truth, p);
    }
  }

  lemma NoDriftIsNeeded(events: seq<Event>, lost: seq<Event>, late: seq<Arrival>)
    requires InOrder(late, |events|)
    requires ReplayAll(Merge(events, late)) == ReplayAll(events + lost + WritesOf(late))
    ensures NoDrift(events, lost, late)
  {
    forall p: string ensures Drift(events, lost, late, p) == 0 {
      DriftIsDifference(events, lost, late, p);
    }
    forall e | e in lost ensures Names(events, e.playerId) || Names(WritesOf(late), e.playerId) {
      MemberIff(events, lost, late, e.playerId);
      var i :| 0 <= i < |lost| && lost[i] == e;
      assert Names(lost, e.playerId);
    }
  }

  /** A fold of the events with any number of writes lost before it and arriving in it is the ledger's
      replay if and only if no score drifts and no lost write alone made a member. */
  lemma MergeIsRightIff(events: seq<Event>, lost: seq<Event>, late: seq<Arrival>)
    requires InOrder(late, |events|)
    ensures ReplayAll(Merge(events, late)) == ReplayAll(events + lost + WritesOf(late))
       <==> NoDrift(events, lost, late)
  {
    if NoDrift(events, lost, late) {
      NoDriftSuffices(events, lost, late);
    } else if ReplayAll(Merge(events, late)) == ReplayAll(events + lost + WritesOf(late)) {
      NoDriftIsNeeded(events, lost, late);
    }
  }

  /** Only players of the lost and the late writes can drift: the condition is a finite check. */
  lemma {:induction false} OnlyWritersDrift(events: seq<Event>, lost: seq<Event>, late: seq<Arrival>, p: string)
    requires InOrder(late, |events|) && !Names(lost, p) && !Names(WritesOf(late), p)
    ensures Drift(events, lost, late, p) == 0
    decreases |late|
  {
    if late == [] {
      UnnamedHasNoEvents(lost, p);
    } else {
      var init, last := late[..|late| - 1], late[|late| - 1];
      InOrderPrefix(late, |events|);
      assert WritesOf(late) == WritesOf(init) + [last.w];
      NamesConcat(WritesOf(init), [last.w], p);
      assert [last.w][0].playerId == p ==> Names([last.w], p);
      OnlyWritersDrift(events, lost, init, p);
    }
  }

  lemma {:induction false} UnnamedHasNoEvents(events: seq<Event>, p: string)
    requires !Names(events, p)
    ensures NoSet(events, p) && SumIncrements(events, p) == 0
  {
    if events != [] {
      var init, last := events[..|events| - 1], events[|events| - 1];
      assert events == init + [last];
      NamesConcat(init, [last], p);
      assert [last][0].playerId == p ==> Names([last], p);
      UnnamedHasNoEvents(init, p);
      NoSetGrows(init, last, p);
    }
  }

  // ---- one write --------------------------------------------------------------------------

  /** A single late write: the test on the events still to be folded. */
  lemma OneLateWrite(events: seq<Event>, k: nat, w: Event)
    requires k <= |events|
    ensures NoDrift(events, [], [Arrival(k, w)]) <==> SurvivesFolding(events[k..], w)
  {
    var late := [Arrival(k, w)];
    assert late[..0] == [] && WritesOf(late) == [w] && events + [] + [w] == events + [w];
    assert Merge(events, late) == events[..k] + [w] + events[k..];
    ReplaySplit(map[], events[..k] + [w], events[k..]);
    ReplayAppend(map[], events[..k], w);
    RacingWriteSurvivesIff(events, k, w);
    MergeIsRightIff(events, [], late);
  }

  /** A single lost write: it must have changed nothing. */
  lemma OneLostWrite(events: seq<Event>, w: Event)
    ensures NoDrift(events, [w], []) <==> ChangesNothing(ReplayAll(events), w)
  {
    assert events + [w] + WritesOf([]) == events + [w];
    UnseenWriteSurvivesIff(events, w);
    MergeIsRightIff(events, [w], []);
  }
}
