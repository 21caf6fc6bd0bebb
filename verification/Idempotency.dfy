/** What an idempotency record promises until it expires, over whole runs. */
module Idempotency {
  import opened Text
  import opened Ledger
  import opened Scripts
  import opened Protocol

  predicate RecordKept(steps: seq<Step>, k: Key) {
    forall i :: 0 <= i < |steps| ==> steps[i] != ExpireStep(k)
  }

  predicate CreationKept(steps: seq<Step>, key: string) {
    forall i :: 0 <= i < |steps| ==> steps[i] != ExpireCreationStep(key)
  }

  lemma StepKeepsRecord(s: System, step: Step, k: Key)
    requires k in s.db.records && k.key != "" && step != ExpireStep(k)
    ensures k in Next(s, step).db.records && Next(s, step).db.records[k] == s.db.records[k]
  {
  }

  /** No step but its own expiry changes a record. */
  lemma {:induction false} RunKeepsRecord(s: System, steps: seq<Step>, k: Key)
    requires k in s.db.records && k.key != "" && RecordKept(steps, k)
    ensures k in Run(s, steps).db.records && Run(s, steps).db.records[k] == s.db.records[k]
    decreases |steps|
  {
    if steps != [] {
      StepKeepsRecord(s, steps[0], k);
      assert RecordKept(steps[1..], k) by {
        assert forall i :: 0 <= i < |steps[1..]| ==> steps[1..][i] == steps[i + 1];
      }
      RunKeepsRecord(Next(s, steps[0]), steps[1..], k);
    }
  }

  lemma StepGrowsByOne(s: System, step: Step)
    ensures s.db.ledger <= Next(s, step).db.ledger
    ensures |Next(s, step).db.ledger| <= |s.db.ledger| + 1
  {
  }

  /** The ledger is append-only. */
  lemma {:induction false} LedgerOnlyGrows(s: System, steps: seq<Step>)
    ensures s.db.ledger <= Run(s, steps).db.ledger
    decreases |steps|
  {
    if steps != [] {
      StepGrowsByOne(s, steps[0]);
      LedgerOnlyGrows(Next(s, steps[0]), steps[1..]);
    }
  }

  /** After a keyed write was applied, and whatever ran since short of the record's expiry (the
      board closed, the score overwritten, a rebuild under way): a retry with the same payload
      answers with the original entry, one with another payload conflicts, and neither changes
      anything.  The entry is still in the ledger with the payload of the first write. */
  lemma RetryIsNoOp(s: System, w: Write, now: nat, steps: seq<Step>, retry: Write, later: nat)
    requires ScoreOutcome(s.db, w, now).Applied? && w.key != ""
    requires RecordKept(steps, KeyOf(w)) && KeyOf(retry) == KeyOf(w)
    ensures var t := Run(Next(s, ScoreStep(w, now)), steps);
            var id := ScoreOutcome(s.db, w, now).id;
            && Next(t, ScoreStep(retry, later)) == t
            && ScoreOutcome(t.db, retry, later)
               == (if retry.op == w.op && retry.amount == w.amount then Deduped(id) else KeyConflict)
            && Event(id, w.op, w.playerId, w.boardId, w.amount, w.requestId) in t.db.ledger
  {
    var s' := Next(s, ScoreStep(w, now));
    RunKeepsRecord(s', steps, KeyOf(w));
    LedgerOnlyGrows(s', steps);
    assert s'.db.ledger[|s.db.ledger|] == NewEvent(s.db, w, now);
  }

  lemma StepKeepsCreation(s: System, step: Step, key: string)
    requires key in s.db.creations && key != "" && step != ExpireCreationStep(key)
    ensures key in Next(s, step).db.creations && Next(s, step).db.creations[key] == s.db.creations[key]
  {
  }

  lemma {:induction false} RunKeepsCreation(s: System, steps: seq<Step>, key: string)
    requires key in s.db.creations && key != "" && CreationKept(steps, key)
    ensures key in Run(s, steps).db.creations && Run(s, steps).db.creations[key] == s.db.creations[key]
    decreases |steps|
  {
    if steps != [] {
      StepKeepsCreation(s, steps[0], key);
      assert CreationKept(steps[1..], key) by {
        assert forall i :: 0 <= i < |steps[1..]| ==> steps[1..][i] == steps[i + 1];
      }
      RunKeepsCreation(Next(s, steps[0]), steps[1..], key);
    }
  }

  /** The same for player creation: a retry with another candidate id still answers with the
      first player, and creates nothing. */
  lemma RetriedCreationIsNoOp(
    s: System, name: string, at: string, candidate: string, key: string, steps: seq<Step>,
    retryName: string, retryAt: string, retryCandidate: string)
    requires CreateOutcomeOf(s.db, name, candidate, key).Created? && key != "" && CreationKept(steps, key)
    ensures var t := Run(Next(s, PlayerStep(name, at, candidate, key)), steps);
            && Next(t, PlayerStep(retryName, retryAt, retryCandidate, key)) == t
            && CreateOutcomeOf(t.db, retryName, retryCandidate, key)
               == (if retryName == name then Existing(candidate) else NameConflict)
  {
    RunKeepsCreation(Next(s, PlayerStep(name, at, candidate, key)), steps, key);
  }

  /** On every store, however its boards are rebuilt, each live record names a ledger event with its board, player,
      operation and amount, and no two records name the same event. */
  lemma ReachableRecords(steps: seq<Step>, k: Key, l: Key)
    requires LegalRun(INITIAL, steps)
    requires k in Run(INITIAL, steps).db.records && l in Run(INITIAL, steps).db.records
    ensures var db := Run(INITIAL, steps).db;
            && (exists e :: e in db.ledger && e.id == db.records[k].id && e.boardId == k.boardId
                            && e.playerId == k.playerId && e.op == db.records[k].op && e.amount == db.records[k].amount)
            && (k != l ==> db.records[k].id != db.records[l].id)
  {
    InitialIsOk();
    LegalRunKeepsFacts(INITIAL, steps);
    var db := Run(INITIAL, steps).db;
    assert RecordOk(db, k);
    var i: nat :| i < |db.ledger| && Names(db.ledger, i, k, db.records[k]);
    assert db.ledger[i] in db.ledger;
  }
}
