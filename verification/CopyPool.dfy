/**
 * The resumable copy pool: workers sharing one index over the pending assets,
 * switching between each other at every await.
 */
module CopyPool {
  type Key = string

  const CONCURRENCY := 5

  datatype Result = Uploaded | Existed | Failed

  /** `landed` tells whether the upload has taken effect on the destination. */
  datatype Worker = Ready | Copying(index: nat, landed: bool) | Exited

  /** The shared variables of one run, with which worker took each index and how it ended. */
  datatype Job = Job(
    pending: seq<Key>,
    next: nat,
    workers: seq<Worker>,
    done: nat,
    uploaded: nat,
    existed: nat,
    failures: seq<nat>,
    migrated: set<Key>,
    takenBy: seq<nat>,
    results: map<nat, Result>)

  datatype PoolEvent =
    | Take(worker: nat)
    | Land(worker: nat)
    | Finish(worker: nat, result: Result)

  function Keys(assets: seq<Key>): set<Key> { set k | k in assets }

  function NotIn(assets: seq<Key>, migrated: set<Key>): seq<Key> {
    if assets == [] then []
    else
      var k := assets[|assets| - 1];
      NotIn(assets[..|assets| - 1], migrated) + if k in migrated then [] else [k]
  }

  function PoolSize(pending: nat): nat {
    var wanted := if pending == 0 then 1 else pending;
    if wanted < CONCURRENCY then wanted else CONCURRENCY
  }

  /** A run starts from the assets in scope that the progress file does not list. */
  function StartJob(inScope: seq<Key>, migrated: set<Key>): Job {
    var pending := NotIn(inScope, migrated);
    Job(pending, 0, seq(PoolSize(|pending|), _ => Ready), 0, 0, 0, [], migrated, [], map[])
  }

  function PoolStep(j: Job, e: PoolEvent): Job {
    if e.worker >= |j.workers| then j
    else
      var w := j.workers[e.worker];
      match e
      case Take(n) =>
        if !w.Ready? then j
        else if j.next < |j.pending| then
          j.(workers := j.workers[n := Copying(j.next, false)], next := j.next + 1, takenBy := j.takenBy + [n])
        else j.(workers := j.workers[n := Exited])
      case Land(n) =>
        if !w.Copying? then j else j.(workers := j.workers[n := Copying(w.index, true)])
      case Finish(n, r) =>
        if !w.Copying? || (!r.Failed? && !w.landed) || w.index >= |j.pending| then j
        else
          var j1 := j.(workers := j.workers[n := Ready], done := j.done + 1, results := j.results[w.index := r]);
          match r
          case Failed => j1.(failures := j1.failures + [w.index])
          case Existed => j1.(existed := j1.existed + 1, migrated := j1.migrated + {j.pending[w.index]})
          case Uploaded => j1.(uploaded := j1.uploaded + 1, migrated := j1.migrated + {j.pending[w.index]})
  }

  function PoolRun(j: Job, es: seq<PoolEvent>): Job {
    if es == [] then j else PoolStep(PoolRun(j, es[..|es| - 1]), es[|es| - 1])
  }

  predicate Joined(j: Job) { forall n :: 0 <= n < |j.workers| ==> j.workers[n].Exited? }

  /** The keys of the indices that ended without failure. */
  function Copied(pending: seq<Key>, results: map<nat, Result>): set<Key> {
    if pending == [] then {}
    else
      var n := |pending| - 1;
      Copied(pending[..n], results) + if n in results && !results[n].Failed? then {pending[n]} else {}
  }

  // ---------------------------------------------------------------------
  // The invariant
  // ---------------------------------------------------------------------

  /** Every index taken is either finished or in exactly its taker's hands. */
  ghost predicate HandsRight(j: Job) {
    && j.next == |j.takenBy| <= |j.pending|
    && |j.workers| > 0
    && (forall n :: 0 <= n < |j.workers| && j.workers[n].Copying? ==>
          var i := j.workers[n].index;
          i < j.next && j.takenBy[i] == n && i !in j.results)
    && (forall i :: 0 <= i < j.next && i !in j.results ==>
          var n := j.takenBy[i];
          n < |j.workers| && j.workers[n].Copying? && j.workers[n].index == i)
    && (forall i :: i in j.results ==> i < j.next)
    && (forall n :: 0 <= n < |j.workers| && j.workers[n].Exited? ==> j.next == |j.pending|)
  }

  ghost predicate FailuresRight(failures: seq<nat>, results: map<nat, Result>) {
    && (forall k :: 0 <= k < |failures| ==> failures[k] in results && results[failures[k]].Failed?)
    && (forall i :: i in results && results[i].Failed? ==> i in failures)
  }

  /** The counters and sets are what the results say. */
  ghost predicate TallyRight(j: Job, before: set<Key>) {
    && j.done == |j.results| == j.uploaded + j.existed + |j.failures|
    && FailuresRight(j.failures, j.results)
    && j.migrated == before + Copied(j.pending, j.results)
  }

  ghost predicate PoolRight(j: Job, before: set<Key>) {
    HandsRight(j) && TallyRight(j, before)
  }

  lemma TakeKeepsHands(j: Job, n: nat)
    requires HandsRight(j)
    ensures HandsRight(PoolStep(j, Take(n)))
  {
  }

  lemma LandKeepsHands(j: Job, n: nat)
    requires HandsRight(j)
    ensures HandsRight(PoolStep(j, Land(n)))
  {
  }

  lemma FinishKeepsHands(j: Job, n: nat, r: Result)
    requires HandsRight(j)
    ensures HandsRight(PoolStep(j, Finish(n, r)))
  {
  }

  lemma StepKeepsHands(j: Job, e: PoolEvent)
    requires HandsRight(j)
    ensures HandsRight(PoolStep(j, e))
  {
    match e
    case Take(n) => TakeKeepsHands(j, n);
    case Land(n) => LandKeepsHands(j, n);
    case Finish(n, r) => FinishKeepsHands(j, n, r);
  }

  lemma FailuresGrow(failures: seq<nat>, results: map<nat, Result>, i: nat, r: Result)
    requires FailuresRight(failures, results) && i !in results
    ensures FailuresRight(if r.Failed? then failures + [i] else failures, results[i := r])
  {
    var grown := failures + [i];
    assert grown[|failures|] == i;
    forall m | m in results[i := r] && results[i := r][m].Failed? ensures m in grown {
      if m != i { assert m in failures; }
    }
  }

  lemma FinishKeepsCounts(j: Job, n: nat, r: Result)
    requires j.done == |j.results| == j.uploaded + j.existed + |j.failures|
    requires n < |j.workers| && j.workers[n].Copying? && j.workers[n].index !in j.results
    ensures var j' := PoolStep(j, Finish(n, r)); j'.done == |j'.results| == j'.uploaded + j'.existed + |j'.failures|
  {
  }

  lemma FinishKeepsSets(j: Job, before: set<Key>, n: nat, r: Result)
    requires FailuresRight(j.failures, j.results) && j.migrated == before + Copied(j.pending, j.results)
    requires n < |j.workers| && j.workers[n].Copying? && j.workers[n].index !in j.results
    ensures var j' := PoolStep(j, Finish(n, r));
      FailuresRight(j'.failures, j'.results) && j'.migrated == before + Copied(j'.pending, j'.results)
  {
    var i := j.workers[n].index;
    CopiedGrows(j.pending, j.results, i, r);
    FailuresGrow(j.failures, j.results, i, r);
  }

  lemma {:induction false} CopiedGrows(pending: seq<Key>, results: map<nat, Result>, i: nat, r: Result)
    requires i !in results
    ensures Copied(pending, results[i := r])
      == Copied(pending, results) + if !r.Failed? && i < |pending| then {pending[i]} else {}
  {
    if pending != [] {
      CopiedGrows(pending[..|pending| - 1], results, i, r);
    }
  }

  lemma {:induction false} NothingCopied(pending: seq<Key>)
    ensures Copied(pending, map[]) == {}
  {
    if pending != [] { NothingCopied(pending[..|pending| - 1]); }
  }

  lemma {:induction false} CopiedMeans(pending: seq<Key>, results: map<nat, Result>, k: Key)
    ensures k in Copied(pending, results)
      <==> exists i :: 0 <= i < |pending| && i in results && !results[i].Failed? && pending[i] == k
  {
    if pending != [] {
      var n := |pending| - 1;
      CopiedMeans(pending[..n], results, k);
      assert forall i :: 0 <= i < n ==> pending[..n][i] == pending[i];
    }
  }

  lemma {:induction false} StepKeepsPool(j: Job, before: set<Key>, e: PoolEvent)
    requires PoolRight(j, before)
    ensures PoolRight(PoolStep(j, e), before)
  {
    StepKeepsHands(j, e);
    if e.Finish? && e.worker < |j.workers| && j.workers[e.worker].Copying? {
      FinishKeepsCounts(j, e.worker, e.result);
      FinishKeepsSets(j, before, e.worker, e.result);
    }
  }

  lemma {:induction false} PoolOverRuns(inScope: seq<Key>, before: set<Key>, es: seq<PoolEvent>)
    ensures var j := PoolRun(StartJob(inScope, before), es);
      PoolRight(j, before) && j.pending == NotIn(inScope, before)
  {
    if es == [] {
      NothingCopied(NotIn(inScope, before));
    } else {
      PoolOverRuns(inScope, before, es[..|es| - 1]);
      StepKeepsPool(PoolRun(StartJob(inScope, before), es[..|es| - 1]), before, es[|es| - 1]);
    }
  }

  lemma {:induction false} IntervalSize(s: set<nat>, n: nat)
    requires forall i: nat :: i in s <==> i < n
    ensures |s| == n
  {
    if n == 0 {
      assert s == {};
    } else {
      IntervalSize(s - {n - 1}, n - 1);
      assert s == s - {n - 1} + {n - 1};
    }
  }

  lemma {:induction false} PendingKeys(assets: seq<Key>, migrated: set<Key>)
    ensures Keys(NotIn(assets, migrated)) == Keys(assets) - migrated
  {
    if assets == [] {
      assert Keys(assets) == {};
    } else {
      var n := |assets| - 1;
      PendingKeys(assets[..n], migrated);
      var rest := NotIn(assets[..n], migrated);
      var last := if assets[n] in migrated then [] else [assets[n]];
      assert NotIn(assets, migrated) == rest + last;
      forall k ensures k in rest + last <==> k in Keys(assets[..n]) - migrated || k in last {
        assert k in Keys(rest) <==> k in rest;
      }
      forall k ensures k in assets <==> k in assets[..n] || k == assets[n] {
        assert assets == assets[..n] + [assets[n]];
      }
      assert Keys(assets) == Keys(assets[..n]) + {assets[n]};
    }
  }

  // ---------------------------------------------------------------------
  // Main results
  // ---------------------------------------------------------------------

  /** At most five workers copy at any time, no more than there are assets to copy, and at least one. */
  lemma {:induction false} AtMostFiveWorkers(inScope: seq<Key>, before: set<Key>, es: seq<PoolEvent>)
    ensures var j := PoolRun(StartJob(inScope, before), es);
      |j.workers| == if |j.pending| == 0 then 1 else if |j.pending| < 5 then |j.pending| else 5
  {
    if es != [] { AtMostFiveWorkers(inScope, before, es[..|es| - 1]); }
  }

  /** At no point do two workers hold the same asset, and none holds one already finished. */
  lemma NoAssetTakenTwice(inScope: seq<Key>, before: set<Key>, es: seq<PoolEvent>, m: nat, n: nat)
    ensures var j := PoolRun(StartJob(inScope, before), es);
      m < |j.workers| && n < |j.workers| && j.workers[m].Copying? && j.workers[n].Copying? ==>
        && j.workers[m].index !in j.results
        && (j.workers[m].index == j.workers[n].index ==> m == n)
  {
    PoolOverRuns(inScope, before, es);
  }

  /**
   * When every worker has left the loop: each pending asset was taken once and
   * finished once, the counters add up to the number pending, and the migrated
   * set gained exactly the keys of the copies that did not fail.
   */
  lemma JoinAddsUp(inScope: seq<Key>, before: set<Key>, es: seq<PoolEvent>)
    requires Joined(PoolRun(StartJob(inScope, before), es))
    ensures var j := PoolRun(StartJob(inScope, before), es);
      && |j.takenBy| == |j.pending|
      && (forall i: nat :: i in j.results <==> i < |j.pending|)
      && j.uploaded + j.existed + |j.failures| == j.done == |j.pending|
      && (forall i: nat :: i in j.failures <==> i < |j.pending| && j.results[i].Failed?)
      && (forall k :: k in j.migrated
            <==> k in before || exists i :: 0 <= i < |j.pending| && !j.results[i].Failed? && j.pending[i] == k)
  {
    PoolOverRuns(inScope, before, es);
    var j := PoolRun(StartJob(inScope, before), es);
    assert j.workers[0].Exited?;
    assert forall n :: 0 <= n < |j.workers| ==> !j.workers[n].Copying?;
    assert forall i: nat :: i < j.next ==> i in j.results;
    IntervalSize(j.results.Keys, |j.pending|);
    forall k
      ensures k in Copied(j.pending, j.results)
        <==> exists i :: 0 <= i < |j.pending| && !j.results[i].Failed? && j.pending[i] == k
    {
      CopiedMeans(j.pending, j.results, k);
    }
  }

  lemma AllCopied(pending: seq<Key>, results: map<nat, Result>)
    requires forall i :: 0 <= i < |pending| ==> i in results && !results[i].Failed?
    ensures Copied(pending, results) == Keys(pending)
  {
    forall k ensures k in Copied(pending, results) <==> k in Keys(pending) {
      CopiedMeans(pending, results, k);
    }
  }

  /** Without failures a run migrates everything in scope. */
  lemma JoinWithoutFailures(inScope: seq<Key>, before: set<Key>, es: seq<PoolEvent>)
    requires var j := PoolRun(StartJob(inScope, before), es); Joined(j) && j.failures == []
    ensures PoolRun(StartJob(inScope, before), es).migrated == before + Keys(inScope)
  {
    var j := PoolRun(StartJob(inScope, before), es);
    JoinAddsUp(inScope, before, es);
    assert forall i: nat :: i < |j.pending| ==> i !in j.failures;
    AllCopied(j.pending, j.results);
    PoolOverRuns(inScope, before, es);
    PendingKeys(inScope, before);
  }

  /** Whatever an interrupted run had saved, it lies between where it started and everything in scope. */
  lemma ProgressStaysInScope(inScope: seq<Key>, before: set<Key>, es: seq<PoolEvent>)
    ensures before <= PoolRun(StartJob(inScope, before), es).migrated <= before + Keys(inScope)
  {
    PoolOverRuns(inScope, before, es);
    PendingKeys(inScope, before);
    var j := PoolRun(StartJob(inScope, before), es);
    forall k | k in Copied(j.pending, j.results) ensures k in Keys(inScope) {
      CopiedMeans(j.pending, j.results, k);
      assert k in Keys(j.pending);
    }
  }

  /**
   * Stop a run anywhere, resume from what it had saved, and let it finish
   * without failures: the migrated set is that of an uninterrupted run.
   */
  lemma RestartConverges(inScope: seq<Key>, before: set<Key>, stopped: seq<PoolEvent>, resumed: seq<PoolEvent>)
    requires var saved := PoolRun(StartJob(inScope, before), stopped).migrated;
      var j := PoolRun(StartJob(inScope, saved), resumed);
      Joined(j) && j.failures == []
    ensures var saved := PoolRun(StartJob(inScope, before), stopped).migrated;
      PoolRun(StartJob(inScope, saved), resumed).migrated == before + Keys(inScope)
  {
    var saved := PoolRun(StartJob(inScope, before), stopped).migrated;
    ProgressStaysInScope(inScope, before, stopped);
    JoinWithoutFailures(inScope, saved, resumed);
  }

  /**
   * When the progress file itself was lost, a fresh full run reaches the same
   * set exactly when everything recorded before was in scope.
   */
  lemma LostProgressConvergesIff(inScope: seq<Key>, before: set<Key>, anew: seq<PoolEvent>)
    requires var j := PoolRun(StartJob(inScope, {}), anew); Joined(j) && j.failures == []
    ensures PoolRun(StartJob(inScope, {}), anew).migrated == before + Keys(inScope) <==> before <= Keys(inScope)
  {
    JoinWithoutFailures(inScope, {}, anew);
  }

  /** An asset migrated under another scope is forgotten with the file. */
  lemma LostProgressForgets(k: Key)
    ensures var j := PoolRun(StartJob([], {}), [Take(0)]);
      Joined(j) && j.failures == [] && j.migrated != {k} + Keys([])
  {
    assert [Take(0)][..0] == [];
    assert k !in PoolRun(StartJob([], {}), [Take(0)]).migrated;
  }
}
