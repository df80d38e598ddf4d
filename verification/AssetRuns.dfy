/**
 * Whole copy runs and whole delete runs: what each leaves on the two accounts
 * and in the progress file, from any state in which no script is running.
 */
module AssetRuns {
  import opened Options
  import opened CopyPool
  import opened AssetMigration

  // ---------------------------------------------------------------------
  // A copy run
  // ---------------------------------------------------------------------

  /** What happens while the pool copies: worker events, and the progress file written now and then. */
  predicate Copies(es: seq<Event>) { forall k :: 0 <= k < |es| ==> es[k].Pool? || es[k].Persist? }

  function PoolEvents(es: seq<Event>): seq<PoolEvent> {
    if es == [] then []
    else PoolEvents(es[..|es| - 1]) + if es[|es| - 1].Pool? then [es[|es| - 1].event] else []
  }

  /** The names a run without a scope file, or with one, is to copy. */
  function InScope(s: System, scope: Option<set<Key>>): set<Key> {
    match scope
    case None => s.source.Keys
    case Some(names) => s.source.Keys * names
  }

  lemma {:induction false} WithinKeys(assets: seq<Key>, scope: set<Key>)
    ensures Keys(Within(assets, scope)) == Keys(assets) * scope
  {
    if assets != [] {
      var n := |assets| - 1;
      WithinKeys(assets[..n], scope);
      var rest, k := Within(assets[..n], scope), assets[n];
      assert assets == assets[..n] + [k];
      KeysOfMore(assets[..n], k);
      if k in scope { KeysOfMore(rest, k); } else { assert Within(assets, scope) == rest; }
    } else {
      assert Keys(assets) == {};
    }
  }

  lemma KeysOfMore(assets: seq<Key>, k: Key)
    ensures Keys(assets + [k]) == Keys(assets) + {k}
  {
  }

  /** What landed is on the destination, and so is what was counted as copied. */
  ghost predicate LandedRight(j: Job, source: map<Key, Content>, dest: map<Key, Content>) {
    && (forall i :: 0 <= i < |j.pending| ==> j.pending[i] in source)
    && (forall n | 0 <= n < |j.workers| && j.workers[n].Copying? ::
          j.workers[n].landed && j.workers[n].index < |j.pending| ==> j.pending[j.workers[n].index] in dest)
    && (forall i :: 0 <= i < |j.pending| && i in j.results && !j.results[i].Failed? ==> j.pending[i] in dest)
  }

  /** A destination grown by uploads from the source, over no name it had. */
  ghost predicate GrownFrom(was: map<Key, Content>, now: map<Key, Content>, source: map<Key, Content>) {
    && (forall k :: k in was ==> k in now && now[k] == was[k])
    && (forall k :: k in now && k !in was ==> k in source && now[k] == source[k])
  }

  /** A copy run from `s`, `j` being its job. */
  ghost predicate CopyRight(s: System, listing: seq<Key>, now: System, j: Job) {
    && now.phase == Migrating(j)
    && now.source == s.source && now.manifest == listing
    && GrownFrom(s.dest, now.dest, s.source)
    && LandedRight(j, now.source, now.dest)
  }

  lemma PoolEventKeeps(s: System, listing: seq<Key>, now: System, j: Job, e: PoolEvent)
    requires CopyRight(s, listing, now, j)
    ensures CopyRight(s, listing, Step(now, Pool(e)), PoolStep(j, e))
  {
  }

  /** The state in which a copy run's job stands at `j`, and no file has been written since `StartMigrate`. */
  lemma CopyStarts(s: System, listing: seq<Key>, scope: Option<set<Key>>)
    returns (inScope: seq<Key>)
    requires s.phase.Resting? && Keys(listing) == s.source.Keys
    ensures Keys(inScope) == InScope(s, scope)
    ensures CopyRight(s, listing, Step(s, StartMigrate(listing, scope)), StartJob(inScope, Saved(s)))
    ensures Step(s, StartMigrate(listing, scope)).progress == s.progress
  {
    inScope := if scope.Some? then Within(listing, scope.value) else listing;
    if scope.Some? { WithinKeys(listing, scope.value); }
    PendingKeys(inScope, Saved(s));
    var j := StartJob(inScope, Saved(s));
    forall i | 0 <= i < |j.pending| ensures j.pending[i] in s.source {
      assert j.pending[i] in Keys(j.pending);
    }
  }

  lemma {:induction false} CopyRuns(s: System, listing: seq<Key>, started: System, job: Job, es: seq<Event>)
    requires CopyRight(s, listing, started, job) && Copies(es)
    ensures CopyRight(s, listing, Run(started, es), PoolRun(job, PoolEvents(es)))
  {
    if es == [] {
    } else {
      var n := |es| - 1;
      CopyRuns(s, listing, started, job, es[..n]);
      var now, j := Run(started, es[..n]), PoolRun(job, PoolEvents(es[..n]));
      if es[n].Pool? {
        PoolEventKeeps(s, listing, now, j, es[n].event);
        PoolRunOfMore(job, PoolEvents(es[..n]), es[n].event);
      } else {
        assert PoolEvents(es) == PoolEvents(es[..n]);
      }
    }
  }

  lemma PoolRunOfMore(j: Job, es: seq<PoolEvent>, e: PoolEvent)
    ensures PoolRun(j, es + [e]) == PoolStep(PoolRun(j, es), e)
  {
    assert (es + [e])[..|es|] == es;
  }

  /** A job's migrated set is what was saved before and some of what was in scope, every new name landed. */
  lemma MigratedLanded(s: System, listing: seq<Key>, inScope: seq<Key>, now: System, es: seq<PoolEvent>)
    requires CopyRight(s, listing, now, PoolRun(StartJob(inScope, Saved(s)), es))
    ensures var migrated := PoolRun(StartJob(inScope, Saved(s)), es).migrated;
      Saved(s) <= migrated <= Saved(s) + Keys(inScope) && migrated - Saved(s) <= now.dest.Keys
  {
    var j := PoolRun(StartJob(inScope, Saved(s)), es);
    ProgressStaysInScope(inScope, Saved(s), es);
    PoolOverRuns(inScope, Saved(s), es);
    forall k | k in j.migrated - Saved(s) ensures k in now.dest {
      CopiedMeans(j.pending, j.results, k);
    }
  }

  /**
   * From any state with no script running, a whole copy run, whatever its
   * workers do: nothing leaves the source, nothing on the destination is
   * overwritten, and what it newly records as migrated was in scope and is on
   * the destination. If no copy failed, everything in scope is recorded: the
   * whole account without a scope file, the names that occur on it with one.
   */
  lemma CopyRunMeans(s: System, listing: seq<Key>, scope: Option<set<Key>>, es: seq<Event>)
    requires s.phase.Resting? && Keys(listing) == s.source.Keys && Copies(es)
    ensures var copied := Run(Step(s, StartMigrate(listing, scope)), es);
      && copied.phase.Migrating?
      && var after := Step(copied, Join);
      Joined(copied.phase.job) ==>
        && after.phase.Resting? && after.source == s.source && after.manifest == listing
        && GrownFrom(s.dest, after.dest, s.source)
        && Saved(s) <= Saved(after)
        && Saved(after) - Saved(s) <= InScope(s, scope) * after.dest.Keys
        && (copied.phase.job.failures == [] ==> Saved(after) == Saved(s) + InScope(s, scope))
  {
    var started := Step(s, StartMigrate(listing, scope));
    var inScope := CopyStarts(s, listing, scope);
    var job, pool := StartJob(inScope, Saved(s)), PoolEvents(es);
    CopyRuns(s, listing, started, job, es);
    var copied := Run(started, es);
    MigratedLanded(s, listing, inScope, copied, pool);
    if Joined(copied.phase.job) && copied.phase.job.failures == [] {
      JoinWithoutFailures(inScope, Saved(s), pool);
    }
  }

  // ---------------------------------------------------------------------
  // A copy run cut short
  // ---------------------------------------------------------------------

  /** The progress file lies between what it held and what the job has migrated. */
  lemma {:induction false} FileLagsJob(s: System, listing: seq<Key>, inScope: seq<Key>, started: System, es: seq<Event>)
    requires CopyRight(s, listing, started, StartJob(inScope, Saved(s))) && Copies(es)
    requires started.progress == s.progress
    ensures Saved(s) <= Saved(Run(started, es)) <= Saved(s) + Keys(inScope)
    ensures es != [] && es[|es| - 1].Persist? ==>
      Saved(Run(started, es)) == PoolRun(StartJob(inScope, Saved(s)), PoolEvents(es)).migrated
  {
    if es != [] {
      var n := |es| - 1;
      FileLagsJob(s, listing, inScope, started, es[..n]);
      CopyRuns(s, listing, started, StartJob(inScope, Saved(s)), es[..n]);
      ProgressStaysInScope(inScope, Saved(s), PoolEvents(es[..n]));
      if es[n].Persist? { assert PoolEvents(es) == PoolEvents(es[..n]); }
    }
  }

  /**
   * A copy run cut short anywhere keeps everything recorded before it and at
   * its last write of the file; a whole run in the same scope then records what
   * an undisturbed one would have.
   */
  lemma CopySurvivesCrash(s: System, listing: seq<Key>, scope: Option<set<Key>>, cut: seq<Event>, es: seq<Event>)
    requires s.phase.Resting? && Keys(listing) == s.source.Keys && Copies(cut) && Copies(es)
    ensures var stopped := Step(Run(Step(s, StartMigrate(listing, scope)), cut), Crash(false));
      var copied := Run(Step(stopped, StartMigrate(listing, scope)), es);
      && stopped.phase.Resting? && stopped.source == s.source && GrownFrom(s.dest, stopped.dest, s.source)
      && Saved(s) <= Saved(stopped) <= Saved(s) + InScope(s, scope)
      && copied.phase.Migrating?
      && (Joined(copied.phase.job) && copied.phase.job.failures == [] ==>
            Saved(Step(copied, Join)) == Saved(s) + InScope(s, scope))
  {
    var started := Step(s, StartMigrate(listing, scope));
    var inScope := CopyStarts(s, listing, scope);
    CopyRuns(s, listing, started, StartJob(inScope, Saved(s)), cut);
    FileLagsJob(s, listing, inScope, started, cut);
    var stopped := Step(Run(started, cut), Crash(false));
    CopyRunMeans(stopped, listing, scope, es);
  }

  /** The file as last written is what a crash leaves, unless the crash takes the file. */
  lemma WrittenFileSurvives(s: System, listing: seq<Key>, scope: Option<set<Key>>, cut: seq<Event>)
    requires s.phase.Resting? && Keys(listing) == s.source.Keys && Copies(cut)
    ensures var now := Run(Step(s, StartMigrate(listing, scope)), cut);
      && now.phase.Migrating? && Saved(Step(Step(now, Persist), Crash(false))) == now.phase.job.migrated
      && Saved(Step(now, Crash(true))) == {}
  {
    var inScope := CopyStarts(s, listing, scope);
    CopyRuns(s, listing, Step(s, StartMigrate(listing, scope)), StartJob(inScope, Saved(s)), cut);
  }

  // ---------------------------------------------------------------------
  // A delete run
  // ---------------------------------------------------------------------

  predicate Deletes(es: seq<Event>) {
    forall k :: 0 <= k < |es| ==> es[k].VerifyOnDest? || es[k].Destroy? || es[k].SkipTarget?
  }

  /** The names a delete run is to look at. */
  function ToDelete(s: System): set<Key> { Keys(s.manifest) * Saved(s) }

  /** A delete run from `s`: its targets, and what it took off the source so far. */
  ghost predicate DeleteRight(s: System, now: System) {
    && now.phase.Deleting? && now.phase.targets == Within(s.manifest, Saved(s))
    && now.dest == s.dest && now.progress == s.progress && now.manifest == s.manifest
    && (now.phase.verified && now.phase.next < |now.phase.targets| ==> now.phase.targets[now.phase.next] in s.dest)
    && (forall k :: k in now.source ==> k in s.source && now.source[k] == s.source[k])
    && (forall k :: k in s.source && k !in now.source ==> k in now.phase.targets && k in s.dest)
  }

  lemma DeleteStepKeeps(s: System, now: System, e: Event)
    requires DeleteRight(s, now) && (e.VerifyOnDest? || e.Destroy? || e.SkipTarget?)
    ensures DeleteRight(s, Step(now, e))
  {
  }

  lemma {:induction false} DeleteRuns(s: System, es: seq<Event>)
    requires s.phase.Resting? && Deletes(es)
    ensures DeleteRight(s, Run(Step(s, StartDelete), es))
  {
    if es != [] {
      var n := |es| - 1;
      DeleteRuns(s, es[..n]);
      DeleteStepKeeps(s, Run(Step(s, StartDelete), es[..n]), es[n]);
    }
  }

  /**
   * From any state with no script running, whatever a delete run skips and
   * wherever it stops: what leaves the source was listed, recorded as migrated
   * and is on the destination, and nothing else changes.
   */
  lemma DeleteRunMeans(s: System, es: seq<Event>)
    requires s.phase.Resting? && Deletes(es)
    ensures var after := Step(Run(Step(s, StartDelete), es), FinishDelete);
      && after.phase.Resting? && after.dest == s.dest && after.progress == s.progress && after.manifest == s.manifest
      && after.source.Keys <= s.source.Keys
      && (forall k :: k in after.source ==> after.source[k] == s.source[k])
      && s.source.Keys - after.source.Keys <= ToDelete(s) * s.dest.Keys
  {
    DeleteRuns(s, es);
    WithinKeys(s.manifest, Saved(s));
    var now := Run(Step(s, StartDelete), es);
    forall k | k in s.source && k !in now.source ensures k in ToDelete(s) {
      assert k in Keys(now.phase.targets);
    }
  }

  /** One target verified and, if it is on the destination, destroyed. */
  lemma DeleteOne(s: System, es: seq<Event>) returns (more: seq<Event>)
    requires Deletes(es)
    requires var now := Run(s, es); now.phase.Deleting? && !now.phase.verified && now.phase.next < |now.phase.targets|
    ensures Deletes(more)
    ensures var now := Run(s, es);
      var k := now.phase.targets[now.phase.next];
      Run(s, more) == now.(source := if k in now.dest then now.source - {k} else now.source,
                           phase := now.phase.(next := now.phase.next + 1))
  {
    Then(s, es, VerifyOnDest);
    more := es + [VerifyOnDest];
    if Run(s, more).phase.verified {
      Then(s, more, Destroy);
      more := more + [Destroy];
    }
  }

  /** The accounts without what the first `n` targets have on both. */
  function DeletedUpTo(s: System, n: nat): map<Key, Content>
    requires s.phase.Deleting? && n <= |s.phase.targets|
  {
    s.source - (Keys(s.phase.targets[..n]) * s.dest.Keys)
  }

  lemma DeletedOneMore(s: System, n: nat)
    requires s.phase.Deleting? && n < |s.phase.targets|
    ensures var k := s.phase.targets[n];
      DeletedUpTo(s, n + 1) == if k in s.dest then DeletedUpTo(s, n) - {k} else DeletedUpTo(s, n)
  {
    var k := s.phase.targets[n];
    assert s.phase.targets[..n + 1] == s.phase.targets[..n] + [k];
    KeysOfMore(s.phase.targets[..n], k);
  }

  /** One target after another. */
  lemma {:induction false} DeleteFrom(s: System, n: nat) returns (es: seq<Event>)
    requires s.phase.Deleting? && s.phase.next == 0 && !s.phase.verified && n <= |s.phase.targets|
    ensures Deletes(es)
    ensures Run(s, es) == s.(source := DeletedUpTo(s, n), phase := s.phase.(next := n))
  {
    if n == 0 {
      es := [];
      assert Keys(s.phase.targets[..0]) == {};
      assert s.source - {} == s.source;
    } else {
      var before := DeleteFrom(s, n - 1);
      es := DeleteOne(s, before);
      DeletedOneMore(s, n - 1);
    }
  }

  /** A delete run no call of which fails takes off the source all that was recorded and is on the destination. */
  lemma WholeDelete(s: System) returns (es: seq<Event>)
    requires s.phase.Resting?
    ensures Deletes(es)
    ensures Step(Run(Step(s, StartDelete), es), FinishDelete) == s.(source := s.source - (ToDelete(s) * s.dest.Keys))
  {
    var started := Step(s, StartDelete);
    es := DeleteFrom(started, |started.phase.targets|);
    assert started.phase.targets[..|started.phase.targets|] == started.phase.targets;
    WithinKeys(s.manifest, Saved(s));
  }
}
