/**
 * Moving assets between two accounts over any number of copy runs and delete
 * runs, any of which may be cut short, and with a progress file that may be
 * lost.
 */
module AssetMigration {
  import opened Options
  import opened CopyPool

  type Content = nat

  datatype Phase =
    | Resting
    | Migrating(job: Job)
    | Deleting(targets: seq<Key>, next: nat, verified: bool)

  /** Both accounts, the manifest, the progress file (`None` when missing or unreadable), and the script running. */
  datatype System = System(
    source: map<Key, Content>,
    dest: map<Key, Content>,
    manifest: seq<Key>,
    progress: Option<set<Key>>,
    phase: Phase)

  datatype Event =
    | StartMigrate(listing: seq<Key>, scope: Option<set<Key>>)
    | Pool(event: PoolEvent)
    | Persist
    | Join
    | StartDelete
    | VerifyOnDest
    | Destroy
    | SkipTarget
    | FinishDelete
    | Crash(losesProgress: bool)

  function Saved(s: System): set<Key> {
    if s.progress.Some? then s.progress.value else {}
  }

  function Within(assets: seq<Key>, scope: set<Key>): seq<Key> {
    if assets == [] then []
    else
      var k := assets[|assets| - 1];
      Within(assets[..|assets| - 1], scope) + if k in scope then [k] else []
  }

  /** An upload takes effect unless the name is taken: nothing on the destination is ever overwritten. */
  function Landed(s: System, k: Key): map<Key, Content> {
    if k in s.dest || k !in s.source then s.dest else s.dest[k := s.source[k]]
  }

  function Step(s: System, e: Event): System {
    match e
    case StartMigrate(listing, scope) =>
      if !s.phase.Resting? || Keys(listing) != s.source.Keys then s
      else
        var inScope := if scope.Some? then Within(listing, scope.value) else listing;
        s.(manifest := listing, phase := Migrating(StartJob(inScope, Saved(s))))
    case Pool(pe) =>
      if !s.phase.Migrating? then s
      else
        var j := s.phase.job;
        var lands := pe.Land? && pe.worker < |j.workers| && j.workers[pe.worker].Copying?
          && j.workers[pe.worker].index < |j.pending|;
        s.(phase := Migrating(PoolStep(j, pe)),
           dest := if lands then Landed(s, j.pending[j.workers[pe.worker].index]) else s.dest)
    case Persist =>
      if !s.phase.Migrating? then s else s.(progress := Some(s.phase.job.migrated))
    case Join =>
      if !s.phase.Migrating? || !Joined(s.phase.job) then s
      else s.(progress := Some(s.phase.job.migrated), phase := Resting)
    case StartDelete =>
      if !s.phase.Resting? then s else s.(phase := Deleting(Within(s.manifest, Saved(s)), 0, false))
    case VerifyOnDest =>
      if !s.phase.Deleting? || s.phase.verified || s.phase.next >= |s.phase.targets| then s
      else if s.phase.targets[s.phase.next] in s.dest then s.(phase := s.phase.(verified := true))
      else s.(phase := s.phase.(next := s.phase.next + 1))
    case Destroy =>
      if !s.phase.Deleting? || !s.phase.verified || s.phase.next >= |s.phase.targets| then s
      else s.(source := s.source - {s.phase.targets[s.phase.next]},
              phase := s.phase.(next := s.phase.next + 1, verified := false))
    case SkipTarget =>
      if !s.phase.Deleting? then s else s.(phase := s.phase.(next := s.phase.next + 1, verified := false))
    case FinishDelete =>
      if !s.phase.Deleting? then s else s.(phase := Resting)
    case Crash(loses) =>
      s.(phase := Resting, progress := if loses then None else s.progress)
  }

  function Run(s: System, es: seq<Event>): System {
    if es == [] then s else Step(Run(s, es[..|es| - 1]), es[|es| - 1])
  }

  function Begin(source: map<Key, Content>, dest: map<Key, Content>): System {
    System(source, dest, [], None, Resting)
  }

  /** The bytes of asset `k` are still on one of the accounts. */
  predicate Preserved(s: System, k: Key, c: Content) {
    (k in s.source && s.source[k] == c) || (k in s.dest && s.dest[k] == c)
  }

  /** What every event keeps, from starting accounts `source` and `dest`. */
  ghost predicate Safe(s: System, source: map<Key, Content>, dest: map<Key, Content>) {
    && (forall k :: k in s.source ==> k in source && s.source[k] == source[k])
    && (forall k :: k in source ==> k in s.source || k in s.dest)
    && (forall k :: k in dest ==> k in s.dest && s.dest[k] == dest[k])
    && (forall k :: k in s.dest && k !in dest ==> k in source && s.dest[k] == source[k])
    && (s.phase.Deleting? && s.phase.verified && s.phase.next < |s.phase.targets| ==>
        s.phase.targets[s.phase.next] in s.dest)
  }

  lemma StepKeepsSafe(s: System, e: Event, source: map<Key, Content>, dest: map<Key, Content>)
    requires Safe(s, source, dest)
    ensures Safe(Step(s, e), source, dest)
  {
  }

  /**
   * Over any sequence of copy and delete runs, cut short anywhere and with any
   * loss of the progress file, every asset first on the source is on one of the
   * accounts, under the bytes it had there unless its name was already taken.
   */
  lemma {:induction false} NothingIsLost(source: map<Key, Content>, dest: map<Key, Content>, es: seq<Event>)
    ensures Safe(Run(Begin(source, dest), es), source, dest)
  {
    if es != [] {
      NothingIsLost(source, dest, es[..|es| - 1]);
      StepKeepsSafe(Run(Begin(source, dest), es[..|es| - 1]), es[|es| - 1], source, dest);
    }
  }

  // ---------------------------------------------------------------------
  // Names taken in advance
  // ---------------------------------------------------------------------

  lemma Then(s: System, es: seq<Event>, e: Event)
    ensures Run(s, es + [e]) == Step(Run(s, es), e)
  {
    assert (es + [e])[..|es|] == es;
  }

  /** The one worker's run over one asset whose name is taken: `n` pool events in. */
  function TakenNameJob(k: Key, n: nat): Job {
    var untouched := Job([k], 0, [Ready], 0, 0, 0, [], {}, [], map[]);
    var taken := untouched.(next := 1, takenBy := [0], workers := [Copying(0, false)]);
    var existing := taken.(workers := [Ready], done := 1, existed := 1, migrated := {k}, results := map[0 := Existed]);
    if n == 0 then untouched
    else if n == 1 then taken
    else if n == 2 then taken.(workers := [Copying(0, true)])
    else if n == 3 then existing
    else existing.(workers := [CopyPool.Worker.Exited])
  }

  function TakenNameEvent(n: nat): PoolEvent {
    if n == 1 then Land(0) else if n == 2 then Finish(0, Existed) else Take(0)
  }

  lemma TakenNameTakes(k: Key)
    ensures PoolStep(TakenNameJob(k, 0), Take(0)) == TakenNameJob(k, 1)
    ensures PoolStep(TakenNameJob(k, 3), Take(0)) == TakenNameJob(k, 4)
  {
  }

  lemma TakenNameLands(k: Key)
    ensures PoolStep(TakenNameJob(k, 1), Land(0)) == TakenNameJob(k, 2)
  {
  }

  lemma TakenNameFinishes(k: Key)
    ensures PoolStep(TakenNameJob(k, 2), Finish(0, Existed)) == TakenNameJob(k, 3)
  {
    assert {} + {k} == {k};
  }

  lemma TakenNameStep(k: Key, n: nat)
    requires n < 4
    ensures PoolStep(TakenNameJob(k, n), TakenNameEvent(n)) == TakenNameJob(k, n + 1)
  {
    TakenNameTakes(k);
    TakenNameLands(k);
    TakenNameFinishes(k);
  }

  /** Such events leave the destination alone: the name is there. */
  lemma TakenNameMove(s: System, k: Key, n: nat)
    requires n < 4 && k in s.dest && s.phase == Migrating(TakenNameJob(k, n))
    ensures Step(s, Pool(TakenNameEvent(n))) == s.(phase := Migrating(TakenNameJob(k, n + 1)))
  {
    TakenNameStep(k, n);
  }

  lemma {:induction false} TakenNameRun(s: System, es: seq<Event>, k: Key, n: nat) returns (more: seq<Event>)
    requires n <= 4 && k in Run(s, es).dest && Run(s, es).phase == Migrating(TakenNameJob(k, 0))
    ensures Run(s, more) == Run(s, es).(phase := Migrating(TakenNameJob(k, n)))
  {
    if n == 0 {
      more := es;
    } else {
      var before := TakenNameRun(s, es, k, n - 1);
      Then(s, before, Pool(TakenNameEvent(n - 1)));
      TakenNameMove(Run(s, before), k, n - 1);
      more := before + [Pool(TakenNameEvent(n - 1))];
    }
  }

  lemma TakenNameStartJob(k: Key)
    ensures StartJob([k], {}) == TakenNameJob(k, 0)
  {
    assert [k][..0] == [];
    assert NotIn([k], {}) == [k];
    assert seq(1, _ => Ready) == [Ready];
  }

  /** Migrating the one asset, `n` pool events in. */
  function TakenNameState(source: map<Key, Content>, dest: map<Key, Content>, k: Key, listing: seq<Key>, n: nat)
    : System
  {
    System(source, dest, listing, None, Migrating(TakenNameJob(k, n)))
  }

  lemma TakenNameStarts(source: map<Key, Content>, dest: map<Key, Content>, k: Key, listing: seq<Key>)
    requires Keys(listing) == source.Keys && Within(listing, {k}) == [k]
    ensures Step(Begin(source, dest), StartMigrate(listing, Some({k}))) == TakenNameState(source, dest, k, listing, 0)
  {
    TakenNameStartJob(k);
  }

  lemma TakenNameJoins(source: map<Key, Content>, dest: map<Key, Content>, k: Key, listing: seq<Key>)
    ensures Step(TakenNameState(source, dest, k, listing, 4), Join) == System(source, dest, listing, Some({k}), Resting)
  {
    assert Joined(TakenNameJob(k, 4));
  }

  lemma RunOne(s: System, e: Event)
    ensures Run(s, [e]) == Step(s, e)
  {
    assert [e][..0] == [];
  }

  /** From one asset's start to its join. */
  lemma TakenNameMigrates(s: System, es: seq<Event>, k: Key, joined: System) returns (more: seq<Event>)
    requires k in Run(s, es).dest && Run(s, es).phase == Migrating(TakenNameJob(k, 0))
    requires Step(Run(s, es).(phase := Migrating(TakenNameJob(k, 4))), Join) == joined
    ensures Run(s, more) == joined
  {
    var before := TakenNameRun(s, es, k, 4);
    Then(s, before, Join);
    more := before + [Join];
  }

  /** Scope a run to one asset whose name is taken, and let it finish: the asset counts as migrated. */
  lemma CopyOverTakenName(source: map<Key, Content>, dest: map<Key, Content>, k: Key, listing: seq<Key>)
    returns (es: seq<Event>)
    requires k in source && k in dest && Keys(listing) == source.Keys && Within(listing, {k}) == [k]
    ensures Run(Begin(source, dest), es) == System(source, dest, listing, Some({k}), Resting)
  {
    var start := StartMigrate(listing, Some({k}));
    RunOne(Begin(source, dest), start);
    TakenNameStarts(source, dest, k, listing);
    TakenNameJoins(source, dest, k, listing);
    es := TakenNameMigrates(Begin(source, dest), [start], k, System(source, dest, listing, Some({k}), Resting));
  }

  lemma DeleteTakenName(source: map<Key, Content>, dest: map<Key, Content>, k: Key, listing: seq<Key>)
    returns (es: seq<Event>)
    requires k in source && k in dest && Keys(listing) == source.Keys && Within(listing, {k}) == [k]
    ensures var s := Run(Begin(source, dest), es); k !in s.source && s.dest == dest
  {
    var s := Begin(source, dest);
    es := CopyOverTakenName(source, dest, k, listing);
    Then(s, es, StartDelete);
    es := es + [StartDelete];
    assert Run(s, es).phase == Deleting([k], 0, false);
    Then(s, es, VerifyOnDest);
    es := es + [VerifyOnDest];
    Then(s, es, Destroy);
    es := es + [Destroy];
  }

  /** Every finite set of names can be listed with one chosen name appearing once. */
  lemma {:induction false} Listing(names: set<Key>, k: Key) returns (listing: seq<Key>)
    requires k in names
    ensures Keys(listing) == names && Within(listing, {k}) == [k]
    decreases names
  {
    if names == {k} {
      listing := [k];
      assert [k][..0] == [];
    } else {
      var other :| other in names && other != k;
      listing := Listing(names - {other}, k);
      assert (listing + [other])[..|listing|] == listing;
      forall x ensures x in Keys(listing + [other]) <==> x in names {
        assert x in Keys(listing) <==> x in names - {other};
      }
      listing := listing + [other];
    }
  }

  ghost predicate NoNameTaken(source: map<Key, Content>, dest: map<Key, Content>) {
    forall k :: k in source && k in dest ==> source[k] == dest[k]
  }

  /**
   * The bytes of every source asset survive every run exactly when no name on
   * the source was already taken by other bytes on the destination: the
   * verification before a delete looks at the name only.
   */
  lemma BytesSurviveIff(source: map<Key, Content>, dest: map<Key, Content>)
    ensures (forall es, k :: k in source ==> Preserved(Run(Begin(source, dest), es), k, source[k]))
      <==> NoNameTaken(source, dest)
  {
    if NoNameTaken(source, dest) {
      forall es, k | k in source ensures Preserved(Run(Begin(source, dest), es), k, source[k]) {
        NothingIsLost(source, dest, es);
      }
    } else {
      var k :| k in source && k in dest && source[k] != dest[k];
      var listing := Listing(source.Keys, k);
      var es := DeleteTakenName(source, dest, k, listing);
      assert !Preserved(Run(Begin(source, dest), es), k, source[k]);
    }
  }

  /** One name, other bytes on either side: copied over, deleted, and gone. */
  lemma TakenNameLosesBytes() returns (es: seq<Event>)
    ensures !Preserved(Run(Begin(map["logo" := 1], map["logo" := 2]), es), "logo", 1)
  {
    var listing := Listing({"logo"}, "logo");
    es := DeleteTakenName(map["logo" := 1], map["logo" := 2], "logo", listing);
  }

  // ---------------------------------------------------------------------
  // The delete loop
  // ---------------------------------------------------------------------

  /** What the remote calls answer for one target. */
  datatype Answers = Answers(verifyFails: bool, destroyFails: bool)

  /** Both sides and the counters of one delete run. */
  datatype Sweep = Sweep(source: map<Key, Content>, deleted: set<Key>, toDelete: nat, done: nat, skipped: nat)

  function SweepOne(s: Sweep, dest: map<Key, Content>, k: Key, a: Answers, apply: bool): Sweep {
    if k in s.deleted then s
    else if a.verifyFails || k !in dest then s.(skipped := s.skipped + 1)
    else if !apply then s.(toDelete := s.toDelete + 1)
    else if a.destroyFails then s.(toDelete := s.toDelete + 1, skipped := s.skipped + 1)
    else Sweep(s.source - {k}, s.deleted + {k}, s.toDelete + 1, s.done + 1, s.skipped)
  }

  function SweepAll(s: Sweep, dest: map<Key, Content>, targets: seq<Key>, answers: seq<Answers>, apply: bool): Sweep
    requires |answers| == |targets|
  {
    if targets == [] then s
    else
      var n := |targets| - 1;
      SweepOne(SweepAll(s, dest, targets[..n], answers[..n], apply), dest, targets[n], answers[n], apply)
  }

  predicate DistinctKeys(targets: seq<Key>) {
    forall i, j :: 0 <= i < j < |targets| ==> targets[i] != targets[j]
  }

  /** A dry run deletes nothing. */
  lemma {:induction false} DryRunDeletesNothing(s: Sweep, dest: map<Key, Content>, targets: seq<Key>,
                                                answers: seq<Answers>)
    requires |answers| == |targets|
    ensures var r := SweepAll(s, dest, targets, answers, false);
      r.source == s.source && r.deleted == s.deleted && r.done == s.done
  {
    if targets != [] { DryRunDeletesNothing(s, dest, targets[..|targets| - 1], answers[..|targets| - 1]); }
  }

  /** What leaves the source is exactly what joins the deleted list, and all of it is on the destination. */
  lemma {:induction false} OnlyVerifiedLeave(s: Sweep, dest: map<Key, Content>, targets: seq<Key>,
                                             answers: seq<Answers>, apply: bool)
    requires |answers| == |targets|
    ensures var r := SweepAll(s, dest, targets, answers, apply);
      && s.deleted <= r.deleted
      && r.source == s.source - (r.deleted - s.deleted)
      && forall k :: k in r.deleted - s.deleted ==> k in targets && k in dest
  {
    if targets != [] {
      var n := |targets| - 1;
      assert targets == targets[..n] + [targets[n]];
      OnlyVerifiedLeave(s, dest, targets[..n], answers[..n], apply);
    }
  }

  function AlreadyDeleted(targets: seq<Key>, deleted: set<Key>): nat {
    if targets == [] then 0
    else AlreadyDeleted(targets[..|targets| - 1], deleted) + if targets[|targets| - 1] in deleted then 1 else 0
  }

  /**
   * An applied run over distinct targets: a target is deleted exactly if it was
   * before, or is on the destination and neither call failed; and every target
   * is counted once, as deleted now, skipped, or deleted before.
   */
  lemma {:induction false} DeletedIff(s: Sweep, dest: map<Key, Content>, targets: seq<Key>, answers: seq<Answers>)
    requires |answers| == |targets| && DistinctKeys(targets)
    ensures var r := SweepAll(s, dest, targets, answers, true);
      && (forall i :: 0 <= i < |targets| ==>
            (targets[i] in r.deleted
             <==> targets[i] in s.deleted
                  || (targets[i] in dest && !answers[i].verifyFails && !answers[i].destroyFails)))
      && r.done + r.skipped + AlreadyDeleted(targets, s.deleted) == s.done + s.skipped + |targets|
  {
    if targets != [] {
      var n := |targets| - 1;
      DeletedIff(s, dest, targets[..n], answers[..n]);
      OnlyVerifiedLeave(s, dest, targets[..n], answers[..n], true);
      assert targets[n] !in targets[..n];
      forall i | 0 <= i < n
        ensures targets[i] == targets[..n][i] && answers[i] == answers[..n][i] && targets[i] != targets[n] {}
    }
  }

  /** How many targets are on the destination, were verified without failing, and were not deleted before. */
  function WouldDelete(targets: seq<Key>, answers: seq<Answers>, dest: map<Key, Content>, deleted: set<Key>): nat
    requires |answers| == |targets|
  {
    if targets == [] then 0
    else
      var n := |targets| - 1;
      WouldDelete(targets[..n], answers[..n], dest, deleted)
        + if targets[n] in dest && !answers[n].verifyFails && targets[n] !in deleted then 1 else 0
  }

  /**
   * Over distinct targets, a dry run reports exactly how many would be tried,
   * and an applied run tries exactly those: each is deleted, or skipped because
   * its deletion failed.
   */
  lemma {:induction false} DryRunForetells(s: Sweep, dest: map<Key, Content>, targets: seq<Key>, answers: seq<Answers>,
                                           apply: bool)
    requires |answers| == |targets| && DistinctKeys(targets)
    ensures var r := SweepAll(s, dest, targets, answers, apply);
      && r.toDelete == s.toDelete + WouldDelete(targets, answers, dest, s.deleted)
      && r.done - s.done <= r.toDelete - s.toDelete
    ensures var r := SweepAll(s, dest, targets, answers, false);
      r.toDelete + r.skipped + AlreadyDeleted(targets, s.deleted) == s.toDelete + s.skipped + |targets|
  {
    if targets != [] {
      var n := |targets| - 1;
      DryRunForetells(s, dest, targets[..n], answers[..n], apply);
      OnlyVerifiedLeave(s, dest, targets[..n], answers[..n], apply);
      DryRunDeletesNothing(s, dest, targets[..n], answers[..n]);
      assert targets[n] !in targets[..n];
    }
  }

  class DeleteSource {
    var source: map<Key, Content>
    const dest: map<Key, Content>
    var deleted: set<Key>

    constructor (source: map<Key, Content>, dest: map<Key, Content>, deleted: set<Key>)
      ensures this.source == source && this.dest == dest && this.deleted == deleted
    {
      this.source, this.dest, this.deleted := source, dest, deleted;
    }

    /** Verify, then delete, target by target; `answers` are what the remote calls say. */
    method DeleteTargets(targets: seq<Key>, answers: seq<Answers>, apply: bool)
      returns (toDelete: nat, done: nat, skipped: nat)
      requires |answers| == |targets|
      modifies this
      ensures Sweep(source, deleted, toDelete, done, skipped)
        == SweepAll(Sweep(old(source), old(deleted), 0, 0, 0), dest, targets, answers, apply)
    {
      toDelete, done, skipped := 0, 0, 0;
      ghost var was := Sweep(source, deleted, 0, 0, 0);
      for i := 0 to |targets|
        invariant Sweep(source, deleted, toDelete, done, skipped)
          == SweepAll(was, dest, targets[..i], answers[..i], apply)
      {
        assert targets[..i + 1][..i] == targets[..i] && answers[..i + 1][..i] == answers[..i];
        var e := targets[i];
        if e in deleted { continue; }
        if answers[i].verifyFails { skipped := skipped + 1; continue; }
        if e !in dest { skipped := skipped + 1; continue; }
        toDelete := toDelete + 1;
        if !apply { continue; }
        if answers[i].destroyFails {
          skipped := skipped + 1;
        } else {
          source := source - {e};
          deleted := deleted + {e};
          done := done + 1;
        }
      }
      assert targets[..|targets|] == targets && answers[..|answers|] == answers;
    }
  }
}
