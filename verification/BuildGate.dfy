// The group aggregate and its build gate: detect a manifest, build, repair, build again.
module BuildGate {
  import opened ApplyDomain
  import opened ApplyRun
  import opened Sums

  class Group {
    var status: GroupStatus
    var build: BuildStatus
    var buildAttempts: nat

    constructor (s: GroupStatus, b: BuildStatus, n: nat)
      ensures status == s && build == b && buildAttempts == n
    {
      status := s;
      build := b;
      buildAttempts := n;
    }

    method Start() returns (ok: bool)
      modifies this`status
      ensures ok <==> old(status) == GroupPending
      ensures status == if ok then GroupRunning else old(status)
    {
      ok := status == GroupPending;
      if ok {
        status := GroupRunning;
      }
    }

    method Complete() returns (ok: bool)
      modifies this`status
      ensures ok <==> old(status) == GroupRunning
      ensures status == if ok then GroupCompleted else old(status)
    {
      ok := status == GroupRunning;
      if ok {
        status := GroupCompleted;
      }
    }

    method Fail() returns (ok: bool)
      modifies this`status
      ensures ok <==> old(status) != GroupCompleted && old(status) != GroupFailed
      ensures status == if ok then GroupFailed else old(status)
    {
      ok := status != GroupCompleted && status != GroupFailed;
      if ok {
        status := GroupFailed;
      }
    }

    method SkipBuild() returns (ok: bool)
      modifies this`build
      ensures ok <==> old(build) == BuildPending
      ensures build == if ok then BuildSkipped else old(build)
    {
      ok := build == BuildPending;
      if ok {
        build := BuildSkipped;
      }
    }

    method RecordBuildAttempt(success: bool) returns (exhausted: bool)
      modifies this`build, this`buildAttempts
      ensures buildAttempts == old(buildAttempts) + 1
      ensures exhausted <==> !success && buildAttempts >= 3
      ensures build == if success then BuildPassed else if exhausted then BuildFailed else old(build)
    {
      buildAttempts := buildAttempts + 1;
      if success {
        build := BuildPassed;
        return false;
      }
      if buildAttempts >= MAX_ATTEMPTS {
        build := BuildFailed;
        return true;
      }
      return false;
    }
  }

  /** Builds left before the budget is spent; even a spent budget gets one more build. */
  function Budget(attempts: nat): nat {
    if attempts < 3 then 3 - attempts else 1
  }

  // --- the same group as a goroutine of the interleaved machine ---

  predicate Moved(c: Config, r: GroupRun, a: Action, r': GroupRun) {
    Ready(r, a) && r' == GroupAfter(c, r, a, false)
  }

  /** A walk of one group goroutine through the steps of the interleaved machine. */
  ghost predicate GroupWalk(c: Config, rs: seq<GroupRun>, acts: seq<Action>) {
    |rs| == |acts| + 1 &&
    forall i, j :: 0 <= i < j < |rs| && j == i + 1 ==> Moved(c, rs[i], acts[i], rs[j])
  }

  ghost predicate Walks(c: Config, from: GroupRun, to: GroupRun) {
    exists rs, acts :: GroupWalk(c, rs, acts) && rs[0] == from && rs[|acts|] == to
  }

  lemma WalksNowhere(c: Config, r: GroupRun)
    ensures Walks(c, r, r)
  {
    assert GroupWalk(c, [r], []);
  }

  lemma WalksOneMore(c: Config, from: GroupRun, r: GroupRun, a: Action)
    requires Walks(c, from, r) && Ready(r, a)
    ensures Walks(c, from, GroupAfter(c, r, a, false))
  {
    var rs, acts :| GroupWalk(c, rs, acts) && rs[0] == from && rs[|acts|] == r;
    var rs', acts' := rs + [GroupAfter(c, r, a, false)], acts + [a];
    forall i, j | 0 <= i < j < |rs'| && j == i + 1 ensures Moved(c, rs'[i], acts'[i], rs'[j]) {
      if j < |rs| {
        assert Moved(c, rs[i], acts[i], rs[j]);
      }
    }
    assert GroupWalk(c, rs', acts');
  }

  /** The machine's group once its gate is decided. */
  function Decided(r: GroupRun, ok: bool, build: BuildStatus, attempts: nat): GroupRun {
    r.(pc := Leaving(Outcome(!ok, TasksDone(r))), build := build, buildAttempts := attempts,
       status := if ok then GroupCompleted else GroupFailed)
  }

  lemma WalksDetect(c: Config, from: GroupRun, r: GroupRun)
    requires Walks(c, from, r) && r.pc.Detecting?
    ensures Walks(c, from, r.(pc := Building))
    ensures var ok := r.build == BuildPending;
            Walks(c, from, Decided(r, ok, if ok then BuildSkipped else r.build, r.buildAttempts))
  {
    WalksOneMore(c, from, r, NoManifest(0));
    WalksOneMore(c, from, r, Manifest(0));
  }

  lemma WalksBuild(c: Config, from: GroupRun, r: GroupRun, n: nat, ok: bool)
    requires Walks(c, from, r.(pc := Building, buildAttempts := n))
    ensures ok ==> Walks(c, from, Decided(r, true, BuildPassed, n + 1))
    ensures !ok && n + 1 >= MAX_ATTEMPTS ==> Walks(c, from, Decided(r, false, BuildFailed, n + 1))
    ensures !ok && n + 1 < MAX_ATTEMPTS ==> Walks(c, from, r.(pc := Building, buildAttempts := n + 1))
  {
    WalksOneMore(c, from, r.(pc := Building, buildAttempts := n), Action.Build(0, ok));
  }

  // --- the operations ---

  /** Build, repair, build again: until a build exits 0 or the budget is spent. */
  method BuildUntilDecided(group: Group, exitCode: nat -> int, ghost c: Config, ghost from: GroupRun, ghost r: GroupRun)
      returns (ok: bool, builds: nat, repairs: nat)
    requires Walks(c, from, r.(pc := Building, buildAttempts := group.buildAttempts))
    modifies group`build, group`buildAttempts
    ensures 1 <= builds <= Budget(old(group.buildAttempts)) && repairs == builds - 1
    ensures forall i :: 0 <= i < builds - 1 ==> exitCode(i) != 0
    ensures if ok then exitCode(builds - 1) == 0 else builds == Budget(old(group.buildAttempts)) && exitCode(builds - 1) != 0
    ensures group.build == (if ok then BuildPassed else BuildFailed)
    ensures group.buildAttempts == old(group.buildAttempts) + builds
    ensures Walks(c, from, Decided(r, ok, group.build, group.buildAttempts))
  {
    builds, repairs := 0, 0;
    ghost var budget := Budget(group.buildAttempts);
    while true
      invariant repairs == builds < budget
      invariant group.buildAttempts == old(group.buildAttempts) + builds
      invariant forall i :: 0 <= i < builds ==> exitCode(i) != 0
      invariant Walks(c, from, r.(pc := Building, buildAttempts := group.buildAttempts))
      decreases budget - builds
    {
      var passed := exitCode(builds) == 0;
      WalksBuild(c, from, r, group.buildAttempts, passed);
      var exhausted := group.RecordBuildAttempt(passed);
      builds := builds + 1;
      if passed {
        return true, builds, repairs;
      }
      if exhausted {
        return false, builds, repairs;
      }
      repairs := repairs + 1;
    }
  }

  /** runGroupBuildFeedbackLoop. exitCode(i) is the i-th build's exit code, -1 for a runtime error.
      The gate opens iff no manifest was found and nothing was decided before, or some build within
      the budget exits 0; a repair is dispatched after every failed build but the last. */
  method RunGroupBuildFeedbackLoop(group: Group, found: bool, exitCode: nat -> int,
                                   ghost c: Config, ghost from: GroupRun, ghost r: GroupRun)
      returns (ok: bool, builds: nat, repairs: nat)
    requires Walks(c, from, r) && r.pc.Detecting? && r.build == group.build && r.buildAttempts == group.buildAttempts
    modifies group`build, group`buildAttempts
    ensures !found ==> builds == repairs == 0 && group.buildAttempts == old(group.buildAttempts)
    ensures !found ==> (ok <==> old(group.build) == BuildPending)
    ensures !found ==> group.build == if ok then BuildSkipped else old(group.build)
    ensures found ==> 1 <= builds <= Budget(old(group.buildAttempts)) && repairs == builds - 1
    ensures found ==> forall i :: 0 <= i < builds - 1 ==> exitCode(i) != 0
    ensures found ==> if ok then exitCode(builds - 1) == 0
                      else builds == Budget(old(group.buildAttempts)) && exitCode(builds - 1) != 0
    ensures found ==> group.build == (if ok then BuildPassed else BuildFailed)
    ensures found ==> group.buildAttempts == old(group.buildAttempts) + builds
    // the goroutine of the interleaved machine can do the same
    ensures Walks(c, from, Decided(r, ok, group.build, group.buildAttempts))
  {
    builds, repairs := 0, 0;
    WalksDetect(c, from, r);
    if !found {
      ok := group.SkipBuild();
      return;
    }
    ok, builds, repairs := BuildUntilDecided(group, exitCode, c, from, r);
  }

  /** The aggregation after wg.Wait: an abandoned task stored no outcome. */
  method Aggregate(tasks: seq<TaskRun>) returns (done: nat, hadFailure: bool)
    ensures done == Sum(tasks, OkWeight)
    ensures hadFailure <==> exists t :: 0 <= t < |tasks| && tasks[t].pc == Returned(false)
  {
    done, hadFailure := 0, false;
    for i := 0 to |tasks|
      invariant done + Sum(tasks[i..], OkWeight) == Sum(tasks, OkWeight)
      invariant hadFailure <==> exists t :: 0 <= t < i && tasks[t].pc == Returned(false)
    {
      assert tasks[i..][1..] == tasks[i + 1..];
      if tasks[i].pc.Returned? {
        if tasks[i].pc.ok {
          done := done + 1;
        } else {
          hadFailure := true;
        }
      }
    }
  }

  /** The machine's group as its team-lead finds it: the semaphore taken, then its own slot. */
  ghost predicate AtLead(r: GroupRun, group: Group)
    reads group
  {
    r.pc.WantsLead? && r.status == group.status && r.build == group.build && r.buildAttempts == group.buildAttempts
  }

  /** runTeamLead around its task goroutines, which leave `tasks`. A group that is not pending is
      refused untouched. Otherwise the stored group and the outcome are those of the machine's
      group goroutine when it joins on the same tasks: failed if a task failed or the gate stayed
      shut, completed if not. */
  method RunTeamLead(group: Group, tasks: seq<TaskRun>, found: bool, exitCode: nat -> int, ghost c: Config, ghost r: GroupRun)
      returns (outcome: Outcome)
    requires AtLead(r, group) && forall t :: 0 <= t < |tasks| ==> Settled(tasks[t])
    modifies group
    ensures old(group.status) != GroupPending ==>
              && outcome == Outcome(true, 0) && unchanged(group)
              && GroupAfter(c, r, TakeLead(0), false).pc == Leaving(outcome)
    ensures old(group.status) == GroupPending ==>
              Walks(c, GroupAfter(c, r, TakeLead(0), false).(tasks := tasks),
                    r.(pc := Leaving(outcome), entered := r.entered + 1, tasks := tasks,
                       status := group.status, build := group.build, buildAttempts := group.buildAttempts))
    ensures old(group.status) == GroupPending ==>
              group.status == (if outcome.failed then GroupFailed else GroupCompleted) && outcome.tasksDone == Sum(tasks, OkWeight)
    ensures !outcome.failed ==> group.build == BuildPassed || group.build == BuildSkipped
  {
    var started := group.Start();
    if !started {
      return Outcome(true, 0);
    }
    ghost var leading := GroupAfter(c, r, TakeLead(0), false).(tasks := tasks);
    WalksNowhere(c, leading);
    var done, hadFailure := Aggregate(tasks);
    WalksOneMore(c, leading, leading, Join(0));
    if hadFailure {
      var _ := group.Fail();
      return Outcome(true, done);
    }
    var ok, builds, repairs := RunGroupBuildFeedbackLoop(group, found, exitCode, c, leading, leading.(pc := Detecting));
    if ok {
      var _ := group.Complete();
    } else {
      var _ := group.Fail();
    }
    outcome := Outcome(!ok, done);
  }
}
