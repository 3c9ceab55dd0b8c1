// What a cancelled context leaves behind inside a team-lead. A task that is cancelled while it is
// queued stores no outcome, so its group goes on as if it had not failed; and a release that runs
// on the cancelled context may never reach the governor.
module ApplyAbandoned {
  import opened ApplyDomain
  import opened Options
  import opened ApplyRun
  import opened ApplyInvariants
  import opened ApplySafety
  import opened ApplyLiveness
  import opened ApplyCancelled
  import opened Sums
  import Graphs

  /** A board that can be run to the end: known dependencies, no cycle, room in the governor. */
  ghost predicate Runnable(c: Config) {
    WellFormed(c) && KnownDeps(c) && Graphs.Acyclic(WaitGraph(c)) && RoomForImplements(c)
  }

  // --- on to the end ---

  /** The team-lead is back, or its outcome is published already. */
  predicate Concluded(r: GroupRun, o: Outcome) {
    match r.pc
    case Leaving(x) => x == o && r.sent == []
    case Reporting(x) => x == o && r.sent == []
    case Closing => r.sent == [o.failed] && r.result == Some(o)
    case Finished => r.sent == [o.failed] && r.result == Some(o)
    case _ => false
  }

  /** From then on the group only publishes. */
  predicate SameEnd(r: GroupRun, r': GroupRun, o: Outcome) {
    Concluded(r, o) ==> Concluded(r', o) && r'.tasks == r.tasks && r'.status == r.status
  }

  lemma GroupConcludes(c: Config, r: GroupRun, a: Action, token: bool, o: Outcome)
    requires Ready(r, a)
    ensures SameEnd(r, GroupAfter(c, r, a, token), o)
  {
  }

  lemma StepConcludes(c: Config, s: State, a: Action, g: nat, o: Outcome)
    requires Enabled(c, s, a) && g < |s.gs|
    ensures g < |Next(c, s, a).gs| && SameEnd(s.gs[g], Next(c, s, a).gs[g], o) && s.leaked <= Next(c, s, a).leaked
  {
    if !a.Cancel? && a.g == g {
      GroupConcludes(c, s.gs[g], a, Token(s, a), o);
    }
  }

  /** From every reachable state a run goes on until every group has finished. */
  lemma {:induction false} CanFinish(c: Config, s: State, g: nat, o: Outcome) returns (t: State)
    requires Runnable(c) && Reachable(c, s) && g < |s.gs|
    ensures Reachable(c, t) && AllFinished(t) && g < |t.gs| && SameEnd(s.gs[g], t.gs[g], o) && s.leaked <= t.leaked
    decreases Measure(s)
  {
    if AllFinished(s) {
      t := s;
    } else {
      NoDeadlock(c, s);
      var a :| Enabled(c, s, a) && Ordinary(s, a);
      ReachableInv(c, s);
      StepFalls(c, s, a);
      StepReachable(c, s, a);
      StepConcludes(c, s, a, g, o);
      t := CanFinish(c, Next(c, s, a), g, o);
    }
  }

  // --- up to a running team-lead ---

  ghost predicate Calm(c: Config, s: State) {
    Reachable(c, s) && !s.cancelled
  }

  /** The same action, with a success for an answer. */
  function Kindly(a: Action): Action {
    if !a.TaskStep? then a
    else if a.act.Reply? then a.(act := Reply(Ok, false))
    else if a.act.FallbackReply? then a.(act := FallbackReply(true))
    else a
  }

  predicate Smooth(a: Action) {
    !a.WaitFails? && !a.DropGroup? && !a.RefuseLead? && !a.Cancel?
    && (a.TaskStep? ==> !a.act.Abandon? && !a.act.ClaimFails? && !a.act.Refuse?)
  }

  lemma KindlyEnabled(c: Config, s: State, a: Action)
    requires Inv(c, s) && KnownDeps(c) && !s.cancelled && Enabled(c, s, a) && Ordinary(s, a)
    ensures Enabled(c, s, Kindly(a)) && Smooth(Kindly(a)) && !Next(c, s, Kindly(a)).cancelled
  {
  }

  /** An undisturbed run can go on undisturbed. */
  lemma CalmStep(c: Config, s: State) returns (a: Action)
    requires Runnable(c) && Calm(c, s) && !AllFinished(s)
    ensures Enabled(c, s, a) && Smooth(a) && Calm(c, Next(c, s, a)) && Measure(Next(c, s, a)) < Measure(s)
  {
    NoDeadlock(c, s);
    var b :| Enabled(c, s, b) && Ordinary(s, b);
    ReachableInv(c, s);
    KindlyEnabled(c, s, b);
    a := Kindly(b);
    StepFalls(c, s, a);
    StepReachable(c, s, a);
  }

  predicate BeforeLead(r: GroupRun) {
    r.pc.Waiting? || r.pc.Republishing? || r.pc.WantsGroup? || r.pc.WantsLead?
  }

  /** The team-lead has just started. */
  predicate JustLeading(spec: GroupSpec, r: GroupRun) {
    r.pc.Leading? && r.tasks == InitTasks(spec.tasks) && r.build == spec.build && r.sent == []
  }

  /** The group holds its team-lead's slot; if it was pending, its tasks are about to begin. */
  predicate AtLead(spec: GroupSpec, r: GroupRun) {
    HoldsLead(r) && (spec.status == GroupPending ==> JustLeading(spec, r))
  }

  lemma StepTowardsLead(c: Config, s: State, a: Action, g: nat)
    requires Inv(c, s) && Enabled(c, s, a) && Smooth(a) && g < |c.groups| && BeforeLead(s.gs[g])
    ensures g < |Next(c, s, a).gs| && (BeforeLead(Next(c, s, a).gs[g]) || AtLead(c.groups[g], Next(c, s, a).gs[g]))
  {
    assert Local(c.groups[g], s.gs[g], s.cancelled, s.faulted);
  }

  lemma {:induction false} ReachesLead(c: Config, s: State, g: nat) returns (t: State)
    requires Runnable(c) && Calm(c, s) && g < |c.groups| && g < |s.gs| && BeforeLead(s.gs[g])
    ensures Calm(c, t) && g < |t.gs| && AtLead(c.groups[g], t.gs[g])
    decreases Measure(s)
  {
    var a := CalmStep(c, s);
    ReachableInv(c, s);
    StepTowardsLead(c, s, a, g);
    t := Next(c, s, a);
    if BeforeLead(t.gs[g]) {
      t := ReachesLead(c, t, g);
    }
  }

  /** Every group of such a board that is not completed can have its team-lead, with nothing cancelled. */
  lemma CanLead(c: Config, g: nat) returns (s: State)
    requires Runnable(c) && g < |c.groups| && c.groups[g].status != GroupCompleted
    ensures Calm(c, s) && g < |s.gs| && AtLead(c.groups[g], s.gs[g])
  {
    InitReachable(c);
    s := ReachesLead(c, ApplyRun.Init(c), g);
  }

  // --- all tasks abandoned ---

  /** The first k tasks of g have left their queue. */
  function Abandoning(tasks: seq<TaskRun>, k: nat): (r: seq<TaskRun>)
    requires k <= |tasks|
    ensures |r| == |tasks|
    ensures forall i :: 0 <= i < |tasks| ==> r[i] == if i < k then tasks[i].(pc := Abandoned) else tasks[i]
  {
    seq(|tasks|, i requires 0 <= i < |tasks| => if i < k then tasks[i].(pc := Abandoned) else tasks[i])
  }

  function WithTasks(s: State, g: nat, tasks: seq<TaskRun>): State
    requires g < |s.gs|
  {
    s.(gs := s.gs[g := s.gs[g].(tasks := tasks)])
  }

  lemma WithTasksTwice(s: State, g: nat, before: seq<TaskRun>, after: seq<TaskRun>)
    requires g < |s.gs|
    ensures WithTasks(WithTasks(s, g, before), g, after) == WithTasks(s, g, after)
  {
  }

  lemma AbandonOne(c: Config, s: State, g: nat, t: nat)
    requires Reachable(c, s) && s.cancelled && g < |s.gs| && s.gs[g].pc.Leading? && t < |s.gs[g].tasks|
    requires s.gs[g].tasks[t].pc.Queued?
    ensures Reachable(c, WithTasks(s, g, s.gs[g].tasks[t := s.gs[g].tasks[t].(pc := Abandoned)]))
  {
    StepReachable(c, s, TaskStep(g, t, Abandon));
    assert Next(c, s, TaskStep(g, t, Abandon)) == WithTasks(s, g, s.gs[g].tasks[t := s.gs[g].tasks[t].(pc := Abandoned)]);
  }

  lemma {:induction false} AbandonTasks(c: Config, s: State, g: nat, k: nat)
    requires Reachable(c, s) && s.cancelled && g < |s.gs| && s.gs[g].pc.Leading? && k <= |s.gs[g].tasks|
    requires forall t :: 0 <= t < |s.gs[g].tasks| ==> s.gs[g].tasks[t].pc.Queued?
    ensures Reachable(c, WithTasks(s, g, Abandoning(s.gs[g].tasks, k)))
  {
    var ts := s.gs[g].tasks;
    if k == 0 {
      assert Abandoning(ts, 0) == ts;
      assert WithTasks(s, g, ts) == s;
    } else {
      AbandonTasks(c, s, g, k - 1);
      AbandonOne(c, WithTasks(s, g, Abandoning(ts, k - 1)), g, k - 1);
      WithTasksTwice(s, g, Abandoning(ts, k - 1), Abandoning(ts, k));
      assert Abandoning(ts, k - 1)[k - 1 := Abandoning(ts, k - 1)[k - 1].(pc := Abandoned)] == Abandoning(ts, k);
    }
  }

  /** The team-lead of g is back with success, having done nothing. */
  predicate EmptySuccess(spec: GroupSpec, r: GroupRun) {
    && r.status == GroupCompleted && |r.tasks| == |spec.tasks|
    && forall t :: 0 <= t < |r.tasks| ==> r.tasks[t] == TaskRun(Abandoned, spec.tasks[t])
  }

  lemma AbandonedLeaves(c: Config, s: State, g: nat) returns (t: State)
    requires Reachable(c, s) && s.cancelled && g < |s.gs| && g < |c.groups| && JustLeading(c.groups[g], s.gs[g])
    requires c.groups[g].build == BuildPending
    ensures Reachable(c, t) && t.cancelled && g < |t.gs| && t.gs[g].pc == Leaving(Outcome(false, 0)) && t.gs[g].sent == []
    ensures EmptySuccess(c.groups[g], t.gs[g])
  {
    var ts := s.gs[g].tasks;
    AbandonTasks(c, s, g, |ts|);
    var s1 := WithTasks(s, g, Abandoning(ts, |ts|));
    StepReachable(c, s1, Join(g));
    var s2 := Next(c, s1, Join(g));
    StepReachable(c, s2, NoManifest(g));
    t := Next(c, s2, NoManifest(g));
    SumZero(s2.gs[g].tasks, OkWeight);
  }

  /** A caller's cancellation right after the team-lead of any pending group has started: the run can end
      with that group completed, its success signalled to those who wait for it and none of its tasks
      begun; and, if the release is lost as well, with the governor's counter above where it was. */
  lemma AbandonedGroupSucceeds(c: Config, g: nat, lost: bool) returns (t: State)
    requires Runnable(c) && c.cancellable && g < |c.groups|
    requires c.groups[g].status == GroupPending && c.groups[g].build == BuildPending
    ensures Reachable(c, t) && AllFinished(t) && g < |t.gs|
    ensures t.gs[g].sent == [false] && t.gs[g].result == Some(Outcome(false, 0)) && EmptySuccess(c.groups[g], t.gs[g])
    ensures lost ==> t.active > c.otherSlots
  {
    var s := CanLead(c, g);
    StepReachable(c, s, Cancel);
    var s1 := AbandonedLeaves(c, Next(c, s, Cancel), g);
    StepReachable(c, s1, ReleaseLead(g, lost));
    var s2 := Next(c, s1, ReleaseLead(g, lost));
    t := CanFinish(c, s2, g, Outcome(false, 0));
    SlotsReturned(c, t);
  }

  // --- a refused claim ---

  predicate Stays(r: GroupRun, t: nat, task: TaskRun) {
    t < |r.tasks| && r.tasks[t] == task
  }

  lemma GroupKeepsSettled(c: Config, r: GroupRun, a: Action, token: bool, t: nat, task: TaskRun)
    requires Ready(r, a) && Stays(r, t, task) && Settled(task)
    ensures Stays(GroupAfter(c, r, a, token), t, task)
  {
  }

  lemma StepKeepsSettled(c: Config, s: State, a: Action, g: nat, t: nat, task: TaskRun)
    requires Enabled(c, s, a) && g < |s.gs| && Stays(s.gs[g], t, task) && Settled(task)
    ensures g < |Next(c, s, a).gs| && Stays(Next(c, s, a).gs[g], t, task)
  {
    if !a.Cancel? && a.g == g {
      GroupKeepsSettled(c, s.gs[g], a, Token(s, a), t, task);
    }
  }

  lemma {:induction false} FinishesWith(c: Config, s: State, g: nat, t: nat, task: TaskRun) returns (s': State)
    requires Runnable(c) && Reachable(c, s) && g < |s.gs| && Stays(s.gs[g], t, task) && Settled(task)
    ensures Reachable(c, s') && AllFinished(s') && g < |s'.gs| && Stays(s'.gs[g], t, task)
    decreases Measure(s)
  {
    if AllFinished(s) {
      s' := s;
    } else {
      NoDeadlock(c, s);
      var a :| Enabled(c, s, a) && Ordinary(s, a);
      ReachableInv(c, s);
      StepFalls(c, s, a);
      StepReachable(c, s, a);
      StepKeepsSettled(c, s, a, g, t, task);
      s' := FinishesWith(c, Next(c, s, a), g, t, task);
    }
  }

  /** A claim that somebody else won costs the whole group: the task is left as it was stored, and the
      group reports failure, with nothing cancelled by the caller. */
  lemma RefusedClaimFailsGroup(c: Config, g: nat, t: nat) returns (s: State)
    requires Runnable(c) && g < |c.groups| && t < |c.groups[g].tasks|
    requires c.groups[g].status == GroupPending && c.groups[g].tasks[t].status == TaskPending
    ensures Reachable(c, s) && AllFinished(s) && g < |s.gs| && t < |s.gs[g].tasks| && s.gs[g].tasks[t].task == c.groups[g].tasks[t]
    ensures s.gs[g].sent == [true] && s.gs[g].status == GroupFailed
  {
    var s0 := CanLead(c, g);
    var refused := TaskStep(g, t, ClaimFails);
    SumZero(s0.gs[g].tasks, ImplWeight);
    StepReachable(c, s0, refused);
    s := FinishesWith(c, Next(c, s0, refused), g, t, TaskRun(Returned(false), c.groups[g].tasks[t]));
    ReachableInv(c, s);
    assert Local(c.groups[g], s.gs[g], s.cancelled, s.faulted);
  }
}
