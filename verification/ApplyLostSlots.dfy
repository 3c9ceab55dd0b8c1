// Exactly when a finished Execute has given every slot back. A release is lost only on a cancelled
// context, and the context is cancelled by the caller or by the quota breaker.
module ApplyLostSlots {
  import opened ApplyDomain
  import opened Options
  import opened ApplyRun
  import opened ApplyInvariants
  import opened ApplySafety
  import opened ApplyLiveness
  import opened ApplyAbandoned
  import opened Sums
  import Graphs

  // --- tasks that may still stop on quota ---

  function PendingTask(t: TaskState): nat { if t.status == TaskPending then 1 else 0 }

  /** Tasks of a group that Execute will dispatch. */
  function PendingTasks(g: GroupSpec): nat { if g.status == GroupPending then Sum(g.tasks, PendingTask) else 0 }

  function AllPending(c: Config): nat { Sum(c.groups, PendingTasks) }

  /** A task that has yet to end, and may end on quota. */
  function OpenTask(t: TaskRun): nat {
    if (t.pc.Queued? && t.task.status == TaskPending) || HoldsImpl(t) then 1 else 0
  }

  /** The group has yet to run its tasks, or does so now. */
  predicate OpenGroup(r: GroupRun) {
    r.pc.Leading? || (r.status == GroupPending && BeforeLead(r))
  }

  function OpenTasks(r: GroupRun): nat { if OpenGroup(r) then Sum(r.tasks, OpenTask) else 0 }

  function AllOpen(s: State): nat { Sum(s.gs, OpenTasks) }

  lemma {:induction false} InitOpenTasks(ts: seq<TaskState>)
    ensures Sum(InitTasks(ts), OpenTask) == Sum(ts, PendingTask)
  {
    if ts != [] {
      InitOpenTasks(ts[1..]);
      assert InitTasks(ts)[1..] == InitTasks(ts[1..]);
    }
  }

  lemma {:induction false} InitOpen(gs: seq<GroupSpec>, rs: seq<GroupRun>)
    requires |rs| == |gs| && forall i :: 0 <= i < |gs| ==> rs[i] == InitGroup(gs[i])
    ensures Sum(rs, OpenTasks) == Sum(gs, PendingTasks)
  {
    if gs != [] {
      InitOpenTasks(gs[0].tasks);
      InitOpen(gs[1..], rs[1..]);
    }
  }

  // --- the breaker never trips while fewer tasks are pending than it counts ---

  /** An answer that the breaker counts, and the tasks it leaves open. */
  lemma OpenAfterTask(c: Config, t: TaskRun, act: TaskAction)
    requires TaskReady(t, act)
    ensures OpenTask(TaskAfter(c, t, act)) <= OpenTask(t)
    ensures (act.Reply? && act.reply == Quota && !c.fallback) || (act.FallbackReply? && !act.ok) ==>
              OpenTask(TaskAfter(c, t, act)) + 1 == OpenTask(t)
  {
  }

  lemma OpenAfterGroup(c: Config, spec: GroupSpec, r: GroupRun, a: Action, token: bool, cancelled: bool, faulted: bool)
    requires Ready(r, a) && !a.Cancel? && Local(spec, r, cancelled, faulted)
    ensures !a.TaskStep? ==> OpenTasks(GroupAfter(c, r, a, token)) <= OpenTasks(r)
    ensures a.TaskStep? ==>
              OpenTasks(GroupAfter(c, r, a, token)) + OpenTask(r.tasks[a.t]) == OpenTasks(r) + OpenTask(TaskAfter(c, r.tasks[a.t], a.act))
  {
    if a.TaskStep? {
      SumUpdate(r.tasks, a.t, TaskAfter(c, r.tasks[a.t], a.act), OpenTask);
    }
  }

  /** The quotas counted and those still to come are at most n. */
  predicate Within(s: State, n: nat) {
    !s.breaker.tripped && s.breaker.streak + AllOpen(s) <= n
  }

  lemma StepKeepsBudget(c: Config, s: State, a: Action, n: nat)
    requires Inv(c, s) && Enabled(c, s, a) && Within(s, n) && n < c.threshold
    ensures Within(Next(c, s, a), n)
  {
    if !a.Cancel? {
      var r := s.gs[a.g];
      var r' := GroupAfter(c, r, a, Token(s, a));
      OpenAfterGroup(c, c.groups[a.g], r, a, Token(s, a), s.cancelled, s.faulted);
      SumUpdate(s.gs, a.g, r', OpenTasks);
      if a.TaskStep? {
        OpenAfterTask(c, r.tasks[a.t], a.act);
      }
    }
  }

  lemma AnyStepKeepsBudget(c: Config, s: State, s': State, n: nat)
    requires Inv(c, s) && Step(c, s, s') && Within(s, n) && n < c.threshold
    ensures Within(s', n)
  {
    var a :| Enabled(c, s, a) && s' == Next(c, s, a);
    StepKeepsBudget(c, s, a, n);
  }

  lemma InitWithin(c: Config)
    ensures Within(ApplyRun.Init(c), AllPending(c)) && AllOpen(ApplyRun.Init(c)) == AllPending(c)
  {
    InitOpen(c.groups, ApplyRun.Init(c).gs);
  }

  lemma {:induction false} RunKeepsBudget(c: Config, run: seq<State>, k: nat)
    requires WellFormed(c) && AllPending(c) < c.threshold && IsRun(c, run) && k < |run|
    ensures Within(run[k], AllPending(c))
  {
    if k == 0 {
      InitWithin(c);
    } else {
      RunKeepsBudget(c, run, k - 1);
      RunInv(c, run, k - 1);
      AnyStepKeepsBudget(c, run[k - 1], run[k], AllPending(c));
    }
  }

  /** With fewer pending tasks than the threshold the breaker never trips, in any run. */
  lemma TooFewToTrip(c: Config, s: State)
    requires WellFormed(c) && AllPending(c) < c.threshold && Reachable(c, s)
    ensures !s.breaker.tripped
  {
    var run :| IsRun(c, run) && run[|run| - 1] == s;
    RunKeepsBudget(c, run, |run| - 1);
  }

  // --- and trips in some run otherwise ---

  /** The same action, with a quota error for an answer. */
  function Unkindly(a: Action): Action {
    if !a.TaskStep? then a
    else if a.act.Reply? then a.(act := Reply(Quota, false))
    else if a.act.FallbackReply? then a.(act := FallbackReply(false))
    else a
  }

  predicate Harsh(a: Action) {
    a.TaskStep? ==> (a.act.Reply? ==> a.act.reply == Quota) && (a.act.FallbackReply? ==> !a.act.ok)
  }

  lemma UnkindlyEnabled(c: Config, s: State, a: Action)
    requires Inv(c, s) && !s.cancelled && Enabled(c, s, a) && Smooth(Kindly(a))
    ensures Enabled(c, s, Unkindly(a)) && Smooth(Unkindly(a)) && Harsh(Unkindly(a))
  {
  }

  lemma HarshStep(c: Config, s: State) returns (a: Action)
    requires Runnable(c) && Calm(c, s) && !AllFinished(s)
    ensures Enabled(c, s, a) && Smooth(a) && Harsh(a) && Reachable(c, Next(c, s, a)) && Measure(Next(c, s, a)) < Measure(s)
  {
    NoDeadlock(c, s);
    var b :| Enabled(c, s, b) && Ordinary(s, b);
    ReachableInv(c, s);
    KindlyEnabled(c, s, b);
    UnkindlyEnabled(c, s, b);
    a := Unkindly(b);
    StepFalls(c, s, a);
    StepReachable(c, s, a);
  }

  /** A task that a smooth, harsh run has ended was counted by the breaker or was not pending. */
  lemma HarshTask(c: Config, t: TaskRun, act: TaskAction, b: Breaker)
    requires TaskReady(t, act) && Harsh(TaskStep(0, 0, act)) && Smooth(TaskStep(0, 0, act)) && !b.tripped
    ensures var b' := BreakerAfter(c, b, TaskStep(0, 0, act));
            b'.streak + OpenTask(TaskAfter(c, t, act)) == b.streak + OpenTask(t)
  {
  }

  lemma HarshGroup(c: Config, spec: GroupSpec, r: GroupRun, a: Action, token: bool, cancelled: bool, faulted: bool)
    requires Ready(r, a) && Smooth(a) && !a.TaskStep? && Local(spec, r, cancelled, faulted)
    ensures OpenTasks(GroupAfter(c, r, a, token)) == OpenTasks(r)
  {
    if a.Join? {
      SumZero(r.tasks, OpenTask);
    }
  }

  /** What one step adds to the streak it takes from the open tasks. */
  lemma HarshMove(c: Config, spec: GroupSpec, r: GroupRun, a: Action, token: bool, b: Breaker, cancelled: bool, faulted: bool)
    requires Ready(r, a) && Smooth(a) && Harsh(a) && Local(spec, r, cancelled, faulted) && !b.tripped
    ensures BreakerAfter(c, b, a).streak + OpenTasks(GroupAfter(c, r, a, token)) == b.streak + OpenTasks(r)
  {
    if a.TaskStep? {
      OpenAfterGroup(c, spec, r, a, token, cancelled, faulted);
      HarshTask(c, r.tasks[a.t], a.act, b);
    } else {
      HarshGroup(c, spec, r, a, token, cancelled, faulted);
    }
  }

  lemma HarshStepCounts(c: Config, s: State, a: Action)
    requires Inv(c, s) && Enabled(c, s, a) && Smooth(a) && Harsh(a) && !s.breaker.tripped
    ensures Next(c, s, a).breaker.streak + AllOpen(Next(c, s, a)) == s.breaker.streak + AllOpen(s)
  {
    HarshMove(c, c.groups[a.g], s.gs[a.g], a, Token(s, a), s.breaker, s.cancelled, s.faulted);
    SumUpdate(s.gs, a.g, GroupAfter(c, s.gs[a.g], a, Token(s, a)), OpenTasks);
  }

  /** The breaker has tripped while a team-lead holds its slot. */
  lemma {:induction false} Trips(c: Config, s: State) returns (t: State, g: nat)
    requires Runnable(c) && Calm(c, s) && s.breaker.streak + AllOpen(s) >= c.threshold
    ensures Reachable(c, t) && t.cancelled && g < |t.gs| && HoldsLead(t.gs[g])
    decreases Measure(s)
  {
    ReachableInv(c, s);
    if AllFinished(s) {
      SumZero(s.gs, OpenTasks);
      assert false;
    } else {
      var a := HarshStep(c, s);
      HarshStepCounts(c, s, a);
      t, g := Next(c, s, a), a.g;
      if !t.cancelled {
        t, g := Trips(c, t);
      }
    }
  }

  // --- a lost release ---

  lemma StepTowardsLeaving(c: Config, s: State, a: Action, g: nat)
    requires Enabled(c, s, a) && s.cancelled && g < |s.gs| && HoldsLead(s.gs[g]) && !s.gs[g].pc.Leaving?
    ensures var s' := Next(c, s, a); s'.cancelled && g < |s'.gs| && HoldsLead(s'.gs[g])
  {
  }

  lemma {:induction false} ReachesLeaving(c: Config, s: State, g: nat) returns (t: State)
    requires Runnable(c) && Reachable(c, s) && s.cancelled && g < |s.gs| && HoldsLead(s.gs[g])
    ensures Reachable(c, t) && t.cancelled && g < |t.gs| && t.gs[g].pc.Leaving? && t.leaked >= s.leaked
    decreases Measure(s)
  {
    if s.gs[g].pc.Leaving? {
      t := s;
    } else {
      NoDeadlock(c, s);
      var a :| Enabled(c, s, a) && Ordinary(s, a);
      ReachableInv(c, s);
      StepFalls(c, s, a);
      StepReachable(c, s, a);
      StepTowardsLeaving(c, s, a, g);
      t := ReachesLeaving(c, Next(c, s, a), g);
    }
  }

  /** Once the context is cancelled under a team-lead, the run can end with one slot more held than before. */
  lemma LosesSlot(c: Config, s: State, g: nat) returns (t: State)
    requires Runnable(c) && Reachable(c, s) && s.cancelled && g < |s.gs| && HoldsLead(s.gs[g])
    ensures Reachable(c, t) && AllFinished(t) && t.active > c.otherSlots + s.leaked
  {
    var s1 := ReachesLeaving(c, s, g);
    StepReachable(c, s1, ReleaseLead(g, true));
    t := CanFinish(c, Next(c, s1, ReleaseLead(g, true)), g, Outcome(true, 0));
    SlotsReturned(c, t);
  }

  /** Both a task's release and its team-lead's can be lost in one run. */
  predicate TowardsDispatch(r: GroupRun, t: nat) {
    (BeforeLead(r) || r.pc.Leading?) && t < |r.tasks| && (r.tasks[t].pc.Queued? || r.tasks[t].pc.WantsSlot?)
  }

  predicate AtDispatch(r: GroupRun, t: nat) {
    r.pc.Leading? && t < |r.tasks| && r.tasks[t].pc.Dispatching?
  }

  lemma StepTowardsDispatch(c: Config, s: State, a: Action, g: nat, t: nat)
    requires Inv(c, s) && Enabled(c, s, a) && Smooth(a) && g < |c.groups| && TowardsDispatch(s.gs[g], t)
    requires c.groups[g].status == GroupPending && t < |c.groups[g].tasks| && c.groups[g].tasks[t].status == TaskPending
    ensures g < |Next(c, s, a).gs| && (TowardsDispatch(Next(c, s, a).gs[g], t) || AtDispatch(Next(c, s, a).gs[g], t))
  {
    assert Local(c.groups[g], s.gs[g], s.cancelled, s.faulted);
  }

  lemma {:induction false} ReachesDispatch(c: Config, s: State, g: nat, t: nat) returns (s': State)
    requires Runnable(c) && Calm(c, s) && g < |c.groups| && g < |s.gs| && TowardsDispatch(s.gs[g], t)
    requires c.groups[g].status == GroupPending && t < |c.groups[g].tasks| && c.groups[g].tasks[t].status == TaskPending
    ensures Calm(c, s') && g < |s'.gs| && AtDispatch(s'.gs[g], t)
    decreases Measure(s)
  {
    var a := CalmStep(c, s);
    ReachableInv(c, s);
    StepTowardsDispatch(c, s, a, g, t);
    s' := Next(c, s, a);
    if !AtDispatch(s'.gs[g], t) {
      s' := ReachesDispatch(c, s', g, t);
    }
  }

  /** A caller's cancellation while a task is dispatched can cost two slots, the task's and its team-lead's. */
  lemma TwoSlotsCanBeLost(c: Config, g: nat, t: nat) returns (s: State)
    requires Runnable(c) && c.cancellable && g < |c.groups| && t < |c.groups[g].tasks|
    requires c.groups[g].status == GroupPending && c.groups[g].tasks[t].status == TaskPending
    ensures Reachable(c, s) && AllFinished(s) && s.active >= c.otherSlots + 2
  {
    InitReachable(c);
    var s0 := ReachesDispatch(c, ApplyRun.Init(c), g, t);
    StepReachable(c, s0, Cancel);
    var s1 := Next(c, s0, Cancel);
    var reply := TaskStep(g, t, Reply(Ok, true));
    StepReachable(c, s1, reply);
    s := LosesSlot(c, Next(c, s1, reply), g);
  }

  // --- the exact condition ---

  predicate AllCompleted(c: Config) {
    forall g :: 0 <= g < |c.groups| ==> c.groups[g].status == GroupCompleted
  }

  predicate NoLoss(s: State) { s.leaked == 0 }

  lemma NothingToLose(c: Config, s: State, s': State)
    requires Inv(c, s) && AllCompleted(c) && Step(c, s, s') && NoLoss(s)
    ensures NoLoss(s')
  {
    var a :| Enabled(c, s, a) && s' == Next(c, s, a);
    if !a.Cancel? {
      assert Local(c.groups[a.g], s.gs[a.g], s.cancelled, s.faulted);
    }
  }

  lemma {:induction false} NothingHeld(c: Config, run: seq<State>, k: nat)
    requires WellFormed(c) && AllCompleted(c) && IsRun(c, run) && k < |run|
    ensures NoLoss(run[k])
  {
    if k == 0 {
      assert NoLoss(ApplyRun.Init(c));
    } else {
      NothingHeld(c, run, k - 1);
      RunInv(c, run, k - 1);
      NothingToLose(c, run[k - 1], run[k]);
    }
  }

  ghost predicate AlwaysReturned(c: Config) {
    forall s :: Reachable(c, s) && AllFinished(s) ==> s.active == c.otherSlots
  }

  lemma SomeLoss(c: Config, g: nat) returns (t: State)
    requires Runnable(c) && g < |c.groups| && c.groups[g].status != GroupCompleted
    requires c.cancellable || AllPending(c) >= c.threshold
    ensures Reachable(c, t) && AllFinished(t) && t.active != c.otherSlots
  {
    if c.cancellable {
      var s := CanLead(c, g);
      StepReachable(c, s, Cancel);
      t := LosesSlot(c, Next(c, s, Cancel), g);
    } else {
      InitReachable(c);
      InitWithin(c);
      var s, h := Trips(c, ApplyRun.Init(c));
      t := LosesSlot(c, s, h);
    }
  }

  /** Every finished run has given back all its slots exactly if there was nothing to run, or the caller
      cannot cancel and fewer tasks are pending than the quota breaker counts up to. */
  lemma SlotsReturnedIff(c: Config)
    requires Runnable(c)
    ensures AlwaysReturned(c) <==> AllCompleted(c) || (!c.cancellable && AllPending(c) < c.threshold)
  {
    if AllCompleted(c) || (!c.cancellable && AllPending(c) < c.threshold) {
      forall s | Reachable(c, s) && AllFinished(s) ensures s.active == c.otherSlots {
        SlotsReturned(c, s);
        if AllCompleted(c) {
          var run :| IsRun(c, run) && run[|run| - 1] == s;
          NothingHeld(c, run, |run| - 1);
        } else {
          ReachableInv(c, s);
          TooFewToTrip(c, s);
        }
      }
    } else {
      var g :| 0 <= g < |c.groups| && c.groups[g].status != GroupCompleted;
      var s := SomeLoss(c, g);
    }
  }
}
