// The envelope of one Execute: what finalize counts, and what DONE and BLOCKED mean.
module ApplyExecute {
  import opened ApplyDomain
  import opened Options
  import opened ApplyRun
  import opened ApplyInvariants
  import opened ApplySafety
  import opened Sums
  import opened PhaseDomain

  datatype Summary = Summary(status: EnvelopeStatus, totalTasks: nat, totalDone: nat, failedGroups: nat)

  // A group missing from the results map reads as the zero outcome: not failed, nothing done.
  function FailedWeight(r: GroupRun): nat { if r.result.Some? && r.result.value.failed then 1 else 0 }
  function DoneWeight(r: GroupRun): nat { if r.result.Some? && !r.result.value.failed then r.result.value.tasksDone else 0 }
  function TaskCount(r: GroupRun): nat { |r.tasks| }

  /** finalize: totals over the board, BLOCKED as soon as one group failed. */
  method Finalize(gs: seq<GroupRun>) returns (sum: Summary)
    ensures sum.totalTasks == Sum(gs, TaskCount)
    ensures sum.totalDone == Sum(gs, DoneWeight)
    ensures sum.failedGroups == Sum(gs, FailedWeight)
    ensures sum.status == Verdict(gs)
  {
    var totalTasks, totalDone, failedGroups := 0, 0, 0;
    for i := 0 to |gs|
      invariant totalTasks + Sum(gs[i..], TaskCount) == Sum(gs, TaskCount)
      invariant totalDone + Sum(gs[i..], DoneWeight) == Sum(gs, DoneWeight)
      invariant failedGroups + Sum(gs[i..], FailedWeight) == Sum(gs, FailedWeight)
    {
      assert gs[i..][1..] == gs[i + 1..];
      totalTasks := totalTasks + |gs[i].tasks|;
      if gs[i].result.Some? && gs[i].result.value.failed {
        failedGroups := failedGroups + 1;
      } else if gs[i].result.Some? {
        totalDone := totalDone + gs[i].result.value.tasksDone;
      }
    }
    VerdictCounts(gs);
    sum := Summary(if failedGroups > 0 then EnvBlocked else EnvDone, totalTasks, totalDone, failedGroups);
  }

  predicate GroupReportedFailed(r: GroupRun) {
    r.result.Some? && r.result.value.failed
  }

  function Verdict(gs: seq<GroupRun>): EnvelopeStatus {
    if exists g :: 0 <= g < |gs| && GroupReportedFailed(gs[g]) then EnvBlocked else EnvDone
  }

  lemma {:induction false} VerdictCounts(gs: seq<GroupRun>)
    ensures Verdict(gs) == EnvBlocked <==> Sum(gs, FailedWeight) > 0
  {
    if g :| 0 <= g < |gs| && GroupReportedFailed(gs[g]) {
      SumAtLeast(gs, g, FailedWeight);
    } else {
      SumZero(gs, FailedWeight);
    }
  }

  /** Execute returns BLOCKED when the breaker tripped, else what finalize says. */
  function Envelope(s: State): EnvelopeStatus {
    if s.breaker.tripped then EnvBlocked else Verdict(s.gs)
  }

  predicate GateOk(b: BuildStatus) { b == BuildPassed || b == BuildSkipped }

  predicate TasksAllDone(r: GroupRun) {
    forall t :: 0 <= t < |r.tasks| ==> r.tasks[t].task.status == TaskDone
  }

  predicate Delivered(r: GroupRun) { TasksAllDone(r) && GateOk(r.build) }

  /** A group stored as completed was delivered; in particular a fresh board is consistent. */
  predicate ConsistentBoard(c: Config) {
    forall g :: 0 <= g < |c.groups| && c.groups[g].status == GroupCompleted ==>
      GateOk(c.groups[g].build) &&
      forall t :: 0 <= t < |c.groups[g].tasks| ==> c.groups[g].tasks[t].status == TaskDone
  }

  predicate FreshBoard(c: Config) {
    forall g :: 0 <= g < |c.groups| ==>
      c.groups[g].status == GroupPending && c.groups[g].build == BuildPending &&
      forall t :: 0 <= t < |c.groups[g].tasks| ==> c.groups[g].tasks[t] == TaskState(TaskPending, 0)
  }

  // --- one group ---

  lemma {:induction false} AllOkCounts(ts: seq<TaskRun>)
    requires forall t :: 0 <= t < |ts| ==> ts[t].pc == Returned(true)
    ensures Sum(ts, OkWeight) == |ts|
  {
    if ts != [] {
      AllOkCounts(ts[1..]);
    }
  }

  /** A group that did not report failure, in a run that was not cancelled, was delivered. */
  lemma GroupDelivered(spec: GroupSpec, r: GroupRun, faulted: bool)
    requires Local(spec, r, false, faulted) && r.pc.Finished? && !GroupReportedFailed(r)
    requires spec.status == GroupCompleted ==>
               GateOk(spec.build) && forall t :: 0 <= t < |spec.tasks| ==> spec.tasks[t].status == TaskDone
    ensures Delivered(r) && DoneWeight(r) == TaskCount(r)
  {
    if r.entered > 0 {
      forall t | 0 <= t < |r.tasks| ensures r.tasks[t].pc == Returned(true) {
        assert Settled(r.tasks[t]);
        assert TaskLocal(spec.tasks[t], r.tasks[t], false);
      }
      AllOkCounts(r.tasks);
    } else {
      forall t | 0 <= t < |r.tasks| ensures r.tasks[t].task.status == TaskDone {
        assert r.tasks[t].task == spec.tasks[t];
      }
    }
  }

  /** A group that reported failure without any environmental fault was not delivered. */
  lemma GroupNotDelivered(spec: GroupSpec, r: GroupRun)
    requires Local(spec, r, false, false) && r.pc.Finished? && GroupReportedFailed(r)
    requires spec.status == GroupPending && spec.build == BuildPending
    ensures !Delivered(r)
  {
    if HadFailure(r) {
      var t :| 0 <= t < |r.tasks| && r.tasks[t].pc == Returned(false);
      assert TaskLocal(spec.tasks[t], r.tasks[t], false);
    }
  }

  // --- the whole board ---

  /** DONE is sound. If nobody but the breaker cancelled and Execute returns DONE, then every task
      of every group is Done, every build gate passed or was skipped, and the reported total of
      finished tasks is the number of tasks on the board. */
  lemma DoneIsSound(c: Config, s: State)
    requires WellFormed(c) && ConsistentBoard(c) && (c.cancellable ==> !s.cancelled)
    requires Reachable(c, s) && AllFinished(s) && Envelope(s) == EnvDone
    ensures forall g :: 0 <= g < |s.gs| ==> Delivered(s.gs[g])
    ensures Sum(s.gs, DoneWeight) == Sum(s.gs, TaskCount)
    ensures s.active == c.otherSlots
  {
    ReachableInv(c, s);
    SlotsReturned(c, s);
    forall g | 0 <= g < |s.gs| ensures Delivered(s.gs[g]) && DoneWeight(s.gs[g]) == TaskCount(s.gs[g]) {
      assert Local(c.groups[g], s.gs[g], s.cancelled, s.faulted);
      GroupDelivered(c.groups[g], s.gs[g], s.faulted);
    }
    SumMonotone(s.gs, DoneWeight, TaskCount);
    SumMonotone(s.gs, TaskCount, DoneWeight);
  }

  /** On a fresh board without environmental faults, DONE is also complete: Execute returns DONE
      exactly when the breaker stayed closed and every group was delivered. */
  lemma DoneIsExact(c: Config, s: State)
    requires WellFormed(c) && FreshBoard(c) && !c.cancellable
    requires Reachable(c, s) && AllFinished(s) && !s.faulted
    ensures Envelope(s) == EnvDone <==>
            !s.breaker.tripped && forall g :: 0 <= g < |s.gs| ==> Delivered(s.gs[g])
  {
    ReachableInv(c, s);
    if Envelope(s) == EnvDone {
      DoneIsSound(c, s);
    } else if !s.breaker.tripped {
      var g :| 0 <= g < |s.gs| && GroupReportedFailed(s.gs[g]);
      assert Local(c.groups[g], s.gs[g], s.cancelled, s.faulted);
      GroupNotDelivered(c.groups[g], s.gs[g]);
    }
  }

  function DeliveredTasks(r: GroupRun): nat { if Delivered(r) then |r.tasks| else 0 }
  function Undelivered(r: GroupRun): nat { if Delivered(r) then 0 else 1 }

  lemma GroupTotals(spec: GroupSpec, r: GroupRun)
    requires Local(spec, r, false, false) && r.pc.Finished? && spec.status == GroupPending && spec.build == BuildPending
    ensures DoneWeight(r) == DeliveredTasks(r) && FailedWeight(r) == Undelivered(r)
  {
    if GroupReportedFailed(r) {
      GroupNotDelivered(spec, r);
    } else {
      GroupDelivered(spec, r, false);
    }
  }

  /** What finalize reports on a fresh board without faults and cancellation: the tasks of the groups that
      were delivered, and the number of groups that were not. */
  lemma TotalsCountDelivered(c: Config, s: State)
    requires WellFormed(c) && FreshBoard(c) && Reachable(c, s) && AllFinished(s) && !s.faulted && !s.cancelled
    ensures Sum(s.gs, DoneWeight) == Sum(s.gs, DeliveredTasks) && Sum(s.gs, FailedWeight) == Sum(s.gs, Undelivered)
  {
    ReachableInv(c, s);
    forall g | 0 <= g < |s.gs|
      ensures DoneWeight(s.gs[g]) == DeliveredTasks(s.gs[g]) && FailedWeight(s.gs[g]) == Undelivered(s.gs[g])
    {
      assert Local(c.groups[g], s.gs[g], s.cancelled, s.faulted);
      GroupTotals(c.groups[g], s.gs[g]);
    }
    SumMonotone(s.gs, DoneWeight, DeliveredTasks);
    SumMonotone(s.gs, DeliveredTasks, DoneWeight);
    SumMonotone(s.gs, FailedWeight, Undelivered);
    SumMonotone(s.gs, Undelivered, FailedWeight);
  }

  /** Resuming never repairs a group: one stored as running or failed is refused by Group.Start,
      reports failure with all its tasks untouched, and forces BLOCKED. */
  lemma ResumedGroupFailsAgain(c: Config, s: State, g: nat)
    requires WellFormed(c) && !c.cancellable && Reachable(c, s) && AllFinished(s)
    requires g < |c.groups| && (c.groups[g].status == GroupFailed || c.groups[g].status == GroupRunning)
    ensures Envelope(s) == EnvBlocked
    ensures |s.gs| == |c.groups| && s.gs[g].tasks == InitTasks(c.groups[g].tasks)
  {
    ReachableInv(c, s);
    assert Local(c.groups[g], s.gs[g], s.cancelled, s.faulted);
    if !s.breaker.tripped {
      assert GroupReportedFailed(s.gs[g]);
    }
  }
}
