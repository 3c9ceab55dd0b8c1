// What holds in every reachable state of an apply run, and when it has finished.
module ApplySafety {
  import opened ApplyDomain
  import opened Options
  import opened ApplyRun
  import opened ApplyInvariants
  import opened Sums

  /** Two different holders weigh at least two. */
  lemma {:induction false} SumTwo<T>(xs: seq<T>, i: nat, j: nat, f: T -> nat)
    requires i < j < |xs|
    ensures f(xs[i]) + f(xs[j]) <= Sum(xs, f)
  {
    if i == 0 {
      SumAtLeast(xs[1..], j - 1, f);
    } else {
      SumTwo(xs[1..], i - 1, j - 1, f);
    }
  }

  /** Signal-token conservation. A group that has not signalled has no token anywhere. The one
      token of a group that has signalled is in its channel or in exactly one waiter's hand,
      and it carries the value of the group's only signal. */
  lemma TokenConservation(c: Config, s: State, d: nat)
    requires WellFormed(c) && Reachable(c, s) && d < |c.groups|
    ensures |s.gs| == |s.channels| == |c.groups| && |s.gs[d].sent| <= 1
    ensures s.gs[d].sent == [] ==> s.channels[d].None? && forall g :: 0 <= g < |s.gs| ==> !InHand(s.gs[g], d)
    ensures s.gs[d].sent != [] && s.channels[d].Some? ==>
              s.channels[d].value == s.gs[d].sent[0] && forall g :: 0 <= g < |s.gs| ==> !InHand(s.gs[g], d)
    ensures s.gs[d].sent != [] && s.channels[d].None? ==>
              exists g :: 0 <= g < |s.gs| && InHand(s.gs[g], d)
    ensures forall g, h :: 0 <= g < h < |s.gs| ==> !(InHand(s.gs[g], d) && InHand(s.gs[h], d))
    ensures forall g :: 0 <= g < |s.gs| && InHand(s.gs[g], d) ==> s.gs[d].sent == [s.gs[g].pc.depFailed]
  {
    ReachableInv(c, s);
    assert Kept(s, d);
    forall g | 0 <= g < |s.gs| && InHand(s.gs[g], d)
      ensures Sum(s.gs, HandWeight(d)) == 1 && s.gs[d].sent == [s.gs[g].pc.depFailed]
    {
      SumAtLeast(s.gs, g, HandWeight(d));
      assert HandOk(s, s.gs[g]);
    }
    forall g, h | 0 <= g < h < |s.gs| ensures !(InHand(s.gs[g], d) && InHand(s.gs[h], d)) {
      SumTwo(s.gs, g, h, HandWeight(d));
    }
    if s.gs[d].sent != [] && s.channels[d].None? {
      var g := SumWitness(s.gs, HandWeight(d));
      assert InHand(s.gs[g], d);
    }
  }

  /** A group past its Wait either saw every dependency signal success, or it runs degraded
      and saw a failure at the first dependency in its list that failed. */
  lemma WaitIsSound(c: Config, s: State, g: nat)
    requires WellFormed(c) && Reachable(c, s) && g < |c.groups|
    ensures |s.gs| == |c.groups| && s.gs[g].deps == c.groups[g].deps
    ensures PastWaiting(s.gs[g]) && !s.gs[g].degraded ==> SucceededUpTo(s, s.gs[g], |s.gs[g].deps|)
    ensures PastWaiting(s.gs[g]) && s.gs[g].degraded ==> exists k :: FirstFailureAt(s, s.gs[g], k)
  {
    ReachableInv(c, s);
    assert Waited(s, s.gs[g]);
  }

  /** The governor's counter counts the holders: outside holders, team-leads, dispatching
      implements, and releases lost to cancellation. It never passes the maximum, and the
      group semaphore never passes its capacity. */
  lemma SlotAccounting(c: Config, s: State)
    requires WellFormed(c) && Reachable(c, s)
    ensures s.active == c.otherSlots + s.leaked + Sum(s.gs, LeadWeight) + Sum(s.gs, ImplSlots)
    ensures s.active <= c.maxSlots
    ensures Sum(s.gs, LeadWeight) <= s.sem == Sum(s.gs, SemWeight) <= c.groupCap
    ensures !s.cancelled ==> s.leaked == 0
  {
    ReachableInv(c, s);
    SumSplit(s.gs, LeadWeight, ImplSlots, SlotWeight);
    SumMonotone(s.gs, LeadWeight, SemWeight);
  }

  lemma FinishedWeights(spec: GroupSpec, r: GroupRun, cancelled: bool, faulted: bool)
    requires Local(spec, r, cancelled, faulted) && r.pc.Finished?
    ensures SlotWeight(r) == 0
  {
    SumZero(r.tasks, DispatchWeight);
  }

  /** When every goroutine has returned, the semaphore is free and the counter is back where it
      started, except for releases that ran on a cancelled context. */
  lemma SlotsReturned(c: Config, s: State)
    requires WellFormed(c) && Reachable(c, s) && AllFinished(s)
    ensures s.sem == 0 && s.active == c.otherSlots + s.leaked
    ensures !s.cancelled ==> s.active == c.otherSlots
  {
    ReachableInv(c, s);
    forall g | 0 <= g < |s.gs| ensures SlotWeight(s.gs[g]) == 0 {
      FinishedWeights(c.groups[g], s.gs[g], s.cancelled, s.faulted);
    }
    SumZero(s.gs, SlotWeight);
    SumZero(s.gs, SemWeight);
  }

  /** In a finished run without cancellation, timeouts or refusals, every group that was not
      completed beforehand entered its team-lead exactly once, whatever its dependencies did,
      and every channel still shows its group's only signal. */
  lemma FinishedOnce(c: Config, s: State, g: nat)
    requires WellFormed(c) && Reachable(c, s) && AllFinished(s) && g < |c.groups|
    ensures |s.gs| == |s.channels| == |c.groups| && |s.gs[g].sent| == 1 && s.channels[g] == Some(s.gs[g].sent[0])
    ensures s.gs[g].entered <= 1
    ensures !s.cancelled && !s.faulted ==> (s.gs[g].entered == 1 <==> c.groups[g].status != GroupCompleted)
  {
    ReachableInv(c, s);
    assert Local(c.groups[g], s.gs[g], s.cancelled, s.faulted);
    assert Kept(s, g);
    SumZero(s.gs, HandWeight(g));
  }

  // --- building runs ---

  lemma InitReachable(c: Config)
    ensures Reachable(c, Init(c))
  {
    assert IsRun(c, [Init(c)]);
  }

  lemma StepReachable(c: Config, s: State, a: Action)
    requires Reachable(c, s) && Enabled(c, s, a)
    ensures Reachable(c, Next(c, s, a))
  {
    var run :| IsRun(c, run) && run[|run| - 1] == s;
    var run' := run + [Next(c, s, a)];
    assert Step(c, s, Next(c, s, a));
    assert IsRun(c, run');
  }

  // --- the implement semaphore of a group ---

  /** Only a task that begins comes to hold the group's implement semaphore. */
  lemma ImplementsAfter(c: Config, tasks: seq<TaskRun>, t: nat, act: TaskAction)
    requires t < |tasks| && TaskReady(tasks[t], act)
    ensures var after := tasks[t := TaskAfter(c, tasks[t], act)];
            Sum(after, ImplWeight) <= Sum(tasks, ImplWeight) + if act.Begin? then 1 else 0
  {
    SumUpdate(tasks, t, TaskAfter(c, tasks[t], act), ImplWeight);
  }

  lemma StepKeepsCap(c: Config, s: State, a: Action, g: nat)
    requires Enabled(c, s, a) && g < |s.gs| && Sum(s.gs[g].tasks, ImplWeight) <= c.implCap
    ensures g < |Next(c, s, a).gs| && Sum(Next(c, s, a).gs[g].tasks, ImplWeight) <= c.implCap
  {
    if a.TaskStep? && a.g == g {
      ImplementsAfter(c, s.gs[g].tasks, a.t, a.act);
    }
  }

  lemma {:induction false} RunKeepsCap(c: Config, run: seq<State>, n: nat, g: nat)
    requires IsRun(c, run) && n < |run| && g < |c.groups|
    ensures g < |run[n].gs| && Sum(run[n].gs[g].tasks, ImplWeight) <= c.implCap
  {
    if n == 0 {
      SumZero(run[0].gs[g].tasks, ImplWeight);
    } else {
      RunKeepsCap(c, run, n - 1, g);
      assert Step(c, run[n - 1], run[n]);
      var a :| Enabled(c, run[n - 1], a) && run[n] == Next(c, run[n - 1], a);
      StepKeepsCap(c, run[n - 1], a, g);
    }
  }

  /** No group ever has more implements at work, waiting for a slot or falling back, than it may have. */
  lemma ImplementCap(c: Config, s: State, g: nat)
    requires Reachable(c, s) && g < |c.groups|
    ensures g < |s.gs| && Sum(s.gs[g].tasks, ImplWeight) <= c.implCap
  {
    var run :| IsRun(c, run) && run[|run| - 1] == s;
    RunKeepsCap(c, run, |run| - 1, g);
  }

  // --- faults ---

  /** A group ends its wait without an answer, or its team-lead gets no slot. */
  predicate GivesUp(r: GroupRun, r': GroupRun) {
    (r.pc.Waiting? && r'.pc.Finished?) || (r.pc.WantsLead? && r'.pc.Closing?)
  }

  /** A task ends before any dispatch. */
  predicate TurnedAway(t: TaskRun, t': TaskRun) {
    (t.pc.Queued? || t.pc.WantsSlot?) && t'.pc == Returned(false)
  }

  /** While nobody cancelled, a run counts as disturbed exactly from the first time that a group gives up
      waiting, a team-lead is refused its slot, or a task is refused its claim or its slot; a failed, a
      successful or a quota-stopped dispatch is none of these. */
  lemma FaultsSeen(c: Config, s: State, a: Action)
    requires Enabled(c, s, a) && !s.cancelled && !a.Cancel?
    ensures var s' := Next(c, s, a);
            && |s'.gs| == |s.gs| && |s'.gs[a.g].tasks| == |s.gs[a.g].tasks|
            && (s'.faulted <==>
                  || s.faulted || GivesUp(s.gs[a.g], s'.gs[a.g])
                  || (a.TaskStep? && TurnedAway(s.gs[a.g].tasks[a.t], s'.gs[a.g].tasks[a.t])
                      && (a.act.Begin? ==> s.gs[a.g].tasks[a.t].task.status == TaskPending)))
  {
  }
}
