// The breaker inside Execute against what its tasks are seen to do. The outcomes are read from the
// states of a run, not from the breaker's own step.
module ApplyBreaker {
  import opened ApplyDomain
  import opened ApplyRun
  import opened ApplyInvariants
  import opened ApplyExecute
  import QuotaBreaker
  import PhaseDomain

  predicate AtWork(t: TaskRun) { t.pc.Dispatching? || t.pc.FallingBack? }

  /** A dispatch, or the fallback's, was answered with success. */
  predicate Succeeds(t: TaskRun, t': TaskRun) {
    AtWork(t) && t'.pc == Returned(true)
  }

  /** A dispatch ended the task without counting as an attempt: a quota stop. */
  predicate StopsOnQuota(t: TaskRun, t': TaskRun) {
    AtWork(t) && t'.pc == Returned(false) && t'.task == t.task
  }

  predicate SameShape(s: State, s': State) {
    |s'.gs| == |s.gs| && forall g :: 0 <= g < |s.gs| ==> |s'.gs[g].tasks| == |s.gs[g].tasks|
  }

  ghost predicate SuccessSeen(s: State, s': State) {
    SameShape(s, s') && exists g: nat, t: nat :: g < |s.gs| && t < |s.gs[g].tasks| && Succeeds(s.gs[g].tasks[t], s'.gs[g].tasks[t])
  }

  ghost predicate QuotaStopSeen(s: State, s': State) {
    SameShape(s, s') && exists g: nat, t: nat :: g < |s.gs| && t < |s.gs[g].tasks| && StopsOnQuota(s.gs[g].tasks[t], s'.gs[g].tasks[t])
  }

  /** What one step looks like from outside. */
  ghost function Seen(s: State, s': State): QuotaBreaker.Event {
    if SuccessSeen(s, s') then QuotaBreaker.Success
    else if QuotaStopSeen(s, s') then QuotaBreaker.QuotaHit
    else QuotaBreaker.OtherFailure
  }

  /** The outcomes of the first n steps of a run, oldest first. */
  ghost function Trace(run: seq<State>, n: nat): (trace: seq<QuotaBreaker.Event>)
    requires n < |run|
    ensures |trace| == n
  {
    if n == 0 then [] else Trace(run, n - 1) + [Seen(run[n - 1], run[n])]
  }

  // --- one step ---

  /** Every task but the one that moved is as it was. */
  lemma GroupKeepsTasks(c: Config, r: GroupRun, a: Action, token: bool)
    requires Ready(r, a)
    ensures var ts := GroupAfter(c, r, a, token).tasks;
            |ts| == |r.tasks| && forall t :: 0 <= t < |ts| && !(a.TaskStep? && a.t == t) ==> ts[t] == r.tasks[t]
  {
  }

  lemma StepKeepsShape(c: Config, s: State, a: Action)
    requires Enabled(c, s, a)
    ensures SameShape(s, Next(c, s, a))
  {
    if !a.Cancel? {
      GroupKeepsTasks(c, s.gs[a.g], a, Token(s, a));
    }
  }

  lemma OnlyMoverChanges(c: Config, s: State, a: Action, g: nat, t: nat)
    requires Enabled(c, s, a) && SameShape(s, Next(c, s, a)) && g < |s.gs| && t < |s.gs[g].tasks|
    requires !(a.TaskStep? && a.g == g && a.t == t)
    ensures Next(c, s, a).gs[g].tasks[t] == s.gs[g].tasks[t]
  {
    if !a.Cancel? {
      GroupKeepsTasks(c, s.gs[a.g], a, Token(s, a));
    }
  }

  lemma TaskStepSeen(c: Config, s: State, a: Action)
    requires Enabled(c, s, a) && a.TaskStep?
    ensures |Next(c, s, a).gs| == |s.gs| && a.t < |s.gs[a.g].tasks| == |Next(c, s, a).gs[a.g].tasks|
    ensures var t, t' := s.gs[a.g].tasks[a.t], Next(c, s, a).gs[a.g].tasks[a.t];
            Seen(s, Next(c, s, a)) ==
              if Succeeds(t, t') then QuotaBreaker.Success
              else if StopsOnQuota(t, t') then QuotaBreaker.QuotaHit else QuotaBreaker.OtherFailure
  {
    var s' := Next(c, s, a);
    StepKeepsShape(c, s, a);
    forall g: nat, t: nat | g < |s.gs| && t < |s.gs[g].tasks| && !(g == a.g && t == a.t)
      ensures !Succeeds(s.gs[g].tasks[t], s'.gs[g].tasks[t]) && !StopsOnQuota(s.gs[g].tasks[t], s'.gs[g].tasks[t])
    {
      OnlyMoverChanges(c, s, a, g, t);
    }
  }

  lemma OtherStepSeen(c: Config, s: State, a: Action)
    requires Enabled(c, s, a) && !a.TaskStep?
    ensures Seen(s, Next(c, s, a)) == QuotaBreaker.OtherFailure
  {
    var s' := Next(c, s, a);
    StepKeepsShape(c, s, a);
    forall g: nat, t: nat | g < |s.gs| && t < |s.gs[g].tasks|
      ensures !Succeeds(s.gs[g].tasks[t], s'.gs[g].tasks[t]) && !StopsOnQuota(s.gs[g].tasks[t], s'.gs[g].tasks[t])
    {
      OnlyMoverChanges(c, s, a, g, t);
    }
  }

  /** A success resets the streak and a quota stop lengthens it, whichever goroutine it came from. */
  lemma StepBreaker(c: Config, s: State, a: Action)
    requires Enabled(c, s, a)
    ensures Next(c, s, a).breaker == QuotaBreaker.Apply(s.breaker, Seen(s, Next(c, s, a)), c.threshold)
  {
    if a.TaskStep? {
      TaskStepSeen(c, s, a);
    } else {
      OtherStepSeen(c, s, a);
    }
  }

  // --- whole runs ---

  lemma {:induction false} BreakerFollowsTrace(c: Config, run: seq<State>, n: nat)
    requires IsRun(c, run) && n < |run|
    ensures run[n].breaker == QuotaBreaker.After(Trace(run, n), c.threshold)
  {
    if n > 0 {
      BreakerFollowsTrace(c, run, n - 1);
      assert Step(c, run[n - 1], run[n - 1 + 1]);
      var a :| Enabled(c, run[n - 1], a) && run[n] == Next(c, run[n - 1], a);
      StepBreaker(c, run[n - 1], a);
      QuotaBreaker.OneMoreOutcome(Trace(run, n - 1), Seen(run[n - 1], run[n]), c.threshold);
    }
  }

  /** In every interleaving the breaker is tripped exactly if somewhere in what the run has shown there are
      threshold quota stops with no success between them. */
  lemma {:induction false} TrippedIff(c: Config, run: seq<State>, n: nat)
    requires WellFormed(c) && IsRun(c, run) && n < |run|
    ensures run[n].breaker.tripped <==> QuotaBreaker.HasHotSegment(Trace(run, n), c.threshold)
  {
    BreakerFollowsTrace(c, run, n);
    QuotaBreaker.BreakerRefinesTrace(Trace(run, n), c.threshold);
  }

  /** The envelope from what the run has shown: on a fresh board without faults and without outside
      cancellation, Execute returns DONE exactly if there was no such burst of quota stops and every group
      was delivered. */
  lemma DoneIffDelivered(c: Config, run: seq<State>)
    requires WellFormed(c) && FreshBoard(c) && !c.cancellable && IsRun(c, run)
    requires AllFinished(run[|run| - 1]) && !run[|run| - 1].faulted
    ensures var s := run[|run| - 1];
            Envelope(s) == PhaseDomain.EnvDone <==>
            !QuotaBreaker.HasHotSegment(Trace(run, |run| - 1), c.threshold) && forall g :: 0 <= g < |s.gs| ==> Delivered(s.gs[g])
  {
    var s := run[|run| - 1];
    assert Reachable(c, s);
    TrippedIff(c, run, |run| - 1);
    DoneIsExact(c, s);
  }

  lemma {:induction false} QuietTrace(run: seq<State>, n: nat, k: nat)
    requires n < |run| && k < n && forall i, j :: 0 <= i < j < |run| && j == i + 1 ==> !QuotaStopSeen(run[i], run[j])
    ensures Trace(run, n)[k] != QuotaBreaker.QuotaHit
  {
    if k < n - 1 {
      QuietTrace(run, n - 1, k);
    } else {
      assert !QuotaStopSeen(run[n - 1], run[n]);
    }
  }

  lemma {:induction false} NoQuotas(trace: seq<QuotaBreaker.Event>)
    requires QuotaBreaker.QuotaHit !in trace
    ensures QuotaBreaker.Quotas(trace) == 0
  {
    if trace != [] {
      NoQuotas(trace[..|trace| - 1]);
    }
  }

  lemma QuietIsCold(trace: seq<QuotaBreaker.Event>, threshold: nat)
    requires QuotaBreaker.QuotaHit !in trace && threshold >= 1
    ensures !QuotaBreaker.HasHotSegment(trace, threshold)
  {
    forall i: nat, j: nat | i <= j <= |trace| ensures !QuotaBreaker.HotSegment(trace, i, j, threshold) {
      NoQuotas(trace[i..j]);
    }
  }

  /** In particular a run in which no task stops on quota is never blocked by the breaker. */
  lemma QuietRunIsDoneIff(c: Config, run: seq<State>)
    requires WellFormed(c) && FreshBoard(c) && !c.cancellable && IsRun(c, run)
    requires AllFinished(run[|run| - 1]) && !run[|run| - 1].faulted
    requires forall i, j :: 0 <= i < j < |run| && j == i + 1 ==> !QuotaStopSeen(run[i], run[j])
    ensures var s := run[|run| - 1];
            Envelope(s) == PhaseDomain.EnvDone <==> forall g :: 0 <= g < |s.gs| ==> Delivered(s.gs[g])
  {
    var n := |run| - 1;
    forall k | 0 <= k < |Trace(run, n)| ensures Trace(run, n)[k] != QuotaBreaker.QuotaHit {
      QuietTrace(run, n, k);
    }
    QuietIsCold(Trace(run, n), c.threshold);
    DoneIffDelivered(c, run);
  }
}
