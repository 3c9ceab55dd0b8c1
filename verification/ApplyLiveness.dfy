// No apply run gets stuck and none goes on forever.
module ApplyLiveness {
  import opened ApplyDomain
  import opened Options
  import opened ApplyRun
  import opened ApplyInvariants
  import opened Sums
  import Graphs

  /** An action that needs no timeout, no refusal by the governor and no outside
      cancellation: giving up counts only once the context is cancelled, or for a
      dependency that has no channel. */
  predicate Ordinary(s: State, a: Action) {
    match a
    case WaitFails(g) =>
      s.cancelled ||
      (g < |s.gs| && s.gs[g].pc.Waiting? && s.gs[g].pc.i < |s.gs[g].deps| && s.gs[g].deps[s.gs[g].pc.i] >= |s.channels|)
    case RefuseLead(_) => s.cancelled
    case TaskStep(_, _, Refuse) => s.cancelled
    case TaskStep(_, _, ClaimFails) => false
    case Cancel => false
    case _ => true
  }

  ghost predicate CanMove(c: Config, s: State) {
    exists a :: Enabled(c, s, a) && Ordinary(s, a)
  }

  function Min(a: nat, b: nat): nat { if a < b then a else b }

  /** The spawn governor has room for every team-lead there can be and at least one implement. */
  predicate RoomForImplements(c: Config) {
    c.otherSlots + Min(c.groupCap, |c.groups|) < c.maxSlots
  }

  lemma Moves(c: Config, s: State, a: Action)
    requires Enabled(c, s, a) && Ordinary(s, a)
    ensures CanMove(c, s)
  {
  }

  // --- who can always move ---

  lemma PassingMoves(c: Config, s: State, g: nat)
    requires Inv(c, s) && g < |s.gs|
    requires var pc := s.gs[g].pc; pc.Skipping? || pc.Republishing? || pc.Detecting? || pc.Building? || pc.Leaving?
                                   || pc.Reporting? || pc.Closing?
    ensures CanMove(c, s)
  {
    match s.gs[g].pc
    case Skipping => Moves(c, s, Skip(g));
    case Republishing(_, _, _) => Moves(c, s, Republish(g));
    case Detecting => Moves(c, s, Manifest(g));
    case Building => Moves(c, s, Build(g, true));
    case Leaving(_) => Moves(c, s, ReleaseLead(g, false));
    case Reporting(_) => Moves(c, s, Report(g));
    case Closing => Moves(c, s, Close(g));
  }

  lemma DispatchMoves(c: Config, s: State)
    requires Inv(c, s) && Sum(s.gs, ImplSlots) > 0
    ensures CanMove(c, s)
  {
    var g := SumWitness(s.gs, ImplSlots);
    var t := SumWitness(s.gs[g].tasks, DispatchWeight);
    assert Local(c.groups[g], s.gs[g], s.cancelled, s.faulted);
    assert s.gs[g].tasks[t].pc.Dispatching?;
    Moves(c, s, TaskStep(g, t, Reply(Ok, false)));
  }

  /** Team-leads alone never fill the governor, so when it is full an implement holds a slot. */
  lemma FullMeansImplement(c: Config, s: State)
    requires Inv(c, s) && RoomForImplements(c) && !s.cancelled && s.active == c.maxSlots
    ensures Sum(s.gs, ImplSlots) > 0
  {
    SumAtMost(s.gs, LeadWeight);
    SumMonotone(s.gs, LeadWeight, SemWeight);
    SumSplit(s.gs, LeadWeight, ImplSlots, SlotWeight);
  }

  /** A slot is free, or one of this run's own implements holds one and will give it back, or nobody
      waits for slots any more. */
  predicate SlotOrImplement(c: Config, s: State) {
    s.cancelled || s.active < c.maxSlots || Sum(s.gs, ImplSlots) > 0
  }

  lemma WantsLeadMoves(c: Config, s: State, g: nat)
    requires Inv(c, s) && SlotOrImplement(c, s) && g < |s.gs| && s.gs[g].pc.WantsLead?
    ensures CanMove(c, s)
  {
    if s.cancelled {
      Moves(c, s, RefuseLead(g));
    } else if s.active < c.maxSlots {
      Moves(c, s, TakeLead(g));
    } else {
      DispatchMoves(c, s);
    }
  }

  lemma HolderMoves(c: Config, s: State, g: nat, t: nat)
    requires Inv(c, s) && SlotOrImplement(c, s) && g < |s.gs| && s.gs[g].pc.Leading?
    requires t < |s.gs[g].tasks| && HoldsImpl(s.gs[g].tasks[t])
    ensures CanMove(c, s)
  {
    match s.gs[g].tasks[t].pc
    case Dispatching(_) => Moves(c, s, TaskStep(g, t, Reply(Ok, false)));
    case FallingBack => Moves(c, s, TaskStep(g, t, FallbackReply(true)));
    case WantsSlot(_) =>
      if s.cancelled {
        Moves(c, s, TaskStep(g, t, Refuse));
      } else if s.active < c.maxSlots {
        Moves(c, s, TaskStep(g, t, Grant));
      } else {
        DispatchMoves(c, s);
      }
  }

  lemma LeadingMoves(c: Config, s: State, g: nat)
    requires WellFormed(c) && Inv(c, s) && SlotOrImplement(c, s) && g < |s.gs| && s.gs[g].pc.Leading?
    ensures CanMove(c, s)
  {
    var r := s.gs[g];
    if AllSettled(r) {
      Moves(c, s, Join(g));
    } else {
      var t :| 0 <= t < |r.tasks| && !Settled(r.tasks[t]);
      if !r.tasks[t].pc.Queued? {
        HolderMoves(c, s, g, t);
      } else if Sum(r.tasks, ImplWeight) < c.implCap {
        Moves(c, s, TaskStep(g, t, Begin));
      } else {
        var u := SumWitness(r.tasks, ImplWeight);
        HolderMoves(c, s, g, u);
      }
    }
  }

  lemma SemHolderMoves(c: Config, s: State, g: nat)
    requires WellFormed(c) && Inv(c, s) && SlotOrImplement(c, s) && g < |s.gs| && HoldsSem(s.gs[g])
    ensures CanMove(c, s)
  {
    if s.gs[g].pc.WantsLead? {
      WantsLeadMoves(c, s, g);
    } else if s.gs[g].pc.Leading? {
      LeadingMoves(c, s, g);
    } else {
      PassingMoves(c, s, g);
    }
  }

  lemma WantsGroupMoves(c: Config, s: State, g: nat)
    requires WellFormed(c) && Inv(c, s) && SlotOrImplement(c, s) && g < |s.gs| && s.gs[g].pc.WantsGroup?
    ensures CanMove(c, s)
  {
    if s.sem < c.groupCap {
      Moves(c, s, TakeGroup(g));
    } else {
      var h := SumWitness(s.gs, SemWeight);
      SemHolderMoves(c, s, h);
    }
  }

  // --- groups that wait for each other ---

  function BlockedOn(r: GroupRun): nat {
    if r.pc.Waiting? && r.pc.i < |r.deps| then r.deps[r.pc.i] else 0
  }

  /** A waiting group that cannot move waits for a group of the board that has not signalled. */
  lemma WaitingMoves(c: Config, s: State, g: nat)
    requires Inv(c, s) && g < |s.gs| && s.gs[g].pc.Waiting?
    ensures var d := BlockedOn(s.gs[g]);
            CanMove(c, s) || (d < |s.gs| && s.gs[d].sent == [] && Graphs.Edge(WaitGraph(c), g, d))
  {
    var r := s.gs[g];
    assert Local(c.groups[g], r, s.cancelled, s.faulted);
    var d := BlockedOn(r);
    if d >= |s.gs| {
      Moves(c, s, WaitFails(g));
    } else if s.channels[d].Some? {
      Moves(c, s, Receive(g));
    } else {
      assert Kept(s, d);
      if s.gs[d].sent != [] {
        var h := SumWitness(s.gs, HandWeight(d));
        assert s.gs[h].pc.Republishing?;
        PassingMoves(c, s, h);
      }
    }
  }

  lemma NotWaitingMoves(c: Config, s: State, g: nat)
    requires WellFormed(c) && Inv(c, s) && SlotOrImplement(c, s) && g < |s.gs|
    requires !s.gs[g].pc.Waiting? && !s.gs[g].pc.Finished?
    ensures CanMove(c, s)
  {
    if s.gs[g].pc.WantsGroup? {
      WantsGroupMoves(c, s, g);
    } else if HoldsSem(s.gs[g]) {
      SemHolderMoves(c, s, g);
    } else {
      PassingMoves(c, s, g);
    }
  }

  /** In a stuck state a waiting group waits for another waiting group. */
  lemma StuckWaitsForWaiter(c: Config, s: State, g: nat)
    requires WellFormed(c) && Inv(c, s) && SlotOrImplement(c, s) && !CanMove(c, s)
    requires g < |s.gs| && s.gs[g].pc.Waiting?
    ensures var d := BlockedOn(s.gs[g]); d < |s.gs| && s.gs[d].pc.Waiting? && Graphs.Edge(WaitGraph(c), g, d)
  {
    WaitingMoves(c, s, g);
    var d := BlockedOn(s.gs[g]);
    assert Local(c.groups[d], s.gs[d], s.cancelled, s.faulted);
    if !s.gs[d].pc.Waiting? {
      NotWaitingMoves(c, s, d);
    }
  }

  lemma WaitersFormCycle(graph: Graphs.Graph, gs: seq<GroupRun>, g: nat)
    requires g < |gs| && gs[g].pc.Waiting?
    requires forall h :: 0 <= h < |gs| && gs[h].pc.Waiting? ==>
               var d := BlockedOn(gs[h]); d < |gs| && gs[d].pc.Waiting? && Graphs.Edge(graph, h, d)
    ensures !Graphs.Acyclic(graph)
  {
    var next: map<nat, nat> := map h | 0 <= h < |gs| && gs[h].pc.Waiting? :: BlockedOn(gs[h]);
    assert g in next;
    Graphs.ChainHasCycle(graph, next, g);
  }

  lemma UnfinishedMoves(c: Config, s: State)
    requires WellFormed(c) && Inv(c, s) && Graphs.Acyclic(WaitGraph(c)) && SlotOrImplement(c, s) && !AllFinished(s)
    ensures CanMove(c, s)
  {
    if !CanMove(c, s) {
      var g :| 0 <= g < |s.gs| && !s.gs[g].pc.Finished?;
      if !s.gs[g].pc.Waiting? {
        NotWaitingMoves(c, s, g);
      }
      forall h | 0 <= h < |s.gs| && s.gs[h].pc.Waiting?
        ensures var d := BlockedOn(s.gs[h]); d < |s.gs| && s.gs[d].pc.Waiting? && Graphs.Edge(WaitGraph(c), h, d)
      {
        StuckWaitsForWaiter(c, s, h);
      }
      WaitersFormCycle(WaitGraph(c), s.gs, g);
    }
  }

  /** No reachable interleaving is stuck: with an acyclic board, and room in the governor
      beside the team-leads, some ordinary action is enabled until every goroutine returned. */
  lemma NoDeadlock(c: Config, s: State)
    requires WellFormed(c) && Reachable(c, s)
    requires Graphs.Acyclic(WaitGraph(c)) && RoomForImplements(c)
    requires !AllFinished(s)
    ensures CanMove(c, s)
  {
    ReachableInv(c, s);
    if !s.cancelled && s.active == c.maxSlots {
      FullMeansImplement(c, s);
    }
    UnfinishedMoves(c, s);
  }

  // --- termination ---

  /** Steps a task goroutine can still take. */
  function TaskRank(t: TaskRun): nat {
    match t.pc
    case Queued => 9
    case WantsSlot(a) => 2 + if a < MAX_ATTEMPTS then 2 * (MAX_ATTEMPTS - a) else 0
    case Dispatching(a) => 1 + if a < MAX_ATTEMPTS then 2 * (MAX_ATTEMPTS - a) else 0
    case FallingBack => 1
    case Returned(_) => 0
    case Abandoned => 0
  }

  /** Steps a group goroutine can still take, apart from those of its tasks. */
  function PcRank(r: GroupRun): nat {
    match r.pc
    case Skipping => 1
    case Waiting(i) => 12 + if i < |r.deps| then 2 * (|r.deps| - i) else 0
    case Republishing(i, _, _) => 11 + if i < |r.deps| then 2 * (|r.deps| - i) else 0
    case WantsGroup => 11
    case WantsLead => 10
    case Leading => 9
    case Detecting => 8
    case Building => 4 + if r.buildAttempts < MAX_ATTEMPTS then MAX_ATTEMPTS - r.buildAttempts else 0
    case Leaving(_) => 3
    case Reporting(_) => 2
    case Closing => 1
    case Finished => 0
  }

  function Rank(r: GroupRun): nat { PcRank(r) + Sum(r.tasks, TaskRank) }

  function Measure(s: State): nat {
    Sum(s.gs, Rank) + One(!s.cancelled)
  }

  lemma TaskRankFalls(c: Config, t0: TaskState, t: TaskRun, act: TaskAction, cancelled: bool)
    requires TaskReady(t, act) && TaskLocal(t0, t, cancelled)
    ensures TaskRank(TaskAfter(c, t, act)) < TaskRank(t)
  {
  }

  lemma TaskStepRankFalls(c: Config, spec: GroupSpec, r: GroupRun, a: Action, token: bool, cancelled: bool, faulted: bool)
    requires a.TaskStep? && Ready(r, a) && Local(spec, r, cancelled, faulted)
    ensures Rank(GroupAfter(c, r, a, token)) < Rank(r)
  {
    TaskRankFalls(c, spec.tasks[a.t], r.tasks[a.t], a.act, cancelled);
    SumUpdate(r.tasks, a.t, TaskAfter(c, r.tasks[a.t], a.act), TaskRank);
  }

  lemma PcRankFalls(c: Config, r: GroupRun, a: Action, token: bool)
    requires Ready(r, a) && !a.Cancel? && !a.TaskStep? && (r.pc.Waiting? ==> r.pc.i < |r.deps|)
    requires r.pc.Republishing? ==> r.pc.i < |r.deps|
    ensures PcRank(GroupAfter(c, r, a, token)) < PcRank(r) && GroupAfter(c, r, a, token).tasks == r.tasks
  {
  }

  lemma RankFalls(c: Config, spec: GroupSpec, r: GroupRun, a: Action, token: bool, cancelled: bool, faulted: bool)
    requires Ready(r, a) && !a.Cancel? && Local(spec, r, cancelled, faulted)
    ensures Rank(GroupAfter(c, r, a, token)) < Rank(r)
  {
    if a.TaskStep? {
      TaskStepRankFalls(c, spec, r, a, token, cancelled, faulted);
    } else {
      PcRankFalls(c, r, a, token);
    }
  }

  lemma StepFalls(c: Config, s: State, a: Action)
    requires Inv(c, s) && Enabled(c, s, a)
    ensures Measure(Next(c, s, a)) < Measure(s)
  {
    if !a.Cancel? {
      RankFalls(c, c.groups[a.g], s.gs[a.g], a, Token(s, a), s.cancelled, s.faulted);
      SumUpdate(s.gs, a.g, GroupAfter(c, s.gs[a.g], a, Token(s, a)), Rank);
    }
  }

  /** Every run is finite: it has at most Measure(Init) steps, timeouts, refusals and
      cancellation included. */
  lemma {:induction false} RunsAreBounded(c: Config, run: seq<State>)
    requires WellFormed(c) && IsRun(c, run)
    ensures |run| - 1 + Measure(run[|run| - 1]) <= Measure(Init(c))
    decreases |run|
  {
    var n := |run| - 1;
    if n > 0 {
      RunsAreBounded(c, run[..n]);
      RunInv(c, run, n - 1);
      assert Step(c, run[n - 1], run[n]);
      var a :| Enabled(c, run[n - 1], a) && run[n] == Next(c, run[n - 1], a);
      StepFalls(c, run[n - 1], a);
    }
  }

  /** A run that cannot be extended by an ordinary action has finished every group, and each
      group has signalled exactly once. */
  lemma MaximalRunsFinish(c: Config, run: seq<State>)
    requires WellFormed(c) && IsRun(c, run)
    requires Graphs.Acyclic(WaitGraph(c)) && RoomForImplements(c)
    requires !CanMove(c, run[|run| - 1])
    ensures var s := run[|run| - 1];
            |s.gs| == |c.groups| && AllFinished(s) && forall g :: 0 <= g < |s.gs| ==> |s.gs[g].sent| == 1
  {
    var s := run[|run| - 1];
    assert Reachable(c, s);
    if !AllFinished(s) {
      NoDeadlock(c, s);
    }
    RunInv(c, run, |run| - 1);
    forall g | 0 <= g < |c.groups| ensures |s.gs[g].sent| == 1 {
      assert Local(c.groups[g], s.gs[g], s.cancelled, s.faulted);
    }
  }
}
