// When the caller's context can be cancelled, DONE stops meaning delivered: a group dropped at the
// semaphore leaves no result, and finalize counts it as not failed.
module ApplyCancelled {
  import opened ApplyDomain
  import opened Options
  import opened ApplyRun
  import opened ApplyInvariants
  import opened ApplySafety
  import opened ApplyExecute
  import PhaseDomain
  import Graphs

  /** A group that has ended without a failed result and without touching its tasks or its build. */
  predicate Gone(spec: GroupSpec, r: GroupRun, token: Option<bool>) {
    && r.pc.Finished? && !GroupReportedFailed(r) && token.Some?
    && r.tasks == InitTasks(spec.tasks) && r.build == spec.build
  }

  predicate NotMoved(spec: GroupSpec, r: GroupRun, token: Option<bool>) {
    r == InitGroup(spec) && token.None?
  }

  /** A cancelled run in which every group is gone or has not moved yet. */
  ghost predicate Draining(c: Config, s: State) {
    && Reachable(c, s) && s.cancelled && !s.breaker.tripped && |s.gs| == |s.channels| == |c.groups|
    && forall g :: 0 <= g < |c.groups| ==>
         Gone(c.groups[g], s.gs[g], s.channels[g]) || NotMoved(c.groups[g], s.gs[g], s.channels[g])
  }

  function Left(s: State): set<nat> {
    set g: nat | g < |s.gs| && !s.gs[g].pc.Finished?
  }

  predicate KnownDeps(c: Config) {
    forall g :: 0 <= g < |c.groups| ==> forall i :: 0 <= i < |c.groups[g].deps| ==> c.groups[g].deps[i] < |c.groups|
  }

  // --- one group ---

  /** g is before its i-th dependency in a state that is otherwise s. */
  function At(s: State, g: nat, pc: GroupPc, degraded: bool): State
    requires g < |s.gs|
  {
    s.(gs := s.gs[g := s.gs[g].(pc := pc, degraded := degraded)])
  }

  /** All dependencies of a group have signalled. */
  predicate DepsSignalled(s: State, g: nat)
    requires g < |s.gs|
  {
    forall i :: 0 <= i < |s.gs[g].deps| ==> s.gs[g].deps[i] < |s.channels| && s.channels[s.gs[g].deps[i]].Some?
  }

  /** Receive and Republish: the token is back and the group is past dependency i. */
  lemma PassDep(c: Config, s: State, g: nat, i: nat)
    requires g < |s.gs| && i < |s.gs[g].deps| && DepsSignalled(s, g) && s.cancelled && !s.breaker.tripped
    requires Reachable(c, At(s, g, Waiting(i), false))
    ensures var failed := s.channels[s.gs[g].deps[i]].value;
            Reachable(c, At(s, g, if failed then WantsGroup else AfterDep(s.gs[g].deps, i + 1), failed))
  {
    var d := s.gs[g].deps[i];
    var failed := s.channels[d].value;
    var s0 := At(s, g, Waiting(i), false);
    StepReachable(c, s0, Receive(g));
    var s1 := Next(c, s0, Receive(g));
    StepReachable(c, s1, Republish(g));
    var s2 := Next(c, s1, Republish(g));
    assert s2.channels == s.channels;
    assert s2 == At(s, g, if failed then WantsGroup else AfterDep(s.gs[g].deps, i + 1), failed);
  }

  lemma {:induction false} PassDeps(c: Config, s: State, g: nat, i: nat) returns (degraded: bool)
    requires g < |s.gs| && i <= |s.gs[g].deps| && DepsSignalled(s, g) && s.cancelled && !s.breaker.tripped
    requires Reachable(c, At(s, g, AfterDep(s.gs[g].deps, i), false))
    ensures Reachable(c, At(s, g, WantsGroup, degraded))
    decreases |s.gs[g].deps| - i
  {
    if i == |s.gs[g].deps| {
      degraded := false;
    } else {
      PassDep(c, s, g, i);
      degraded := s.channels[s.gs[g].deps[i]].value;
      if !degraded {
        degraded := PassDeps(c, s, g, i + 1);
      }
    }
  }

  /** A group whose dependencies are gone can go too. */
  lemma GroupGoes(c: Config, s: State, g: nat) returns (s': State)
    requires Draining(c, s) && g in Left(s) && DepsSignalled(s, g)
    ensures Draining(c, s') && Left(s') < Left(s)
  {
    assert NotMoved(c.groups[g], s.gs[g], s.channels[g]);
    var end: Action;
    var s1: State;
    if c.groups[g].status == GroupCompleted {
      s1, end := s, Skip(g);
    } else {
      assert At(s, g, AfterDep(s.gs[g].deps, 0), false) == s;
      var degraded := PassDeps(c, s, g, 0);
      s1, end := At(s, g, WantsGroup, degraded), DropGroup(g);
    }
    StepReachable(c, s1, end);
    s' := Next(c, s1, end);
    assert forall h :: 0 <= h < |s.gs| && h != g ==> s'.gs[h] == s.gs[h] && s'.channels[h] == s.channels[h];
    assert Gone(c.groups[g], s'.gs[g], s'.channels[g]);
    assert g !in Left(s');
    assert Left(s') <= Left(s);
  }

  // --- the whole board ---

  /** On an acyclic board some remaining group has no remaining dependency. */
  lemma SomeGroupCanGo(c: Config, s: State) returns (g: nat)
    requires Draining(c, s) && KnownDeps(c) && Graphs.Acyclic(WaitGraph(c)) && Left(s) != {}
    ensures g in Left(s) && DepsSignalled(s, g)
  {
    g := Graphs.WaitsForNone(WaitGraph(c), Left(s));
    var deps := c.groups[g].deps;
    assert s.gs[g].deps == deps;
    forall i | 0 <= i < |deps| ensures deps[i] < |s.channels| && s.channels[deps[i]].Some? {
      assert Graphs.Edge(WaitGraph(c), g, deps[i]);
      assert deps[i] !in Left(s);
    }
  }

  lemma {:induction false} Drain(c: Config, s: State) returns (s': State)
    requires Draining(c, s) && KnownDeps(c) && Graphs.Acyclic(WaitGraph(c))
    ensures Draining(c, s') && AllFinished(s')
    decreases Left(s)
  {
    if Left(s) == {} {
      s' := s;
      forall g | 0 <= g < |s.gs| ensures s.gs[g].pc.Finished? {
        assert g !in Left(s);
      }
    } else {
      var g := SomeGroupCanGo(c, s);
      var s1 := GroupGoes(c, s, g);
      s' := Drain(c, s1);
    }
  }

  predicate StoredDelivered(spec: GroupSpec) {
    GateOk(spec.build) && forall t :: 0 <= t < |spec.tasks| ==> spec.tasks[t].status == TaskDone
  }

  /** Cancelled before it starts, every run of the board can end DONE with every group as it was stored. */
  lemma CancelledRunReportsDone(c: Config) returns (s: State)
    requires KnownDeps(c) && Graphs.Acyclic(WaitGraph(c)) && c.cancellable
    ensures Reachable(c, s) && AllFinished(s) && Envelope(s) == PhaseDomain.EnvDone && |s.gs| == |c.groups|
    ensures forall g :: 0 <= g < |s.gs| ==> (Delivered(s.gs[g]) <==> StoredDelivered(c.groups[g]))
  {
    InitReachable(c);
    StepReachable(c, ApplyRun.Init(c), Cancel);
    s := Drain(c, Next(c, ApplyRun.Init(c), Cancel));
    forall g | 0 <= g < |s.gs| ensures Delivered(s.gs[g]) <==> StoredDelivered(c.groups[g]) {
      var ts := c.groups[g].tasks;
      assert Gone(c.groups[g], s.gs[g], s.channels[g]);
      assert forall t :: 0 <= t < |ts| ==> s.gs[g].tasks[t].task == ts[t];
    }
  }

  ghost predicate DoneMeansDelivered(c: Config) {
    forall s :: Reachable(c, s) && AllFinished(s) && Envelope(s) == PhaseDomain.EnvDone ==>
      forall g :: 0 <= g < |s.gs| ==> Delivered(s.gs[g])
  }

  /** On a board with something left to deliver, DONE means delivered in every run exactly if nobody
      outside can cancel. */
  lemma DoneMeansDeliveredIff(c: Config)
    requires WellFormed(c) && ConsistentBoard(c) && KnownDeps(c) && Graphs.Acyclic(WaitGraph(c))
    requires exists g :: 0 <= g < |c.groups| && !StoredDelivered(c.groups[g])
    ensures DoneMeansDelivered(c) <==> !c.cancellable
  {
    if c.cancellable {
      var g :| 0 <= g < |c.groups| && !StoredDelivered(c.groups[g]);
      var s := CancelledRunReportsDone(c);
      assert !Delivered(s.gs[g]);
    } else {
      forall s | Reachable(c, s) && AllFinished(s) && Envelope(s) == PhaseDomain.EnvDone
        ensures forall g :: 0 <= g < |s.gs| ==> Delivered(s.gs[g])
      {
        DoneIsSound(c, s);
      }
    }
  }
}
