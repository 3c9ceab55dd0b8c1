// Several Executes over one spawn governor. Each has its own board, channels, semaphore and breaker;
// the counter of slots is the only thing they share.
module ApplyFleet {
  import opened ApplyDomain
  import opened ApplyRun
  import opened ApplyInvariants
  import opened ApplyLiveness
  import opened Sums
  import Graphs

  // Every state of the fleet carries the same counter.
  type Fleet = seq<State>

  /** All Executes run under one governor, which others hold `base` slots of. */
  predicate Joined(cs: seq<Config>, base: nat, max: nat) {
    base <= max && forall k :: 0 <= k < |cs| ==> cs[k].otherSlots == base && cs[k].maxSlots == max && WellFormed(cs[k])
  }

  function Start(cs: seq<Config>): (ss: Fleet)
    ensures |ss| == |cs| && forall k :: 0 <= k < |cs| ==> ss[k] == Init(cs[k])
  {
    seq(|cs|, k requires 0 <= k < |cs| => Init(cs[k]))
  }

  /** Execute i is now in state s, and all the others see its counter. */
  function Share(ss: Fleet, i: nat, s: State): (ss': Fleet)
    ensures |ss'| == |ss| && forall k :: 0 <= k < |ss| ==> ss'[k] == if k == i then s else ss[k].(active := s.active)
  {
    seq(|ss|, k requires 0 <= k < |ss| => if k == i then s else ss[k].(active := s.active))
  }

  ghost predicate FleetStep(cs: seq<Config>, ss: Fleet, ss': Fleet) {
    |ss| == |cs| && exists i: nat, a :: i < |cs| && Enabled(cs[i], ss[i], a) && ss' == Share(ss, i, Next(cs[i], ss[i], a))
  }

  ghost predicate IsFleetRun(cs: seq<Config>, run: seq<Fleet>) {
    |run| > 0 && run[0] == Start(cs) && forall i, j :: 0 <= i < j < |run| && j == i + 1 ==> FleetStep(cs, run[i], run[j])
  }

  ghost predicate FleetReachable(cs: seq<Config>, ss: Fleet) {
    exists run :: IsFleetRun(cs, run) && run[|run| - 1] == ss
  }

  ghost predicate SomeMoves(cs: seq<Config>, ss: Fleet)
    requires |ss| == |cs|
  {
    exists k :: 0 <= k < |cs| && CanMove(cs[k], ss[k])
  }

  ghost predicate SomeUnfinished(ss: Fleet) {
    exists k :: 0 <= k < |ss| && !AllFinished(ss[k])
  }

  // --- one Execute as its fellows see it ---

  function Own(s: State): nat { s.leaked + Sum(s.gs, SlotWeight) }

  /** The configuration in which everything that is not its own is held by others. */
  function Seen(c: Config, s: State): Config {
    c.(otherSlots := if s.active >= Own(s) then s.active - Own(s) else 0)
  }

  ghost predicate FleetInv(cs: seq<Config>, base: nat, ss: Fleet) {
    && |ss| == |cs|
    && (forall k :: 0 <= k < |ss| ==> ss[k].active == base + Sum(ss, Own))
    && (forall k :: 0 <= k < |ss| ==> Inv(Seen(cs[k], ss[k]), ss[k]))
  }

  /** What others hold changes neither what an Execute may do nor what it does. */
  lemma OthersDoNotMatter(c: Config, x: nat, s: State, a: Action)
    ensures Enabled(c.(otherSlots := x), s, a) <==> Enabled(c, s, a)
    ensures Enabled(c, s, a) ==> Next(c.(otherSlots := x), s, a) == Next(c, s, a)
  {
  }

  lemma SameMoves(c: Config, x: nat, s: State)
    ensures CanMove(c.(otherSlots := x), s) <==> CanMove(c, s)
  {
    if CanMove(c, s) {
      var a :| Enabled(c, s, a) && Ordinary(s, a);
      OthersDoNotMatter(c, x, s, a);
      Moves(c.(otherSlots := x), s, a);
    }
    if CanMove(c.(otherSlots := x), s) {
      var a :| Enabled(c.(otherSlots := x), s, a) && Ordinary(s, a);
      OthersDoNotMatter(c, x, s, a);
      Moves(c, s, a);
    }
  }

  /** A fellow's acquire or release moves the counter and what others hold by the same amount. */
  lemma CounterMoves(c: Config, s: State, active: nat)
    requires Inv(Seen(c, s), s) && Own(s) <= active <= c.maxSlots
    ensures Inv(Seen(c, s.(active := active)), s.(active := active))
  {
    var s', c0 := s.(active := active), Seen(c, s);
    forall d | 0 <= d < |s.gs| ensures Kept(s', d) {
      assert Kept(s, d);
    }
    forall g | 0 <= g < |s.gs| ensures HandOk(s', s'.gs[g]) && Waited(s', s'.gs[g]) {
      assert HandOk(s, s.gs[g]) && Waited(s, s.gs[g]);
      WaitedAlike(s, s', s.gs[g]);
    }
    forall g | 0 <= g < |s.gs| ensures Local(c.groups[g], s'.gs[g], s'.cancelled, s'.faulted) {
      assert Local(c0.groups[g], s.gs[g], s.cancelled, s.faulted);
    }
  }

  lemma WaitedAlike(s: State, s': State, r: GroupRun)
    requires Waited(s, r) && s'.gs == s.gs
    ensures Waited(s', r)
  {
    if PastWaiting(r) && r.degraded {
      var k :| FirstFailureAt(s, r, k);
      assert FirstFailureAt(s', r, k);
    }
  }

  lemma {:induction false} ShareSum(ss: Fleet, i: nat, s: State)
    requires i < |ss|
    ensures Sum(Share(ss, i, s), Own) + Own(ss[i]) == Sum(ss, Own) + Own(s)
  {
    var put := ss[i := s];
    SumUpdate(ss, i, s, Own);
    SumBelow(Share(ss, i, s), Own, put, Own);
    SumBelow(put, Own, Share(ss, i, s), Own);
  }

  /** What one step does to the Execute that takes it. */
  lemma MoverKeeps(c: Config, s: State, a: Action)
    requires WellFormed(c) && Inv(Seen(c, s), s) && Enabled(c, s, a) && s.active <= c.maxSlots
    ensures var s' := Next(c, s, a);
            Inv(Seen(c, s'), s') && s'.active + Own(s) == s.active + Own(s') && s'.active <= c.maxSlots
  {
    var c0 := Seen(c, s);
    OthersDoNotMatter(c, c0.otherSlots, s, a);
    StepKeepsInv(c0, s, a);
    assert Seen(c, Next(c, s, a)) == c0;
  }

  lemma FellowKeeps(cs: seq<Config>, base: nat, ss: Fleet, i: nat, s: State, k: nat)
    requires FleetInv(cs, base, ss) && i < |ss| && k < |ss| && k != i
    requires s.active == base + Sum(Share(ss, i, s), Own) && s.active <= cs[k].maxSlots
    ensures var ss' := Share(ss, i, s); Inv(Seen(cs[k], ss'[k]), ss'[k])
  {
    SumAtLeast(Share(ss, i, s), k, Own);
    CounterMoves(cs[k], ss[k], s.active);
  }

  lemma SharedKeeps(cs: seq<Config>, base: nat, max: nat, ss: Fleet, i: nat, s: State)
    requires Joined(cs, base, max) && FleetInv(cs, base, ss) && i < |ss|
    requires Inv(Seen(cs[i], s), s) && s.active + Own(ss[i]) == ss[i].active + Own(s) && s.active <= max
    ensures FleetInv(cs, base, Share(ss, i, s))
  {
    ShareSum(ss, i, s);
    forall k | 0 <= k < |ss| && k != i ensures Inv(Seen(cs[k], Share(ss, i, s)[k]), Share(ss, i, s)[k]) {
      FellowKeeps(cs, base, ss, i, s, k);
    }
  }

  lemma FleetStepKeeps(cs: seq<Config>, base: nat, max: nat, ss: Fleet, ss': Fleet)
    requires Joined(cs, base, max) && FleetInv(cs, base, ss) && FleetStep(cs, ss, ss')
    ensures FleetInv(cs, base, ss')
  {
    var i: nat, a :| i < |cs| && Enabled(cs[i], ss[i], a) && ss' == Share(ss, i, Next(cs[i], ss[i], a));
    MoverKeeps(cs[i], ss[i], a);
    SharedKeeps(cs, base, max, ss, i, Next(cs[i], ss[i], a));
  }

  lemma StartInv(cs: seq<Config>, base: nat, max: nat)
    requires Joined(cs, base, max)
    ensures FleetInv(cs, base, Start(cs))
  {
    var ss := Start(cs);
    forall k | 0 <= k < |ss| ensures Inv(Seen(cs[k], ss[k]), ss[k]) && Own(ss[k]) == 0 {
      InitInv(cs[k]);
      assert Seen(cs[k], ss[k]) == cs[k];
    }
    SumZero(ss, Own);
  }

  lemma {:induction false} FleetRunInv(cs: seq<Config>, base: nat, max: nat, run: seq<Fleet>, n: nat)
    requires Joined(cs, base, max) && IsFleetRun(cs, run) && n < |run|
    ensures FleetInv(cs, base, run[n])
  {
    if n == 0 {
      StartInv(cs, base, max);
    } else {
      FleetRunInv(cs, base, max, run, n - 1);
      assert FleetStep(cs, run[n - 1], run[n]);
      FleetStepKeeps(cs, base, max, run[n - 1], run[n]);
    }
  }

  lemma FleetReachableInv(cs: seq<Config>, base: nat, max: nat, ss: Fleet)
    requires Joined(cs, base, max) && FleetReachable(cs, ss)
    ensures FleetInv(cs, base, ss)
  {
    var run :| IsFleetRun(cs, run) && run[|run| - 1] == ss;
    FleetRunInv(cs, base, max, run, |run| - 1);
  }

  // --- who holds the slots ---

  function Leaked(s: State): nat { s.leaked }
  function Leads(s: State): nat { Sum(s.gs, LeadWeight) }
  function Implements(s: State): nat { Sum(s.gs, ImplSlots) }
  function LeadsAndImplements(s: State): nat { Sum(s.gs, SlotWeight) }

  /** The team-leads an Execute can have at once. */
  function LeadCap(c: Config): nat { Min(c.groupCap, |c.groups|) }

  lemma HeldBy(c: Config, s: State)
    requires Inv(Seen(c, s), s)
    ensures LeadsAndImplements(s) == Leads(s) + Implements(s) && Leads(s) <= LeadCap(c) && s.active <= c.maxSlots
  {
    SumSplit(s.gs, LeadWeight, ImplSlots, SlotWeight);
    SumAtMost(s.gs, LeadWeight);
    SumMonotone(s.gs, LeadWeight, SemWeight);
  }

  /** The shared counter counts outside holders, team-leads, implements and lost releases of all Executes
      together, and never passes the maximum. */
  lemma {:induction false} FleetAccounting(cs: seq<Config>, base: nat, max: nat, ss: Fleet, k: nat)
    requires Joined(cs, base, max) && FleetReachable(cs, ss) && k < |cs|
    ensures |ss| == |cs| && Sum(ss, Leads) <= Sum(cs, LeadCap)
    ensures ss[k].active == base + Sum(ss, Leaked) + Sum(ss, Leads) + Sum(ss, Implements) <= max
  {
    FleetReachableInv(cs, base, max, ss);
    forall i | 0 <= i < |ss| ensures LeadsAndImplements(ss[i]) == Leads(ss[i]) + Implements(ss[i]) && Leads(ss[i]) <= LeadCap(cs[i]) {
      HeldBy(cs[i], ss[i]);
    }
    SumSplit(ss, Leads, Implements, LeadsAndImplements);
    SumSplit(ss, Leaked, LeadsAndImplements, Own);
    SumBelow(ss, Leads, cs, LeadCap);
    HeldBy(cs[k], ss[k]);
  }

  /** While the governor has room for the outside holders, the lost releases, every team-lead that all
      Executes together can have and one implement, no interleaving of Executes is stuck. */
  lemma {:induction false} FleetNoDeadlock(cs: seq<Config>, base: nat, max: nat, ss: Fleet)
    requires Joined(cs, base, max) && FleetReachable(cs, ss) && |ss| == |cs| && SomeUnfinished(ss)
    requires forall k :: 0 <= k < |cs| ==> Graphs.Acyclic(WaitGraph(cs[k]))
    requires base + Sum(ss, Leaked) + Sum(cs, LeadCap) < max
    ensures SomeMoves(cs, ss)
  {
    FleetReachableInv(cs, base, max, ss);
    var k :| 0 <= k < |ss| && !AllFinished(ss[k]);
    FleetAccounting(cs, base, max, ss, k);
    if SlotOrImplement(cs[k], ss[k]) {
      ExecuteMoves(cs[k], ss[k]);
    } else {
      var j := SumWitness(ss, Implements);
      ImplementMoves(cs[j], ss[j]);
    }
  }

  lemma ExecuteMoves(c: Config, s: State)
    requires WellFormed(c) && Inv(Seen(c, s), s) && s.active <= c.maxSlots
    requires Graphs.Acyclic(WaitGraph(c)) && SlotOrImplement(c, s) && !AllFinished(s)
    ensures CanMove(c, s)
  {
    var c0 := Seen(c, s);
    assert WaitGraph(c0) == WaitGraph(c);
    UnfinishedMoves(c0, s);
    SameMoves(c, c0.otherSlots, s);
  }

  lemma ImplementMoves(c: Config, s: State)
    requires Inv(Seen(c, s), s) && Sum(s.gs, ImplSlots) > 0
    ensures CanMove(c, s)
  {
    DispatchMoves(Seen(c, s), s);
    SameMoves(c, Seen(c, s).otherSlots, s);
  }
}
