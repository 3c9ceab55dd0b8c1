// When several Executes together have too little room, some boards of their sizes starve each other:
// the room is the exact condition for a whole fleet.
module ApplyFleetSaturation {
  import opened ApplyDomain
  import opened ApplyRun
  import opened ApplyInvariants
  import opened ApplyLiveness
  import opened ApplySaturation
  import opened ApplyFleet
  import opened Sums
  import Graphs

  /** The size of a board and the limits it runs under. */
  datatype Limits = Limits(n: nat, groupCap: nat, implCap: nat)

  function LeadsOf(l: Limits): nat { Min(l.groupCap, l.n) }

  ghost predicate FleetSized(cs: seq<Config>, ls: seq<Limits>, base: nat, max: nat) {
    && |cs| == |ls| && Joined(cs, base, max)
    && forall k {:trigger cs[k]} :: 0 <= k < |cs| ==>
         && |cs[k].groups| == ls[k].n && cs[k].groupCap == ls[k].groupCap && cs[k].implCap == ls[k].implCap
         && Graphs.Acyclic(WaitGraph(cs[k]))
  }

  /** As long as no release is lost, some Execute can move until all have finished. */
  ghost predicate FleetNeverStuck(cs: seq<Config>) {
    forall ss :: FleetReachable(cs, ss) && |ss| == |cs| && Sum(ss, Leaked) == 0 && SomeUnfinished(ss) ==> SomeMoves(cs, ss)
  }

  // --- one Execute of the fleet runs while the others stand still ---

  lemma StartReachable(cs: seq<Config>)
    ensures FleetReachable(cs, Start(cs))
  {
    assert IsFleetRun(cs, [Start(cs)]);
  }

  lemma FleetStepReachable(cs: seq<Config>, ss: Fleet, ss': Fleet)
    requires FleetReachable(cs, ss) && FleetStep(cs, ss, ss')
    ensures FleetReachable(cs, ss')
  {
    var run :| IsFleetRun(cs, run) && run[|run| - 1] == ss;
    assert IsFleetRun(cs, run + [ss']);
  }

  lemma ShareTwice(ss: Fleet, i: nat, s: State, t: State)
    requires i < |ss|
    ensures Share(Share(ss, i, s), i, t) == Share(ss, i, t)
  {
  }

  lemma {:induction false} LiftRun(cs: seq<Config>, ss: Fleet, i: nat, x: nat, run: seq<State>, k: nat)
    requires FleetReachable(cs, ss) && |ss| == |cs| && i < |cs| && IsRun(cs[i].(otherSlots := x), run) && k < |run|
    requires ss[i] == Init(cs[i].(otherSlots := x)) && forall j :: 0 <= j < |ss| ==> ss[j].active == x
    ensures FleetReachable(cs, Share(ss, i, run[k]))
  {
    if k == 0 {
      assert Share(ss, i, run[0]) == ss;
    } else {
      LiftRun(cs, ss, i, x, run, k - 1);
      var before := Share(ss, i, run[k - 1]);
      assert Step(cs[i].(otherSlots := x), run[k - 1], run[k - 1 + 1]);
      var a :| Enabled(cs[i].(otherSlots := x), run[k - 1], a) && run[k] == Next(cs[i].(otherSlots := x), run[k - 1], a);
      OthersDoNotMatter(cs[i], x, run[k - 1], a);
      ShareTwice(ss, i, run[k - 1], run[k]);
      assert before[i] == run[k - 1];
      assert Share(ss, i, run[k]) == Share(before, i, Next(cs[i], before[i], a));
      assert FleetStep(cs, before, Share(ss, i, run[k]));
      FleetStepReachable(cs, before, Share(ss, i, run[k]));
    }
  }

  lemma Lift(cs: seq<Config>, ss: Fleet, i: nat, x: nat, s: State)
    requires FleetReachable(cs, ss) && |ss| == |cs| && i < |cs| && Reachable(cs[i].(otherSlots := x), s)
    requires ss[i] == Init(cs[i].(otherSlots := x)) && forall j :: 0 <= j < |ss| ==> ss[j].active == x
    ensures FleetReachable(cs, Share(ss, i, s))
  {
    var run :| IsRun(cs[i].(otherSlots := x), run) && run[|run| - 1] == s;
    LiftRun(cs, ss, i, x, run, |run| - 1);
  }

  // --- the starving fleet ---

  function Crowds(ls: seq<Limits>, base: nat, max: nat): (cs: seq<Config>)
    ensures |cs| == |ls|
    ensures forall k :: 0 <= k < |cs| ==> cs[k] == Crowded(ls[k].n, ls[k].groupCap, ls[k].implCap, max, base)
  {
    seq(|ls|, k requires 0 <= k < |ls| => Crowded(ls[k].n, ls[k].groupCap, ls[k].implCap, max, base))
  }

  /** j of the groups are starved and the rest polls or waits, while the counter stands at `active`. */
  function Starving(c: Config, j: nat, active: nat): State
    requires j <= active
  {
    Crowd(c.(otherSlots := active - j), j, LeadCap(c))
  }

  /** The first |js| Executes are starving and the others have not moved. */
  ghost predicate Shaped(cs: seq<Config>, ss: Fleet, js: seq<nat>, active: nat) {
    && |ss| == |cs| && |js| <= |cs|
    && (forall k {:trigger js[k]} :: 0 <= k < |js| ==>
          js[k] <= LeadCap(cs[k]) && js[k] <= active && ss[k] == Starving(cs[k], js[k], active))
    && (forall k {:trigger ss[k]} :: |js| <= k < |cs| ==> ss[k] == Init(cs[k]).(active := active))
  }

  lemma ShapedActive(cs: seq<Config>, ss: Fleet, js: seq<nat>, active: nat)
    requires Shaped(cs, ss, js, active)
    ensures forall k :: 0 <= k < |ss| ==> ss[k].active == active
  {
    forall k | 0 <= k < |ss| ensures ss[k].active == active {
      if k < |js| {
        assert js[k] <= active && ss[k] == Starving(cs[k], js[k], active);
      }
    }
  }

  lemma StarvingLater(c: Config, j: nat, active: nat, later: nat)
    requires j <= active <= later
    ensures Starving(c, j, active).(active := later) == Starving(c, j, later)
  {
  }

  lemma ShapedOneMore(cs: seq<Config>, ss: Fleet, js: seq<nat>, active: nat, j: nat)
    requires Shaped(cs, ss, js, active) && |js| < |cs| && j <= LeadCap(cs[|js|])
    ensures Shaped(cs, Share(ss, |js|, Starving(cs[|js|], j, active + j)), js + [j], active + j)
  {
    var ss' := Share(ss, |js|, Starving(cs[|js|], j, active + j));
    forall k | 0 <= k < |js + [j]|
      ensures (js + [j])[k] <= LeadCap(cs[k]) && (js + [j])[k] <= active + j && ss'[k] == Starving(cs[k], (js + [j])[k], active + j)
    {
      if k < |js| {
        assert js[k] <= active && ss[k] == Starving(cs[k], js[k], active);
        StarvingLater(cs[k], js[k], active, active + j);
      }
    }
  }

  /** One more Execute takes j slots for team-leads and keeps them. */
  lemma FillOne(cs: seq<Config>, ss: Fleet, js: seq<nat>, active: nat, n: nat, j: nat)
    requires FleetReachable(cs, ss) && Shaped(cs, ss, js, active) && |js| < |cs|
    requires cs[|js|].groups == CrowdedBoard(n) && cs[|js|].implCap >= 1
    requires j <= LeadCap(cs[|js|]) && active + j <= cs[|js|].maxSlots
    ensures FleetReachable(cs, Share(ss, |js|, Starving(cs[|js|], j, active + j)))
  {
    var m := |js|;
    var c := cs[m].(otherSlots := active);
    CrowdReachable(c, n, j, LeadCap(cs[m]));
    ShapedActive(cs, ss, js, active);
    assert ss[m] == Init(c);
    Lift(cs, ss, m, active, Crowd(c, j, LeadCap(cs[m])));
  }

  /** The counter once the first m Executes have taken what they can. */
  function Level(ls: seq<Limits>, base: nat, max: nat, m: nat): nat
    requires m <= |ls| && base <= max
  {
    base + Min(max - base, Sum(ls[..m], LeadsOf))
  }

  lemma LevelRises(ls: seq<Limits>, base: nat, max: nat, m: nat)
    requires m < |ls| && base <= max
    ensures Level(ls, base, max, m + 1) == Level(ls, base, max, m) + Min(LeadsOf(ls[m]), max - Level(ls, base, max, m))
  {
    assert ls[..m + 1] == ls[..m] + [ls[m]];
    SumAppend(ls[..m], ls[m], LeadsOf);
  }

  lemma FillNext(cs: seq<Config>, ss: Fleet, js: seq<nat>, level: nat, n: nat, j: nat) returns (ss': Fleet)
    requires FleetReachable(cs, ss) && Shaped(cs, ss, js, level) && |js| < |cs|
    requires cs[|js|].groups == CrowdedBoard(n) && cs[|js|].implCap >= 1
    requires j <= LeadCap(cs[|js|]) && level + j <= cs[|js|].maxSlots
    ensures FleetReachable(cs, ss') && Shaped(cs, ss', js + [j], level + j)
  {
    FillOne(cs, ss, js, level, n, j);
    ShapedOneMore(cs, ss, js, level, j);
    ss' := Share(ss, |js|, Starving(cs[|js|], j, level + j));
  }

  lemma NobodyFilled(cs: seq<Config>, base: nat, max: nat)
    requires Joined(cs, base, max)
    ensures FleetReachable(cs, Start(cs)) && Shaped(cs, Start(cs), [], base)
  {
    StartReachable(cs);
  }

  lemma {:induction false} Fill(ls: seq<Limits>, base: nat, max: nat, cs: seq<Config>, m: nat) returns (ss: Fleet, js: seq<nat>)
    requires m <= |ls| && cs == Crowds(ls, base, max) && Joined(cs, base, max)
    ensures |js| == m && FleetReachable(cs, ss) && Shaped(cs, ss, js, Level(ls, base, max, m))
    decreases m
  {
    if m == 0 {
      ss, js := Start(cs), [];
      NobodyFilled(cs, base, max);
    } else {
      ss, js := Fill(ls, base, max, cs, m - 1);
      var level := Level(ls, base, max, m - 1);
      var j := Min(LeadsOf(ls[m - 1]), max - level);
      LevelRises(ls, base, max, m - 1);
      ss := FillNext(cs, ss, js, level, ls[m - 1].n, j);
      js := js + [j];
    }
  }

  lemma StarvingShape(c: Config, n: nat, j: nat, active: nat)
    requires c.groups == CrowdedBoard(n) && j <= active
    ensures Starving(c, j, active).leaked == 0 && (n >= 1 ==> !AllFinished(Starving(c, j, active)))
  {
    if n >= 1 {
      assert !Starving(c, j, active).gs[0].pc.Finished?;
    }
  }

  lemma StarvingIsStuck(c: Config, n: nat, j: nat)
    requires c.groups == CrowdedBoard(n) && j <= c.maxSlots && j <= LeadCap(c)
    ensures !CanMove(c, Starving(c, j, c.maxSlots))
  {
    var c0 := c.(otherSlots := c.maxSlots - j);
    CrowdIsStuck(c0, n, j);
    SameMoves(c, c0.otherSlots, Starving(c, j, c.maxSlots));
  }

  lemma CrowdsSized(ls: seq<Limits>, base: nat, max: nat)
    requires base <= max && forall k :: 0 <= k < |ls| ==> ls[k].groupCap >= 1 && ls[k].implCap >= 1
    ensures FleetSized(Crowds(ls, base, max), ls, base, max)
  {
    var cs := Crowds(ls, base, max);
    forall k | 0 <= k < |cs| ensures Graphs.Acyclic(WaitGraph(cs[k])) {
      Graphs.RankedIsAcyclic(WaitGraph(cs[k]), map[]);
    }
  }

  lemma FullFleetIsStuck(ls: seq<Limits>, base: nat, max: nat, ss: Fleet, js: seq<nat>, k: nat)
    requires Shaped(Crowds(ls, base, max), ss, js, max) && |js| == |ls| && k < |ls|
    ensures !CanMove(Crowds(ls, base, max)[k], ss[k]) && ss[k].leaked == 0 && (ls[k].n >= 1 ==> !AllFinished(ss[k]))
  {
    var c := Crowds(ls, base, max)[k];
    assert js[k] <= LeadCap(c) && js[k] <= max && ss[k] == Starving(c, js[k], max);
    StarvingIsStuck(c, ls[k].n, js[k]);
    StarvingShape(c, ls[k].n, js[k], max);
  }

  /** Without the room, boards of these sizes and an interleaving of their Executes in which every slot is
      held from outside or by a team-lead whose implement waits, and no Execute can move. */
  lemma FleetRoomIsNecessary(ls: seq<Limits>, base: nat, max: nat, busy: nat) returns (cs: seq<Config>, ss: Fleet)
    requires base <= max <= base + Sum(ls, LeadsOf) && busy < |ls| && ls[busy].n >= 1
    requires forall k :: 0 <= k < |ls| ==> ls[k].groupCap >= 1 && ls[k].implCap >= 1
    ensures FleetSized(cs, ls, base, max) && FleetReachable(cs, ss) && |ss| == |cs|
    ensures Sum(ss, Leaked) == 0 && SomeUnfinished(ss) && !SomeMoves(cs, ss)
  {
    cs := Crowds(ls, base, max);
    CrowdsSized(ls, base, max);
    var js;
    ss, js := Fill(ls, base, max, cs, |ls|);
    assert ls[..|ls|] == ls;
    forall k | 0 <= k < |ss| ensures ss[k].leaked == 0 && !CanMove(cs[k], ss[k]) && (ls[k].n >= 1 ==> !AllFinished(ss[k])) {
      FullFleetIsStuck(ls, base, max, ss, js, k);
    }
    SumZero(ss, Leaked);
    assert !AllFinished(ss[busy]);
  }

  lemma {:induction false} SameCaps(cs: seq<Config>, ls: seq<Limits>, base: nat, max: nat)
    requires FleetSized(cs, ls, base, max)
    ensures Sum(cs, LeadCap) == Sum(ls, LeadsOf)
  {
    SumBelow(cs, LeadCap, ls, LeadsOf);
    SumBelow(ls, LeadsOf, cs, LeadCap);
  }

  /** Executes of acyclic boards of these sizes never starve each other, while no release is lost, exactly
      if the governor has room for the outside holders, all the team-leads they can have together and one
      implement. */
  lemma {:induction false} FleetRoomIsExact(ls: seq<Limits>, base: nat, max: nat, busy: nat)
    requires base <= max && busy < |ls| && ls[busy].n >= 1
    requires forall k :: 0 <= k < |ls| ==> ls[k].groupCap >= 1 && ls[k].implCap >= 1
    ensures (forall cs :: FleetSized(cs, ls, base, max) ==> FleetNeverStuck(cs)) <==> base + Sum(ls, LeadsOf) < max
  {
    if base + Sum(ls, LeadsOf) < max {
      forall cs, ss | FleetSized(cs, ls, base, max) && FleetReachable(cs, ss) && |ss| == |cs| && Sum(ss, Leaked) == 0 && SomeUnfinished(ss)
        ensures SomeMoves(cs, ss)
      {
        SameCaps(cs, ls, base, max);
        FleetNoDeadlock(cs, base, max, ss);
      }
    } else {
      var cs, ss := FleetRoomIsNecessary(ls, base, max, busy);
      assert !FleetNeverStuck(cs);
    }
  }
}
