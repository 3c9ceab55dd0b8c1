// The spawn governor must have room beside the team-leads: if it has not, some board of that size
// starves. With NoDeadlock this makes the room the exact condition, size by size.
module ApplySaturation {
  import opened ApplyDomain
  import opened ApplyRun
  import opened ApplyInvariants
  import opened ApplyLiveness
  import opened ApplySafety
  import opened Sums
  import Graphs

  const PLAIN := GroupSpec([], GroupPending, [TaskState(TaskPending, 0)], BuildPending, 0)

  /** n independent groups with one pending task each. */
  function CrowdedBoard(n: nat): (gs: seq<GroupSpec>)
    ensures |gs| == n && forall i :: 0 <= i < n ==> gs[i] == PLAIN
  {
    seq(n, i => PLAIN)
  }

  function Crowded(n: nat, groupCap: nat, implCap: nat, maxSlots: nat, otherSlots: nat): Config {
    Config(CrowdedBoard(n), groupCap, implCap, maxSlots, otherSlots, 3, false, false)
  }

  /** A team-lead holding a slot while its implement waits for one. */
  function Starved(): GroupRun {
    InitGroup(PLAIN).(pc := Leading, status := GroupRunning, entered := 1,
                      tasks := [TaskRun(WantsSlot(0), TaskState(TaskPending, 0))])
  }

  /** A group inside the semaphore that waits for the slot of its team-lead. */
  function Polling(): GroupRun { InitGroup(PLAIN).(pc := WantsLead) }

  /** The first j groups are starved, those up to m are polling, the others have not moved. */
  function Crowd(c: Config, j: nat, m: nat): (s: State)
    ensures |s.gs| == |c.groups|
    ensures forall i :: 0 <= i < |s.gs| ==> s.gs[i] == if i < j then Starved() else if i < m then Polling() else InitGroup(PLAIN)
  {
    Init(c).(gs := seq(|c.groups|, i => if i < j then Starved() else if i < m then Polling() else InitGroup(PLAIN)),
             sem := m, active := c.otherSlots + j)
  }

  /** The first j groups are starved and the next has just taken its team-lead slot. */
  function Led(c: Config, j: nat): (s: State)
    requires j < |c.groups|
  {
    var r := InitGroup(PLAIN).(pc := Leading, status := GroupRunning, entered := 1);
    Crowd(c, j, j + 1).(gs := Crowd(c, j, j + 1).gs[j := r], active := c.otherSlots + j + 1)
  }

  lemma CrowdEnters(c: Config, n: nat, j: nat, m: nat)
    requires c.groups == CrowdedBoard(n) && j <= m < n && m < c.groupCap && Reachable(c, Crowd(c, j, m))
    ensures Reachable(c, Crowd(c, j, m + 1))
  {
    StepReachable(c, Crowd(c, j, m), TakeGroup(m));
    assert Next(c, Crowd(c, j, m), TakeGroup(m)).gs == Crowd(c, j, m + 1).gs;
  }

  lemma CrowdLeads(c: Config, n: nat, j: nat)
    requires c.groups == CrowdedBoard(n) && j < n && c.otherSlots + j < c.maxSlots && Reachable(c, Crowd(c, j, j + 1))
    ensures Reachable(c, Led(c, j))
  {
    StepReachable(c, Crowd(c, j, j + 1), TakeLead(j));
    assert Next(c, Crowd(c, j, j + 1), TakeLead(j)).gs == Led(c, j).gs;
  }

  lemma CrowdGrows(c: Config, n: nat, j: nat)
    requires c.groups == CrowdedBoard(n) && j < n && c.implCap >= 1 && Reachable(c, Led(c, j))
    ensures Reachable(c, Crowd(c, j + 1, j + 1))
  {
    var s := Led(c, j);
    assert s.gs[j].tasks == [TaskRun(Queued, TaskState(TaskPending, 0))];
    assert Sum(s.gs[j].tasks, ImplWeight) == 0;
    StepReachable(c, s, TaskStep(j, 0, Begin));
    assert GroupAfter(c, s.gs[j], TaskStep(j, 0, Begin), false) == Starved();
    assert Next(c, s, TaskStep(j, 0, Begin)).gs == Crowd(c, j + 1, j + 1).gs;
  }

  lemma CrowdLeadsAndGrows(c: Config, n: nat, j: nat)
    requires c.groups == CrowdedBoard(n) && j < n && c.implCap >= 1
    requires c.otherSlots + j < c.maxSlots && Reachable(c, Crowd(c, j, j + 1))
    ensures Reachable(c, Crowd(c, j + 1, j + 1))
  {
    CrowdLeads(c, n, j);
    CrowdGrows(c, n, j);
  }

  lemma CrowdStarts(c: Config, n: nat)
    requires c.groups == CrowdedBoard(n)
    ensures Reachable(c, Crowd(c, 0, 0))
  {
    InitReachable(c);
    assert Init(c).gs == Crowd(c, 0, 0).gs;
  }

  lemma {:induction false} CrowdReachable(c: Config, n: nat, j: nat, m: nat)
    requires c.groups == CrowdedBoard(n) && j <= m <= Min(c.groupCap, n) && c.implCap >= 1
    requires c.otherSlots + j <= c.maxSlots
    ensures Reachable(c, Crowd(c, j, m))
    decreases m, j
  {
    if m == 0 {
      CrowdStarts(c, n);
    } else if j < m {
      CrowdReachable(c, n, j, m - 1);
      CrowdEnters(c, n, j, m - 1);
    } else {
      CrowdReachable(c, n, j - 1, j);
      CrowdLeadsAndGrows(c, n, j - 1);
    }
  }

  lemma CrowdIsStuck(c: Config, n: nat, j: nat)
    requires c.groups == CrowdedBoard(n) && c.otherSlots + j == c.maxSlots && j <= Min(c.groupCap, n)
    ensures !CanMove(c, Crowd(c, j, Min(c.groupCap, n)))
  {
    var s := Crowd(c, j, Min(c.groupCap, n));
    forall a ensures !(Enabled(c, s, a) && Ordinary(s, a)) {
      if !a.Cancel? && a.g < |s.gs| && a.g < j {
        assert s.gs[a.g] == Starved();
        assert !Settled(s.gs[a.g].tasks[0]);
      }
    }
  }

  /** Without room for an implement beside the team-leads, there is an acyclic board of that size and
      an interleaving in which every slot is held by an outsider or by a team-lead whose implement
      waits for a slot, and nothing can move. */
  lemma RoomIsNecessary(n: nat, groupCap: nat, implCap: nat, maxSlots: nat, otherSlots: nat) returns (c: Config, s: State)
    requires n >= 1 && groupCap >= 1 && implCap >= 1 && otherSlots <= maxSlots <= otherSlots + Min(groupCap, n)
    ensures Sized(c, n, groupCap, implCap, maxSlots, otherSlots)
    ensures Reachable(c, s) && !AllFinished(s) && !CanMove(c, s)
    ensures s.active == maxSlots && Sum(s.gs, LeadWeight) == maxSlots - otherSlots
  {
    var j := maxSlots - otherSlots;
    c := Crowded(n, groupCap, implCap, maxSlots, otherSlots);
    s := Crowd(c, j, Min(groupCap, n));
    Graphs.RankedIsAcyclic(WaitGraph(c), map[]);
    CrowdReachable(c, n, j, Min(groupCap, n));
    CrowdIsStuck(c, n, j);
    assert !s.gs[0].pc.Finished?;
    SlotAccounting(c, s);
    forall g | 0 <= g < |s.gs| ensures ImplSlots(s.gs[g]) == 0 {
      SumZero(s.gs[g].tasks, DispatchWeight);
    }
    SumZero(s.gs, ImplSlots);
  }

  /** An acyclic board of n groups run under the given limits. */
  ghost predicate Sized(c: Config, n: nat, groupCap: nat, implCap: nat, maxSlots: nat, otherSlots: nat) {
    && |c.groups| == n && c.groupCap == groupCap && c.implCap == implCap
    && c.maxSlots == maxSlots && c.otherSlots == otherSlots
    && WellFormed(c) && Graphs.Acyclic(WaitGraph(c))
  }

  ghost predicate NeverStuck(c: Config) {
    forall s :: Reachable(c, s) && !AllFinished(s) ==> CanMove(c, s)
  }

  /** No acyclic board of n groups ever gets stuck exactly if the governor has room for all the
      team-leads there can be at once, the outside holders and one implement. */
  lemma RoomIsExact(n: nat, groupCap: nat, implCap: nat, maxSlots: nat, otherSlots: nat)
    requires n >= 1 && groupCap >= 1 && implCap >= 1 && otherSlots <= maxSlots
    ensures (forall c :: Sized(c, n, groupCap, implCap, maxSlots, otherSlots) ==> NeverStuck(c)) <==>
            otherSlots + Min(groupCap, n) < maxSlots
  {
    if otherSlots + Min(groupCap, n) < maxSlots {
      forall c, s | Sized(c, n, groupCap, implCap, maxSlots, otherSlots) && Reachable(c, s) && !AllFinished(s)
        ensures CanMove(c, s)
      {
        NoDeadlock(c, s);
      }
    } else {
      var c, s := RoomIsNecessary(n, groupCap, implCap, maxSlots, otherSlots);
      assert !NeverStuck(c);
    }
  }
}
