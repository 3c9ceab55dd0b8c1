// From an accepted tasks list to a run: what buildBoard checks is what the scheduler needs.
module ApplyBoard {
  import opened ApplyDomain
  import opened ApplyRun
  import opened ApplyInvariants
  import opened ApplyLiveness
  import opened ApplySafety
  import Dag
  import Graphs

  /** The run's groups are those of the board, in order, named by position. */
  predicate RunsBoard(c: Config, board: seq<Dag.Group>) {
    |c.groups| == |board| &&
    forall g :: 0 <= g < |board| ==> c.groups[g].deps == Dag.Positions(board, board[g].dependsOn)
  }

  lemma BoardIdsDistinct(specs: seq<Dag.Spec>, ids: seq<nat>)
    requires |specs| == |ids| && Dag.DistinctNats(ids)
    ensures Dag.DistinctIds(Dag.FullBoard(specs, ids))
  {
  }

  /** Every dependency of an accepted list has a channel. */
  lemma AcceptedDepsHaveChannels(specs: seq<Dag.Spec>, ids: seq<nat>, c: Config, g: nat, k: nat)
    requires |specs| == |ids| && RunsBoard(c, Dag.FullBoard(specs, ids))
    requires g < |c.groups| && k < |c.groups[g].deps|
    ensures c.groups[g].deps[k] < |c.groups|
  {
    var board := Dag.FullBoard(specs, ids);
    var d := board[g].dependsOn[k];
    assert d in board[g].dependsOn;
    Dag.DependenciesKnown(specs, ids, g, d);
    Dag.GraphOfKeys(board);
  }

  lemma AcceptedIsAcyclic(specs: seq<Dag.Spec>, ids: seq<nat>, c: Config)
    requires |specs| == |ids| && Dag.DistinctNames(specs) && Dag.DistinctNats(ids) && Dag.NoNameCycle(specs)
    requires RunsBoard(c, Dag.FullBoard(specs, ids))
    ensures Graphs.Acyclic(WaitGraph(c))
  {
    var board := Dag.FullBoard(specs, ids);
    BoardIdsDistinct(specs, ids);
    Dag.CyclesByName(specs, ids);
    Dag.PositionsAcyclic(board);
    assert WaitGraph(c) == Dag.PositionGraph(board);
  }

  /** A run of a list that buildBoard accepts is never stuck. */
  lemma AcceptedBoardNeverStuck(specs: seq<Dag.Spec>, ids: seq<nat>, c: Config, s: State)
    requires |specs| == |ids| && Dag.DistinctNames(specs) && Dag.DistinctNats(ids) && Dag.NoNameCycle(specs)
    requires RunsBoard(c, Dag.FullBoard(specs, ids)) && WellFormed(c) && RoomForImplements(c)
    requires Reachable(c, s) && !AllFinished(s)
    ensures CanMove(c, s)
  {
    AcceptedIsAcyclic(specs, ids, c);
    NoDeadlock(c, s);
  }

  /** On a run of a board a group waits for exactly the groups that its entry names. */
  lemma WaitsForNamed(specs: seq<Dag.Spec>, ids: seq<nat>, c: Config, g: nat, j: nat)
    requires |specs| == |ids| && Dag.DistinctNames(specs) && Dag.DistinctNats(ids)
    requires RunsBoard(c, Dag.FullBoard(specs, ids)) && g < |specs| && j < |specs|
    ensures j in c.groups[g].deps <==> specs[j].name in specs[g].dependsOn
  {
    var board := Dag.FullBoard(specs, ids);
    var deps := board[g].dependsOn;
    BoardIdsDistinct(specs, ids);
    Dag.DependsById(specs, ids, g, j);
    if j in c.groups[g].deps {
      var k :| 0 <= k < |deps| && c.groups[g].deps[k] == j;
      assert deps[k] == board[j].id == ids[j];
    }
    if ids[j] in deps {
      var k :| 0 <= k < |deps| && deps[k] == ids[j];
      assert board[Dag.PositionOf(board, ids[j])].id == board[j].id;
      assert c.groups[g].deps[k] == j;
    }
  }

  /** A group that is past its wait and not degraded has seen every group that its entry names succeed. */
  lemma StartsAfterNamed(specs: seq<Dag.Spec>, ids: seq<nat>, c: Config, s: State, g: nat, j: nat)
    requires |specs| == |ids| && Dag.DistinctNames(specs) && Dag.DistinctNats(ids)
    requires RunsBoard(c, Dag.FullBoard(specs, ids)) && WellFormed(c) && Reachable(c, s) && g < |specs| && j < |specs|
    ensures |s.gs| == |specs|
    ensures PastWaiting(s.gs[g]) && !s.gs[g].degraded && specs[j].name in specs[g].dependsOn ==> s.gs[j].sent == [false]
  {
    WaitIsSound(c, s, g);
    WaitsForNamed(specs, ids, c, g, j);
  }
}
