// ValidateDAG's three-colour depth-first search, and the board built from a tasks list.
module Dag {
  import opened Graphs

  datatype Colour = Visiting | Done  // ids absent from the map are unseen

  datatype Group = Group(id: nat, dependsOn: seq<nat>)

  ghost predicate DistinctIds(groups: seq<Group>) {
    forall i, j :: 0 <= i < j < |groups| ==> groups[i].id != groups[j].id
  }

  /** byID: the dependency lists by group id. */
  function GraphOf(groups: seq<Group>): Graph {
    if groups == [] then map[]
    else GraphOf(groups[..|groups| - 1])[groups[|groups| - 1].id := groups[|groups| - 1].dependsOn]
  }

  lemma {:induction false} GraphOfKeys(groups: seq<Group>)
    ensures forall id :: id in GraphOf(groups) <==> exists i :: 0 <= i < |groups| && groups[i].id == id
    ensures DistinctIds(groups) ==> forall i :: 0 <= i < |groups| ==> GraphOf(groups)[groups[i].id] == groups[i].dependsOn
  {
    if groups != [] {
      var n := |groups| - 1;
      GraphOfKeys(groups[..n]);
      assert forall i :: 0 <= i < n ==> groups[..n][i] == groups[i];
    }
  }

  type Colours = map<nat, Colour>

  /** Done ids are closed under known dependencies, which turned Done earlier. */
  ghost predicate Explored(graph: Graph, state: Colours, rank: map<nat, nat>) {
    && (forall u :: u in state ==> u in graph)
    && (forall u :: u in rank <==> u in state && state[u] == Done)
    && (forall u :: u in rank ==> rank[u] < |rank|)
    && (forall u, v {:trigger Edge(graph, u, v)} :: Edge(graph, u, v) && u in rank ==> v in rank && rank[v] < rank[u])
  }

  /** The ids being visited form the path that led here. */
  ghost predicate Stack(graph: Graph, state: Colours, stack: seq<nat>) {
    && IsPath(graph, stack)
    && (forall u :: u in stack <==> u in state && state[u] == Visiting)
  }

  lemma Enter(graph: Graph, state: Colours, rank: map<nat, nat>, stack: seq<nat>, id: nat)
    requires Explored(graph, state, rank) && Stack(graph, state, stack) && id in graph && id !in state
    requires stack != [] ==> Edge(graph, stack[|stack| - 1], id)
    ensures Explored(graph, state[id := Visiting], rank) && Stack(graph, state[id := Visiting], stack + [id])
  {
  }

  lemma LeaveStack(graph: Graph, state: Colours, stack: seq<nat>, id: nat)
    requires Stack(graph, state, stack + [id]) && id !in stack
    ensures Stack(graph, state[id := Done], stack)
  {
    var path := stack + [id];
    forall i, j | 0 <= i < j < |stack| && j == i + 1 ensures Edge(graph, stack[i], stack[j]) {
      assert Edge(graph, path[i], path[j]);
    }
    assert forall u :: u in path <==> u in stack || u == id;
  }

  lemma LeaveExplored(graph: Graph, state: Colours, rank: map<nat, nat>, id: nat)
    requires Explored(graph, state, rank) && id in state && state[id] == Visiting
    requires forall v :: Edge(graph, id, v) ==> v in rank
    ensures Explored(graph, state[id := Done], rank[id := |rank|])
  {
    assert rank[id := |rank|].Keys == rank.Keys + {id};
  }

  /** The first n dependencies of id that are known are Done. */
  ghost predicate DepsDone(graph: Graph, rank: map<nat, nat>, id: nat, n: nat)
    requires id in graph && n <= |graph[id]|
  {
    forall j :: 0 <= j < n && graph[id][j] in graph ==> graph[id][j] in rank
  }

  lemma OneMoreDep(graph: Graph, before: map<nat, nat>, rank: map<nat, nat>, id: nat, n: nat)
    requires id in graph && n < |graph[id]| && DepsDone(graph, before, id, n) && forall u :: u in before ==> u in rank
    requires graph[id][n] in graph ==> graph[id][n] in rank
    ensures DepsDone(graph, rank, id, n + 1)
  {
  }

  lemma AllDepsDone(graph: Graph, rank: map<nat, nat>, id: nat)
    requires id in graph && DepsDone(graph, rank, id, |graph[id]|)
    ensures forall v :: Edge(graph, id, v) ==> v in rank
  {
  }

  class Validator {
    const graph: Graph
    var state: Colours
    ghost var rank: map<nat, nat>  // the order in which ids turned Done

    constructor (g: Graph)
      ensures graph == g && state == map[] && rank == map[]
    {
      graph := g;
      state := map[];
      rank := map[];
    }

    method Visit(id: nat, ghost stack: seq<nat>) returns (ok: bool)
      requires Explored(graph, state, rank) && Stack(graph, state, stack) && id in graph
      requires stack != [] ==> Edge(graph, stack[|stack| - 1], id)
      modifies this`state, this`rank
      ensures old(state.Keys) <= state.Keys && forall u :: u in old(rank) ==> u in rank
      ensures ok ==> Explored(graph, state, rank) && Stack(graph, state, stack) && id in rank
      ensures !ok ==> !Acyclic(graph)
      decreases graph.Keys - state.Keys, 0
    {
      if id in state && state[id] == Visiting {
        CycleThrough(graph, stack, id);
        return false;
      }
      if id in state {
        return true;
      }
      Enter(graph, state, rank, stack, id);
      state := state[id := Visiting];
      ok := VisitDeps(id, stack + [id]);
      if ok {
        LeaveStack(graph, state, stack, id);
        LeaveExplored(graph, state, rank, id);
        state := state[id := Done];
        rank := rank[id := |rank|];
      }
    }

    /** The loop over the dependencies of the id at the end of the path. */
    method VisitDeps(id: nat, ghost path: seq<nat>) returns (ok: bool)
      requires id in graph && path != [] && path[|path| - 1] == id
      requires Explored(graph, state, rank) && Stack(graph, state, path)
      modifies this`state, this`rank
      ensures old(state.Keys) <= state.Keys && forall u :: u in old(rank) ==> u in rank
      ensures ok ==> Explored(graph, state, rank) && Stack(graph, state, path)
      ensures ok ==> forall v :: Edge(graph, id, v) ==> v in rank
      ensures !ok ==> !Acyclic(graph)
      decreases graph.Keys - state.Keys, 1
    {
      for i := 0 to |graph[id]|
        invariant Explored(graph, state, rank) && Stack(graph, state, path)
        invariant old(state.Keys) <= state.Keys && forall u :: u in old(rank) ==> u in rank
        invariant DepsDone(graph, rank, id, i)
      {
        var dep := graph[id][i];
        ghost var before := rank;
        if dep in graph {
          ok := Visit(dep, path);
          if !ok {
            return;
          }
        }
        OneMoreDep(graph, before, rank, id, i);
      }
      AllDepsDone(graph, rank, id);
      ok := true;
    }

    /** The outer loop: visit every group from an empty path. */
    method VisitAll(groups: seq<Group>) returns (ok: bool)
      requires Explored(graph, state, rank) && Stack(graph, state, [])
      requires forall i :: 0 <= i < |groups| ==> groups[i].id in graph
      modifies this`state, this`rank
      ensures ok ==> Explored(graph, state, rank) && forall i :: 0 <= i < |groups| ==> groups[i].id in rank
      ensures !ok ==> !Acyclic(graph)
    {
      for k := 0 to |groups|
        invariant Explored(graph, state, rank) && Stack(graph, state, [])
        invariant forall i :: 0 <= i < k ==> groups[i].id in rank
      {
        ghost var before := rank;
        ok := Visit(groups[k].id, []);
        if !ok {
          return;
        }
        assert forall i :: 0 <= i < k ==> groups[i].id in before;
      }
      ok := true;
    }
  }

  /** Meeting an id that is being visited closes a cycle along the stack. */
  lemma CycleThrough(g: Graph, stack: seq<nat>, id: nat)
    requires IsPath(g, stack) && id in stack && Edge(g, stack[|stack| - 1], id)
    ensures !Acyclic(g)
  {
    var k :| 0 <= k < |stack| && stack[k] == id;
    assert IsCycle(g, stack[k..] + [id]);
  }

  /** ValidateDAG succeeds exactly when the graph restricted to known ids has no cycle;
      a group depending on itself is a cycle. */
  method ValidateDAG(groups: seq<Group>) returns (ok: bool)
    requires DistinctIds(groups)
    ensures ok <==> Acyclic(GraphOf(groups))
  {
    var graph := GraphOf(groups);
    GraphOfKeys(groups);
    var v := new Validator(graph);
    ok := v.VisitAll(groups);
    if ok {
      RankedIsAcyclic(graph, v.rank);
    }
  }

  // --- building the board ---

  datatype TaskSpec = TaskSpec(description: string, filesPattern: seq<string>)
  datatype Spec = Spec(name: string, dependsOn: seq<string>, tasks: seq<TaskSpec>)
  datatype BuildError = Cycle | EmptyDescription | EmptyFilesPattern
  datatype BuildResult = Built(groups: seq<Group>) | Rejected(error: BuildError)

  ghost predicate DistinctNames(specs: seq<Spec>) {
    forall i, j :: 0 <= i < j < |specs| ==> specs[i].name != specs[j].name
  }

  ghost predicate DistinctNats(ids: seq<nat>) {
    forall i, j :: 0 <= i < j < |ids| ==> ids[i] != ids[j]
  }

  predicate TaskOk(t: TaskSpec) { t.description != "" && t.filesPattern != [] }

  predicate AllOk(tasks: seq<TaskSpec>) {
    forall t :: t in tasks ==> TaskOk(t)
  }

  predicate TasksOk(specs: seq<Spec>) {
    forall i :: 0 <= i < |specs| ==> AllOk(specs[i].tasks)
  }

  /** idByName, filled in order: a repeated name keeps its last id. */
  function IdByName(specs: seq<Spec>, ids: seq<nat>): map<string, nat>
    requires |specs| == |ids|
  {
    if specs == [] then map[]
    else
      var n := |specs| - 1;
      IdByName(specs[..n], ids[..n])[specs[n].name := ids[n]]
  }

  lemma {:induction false} IdByNameKnown(specs: seq<Spec>, ids: seq<nat>, s: string) returns (i: nat)
    requires |specs| == |ids| && s in IdByName(specs, ids)
    ensures i < |specs| && specs[i].name == s && ids[i] == IdByName(specs, ids)[s]
  {
    var n := |specs| - 1;
    if s == specs[n].name {
      i := n;
    } else {
      i := IdByNameKnown(specs[..n], ids[..n], s);
    }
  }

  /** With distinct names, a dependency name stands for the id of the group that bears it. */
  lemma {:induction false} IdByNameAt(specs: seq<Spec>, ids: seq<nat>, i: nat)
    requires |specs| == |ids| && DistinctNames(specs) && i < |specs|
    ensures specs[i].name in IdByName(specs, ids) && IdByName(specs, ids)[specs[i].name] == ids[i]
  {
    var n := |specs| - 1;
    if i < n {
      IdByNameAt(specs[..n], ids[..n], i);
    }
  }

  /** Dependency names that are not groups of the list are dropped. */
  function Resolve(names: seq<string>, idByName: map<string, nat>): (deps: seq<nat>)
    ensures forall d :: d in deps ==> exists s :: s in idByName && idByName[s] == d
  {
    if names == [] then []
    else
      var n := |names| - 1;
      Resolve(names[..n], idByName) + if names[n] in idByName then [idByName[names[n]]] else []
  }

  predicate Rising(at: seq<nat>) {
    forall j, k :: 0 <= j < k < |at| ==> at[j] < at[k]
  }

  /** d is what the name at place i stands for. */
  predicate StandsFor(names: seq<string>, idByName: map<string, nat>, i: nat, d: nat) {
    i < |names| && names[i] in idByName && d == idByName[names[i]]
  }

  /** The dependencies in list order, one for each name that stands for a group: at[k] is the place of the
      name behind the k-th of them, the places rise, and no known name is passed over. */
  ghost predicate Lists(names: seq<string>, idByName: map<string, nat>, deps: seq<nat>, at: seq<nat>) {
    && |at| == |deps| && Rising(at)
    && (forall k :: 0 <= k < |at| ==> StandsFor(names, idByName, at[k], deps[k]))
    && (forall i: nat :: i < |names| && names[i] in idByName ==> i in at)
  }

  lemma ListsSkip(names: seq<string>, name: string, idByName: map<string, nat>, deps: seq<nat>, at: seq<nat>)
    requires Lists(names, idByName, deps, at) && name !in idByName
    ensures Lists(names + [name], idByName, deps, at)
  {
    forall k | 0 <= k < |at| ensures StandsFor(names + [name], idByName, at[k], deps[k]) {
      assert StandsFor(names, idByName, at[k], deps[k]);
    }
  }

  lemma ListsTake(names: seq<string>, name: string, idByName: map<string, nat>, deps: seq<nat>, at: seq<nat>)
    requires Lists(names, idByName, deps, at) && name in idByName
    ensures Lists(names + [name], idByName, deps + [idByName[name]], at + [|names|])
  {
    var n, at', deps' := |names|, at + [|names|], deps + [idByName[name]];
    forall k | 0 <= k < |at'| ensures StandsFor(names + [name], idByName, at'[k], deps'[k]) {
      if k < |at| {
        assert StandsFor(names, idByName, at[k], deps[k]);
      }
    }
    forall j, k | 0 <= j < k < |at'| ensures at'[j] < at'[k] {
      assert StandsFor(names, idByName, at[j], deps[j]);
    }
    assert at'[|at|] == n;
    forall i: nat | i < n + 1 && (names + [name])[i] in idByName ensures i in at' {
      if i < n {
        assert i in at;
      }
    }
  }

  lemma {:induction false} ResolveLists(names: seq<string>, idByName: map<string, nat>) returns (at: seq<nat>)
    ensures Lists(names, idByName, Resolve(names, idByName), at)
  {
    at := [];
    if names != [] {
      var n := |names| - 1;
      at := ResolveLists(names[..n], idByName);
      assert names == names[..n] + [names[n]];
      if names[n] in idByName {
        ListsTake(names[..n], names[n], idByName, Resolve(names[..n], idByName), at);
        at := at + [n];
      } else {
        ListsSkip(names[..n], names[n], idByName, Resolve(names[..n], idByName), at);
      }
    }
  }

  /** The board of a whole tasks list, validated or not. */
  function FullBoard(specs: seq<Spec>, ids: seq<nat>): (b: seq<Group>)
    requires |specs| == |ids|
    ensures |b| == |specs|
    ensures forall i :: 0 <= i < |b| ==> b[i] == Group(ids[i], Resolve(specs[i].dependsOn, IdByName(specs, ids)))
  {
    seq(|specs|, i requires 0 <= i < |specs| => Group(ids[i], Resolve(specs[i].dependsOn, IdByName(specs, ids))))
  }

  /** The graph of a prefix of the board has no edge that the whole board lacks. */
  lemma {:induction false} PrefixAcyclic(groups: seq<Group>, n: nat)
    requires DistinctIds(groups) && n <= |groups| && Acyclic(GraphOf(groups))
    ensures Acyclic(GraphOf(groups[..n]))
  {
    GraphOfKeys(groups);
    GraphOfKeys(groups[..n]);
    assert forall i :: 0 <= i < n ==> groups[..n][i] == groups[i];
    SubgraphAcyclic(GraphOf(groups), GraphOf(groups[..n]));
  }

  predicate Violates(t: TaskSpec, error: BuildError) {
    (error == EmptyDescription && t.description == "") || (error == EmptyFilesPattern && t.filesPattern == [])
  }

  method CheckTasks(tasks: seq<TaskSpec>) returns (ok: bool, error: BuildError)
    ensures ok <==> AllOk(tasks)
    ensures !ok ==> exists t :: t in tasks && Violates(t, error)
  {
    error := EmptyDescription;
    for k := 0 to |tasks|
      invariant forall j :: 0 <= j < k ==> TaskOk(tasks[j])
    {
      assert tasks[k] in tasks;
      if tasks[k].description == "" {
        return false, EmptyDescription;
      }
      if tasks[k].filesPattern == [] {
        return false, EmptyFilesPattern;
      }
    }
    ok := true;
  }

  method NameIds(specs: seq<Spec>, ids: seq<nat>) returns (m: map<string, nat>)
    requires |specs| == |ids|
    ensures m == IdByName(specs, ids)
  {
    m := map[];
    for k := 0 to |specs|
      invariant m == IdByName(specs[..k], ids[..k])
    {
      assert specs[..k + 1][..k] == specs[..k] && ids[..k + 1][..k] == ids[..k];
      m := m[specs[k].name := ids[k]];
    }
    assert specs[..|specs|] == specs && ids[..|ids|] == ids;
  }

  method ResolveDeps(names: seq<string>, idByName: map<string, nat>) returns (deps: seq<nat>)
    ensures deps == Resolve(names, idByName) && exists at :: Lists(names, idByName, deps, at)
  {
    deps := [];
    for k := 0 to |names|
      invariant deps == Resolve(names[..k], idByName)
    {
      assert names[..k + 1][..k] == names[..k];
      if names[k] in idByName {
        deps := deps + [idByName[names[k]]];
      }
    }
    assert names[..|names|] == names;
    ghost var at := ResolveLists(names, idByName);
  }

  // --- the board by names ---

  lemma {:induction false} DependsById(specs: seq<Spec>, ids: seq<nat>, i: nat, j: nat)
    requires |specs| == |ids| && DistinctNames(specs) && DistinctNats(ids) && i < |specs| && j < |specs|
    ensures ids[j] in FullBoard(specs, ids)[i].dependsOn <==> specs[j].name in specs[i].dependsOn
  {
    var m, names := IdByName(specs, ids), specs[i].dependsOn;
    var deps := FullBoard(specs, ids)[i].dependsOn;
    var at := ResolveLists(names, m);
    IdByNameAt(specs, ids, j);
    if ids[j] in deps {
      var k :| 0 <= k < |deps| && deps[k] == ids[j];
      var x := IdByNameKnown(specs, ids, names[at[k]]);
      assert x == j;
    }
    if specs[j].name in names {
      var n: nat :| n < |names| && names[n] == specs[j].name;
      assert n in at;
      var k :| 0 <= k < |at| && at[k] == n;
      assert deps[k] == ids[j];
    }
  }

  /** One group per entry of the list, waiting for exactly the entries it names. */
  ghost predicate BoardByNames(specs: seq<Spec>, ids: seq<nat>, board: seq<Group>)
    requires |specs| == |ids|
  {
    && |board| == |specs| && (forall i :: 0 <= i < |specs| ==> board[i].id == ids[i])
    && forall i, j :: 0 <= i < |specs| && 0 <= j < |specs| ==>
         (ids[j] in board[i].dependsOn <==> specs[j].name in specs[i].dependsOn)
  }

  lemma {:induction false} BuiltByNames(specs: seq<Spec>, ids: seq<nat>)
    requires |specs| == |ids| && DistinctNames(specs) && DistinctNats(ids)
    ensures BoardByNames(specs, ids, FullBoard(specs, ids))
  {
    forall i, j | 0 <= i < |specs| && 0 <= j < |specs|
      ensures ids[j] in FullBoard(specs, ids)[i].dependsOn <==> specs[j].name in specs[i].dependsOn
    {
      DependsById(specs, ids, i, j);
    }
  }

  /** With distinct names and ids, one group waits for another on the board exactly if its list names it. */
  lemma {:induction false} EdgeIffNamed(specs: seq<Spec>, ids: seq<nat>, i: nat, j: nat)
    requires |specs| == |ids| && DistinctNames(specs) && DistinctNats(ids) && i < |specs| && j < |specs|
    ensures Edge(GraphOf(FullBoard(specs, ids)), ids[i], ids[j]) <==> specs[j].name in specs[i].dependsOn
  {
    var board := FullBoard(specs, ids);
    GraphOfKeys(board);
    assert board[i].id == ids[i] && board[j].id == ids[j];
    DependsById(specs, ids, i, j);
  }

  /** Groups of the list in a circle, each naming the next among its dependencies. */
  ghost predicate NameCycle(specs: seq<Spec>, p: seq<nat>) {
    && |p| >= 2 && p[0] == p[|p| - 1] && (forall k :: 0 <= k < |p| ==> p[k] < |specs|)
    && forall k, l :: 0 <= k < l < |p| && l == k + 1 ==> specs[p[l]].name in specs[p[k]].dependsOn
  }

  ghost predicate NoNameCycle(specs: seq<Spec>) {
    forall p :: !NameCycle(specs, p)
  }

  lemma {:induction false} NameCycleIsCycle(specs: seq<Spec>, ids: seq<nat>, p: seq<nat>)
    requires |specs| == |ids| && DistinctNames(specs) && DistinctNats(ids) && NameCycle(specs, p)
    ensures !Acyclic(GraphOf(FullBoard(specs, ids)))
  {
    var g := GraphOf(FullBoard(specs, ids));
    var q := seq(|p|, k requires 0 <= k < |p| => ids[p[k]]);
    forall k, l | 0 <= k < l < |q| && l == k + 1 ensures Edge(g, q[k], q[l]) {
      EdgeIffNamed(specs, ids, p[k], p[l]);
    }
    assert IsCycle(g, q);
  }

  lemma {:induction false} KnownAt(specs: seq<Spec>, ids: seq<nat>, q: seq<nat>) returns (p: seq<nat>)
    requires |specs| == |ids| && forall k :: 0 <= k < |q| ==> q[k] in GraphOf(FullBoard(specs, ids))
    ensures |p| == |q| && forall k :: 0 <= k < |p| ==> p[k] < |ids| && ids[p[k]] == q[k]
  {
    var board := FullBoard(specs, ids);
    GraphOfKeys(board);
    p := [];
    for k := 0 to |q|
      invariant |p| == k && forall j :: 0 <= j < k ==> p[j] < |ids| && ids[p[j]] == q[j]
    {
      var i: nat :| i < |board| && board[i].id == q[k];
      p := p + [i];
    }
  }

  lemma {:induction false} CycleIsNameCycle(specs: seq<Spec>, ids: seq<nat>, q: seq<nat>)
    requires |specs| == |ids| && DistinctNames(specs) && DistinctNats(ids) && IsCycle(GraphOf(FullBoard(specs, ids)), q)
    ensures !NoNameCycle(specs)
  {
    var g := GraphOf(FullBoard(specs, ids));
    forall k | 0 <= k < |q| ensures q[k] in g {
      assert if k + 1 < |q| then Edge(g, q[k], q[k + 1]) else Edge(g, q[k - 1], q[k]);
    }
    var p := KnownAt(specs, ids, q);
    forall k, l | 0 <= k < l < |p| && l == k + 1 ensures specs[p[l]].name in specs[p[k]].dependsOn {
      assert Edge(g, q[k], q[l]);
      EdgeIffNamed(specs, ids, p[k], p[l]);
    }
    assert NameCycle(specs, p);
  }

  /** The board has a cycle exactly if the list has one by names. */
  lemma {:induction false} CyclesByName(specs: seq<Spec>, ids: seq<nat>)
    requires |specs| == |ids| && DistinctNames(specs) && DistinctNats(ids)
    ensures Acyclic(GraphOf(FullBoard(specs, ids))) <==> NoNameCycle(specs)
  {
    if p :| NameCycle(specs, p) {
      NameCycleIsCycle(specs, ids, p);
    } else {
      forall q | IsCycle(GraphOf(FullBoard(specs, ids)), q) ensures false {
        CycleIsNameCycle(specs, ids, q);
      }
    }
  }

  /** One more group: its tasks are checked, its dependencies resolved, and the longer board validated. */
  method AddGroup(specs: seq<Spec>, ids: seq<nat>, i: nat, idByName: map<string, nat>, board: seq<Group>) returns (r: BuildResult)
    requires |specs| == |ids| && DistinctNats(ids) && i < |specs| && idByName == IdByName(specs, ids)
    requires board == FullBoard(specs, ids)[..i]
    ensures r.Built? ==> AllOk(specs[i].tasks) && r.groups == FullBoard(specs, ids)[..i + 1] && Acyclic(GraphOf(r.groups))
    ensures r == Rejected(Cycle) ==> !Acyclic(GraphOf(FullBoard(specs, ids)))
    ensures r.Rejected? && r.error != Cycle ==> exists t :: t in specs[i].tasks && Violates(t, r.error)
  {
    var deps := ResolveDeps(specs[i].dependsOn, idByName);
    var ok, error := CheckTasks(specs[i].tasks);
    if !ok {
      return Rejected(error);
    }
    var extended := board + [Group(ids[i], deps)];
    NextGroup(specs, ids, i);
    ok := ValidateDAG(extended);
    if !ok {
      PrefixCycle(specs, ids, i + 1);
      return Rejected(Cycle);
    }
    r := Built(extended);
  }

  lemma {:induction false} NextGroup(specs: seq<Spec>, ids: seq<nat>, i: nat)
    requires |specs| == |ids| && i < |specs|
    ensures FullBoard(specs, ids)[..i] + [Group(ids[i], Resolve(specs[i].dependsOn, IdByName(specs, ids)))]
            == FullBoard(specs, ids)[..i + 1]
  {
  }

  /** If a prefix of the full board has a cycle, so has the full board. */
  lemma PrefixCycle(specs: seq<Spec>, ids: seq<nat>, n: nat)
    requires |specs| == |ids| && DistinctNats(ids) && n <= |specs|
    requires !Acyclic(GraphOf(FullBoard(specs, ids)[..n]))
    ensures !Acyclic(GraphOf(FullBoard(specs, ids)))
  {
    if Acyclic(GraphOf(FullBoard(specs, ids))) {
      PrefixAcyclic(FullBoard(specs, ids), n);
    }
  }

  lemma StillViolates(specs: seq<Spec>, i: nat, error: BuildError)
    requires i < |specs| && exists t :: t in specs[i].tasks && Violates(t, error)
    ensures !TasksOk(specs)
    ensures exists k, t :: 0 <= k < |specs| && t in specs[k].tasks && Violates(t, error)
  {
    var t :| t in specs[i].tasks && Violates(t, error);
    assert !AllOk(specs[i].tasks);
  }

  /** buildBoard validates after every group, yet it accepts exactly the lists whose tasks are valid and
      in which no groups name each other in a circle, and then returns the whole board: one group per
      entry, waiting for exactly the entries it names. */
  method BuildBoard(specs: seq<Spec>, ids: seq<nat>) returns (r: BuildResult)
    requires |specs| == |ids| && DistinctNames(specs) && DistinctNats(ids)
    ensures r.Built? <==> TasksOk(specs) && NoNameCycle(specs)
    ensures r.Built? ==> r.groups == FullBoard(specs, ids) && BoardByNames(specs, ids, r.groups)
    ensures r == Rejected(Cycle) ==> !NoNameCycle(specs)
    ensures r.Rejected? && r.error != Cycle ==>
              exists i, t :: 0 <= i < |specs| && t in specs[i].tasks && Violates(t, r.error)
  {
    CyclesByName(specs, ids);
    var idByName := NameIds(specs, ids);
    var board: seq<Group> := [];
    RankedIsAcyclic(GraphOf([]), map[]);
    for i := 0 to |specs|
      invariant board == FullBoard(specs, ids)[..i] && Acyclic(GraphOf(board))
      invariant forall k :: 0 <= k < i ==> AllOk(specs[k].tasks)
    {
      r := AddGroup(specs, ids, i, idByName, board);
      if r.Rejected? {
        if r.error != Cycle {
          StillViolates(specs, i, r.error);
        }
        return;
      }
      board := r.groups;
    }
    assert board == FullBoard(specs, ids);
    BuiltByNames(specs, ids);
    r := Built(board);
  }

  /** Every dependency of a built board is the id of one of its groups. */
  lemma DependenciesKnown(specs: seq<Spec>, ids: seq<nat>, i: nat, d: nat)
    requires |specs| == |ids| && i < |specs| && d in FullBoard(specs, ids)[i].dependsOn
    ensures d in GraphOf(FullBoard(specs, ids))
  {
    GraphOfKeys(FullBoard(specs, ids));
    var s :| s in IdByName(specs, ids) && IdByName(specs, ids)[s] == d;
    var k := IdByNameKnown(specs, ids, s);
    assert FullBoard(specs, ids)[k].id == d;
  }

  // --- positions instead of ids ---

  function PositionOf(groups: seq<Group>, id: nat): (k: nat)
    ensures k <= |groups|
    ensures k < |groups| ==> groups[k].id == id
    ensures k == |groups| ==> forall i :: 0 <= i < |groups| ==> groups[i].id != id
  {
    if groups == [] then 0
    else if groups[0].id == id then 0
    else 1 + PositionOf(groups[1..], id)
  }

  function Positions(groups: seq<Group>, deps: seq<nat>): (ps: seq<nat>)
    ensures |ps| == |deps| && forall k :: 0 <= k < |ps| ==> ps[k] == PositionOf(groups, deps[k])
  {
    seq(|deps|, k requires 0 <= k < |deps| => PositionOf(groups, deps[k]))
  }

  function PositionGraph(groups: seq<Group>): Graph {
    map g | 0 <= g < |groups| :: Positions(groups, groups[g].dependsOn)
  }

  lemma {:induction false} EdgeById(groups: seq<Group>, u: nat, v: nat)
    requires DistinctIds(groups) && Edge(PositionGraph(groups), u, v)
    ensures u < |groups| && v < |groups| && Edge(GraphOf(groups), groups[u].id, groups[v].id)
  {
    GraphOfKeys(groups);
    var ps := Positions(groups, groups[u].dependsOn);
    var k :| 0 <= k < |ps| && ps[k] == v;
    assert groups[v].id == groups[u].dependsOn[k];
  }

  lemma CycleById(groups: seq<Group>, p: seq<nat>) returns (q: seq<nat>)
    requires DistinctIds(groups) && IsCycle(PositionGraph(groups), p)
    ensures IsCycle(GraphOf(groups), q)
  {
    assert Edge(PositionGraph(groups), p[0], p[1]);
    q := seq(|p|, i requires 0 <= i < |p| => if p[i] < |groups| then groups[p[i]].id else 0);
    forall i, j | 0 <= i < j < |q| && j == i + 1 ensures Edge(GraphOf(groups), q[i], q[j]) {
      EdgeById(groups, p[i], p[j]);
    }
  }

  /** Naming groups by position rather than by id creates no cycle. */
  lemma {:induction false} PositionsAcyclic(groups: seq<Group>)
    requires DistinctIds(groups) && Acyclic(GraphOf(groups))
    ensures Acyclic(PositionGraph(groups))
  {
    forall p | IsCycle(PositionGraph(groups), p) ensures false {
      var q := CycleById(groups, p);
    }
  }
}
