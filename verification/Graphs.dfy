// Dependency graphs between groups: who waits for whom. Dependencies on ids that
// are not in the graph are kept in the adjacency lists but are not edges.
module Graphs {

  type Graph = map<nat, seq<nat>>

  predicate Edge(g: Graph, u: nat, v: nat) {
    u in g && v in g && v in g[u]
  }

  ghost predicate IsPath(g: Graph, p: seq<nat>) {
    forall i, j :: 0 <= i < j < |p| && j == i + 1 ==> Edge(g, p[i], p[j])
  }

  ghost predicate IsCycle(g: Graph, p: seq<nat>) {
    |p| >= 2 && IsPath(g, p) && p[0] == p[|p| - 1]
  }

  ghost predicate Acyclic(g: Graph) {
    forall p :: !IsCycle(g, p)
  }

  lemma {:induction false} Pigeonhole(p: seq<nat>, b: set<nat>) returns (i: nat, j: nat)
    requires forall k :: 0 <= k < |p| ==> p[k] in b
    requires |p| > |b|
    ensures i < j < |p| && p[i] == p[j]
    decreases |p|
  {
    var last := |p| - 1;
    if k: nat :| k < last && p[k] == p[last] {
      i, j := k, last;
    } else {
      i, j := Pigeonhole(p[..last], b - {p[last]});
    }
  }

  /** Every node of `next` has an edge to the node it maps to, which is again in `next`. */
  ghost predicate Chained(g: Graph, next: map<nat, nat>) {
    forall u {:trigger next[u]} :: u in next ==> next[u] in next && Edge(g, u, next[u])
  }

  lemma {:induction false} ChainWalk(g: Graph, next: map<nat, nat>, start: nat, n: nat) returns (p: seq<nat>)
    requires start in next && Chained(g, next)
    ensures |p| == n + 1 && IsPath(g, p)
    ensures forall k :: 0 <= k < |p| ==> p[k] in next.Keys
  {
    if n == 0 {
      p := [start];
    } else {
      var q := ChainWalk(g, next, start, n - 1);
      p := q + [next[q[n - 1]]];
    }
  }

  lemma SlicedPath(g: Graph, p: seq<nat>, i: nat, j: nat)
    requires IsPath(g, p) && i <= j <= |p|
    ensures IsPath(g, p[i..j])
  {
    var q := p[i..j];
    forall k, l | 0 <= k < l < |q| && l == k + 1 ensures Edge(g, q[k], q[l]) {
      assert Edge(g, p[i + k], p[i + l]);
    }
  }

  /** A nonempty set of groups each waiting for a member of the set contains a cycle. */
  lemma ChainHasCycle(g: Graph, next: map<nat, nat>, start: nat)
    requires start in next && Chained(g, next)
    ensures !Acyclic(g)
  {
    var p := ChainWalk(g, next, start, |next.Keys|);
    var i, j := Pigeonhole(p, next.Keys);
    SlicedPath(g, p, i, j + 1);
    assert IsCycle(g, p[i..j + 1]);
  }

  ghost predicate WaitsInside(g: Graph, nodes: set<nat>, u: nat) {
    exists v :: v in nodes && Edge(g, u, v)
  }

  ghost function Awaited(g: Graph, nodes: set<nat>, u: nat): (v: nat)
    requires WaitsInside(g, nodes, u)
    ensures v in nodes && Edge(g, u, v)
  {
    var v :| v in nodes && Edge(g, u, v); v
  }

  /** In an acyclic graph every nonempty set of groups has one that waits for none of the set. */
  lemma WaitsForNone(g: Graph, nodes: set<nat>) returns (u: nat)
    requires Acyclic(g) && nodes != {}
    ensures u in nodes && !WaitsInside(g, nodes, u)
  {
    u :| u in nodes;
    if forall x :: x in nodes ==> WaitsInside(g, nodes, x) {
      var next := map x | x in nodes :: Awaited(g, nodes, x);
      assert Chained(g, next);
      ChainHasCycle(g, next, u);
    } else {
      u :| u in nodes && !WaitsInside(g, nodes, u);
    }
  }

  /** A graph whose edges all go down in some rank has no cycle. */
  lemma {:induction false} RankFalls(g: Graph, rank: map<nat, nat>, p: seq<nat>)
    requires |p| >= 2 && IsPath(g, p)
    requires forall u, v :: Edge(g, u, v) ==> u in rank && v in rank && rank[v] < rank[u]
    ensures p[0] in rank && p[|p| - 1] in rank && rank[p[|p| - 1]] < rank[p[0]]
    decreases |p|
  {
    assert Edge(g, p[0], p[1]);
    if |p| > 2 {
      RankFalls(g, rank, p[1..]);
    }
  }

  lemma RankedIsAcyclic(g: Graph, rank: map<nat, nat>)
    requires forall u, v :: Edge(g, u, v) ==> u in rank && v in rank && rank[v] < rank[u]
    ensures Acyclic(g)
  {
    forall p | IsCycle(g, p) ensures false {
      RankFalls(g, rank, p);
    }
  }

  /** Edges of a subgraph are edges of the graph, so removing groups cannot create a cycle. */
  lemma SubgraphAcyclic(g: Graph, h: Graph)
    requires Acyclic(g)
    requires forall u, v :: Edge(h, u, v) ==> Edge(g, u, v)
    ensures Acyclic(h)
  {
    forall p | IsCycle(h, p) ensures false {
      assert IsCycle(g, p);
    }
  }
}
