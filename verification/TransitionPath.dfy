// transitionPath: breadth-first search over a guard map, for any finite set of statuses.
module TransitionPath {

  // allowed[u] is the set of direct targets of u; a status without an entry has none.
  type Guard<T(==)> = map<T, set<T>>

  predicate Hop<T(==)>(allowed: Guard<T>, u: T, v: T) {
    u in allowed && v in allowed[u]
  }

  /** p lists successive targets, each one legal hop after the one before, starting after u. */
  predicate Legal<T(==)>(allowed: Guard<T>, u: T, p: seq<T>) {
    p == [] || (Hop(allowed, u, p[0]) && Legal(allowed, p[0], p[1..]))
  }

  function End<T>(u: T, p: seq<T>): T {
    if p == [] then u else p[|p| - 1]
  }

  predicate Leads<T(==)>(allowed: Guard<T>, u: T, v: T, p: seq<T>) {
    Legal(allowed, u, p) && End(u, p) == v
  }

  ghost predicate Reaches<T(!new)>(allowed: Guard<T>, u: T, v: T) {
    exists p :: Leads(allowed, u, v, p)
  }

  // --- what the search knows ---

  /** Each discovered status was reached by one hop from a status one step nearer. */
  ghost predicate Tree<T(!new)>(allowed: Guard<T>, from: T, prev: map<T, T>, dist: map<T, nat>) {
    && from in dist && dist[from] == 0 && from !in prev
    && (forall v :: v in dist ==> v == from || v in prev)
    && (forall v {:trigger prev[v]} :: v in prev ==> v in dist && prev[v] in dist
                                                     && dist[v] == dist[prev[v]] + 1 && Hop(allowed, prev[v], v))
  }

  /** All targets of u have been discovered, no later than one step after u. */
  ghost predicate Expanded<T(!new)>(allowed: Guard<T>, dist: map<T, nat>, u: T) {
    u in dist && forall v :: Hop(allowed, u, v) ==> v in dist && dist[v] <= dist[u] + 1
  }

  /** Nothing is farther than d + 1; the queue holds discovered statuses from d on, nearest first. */
  ghost predicate Layered<T(!new)>(dist: map<T, nat>, queue: seq<T>, d: nat) {
    && (forall x :: x in dist ==> dist[x] <= d + 1)
    && (forall i :: 0 <= i < |queue| ==> queue[i] in dist && d <= dist[queue[i]])
    && (forall i, j :: 0 <= i < j < |queue| ==> dist[queue[i]] <= dist[queue[j]])
  }

  /** Everything nearer than d is expanded, so a legal path of at most d hops stays discovered. */
  lemma {:induction false} NearIsDiscovered<T(!new)>(allowed: Guard<T>, dist: map<T, nat>, d: nat, u: T, p: seq<T>)
    requires u in dist && dist[u] + |p| <= d && Legal(allowed, u, p)
    requires forall x :: x in dist && dist[x] < d ==> Expanded(allowed, dist, x)
    ensures End(u, p) in dist
    decreases |p|
  {
    if p != [] {
      assert Expanded(allowed, dist, u);
      NearIsDiscovered(allowed, dist, d, p[0], p[1..]);
    }
  }

  lemma {:induction false} ClosedIsDiscovered<T(!new)>(allowed: Guard<T>, dist: map<T, nat>, u: T, p: seq<T>)
    requires u in dist && Legal(allowed, u, p)
    requires forall x :: x in dist ==> Expanded(allowed, dist, x)
    ensures End(u, p) in dist
    decreases |p|
  {
    if p != [] {
      assert Expanded(allowed, dist, u);
      ClosedIsDiscovered(allowed, dist, p[0], p[1..]);
    }
  }

  // --- reconstruct ---

  function Backwards<T>(s: seq<T>): (r: seq<T>)
    ensures |r| == |s| && forall k :: 0 <= k < |s| ==> r[k] == s[|s| - 1 - k]
  {
    seq(|s|, k requires 0 <= k < |s| => s[|s| - 1 - k])
  }

  method ReversePath<T>(a: array<T>)
    modifies a
    ensures a[..] == Backwards(old(a[..]))
  {
    var i, j := 0, a.Length - 1;
    while i < j
      invariant 0 <= i && j == a.Length - 1 - i && i <= j + 1
      invariant forall k :: 0 <= k < i ==> a[k] == old(a[a.Length - 1 - k]) && a[a.Length - 1 - k] == old(a[k])
      invariant forall k :: i <= k <= j ==> a[k] == old(a[k])
    {
      a[i], a[j] := a[j], a[i];
      i, j := i + 1, j - 1;
    }
  }

  /** Follow prev from `to` back to `from`, then reverse. The chain ends because every link goes
      one step nearer. */
  method Reconstruct<T(!new)>(allowed: Guard<T>, prev: map<T, T>, from: T, to: T, ghost dist: map<T, nat>)
      returns (path: seq<T>)
    requires Tree(allowed, from, prev, dist) && to in dist
    ensures Leads(allowed, from, to, path) && |path| == dist[to]
  {
    var rev: seq<T> := [];
    var cur := to;
    while cur != from
      invariant cur in dist && |rev| + dist[cur] == dist[to]
      invariant Leads(allowed, cur, to, Backwards(rev))
      decreases dist[cur]
    {
      assert Backwards(rev + [cur]) == [cur] + Backwards(rev);
      assert ([cur] + Backwards(rev))[1..] == Backwards(rev);
      rev := rev + [cur];
      cur := prev[cur];
    }
    var a := new T[|rev|](i requires 0 <= i < |rev| => rev[i]);
    assert a[..] == rev;
    ReversePath(a);
    path := a[..];
  }

  // --- the search ---

  /** orderedTargets: the direct targets of cur in the given order. */
  function OrderedTargets<T(==, !new)>(allowed: Guard<T>, order: seq<T>, cur: T): (ts: seq<T>)
    ensures forall v :: v in ts <==> v in order && Hop(allowed, cur, v)
  {
    if order == [] then []
    else if Hop(allowed, cur, order[0]) then [order[0]] + OrderedTargets(allowed, order[1..], cur)
    else OrderedTargets(allowed, order[1..], cur)
  }

  predicate Rising(at: seq<nat>) {
    forall i, j :: 0 <= i < j < |at| ==> at[i] < at[j]
  }

  function Shifted(at: seq<nat>): (r: seq<nat>)
    ensures |r| == |at| && forall i :: 0 <= i < |at| ==> r[i] == at[i] + 1
  {
    seq(|at|, i requires 0 <= i < |at| => at[i] + 1)
  }

  /** ts stands in order at these places. */
  predicate StandsAt<T(==)>(order: seq<T>, ts: seq<T>, at: seq<nat>) {
    |at| == |ts| && Rising(at) && forall i :: 0 <= i < |ts| ==> at[i] < |order| && order[at[i]] == ts[i]
  }

  lemma StandsLater<T>(x: T, order: seq<T>, ts: seq<T>, at: seq<nat>)
    requires StandsAt(order, ts, at)
    ensures StandsAt([x] + order, ts, Shifted(at))
  {
  }

  lemma StandsFirst<T>(x: T, order: seq<T>, ts: seq<T>, at: seq<nat>)
    requires StandsAt(order, ts, at)
    ensures StandsAt([x] + order, [x] + ts, [0] + Shifted(at))
  {
  }

  /** They come as they stand in the order. */
  lemma {:induction false} TargetsKeepOrder<T(!new)>(allowed: Guard<T>, order: seq<T>, cur: T) returns (at: seq<nat>)
    ensures StandsAt(order, OrderedTargets(allowed, order, cur), at)
  {
    if order == [] {
      at := [];
    } else {
      var ts := OrderedTargets(allowed, order[1..], cur);
      at := TargetsKeepOrder(allowed, order[1..], cur);
      assert [order[0]] + order[1..] == order;
      if Hop(allowed, cur, order[0]) {
        StandsFirst(order[0], order[1..], ts, at);
        at := [0] + Shifted(at);
      } else {
        StandsLater(order[0], order[1..], ts, at);
        at := Shifted(at);
      }
    }
  }

  /** Every discovered status other than `but` is expanded unless it is still queued. */
  ghost predicate Swept<T(!new)>(allowed: Guard<T>, dist: map<T, nat>, queue: seq<T>, but: set<T>) {
    forall x :: x in dist && x !in but && x !in queue ==> Expanded(allowed, dist, x)
  }

  lemma SweptGrows<T(!new)>(allowed: Guard<T>, dist: map<T, nat>, queue: seq<T>, but: set<T>, v: T, d: nat)
    requires Swept(allowed, dist, queue, but) && v !in dist
    ensures Swept(allowed, dist[v := d], queue + [v], but)
  {
    var dist' := dist[v := d];
    assert (queue + [v])[|queue|] == v;
    forall x | x in dist' && x !in but && x !in queue + [v] ensures Expanded(allowed, dist', x) {
      assert x !in queue;
      assert Expanded(allowed, dist, x);
    }
  }

  lemma LayeredGrows<T(!new)>(dist: map<T, nat>, queue: seq<T>, d: nat, v: T)
    requires Layered(dist, queue, d) && v !in dist
    ensures Layered(dist[v := d + 1], queue + [v], d)
  {
  }

  lemma TreeGrows<T(!new)>(allowed: Guard<T>, from: T, prev: map<T, T>, dist: map<T, nat>, cur: T, v: T)
    requires Tree(allowed, from, prev, dist) && cur in dist && Hop(allowed, cur, v) && v !in dist
    ensures Tree(allowed, from, prev[v := cur], dist[v := dist[cur] + 1])
  {
    var prev', dist' := prev[v := cur], dist[v := dist[cur] + 1];
    forall x | x in prev'
      ensures x in dist' && prev'[x] in dist' && dist'[x] == dist'[prev'[x]] + 1 && Hop(allowed, prev'[x], x)
    {
      if x != v {
        assert prev[x] in dist;
      }
    }
  }

  /** Discovering one more status at the next layer keeps everything the search knows. */
  lemma Discover<T(!new)>(allowed: Guard<T>, from: T, prev: map<T, T>, dist: map<T, nat>, queue: seq<T>, cur: T, v: T)
    requires Tree(allowed, from, prev, dist) && cur in dist && Hop(allowed, cur, v) && v !in dist
    requires Layered(dist, queue, dist[cur]) && Swept(allowed, dist, queue, {cur})
    ensures Tree(allowed, from, prev[v := cur], dist[v := dist[cur] + 1])
    ensures Layered(dist[v := dist[cur] + 1], queue + [v], dist[cur])
    ensures Swept(allowed, dist[v := dist[cur] + 1], queue + [v], {cur})
  {
    TreeGrows(allowed, from, prev, dist, cur, v);
    SweptGrows(allowed, dist, queue, {cur}, v, dist[cur] + 1);
    LayeredGrows(dist, queue, dist[cur], v);
  }

  /** The first k targets have been discovered, no later than at distance d. */
  ghost predicate Seen<T(!new)>(dist: map<T, nat>, targets: seq<T>, k: nat, d: nat)
    requires k <= |targets|
  {
    forall i :: 0 <= i < k ==> targets[i] in dist && dist[targets[i]] <= d
  }

  lemma SeenGrows<T(!new)>(dist: map<T, nat>, targets: seq<T>, k: nat, d: nat)
    requires k < |targets| && Seen(dist, targets, k, d)
    ensures targets[k] in dist && dist[targets[k]] <= d ==> Seen(dist, targets, k + 1, d)
    ensures targets[k] !in dist ==> Seen(dist[targets[k] := d], targets, k + 1, d)
  {
  }

  /** When all its targets have been seen, cur needs no exception any more. */
  lemma AllSeen<T(!new)>(allowed: Guard<T>, dist: map<T, nat>, queue: seq<T>, cur: T, targets: seq<T>)
    requires cur in dist && Seen(dist, targets, |targets|, dist[cur] + 1) && Swept(allowed, dist, queue, {cur})
    requires forall v :: Hop(allowed, cur, v) ==> v in targets
    ensures Swept(allowed, dist, queue, {})
  {
    assert Expanded(allowed, dist, cur);
    forall x | x in dist && x !in queue ensures Expanded(allowed, dist, x) {
    }
  }

  /** The inner loop: discover the targets of cur, stopping as soon as `to` is one of them. */
  method Expand<T(==, !new)>(allowed: Guard<T>, order: seq<T>, from: T, to: T, cur: T,
                             visited0: set<T>, prev0: map<T, T>, queue0: seq<T>, ghost dist0: map<T, nat>)
      returns (found: bool, visited: set<T>, prev: map<T, T>, queue: seq<T>, ghost dist: map<T, nat>)
    requires forall u, v :: Hop(allowed, u, v) ==> v in order
    requires Tree(allowed, from, prev0, dist0) && visited0 == dist0.Keys && cur in dist0 && to !in dist0
    requires Layered(dist0, queue0, dist0[cur]) && Swept(allowed, dist0, queue0, {cur})
    ensures Tree(allowed, from, prev, dist) && visited == dist.Keys
    ensures found ==> to in dist && dist[to] == dist0[cur] + 1
    ensures !found ==> to !in dist && Layered(dist, queue, dist0[cur]) && Swept(allowed, dist, queue, {})
    ensures forall x :: x in visited ==> x in visited0 || x in order
    ensures visited0 <= visited && (visited == visited0 ==> queue == queue0)
  {
    found, visited, prev, queue, dist := false, visited0, prev0, queue0, dist0;
    var targets := OrderedTargets(allowed, order, cur);
    for k := 0 to |targets|
      invariant Tree(allowed, from, prev, dist) && visited == dist.Keys && cur in dist && dist[cur] == dist0[cur]
      invariant to !in dist && Layered(dist, queue, dist[cur]) && Swept(allowed, dist, queue, {cur})
      invariant forall x :: x in visited ==> x in visited0 || x in order
      invariant visited0 <= visited && (visited == visited0 ==> queue == queue0)
      invariant Seen(dist, targets, k, dist[cur] + 1)
    {
      var next := targets[k];
      assert next in targets;
      SeenGrows(dist, targets, k, dist[cur] + 1);
      if next !in visited {
        Discover(allowed, from, prev, dist, queue, cur, next);
        visited := visited + {next};
        prev := prev[next := cur];
        dist := dist[next := dist[cur] + 1];
        if next == to {
          return true, visited, prev, queue, dist;
        }
        queue := queue + [next];
      }
    }
    AllSeen(allowed, dist, queue, cur, targets);
  }

  /** The head of the queue is the nearest unexpanded status; taking it leaves a layered queue. */
  lemma Dequeue<T(!new)>(allowed: Guard<T>, dist: map<T, nat>, queue: seq<T>, d: nat)
    requires queue != [] && Layered(dist, queue, d) && Swept(allowed, dist, queue, {})
    ensures Layered(dist, queue[1..], dist[queue[0]]) && Swept(allowed, dist, queue[1..], {queue[0]})
    ensures forall x :: x in dist && dist[x] < dist[queue[0]] ==> Expanded(allowed, dist, x)
  {
    assert forall x :: x in queue ==> x == queue[0] || x in queue[1..];
  }

  /** No legal path to an undiscovered status is as short as the layer that is fully expanded. */
  lemma NoneShorter<T(!new)>(allowed: Guard<T>, dist: map<T, nat>, d: nat, from: T, to: T)
    requires from in dist && dist[from] == 0 && to !in dist
    requires forall x :: x in dist && dist[x] < d ==> Expanded(allowed, dist, x)
    ensures forall p :: Leads(allowed, from, to, p) ==> |p| > d
  {
    forall p | Leads(allowed, from, to, p) ensures |p| > d {
      if |p| <= d {
        NearIsDiscovered(allowed, dist, d, from, p);
      }
    }
  }

  /** When everything discovered is expanded, what is undiscovered cannot be reached. */
  lemma NoneAtAll<T(!new)>(allowed: Guard<T>, dist: map<T, nat>, from: T, to: T)
    requires from in dist && to !in dist
    requires forall x :: x in dist ==> Expanded(allowed, dist, x)
    ensures !Reaches(allowed, from, to)
  {
    if p :| Leads(allowed, from, to, p) {
      ClosedIsDiscovered(allowed, dist, from, p);
    }
  }

  lemma FewerLeft<T>(nodes: set<T>, before: set<T>, after: set<T>)
    requires before <= after <= nodes && before != after
    ensures nodes - after < nodes - before
  {
    assert after == before + (after - before);
    var x :| x in after && x !in before;
    assert x in nodes - before;
  }

  /** transitionPath returns true iff `to` can be reached by legal hops; the path it returns is
      legal at every hop, ends at `to`, and no legal path is shorter. */
  method FindPath<T(==, !new)>(allowed: Guard<T>, order: seq<T>, from: T, to: T) returns (path: seq<T>, ok: bool)
    requires forall u, v :: Hop(allowed, u, v) ==> v in order
    ensures ok <==> Reaches(allowed, from, to)
    ensures ok ==> Leads(allowed, from, to, path) && forall p :: Leads(allowed, from, to, p) ==> |path| <= |p|
    ensures !ok ==> path == []
  {
    if from == to {
      assert Leads(allowed, from, to, []);
      return [], true;
    }
    var visited, prev, queue := {from}, map[], [from];
    ghost var dist: map<T, nat> := map[from := 0];
    ghost var d := 0;
    ghost var nodes := {from} + set v | v in order;
    while queue != []
      invariant Tree(allowed, from, prev, dist) && visited == dist.Keys && to !in dist && visited <= nodes
      invariant Layered(dist, queue, d) && Swept(allowed, dist, queue, {})
      decreases nodes - visited, |queue|
    {
      var cur := queue[0];
      Dequeue(allowed, dist, queue, d);
      queue := queue[1..];
      ghost var near := dist;
      var found;
      found, visited, prev, queue, dist := Expand(allowed, order, from, to, cur, visited, prev, queue, dist);
      d := near[cur];
      if found {
        NoneShorter(allowed, near, d, from, to);
        path := Reconstruct(allowed, prev, from, to, dist);
        return path, true;
      }
      if visited != near.Keys {
        FewerLeft(nodes, near.Keys, visited);
      }
    }
    NoneAtAll(allowed, dist, from, to);
    return [], false;
  }
}
