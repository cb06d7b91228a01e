/**
  Topology validation of src/topology.cpp: structural checks, then Kahn's
  algorithm with a ready queue seeded in any order.
 */
module Topology {
  import opened Bytes
  import opened Descriptors

  datatype TopologyError =
    DuplicateId | SelfCycle | DanglingEdge | DuplicateEdge | Contradictory | Cycle

  datatype Verdict = Accepted | Refused(error: TopologyError)

  // ----- what a valid topology is -----

  ghost predicate HasArc(edges: seq<Edge>, u: Id, v: Id) {
    exists i :: 0 <= i < |edges| && edges[i].from == u && edges[i].to == v
  }

  ghost predicate IsWalk(edges: seq<Edge>, p: seq<Id>) {
    forall k | 0 <= k < |p| - 1 :: HasArc(edges, p[k], p[k + 1])
  }

  /** A directed walk that returns to where it started. */
  ghost predicate IsCycle(edges: seq<Edge>, p: seq<Id>) {
    |p| >= 2 && p[0] == p[|p| - 1] && IsWalk(edges, p)
  }

  ghost predicate Acyclic(edges: seq<Edge>) {
    forall p :: !IsCycle(edges, p)
  }

  function NodeIds(nodes: seq<Node>): set<Id> {
    set i | 0 <= i < |nodes| :: nodes[i].id
  }

  ghost predicate NoSelfLoops(edges: seq<Edge>) {
    forall i | 0 <= i < |edges| :: edges[i].from != edges[i].to
  }

  ghost predicate NoDanglingEdges(ids: set<Id>, edges: seq<Edge>) {
    forall i | 0 <= i < |edges| :: edges[i].from in ids && edges[i].to in ids
  }

  ghost predicate UniqueEndpoints(edges: seq<Edge>) {
    forall i, j | 0 <= i < j < |edges| :: edges[i].from != edges[j].from || edges[i].to != edges[j].to
  }

  ghost predicate WellFormed(nodes: seq<Node>, edges: seq<Edge>) {
    && UniqueNodeIds(nodes) && UniqueEdgeIds(edges)
    && NoSelfLoops(edges) && NoDanglingEdges(NodeIds(nodes), edges) && UniqueEndpoints(edges)
  }

  ghost predicate ValidTopology(nodes: seq<Node>, edges: seq<Edge>) {
    WellFormed(nodes, edges) && Acyclic(edges)
  }

  // ----- counting and adjacency -----

  type Degrees = map<Id, nat>
  type Adjacency = map<Id, seq<Id>>

  function Elems(s: seq<Id>): set<Id> {
    set x | x in s
  }

  ghost predicate Distinct(s: seq<Id>) {
    forall i, j | 0 <= i < j < |s| :: s[i] != s[j]
  }

  /** Edges into `v` whose source has not been emitted yet. */
  ghost function Pending(edges: seq<Edge>, v: Id, done: set<Id>): nat {
    if edges == [] then 0
    else
      var e := edges[|edges| - 1];
      Pending(edges[..|edges| - 1], v, done) + (if e.to == v && e.from !in done then 1 else 0)
  }

  ghost function Succs(edges: seq<Edge>, u: Id): seq<Id> {
    if edges == [] then []
    else
      var e := edges[|edges| - 1];
      Succs(edges[..|edges| - 1], u) + (if e.from == u then [e.to] else [])
  }

  function Neighbours(adj: Adjacency, u: Id): seq<Id> {
    if u in adj then adj[u] else []
  }

  lemma {:induction false} PendingPositive(edges: seq<Edge>, v: Id, done: set<Id>)
    ensures Pending(edges, v, done) > 0 <==>
            exists i :: 0 <= i < |edges| && edges[i].to == v && edges[i].from !in done
  {
    if edges != [] {
      var n := |edges| - 1;
      PendingPositive(edges[..n], v, done);
      if Pending(edges[..n], v, done) > 0 {
        var i :| 0 <= i < n && edges[..n][i].to == v && edges[..n][i].from !in done;
        assert edges[i].to == v && edges[i].from !in done;
      }
      if exists i :: 0 <= i < |edges| && edges[i].to == v && edges[i].from !in done {
        var i :| 0 <= i < |edges| && edges[i].to == v && edges[i].from !in done;
        assert i < n ==> edges[..n][i].to == v && edges[..n][i].from !in done;
      }
    }
  }

  /** Emitting `u` settles exactly the edges that leave it. */
  lemma {:induction false} PendingStep(edges: seq<Edge>, v: Id, done: set<Id>, u: Id)
    requires u !in done
    ensures Pending(edges, v, done) == Pending(edges, v, done + {u}) + multiset(Succs(edges, u))[v]
  {
    if edges != [] {
      PendingStep(edges[..|edges| - 1], v, done, u);
    }
  }

  lemma {:induction false} SuccsAreTargets(edges: seq<Edge>, u: Id, x: Id)
    requires x in Succs(edges, u)
    ensures exists i :: 0 <= i < |edges| && edges[i].to == x
  {
    var n := |edges| - 1;
    if x in Succs(edges[..n], u) {
      SuccsAreTargets(edges[..n], u, x);
      var i :| 0 <= i < n && edges[..n][i].to == x;
      assert edges[i].to == x;
    } else {
      assert edges[n].to == x;
    }
  }

  // ----- cycles and orders -----

  /** Every edge into an emitted node comes from a node emitted before it. */
  ghost predicate Topological(order: seq<Id>, edges: seq<Edge>) {
    forall k | 0 <= k < |order| :: PredsIn(edges, order[k], order[..k])
  }

  ghost predicate PredsIn(edges: seq<Edge>, v: Id, s: seq<Id>) {
    forall i | 0 <= i < |edges| && edges[i].to == v :: edges[i].from in s
  }

  lemma {:induction false} WalkGoesForward(order: seq<Id>, edges: seq<Edge>, p: seq<Id>, k: nat, at: nat) returns (start: nat)
    requires Topological(order, edges)
    requires k < |p| && at < |order| && order[at] == p[k]
    requires IsWalk(edges, p)
    ensures start <= at && order[start] == p[0]
    ensures k > 0 ==> start < at
    decreases k
  {
    if k == 0 {
      start := at;
    } else {
      assert HasArc(edges, p[k - 1], p[k - 1 + 1]) && PredsIn(edges, order[at], order[..at]);
      var before :| 0 <= before < at && order[..at][before] == p[k - 1];
      start := WalkGoesForward(order, edges, p, k - 1, before);
    }
  }

  lemma OrderedIsAcyclic(ids: set<Id>, edges: seq<Edge>, order: seq<Id>)
    requires Topological(order, edges) && Distinct(order) && Elems(order) == ids
    requires NoDanglingEdges(ids, edges)
    ensures Acyclic(edges)
  {
    forall p | IsCycle(edges, p)
      ensures false
    {
      var n := |p| - 1;
      assert HasArc(edges, p[n - 1], p[n - 1 + 1]);
      assert p[n] in Elems(order);
      var at :| 0 <= at < |order| && order[at] == p[n];
      var start := WalkGoesForward(order, edges, p, n, at);
    }
  }

  ghost predicate HasPredIn(edges: seq<Edge>, stuck: set<Id>, v: Id) {
    exists u :: u in stuck && HasArc(edges, u, v)
  }

  /** No member can be emitted first. */
  ghost predicate Stuck(edges: seq<Edge>, stuck: set<Id>) {
    forall v {:trigger HasPredIn(edges, stuck, v)} | v in stuck :: HasPredIn(edges, stuck, v)
  }

  lemma WalkSnoc(edges: seq<Edge>, p: seq<Id>, last: Id)
    requires IsWalk(edges, p) && p != [] && HasArc(edges, p[|p| - 1], last)
    ensures IsWalk(edges, p + [last])
  {
    var q := p + [last];
    forall k | 0 <= k < |q| - 1
      ensures HasArc(edges, q[k], q[k + 1])
    {
      if k < |p| - 1 {
        assert HasArc(edges, p[k], p[k + 1]);
      }
    }
  }

  lemma WalkSlice(edges: seq<Edge>, p: seq<Id>, i: nat, j: nat)
    requires IsWalk(edges, p) && i <= j <= |p|
    ensures IsWalk(edges, p[i..j])
  {
    forall k | 0 <= k < j - i - 1
      ensures HasArc(edges, p[i..j][k], p[i..j][k + 1])
    {
      assert HasArc(edges, p[i + k], p[i + k + 1]);
    }
  }

  /** From a stuck set one can walk backwards for ever. */
  lemma {:induction false} WalkBack(edges: seq<Edge>, stuck: set<Id>, last: Id, len: nat) returns (p: seq<Id>)
    requires last in stuck && Stuck(edges, stuck)
    ensures |p| == len + 1 && p[len] == last
    ensures forall k | 0 <= k < |p| :: p[k] in stuck
    ensures IsWalk(edges, p)
    decreases len
  {
    if len == 0 {
      p := [last];
    } else {
      assert HasPredIn(edges, stuck, last);
      var u :| u in stuck && HasArc(edges, u, last);
      var q := WalkBack(edges, stuck, u, len - 1);
      WalkSnoc(edges, q, last);
      p := q + [last];
    }
  }

  lemma {:induction false} DistinctFitsIn(s: seq<Id>, within: set<Id>)
    requires Distinct(s) && forall k | 0 <= k < |s| :: s[k] in within
    ensures |s| <= |within|
  {
    if s != [] {
      var n := |s| - 1;
      DistinctFitsIn(s[..n], within - {s[n]});
    }
  }

  lemma StuckMeansCycle(edges: seq<Edge>, stuck: set<Id>)
    requires stuck != {} && Stuck(edges, stuck)
    ensures !Acyclic(edges)
  {
    var last :| last in stuck;
    var p := WalkBack(edges, stuck, last, |stuck|);
    if Distinct(p) {
      DistinctFitsIn(p, stuck);
    }
    var i, j :| 0 <= i < j < |p| && p[i] == p[j];
    WalkSlice(edges, p, i, j + 1);
    assert IsCycle(edges, p[i..j + 1]);
  }

  // ----- Kahn's algorithm -----

  /** What holds between the queue, the degrees and the nodes emitted so far. */
  ghost predicate Kahn(ids: set<Id>, edges: seq<Edge>, degree: Degrees, ready: seq<Id>, order: seq<Id>) {
    && degree.Keys == ids
    && Distinct(order) && Elems(order) <= ids && Topological(order, edges)
    && (forall v | v in ids :: degree[v] == Pending(edges, v, Elems(order)))
    && (forall v | v in order :: degree[v] == 0)
    && Distinct(ready)
    && (forall v :: v in ready <==> v in ids && v !in order && degree[v] == 0)
  }

  /** The effect of walking the successors of one node. */
  ghost predicate Relaxed(targets: seq<Id>, degree: Degrees, ready: seq<Id>, degree': Degrees, ready': seq<Id>) {
    && degree'.Keys == degree.Keys
    && (forall v | v in degree :: degree'[v] + multiset(targets)[v] == degree[v])
    && Distinct(ready')
    && (forall v :: v in ready' <==> v in ready || (v in targets && v in degree && degree'[v] == 0))
  }

  function ZeroDegrees(nodes: seq<Node>): Degrees {
    map id | id in NodeIds(nodes) :: 0
  }

  lemma CountsStart(edges: seq<Edge>)
    ensures forall v :: Pending(edges[..0], v, {}) == 0
    ensures forall u :: Succs(edges[..0], u) == []
  {
  }

  lemma CountsSnoc(edges: seq<Edge>, i: nat)
    requires i < |edges|
    ensures forall v :: Pending(edges[..i + 1], v, {}) ==
                        Pending(edges[..i], v, {}) + (if edges[i].to == v then 1 else 0)
    ensures forall u :: Succs(edges[..i + 1], u) ==
                        if edges[i].from == u then Succs(edges[..i], u) + [edges[i].to] else Succs(edges[..i], u)
  {
    assert edges[..i + 1][..i] == edges[..i];
  }

  method BuildDegrees(nodes: seq<Node>, edges: seq<Edge>) returns (degree: Degrees, adj: Adjacency)
    requires NoDanglingEdges(NodeIds(nodes), edges)
    ensures degree.Keys == NodeIds(nodes)
    ensures forall v | v in degree :: degree[v] == Pending(edges, v, {})
    ensures forall u :: Neighbours(adj, u) == Succs(edges, u)
  {
    hide Pending, Succs;
    CountsStart(edges);
    degree, adj := ZeroDegrees(nodes), map[];
    for i := 0 to |edges|
      invariant degree.Keys == NodeIds(nodes)
      invariant forall v | v in degree :: degree[v] == Pending(edges[..i], v, {})
      invariant forall u :: Neighbours(adj, u) == Succs(edges[..i], u)
    {
      var e := edges[i];
      CountsSnoc(edges, i);
      degree := degree[e.to := degree[e.to] + 1];
      ghost var before := adj;
      adj := adj[e.from := Neighbours(adj, e.from) + [e.to]];
      forall u
        ensures Neighbours(adj, u) == Succs(edges[..i + 1], u)
      {
        assert Neighbours(before, u) == Succs(edges[..i], u);
        assert u != e.from ==> Neighbours(adj, u) == Neighbours(before, u);
      }
    }
    assert edges[..|edges|] == edges;
  }

  /** Hash-map iteration order is unspecified, so the queue is seeded in an arbitrary order. */
  method SeedReady(degree: Degrees) returns (ready: seq<Id>)
    ensures Distinct(ready)
    ensures forall v :: v in ready <==> v in degree && degree[v] == 0
  {
    ready := [];
    var left := degree.Keys;
    while left != {}
      invariant left <= degree.Keys
      invariant Distinct(ready)
      invariant forall v :: v in ready <==> v in degree && v !in left && degree[v] == 0
      decreases left
    {
      var id :| id in left;
      left := left - {id};
      if degree[id] == 0 {
        ready := ready + [id];
      }
    }
  }

  lemma SplitCount(s: seq<Id>, j: nat)
    requires j < |s|
    ensures multiset(s[..j + 1]) == multiset(s[..j]) + multiset{s[j]}
    ensures multiset(s[..j])[s[j]] < multiset(s)[s[j]]
  {
    assert s[..j + 1] == s[..j] + [s[j]];
    assert s == s[..j + 1] + s[j + 1..];
  }

  function Decrement(degree: Degrees, v: Id): Degrees
    requires v in degree && degree[v] > 0
  {
    degree[v := degree[v] - 1]
  }

  function PushIfFree(degree: Degrees, ready: seq<Id>, v: Id): seq<Id>
    requires v in degree
  {
    if degree[v] == 0 then ready + [v] else ready
  }

  lemma RelaxedSnoc(targets: seq<Id>, j: nat, degree: Degrees, ready: seq<Id>, degree': Degrees, ready': seq<Id>)
    requires j < |targets| && Relaxed(targets[..j], degree, ready, degree', ready')
    requires targets[j] in degree && multiset(targets)[targets[j]] <= degree[targets[j]]
    requires forall v | v in ready' && v in degree :: degree'[v] == 0
    ensures degree'[targets[j]] > 0
    ensures
      var d := Decrement(degree', targets[j]);
      var q := PushIfFree(d, ready', targets[j]);
      Relaxed(targets[..j + 1], degree, ready, d, q) && forall v | v in q && v in degree :: d[v] == 0
  {
    var x := targets[j];
    SplitCount(targets, j);
    assert degree'[x] > 0;
    var d := Decrement(degree', x);
    var q := PushIfFree(d, ready', x);
    assert targets[..j + 1] == targets[..j] + [x];
    forall v | v in degree
      ensures d[v] + multiset(targets[..j + 1])[v] == degree[v]
    {
    }
    assert x !in ready';
    forall v
      ensures v in q <==> v in ready || (v in targets[..j + 1] && v in degree && d[v] == 0)
    {
      assert v in targets[..j + 1] <==> v in targets[..j] || v == x;
    }
  }

  /** `for nxt in adj[cur]: if --in_degree[nxt] == 0 then push`; the unsigned decrement never wraps. */
  method Relax(targets: seq<Id>, degree: Degrees, ready: seq<Id>) returns (degree': Degrees, ready': seq<Id>)
    requires forall v | v in targets :: v in degree && multiset(targets)[v] <= degree[v]
    requires Distinct(ready) && forall v | v in ready && v in degree :: degree[v] == 0
    ensures Relaxed(targets, degree, ready, degree', ready')
  {
    degree', ready' := degree, ready;
    for j := 0 to |targets|
      invariant Relaxed(targets[..j], degree, ready, degree', ready')
      invariant forall v | v in ready' && v in degree :: degree'[v] == 0
    {
      RelaxedSnoc(targets, j, degree, ready, degree', ready');
      degree' := Decrement(degree', targets[j]);
      ready' := PushIfFree(degree', ready', targets[j]);
    }
    assert targets[..|targets|] == targets;
  }

  lemma ElemsSnoc(order: seq<Id>, cur: Id)
    ensures Elems(order + [cur]) == Elems(order) + {cur}
  {
  }

  lemma KahnStart(ids: set<Id>, edges: seq<Edge>, degree: Degrees, ready: seq<Id>)
    requires degree.Keys == ids && Distinct(ready)
    requires forall v | v in ids :: degree[v] == Pending(edges, v, {})
    requires forall v :: v in ready <==> v in ids && degree[v] == 0
    ensures Kahn(ids, edges, degree, ready, [])
  {
    assert Elems([]) == {};
  }

  /** The successors of a ready node can be relaxed without underflow. */
  lemma KahnCanRelax(ids: set<Id>, edges: seq<Edge>, degree: Degrees, ready: seq<Id>, order: seq<Id>, cur: Id)
    requires Kahn(ids, edges, degree, ready, order) && cur in ready && NoDanglingEdges(ids, edges)
    ensures forall v | v in Succs(edges, cur) :: v in degree && multiset(Succs(edges, cur))[v] <= degree[v]
  {
    forall v | v in Succs(edges, cur)
      ensures v in degree && multiset(Succs(edges, cur))[v] <= degree[v]
    {
      SuccsAreTargets(edges, cur, v);
      PendingStep(edges, v, Elems(order), cur);
    }
  }

  lemma TopologicalSnoc(ids: set<Id>, edges: seq<Edge>, degree: Degrees, ready: seq<Id>, order: seq<Id>, cur: Id)
    requires Kahn(ids, edges, degree, ready, order) && cur in ready
    ensures Topological(order + [cur], edges)
  {
    PendingPositive(edges, cur, Elems(order));
    var longer := order + [cur];
    forall k | 0 <= k < |longer|
      ensures PredsIn(edges, longer[k], longer[..k])
    {
      assert longer[..k] == order[..k];
      if k == |order| {
        assert order[..k] == order;
        assert forall u :: u in Elems(order) ==> u in order;
      } else {
        assert PredsIn(edges, order[k], order[..k]);
      }
    }
  }

  lemma DistinctHead(cur: Id, rest: seq<Id>)
    requires Distinct([cur] + rest)
    ensures cur !in rest && Distinct(rest)
  {
    var s := [cur] + rest;
    assert s[0] == cur && forall i | 0 <= i < |rest| :: rest[i] == s[i + 1];
  }

  lemma PendingAfter(ids: set<Id>, edges: seq<Edge>, degree: Degrees, order: seq<Id>, cur: Id, degree': Degrees)
    requires degree.Keys == degree'.Keys == ids && cur !in order
    requires forall v | v in ids :: degree[v] == Pending(edges, v, Elems(order))
    requires forall v | v in ids :: degree'[v] + multiset(Succs(edges, cur))[v] == degree[v]
    ensures forall v | v in ids :: degree'[v] == Pending(edges, v, Elems(order + [cur]))
  {
    ElemsSnoc(order, cur);
    forall v | v in ids
      ensures degree'[v] == Pending(edges, v, Elems(order + [cur]))
    {
      PendingStep(edges, v, Elems(order), cur);
    }
  }

  lemma ReadyAfter(ids: set<Id>, degree: Degrees, cur: Id, rest: seq<Id>, order: seq<Id>, targets: seq<Id>,
                   degree': Degrees, ready': seq<Id>)
    requires degree.Keys == ids && cur in ids && cur !in rest && cur !in order && degree[cur] == 0
    requires forall v | v in order :: v in ids && degree[v] == 0
    requires forall v | v != cur :: v in rest <==> v in ids && v !in order && degree[v] == 0
    requires Relaxed(targets, degree, rest, degree', ready')
    ensures forall v :: v in ready' <==> v in ids && v !in order + [cur] && degree'[v] == 0
    ensures forall v | v in order + [cur] :: degree'[v] == 0
  {
    forall v
      ensures v in ready' <==> v in ids && v !in order + [cur] && degree'[v] == 0
      ensures v in order + [cur] ==> degree'[v] == 0
    {
      assert v in order + [cur] <==> v in order || v == cur;
      assert v in targets <==> multiset(targets)[v] > 0;
    }
  }

  /** One round of the loop keeps the invariant, whichever ready node is taken. */
  lemma KahnStep(ids: set<Id>, edges: seq<Edge>, degree: Degrees, cur: Id, rest: seq<Id>, order: seq<Id>,
                 degree': Degrees, ready': seq<Id>)
    requires Kahn(ids, edges, degree, [cur] + rest, order)
    requires NoDanglingEdges(ids, edges)
    requires Relaxed(Succs(edges, cur), degree, rest, degree', ready')
    ensures Kahn(ids, edges, degree', ready', order + [cur])
  {
    DistinctHead(cur, rest);
    assert forall v :: v in [cur] + rest <==> v == cur || v in rest;
    TopologicalSnoc(ids, edges, degree, [cur] + rest, order, cur);
    PendingAfter(ids, edges, degree, order, cur, degree');
    ElemsSnoc(order, cur);
    ReadyAfter(ids, degree, cur, rest, order, Succs(edges, cur), degree', ready');
  }

  /** When the queue runs dry, either everything was emitted or a cycle remains. */
  lemma KahnEnd(ids: set<Id>, edges: seq<Edge>, degree: Degrees, order: seq<Id>)
    requires Kahn(ids, edges, degree, [], order) && NoDanglingEdges(ids, edges)
    ensures Elems(order) == ids <==> Acyclic(edges)
  {
    if Elems(order) == ids {
      OrderedIsAcyclic(ids, edges, order);
    } else {
      var stuck := ids - Elems(order);
      var x :| x in ids && x !in Elems(order);
      assert x in stuck;
      forall v | v in stuck
        ensures HasPredIn(edges, stuck, v)
      {
        assert v !in order && v !in [];
        PendingPositive(edges, v, Elems(order));
        var i :| 0 <= i < |edges| && edges[i].to == v && edges[i].from !in Elems(order);
        assert edges[i].from in stuck && HasArc(edges, edges[i].from, v);
      }
      StuckMeansCycle(edges, stuck);
    }
  }

  lemma {:induction false} DistinctCount(s: seq<Id>)
    requires Distinct(s)
    ensures |Elems(s)| == |s|
  {
    if s != [] {
      var n := |s| - 1;
      DistinctCount(s[..n]);
      assert Elems(s) == Elems(s[..n]) + {s[n]};
      assert s[n] !in s[..n];
    }
  }

  lemma UniqueNodeIdsCount(nodes: seq<Node>)
    requires UniqueNodeIds(nodes)
    ensures |NodeIds(nodes)| == |nodes|
  {
    var s := seq(|nodes|, i requires 0 <= i < |nodes| => nodes[i].id);
    DistinctCount(s);
    assert forall i | 0 <= i < |nodes| :: s[i] == nodes[i].id;
    assert Elems(s) == NodeIds(nodes);
  }

  /** The acyclicity check: every node is visited exactly when there is no directed cycle. */
  method CountVisited(nodes: seq<Node>, edges: seq<Edge>) returns (visited: nat)
    requires UniqueNodeIds(nodes) && NoDanglingEdges(NodeIds(nodes), edges)
    ensures visited == |nodes| <==> Acyclic(edges)
  {
    hide Acyclic, Relaxed, Pending, Succs;
    ghost var ids := NodeIds(nodes);
    var degree, adj := BuildDegrees(nodes, edges);
    var ready := SeedReady(degree);
    visited := 0;
    ghost var order: seq<Id> := [];
    KahnStart(ids, edges, degree, ready);
    while ready != []
      invariant Kahn(ids, edges, degree, ready, order)
      invariant visited == |order|
      decreases |ids| - |order|
    {
      var cur, rest := ready[0], ready[1..];
      assert ready == [cur] + rest;
      visited := visited + 1;
      KahnCanRelax(ids, edges, degree, ready, order, cur);
      ghost var before := degree;
      degree, ready := Relax(Neighbours(adj, cur), degree, rest);
      KahnStep(ids, edges, before, cur, rest, order, degree, ready);
      order := order + [cur];
      DistinctCount(order);
      SubsetCount(Elems(order), ids);
    }
    KahnEnd(ids, edges, degree, order);
    DistinctCount(order);
    UniqueNodeIdsCount(nodes);
    SubsetCount(Elems(order), ids);
  }

  lemma {:induction false} SubsetCount(a: set<Id>, b: set<Id>)
    requires a <= b
    ensures |a| <= |b| && (|a| == |b| <==> a == b)
  {
    if a != {} {
      var x :| x in a;
      SubsetCount(a - {x}, b - {x});
    }
  }

  method CheckNodeIds(nodes: seq<Node>) returns (ok: bool, ids: set<Id>)
    ensures ok <==> UniqueNodeIds(nodes)
    ensures ok ==> ids == NodeIds(nodes)
  {
    ok, ids := true, {};
    for i := 0 to |nodes|
      invariant UniqueNodeIds(nodes[..i]) && ids == NodeIds(nodes[..i])
    {
      if nodes[i].id in ids {
        var j :| 0 <= j < i && nodes[j].id == nodes[i].id;
        return false, ids;
      }
      assert NodeIds(nodes[..i + 1]) == NodeIds(nodes[..i]) + {nodes[i].id};
      ids := ids + {nodes[i].id};
    }
    assert nodes[..|nodes|] == nodes;
  }

  /** What a refusal of the structural pass points at. */
  ghost predicate Explains(error: TopologyError, ids: set<Id>, edges: seq<Edge>) {
    match error
    case DuplicateId => !UniqueEdgeIds(edges)
    case SelfCycle => !NoSelfLoops(edges)
    case DanglingEdge => !NoDanglingEdges(ids, edges)
    case DuplicateEdge =>
      exists i, j :: 0 <= i < j < |edges| && edges[i].from == edges[j].from && edges[i].to == edges[j].to
                     && edges[i].kind == edges[j].kind
    case Contradictory =>
      exists i, j :: 0 <= i < j < |edges| && edges[i].from == edges[j].from && edges[i].to == edges[j].to
                     && edges[i].kind != edges[j].kind
    case Cycle => !Acyclic(edges)
  }

  ghost predicate EdgesOk(ids: set<Id>, edges: seq<Edge>) {
    UniqueEdgeIds(edges) && NoSelfLoops(edges) && NoDanglingEdges(ids, edges) && UniqueEndpoints(edges)
  }

  method CheckEdges(ids: set<Id>, edges: seq<Edge>) returns (v: Verdict)
    ensures v.Accepted? <==> EdgesOk(ids, edges)
    ensures v.Refused? ==> v.error != Cycle && Explains(v.error, ids, edges)
  {
    hide Acyclic;
    var edgeIds: set<Id> := {};
    var kinds: map<(Id, Id), u32> := map[];
    for i := 0 to |edges|
      invariant EdgesOk(ids, edges[..i])
      invariant edgeIds == set k | 0 <= k < i :: edges[k].id
      invariant kinds.Keys == set k | 0 <= k < i :: (edges[k].from, edges[k].to)
      invariant forall k | 0 <= k < i :: kinds[(edges[k].from, edges[k].to)] == edges[k].kind
    {
      var e := edges[i];
      if e.from == e.to {
        return Refused(SelfCycle);
      }
      if e.from !in ids || e.to !in ids {
        return Refused(DanglingEdge);
      }
      if e.id in edgeIds {
        return Refused(DuplicateId);
      }
      var key := (e.from, e.to);
      if key in kinds {
        ghost var k :| 0 <= k < i && (edges[k].from, edges[k].to) == key;
        return Refused(if kinds[key] == e.kind then DuplicateEdge else Contradictory);
      }
      edgeIds := edgeIds + {e.id};
      kinds := kinds[key := e.kind];
    }
    assert edges[..|edges|] == edges;
    v := Accepted;
  }

  /**
    Accepts exactly the well-formed acyclic topologies, whatever order the
    ready queue was seeded in, and a refusal names a defect that is there.
   */
  method ValidateTopology(nodes: seq<Node>, edges: seq<Edge>) returns (v: Verdict)
    ensures v.Accepted? <==> ValidTopology(nodes, edges)
    ensures v.Refused? ==>
              (v.error == DuplicateId && !UniqueNodeIds(nodes)) || Explains(v.error, NodeIds(nodes), edges)
  {
    var distinct, ids := CheckNodeIds(nodes);
    if !distinct {
      return Refused(DuplicateId);
    }
    v := CheckEdges(ids, edges);
    if v.Refused? {
      return;
    }
    var visited := CountVisited(nodes, edges);
    if visited != |nodes| {
      v := Refused(Cycle);
    }
  }
}
