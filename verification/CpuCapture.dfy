/**
  `CpuBackend::capture`: the executable nodes and the deterministic
  topological order, Kahn's algorithm with ties broken by node identity.
 */
module CpuCapture {
  import opened Bytes
  import opened Descriptors
  import opened Topology
  import IdOrder

  // ----- the order, without an algorithm -----

  ghost predicate CanRun(ids: set<Id>, edges: seq<Edge>, emitted: seq<Id>, v: Id) {
    v in ids && v !in emitted && PredsIn(edges, v, emitted)
  }

  /** `v` has the least identity among the nodes whose predecessors are all emitted. */
  ghost predicate RunsNext(ids: set<Id>, edges: seq<Edge>, emitted: seq<Id>, v: Id) {
    && CanRun(ids, edges, emitted, v)
    && (forall u | CanRun(ids, edges, emitted, u) :: IdOrder.AtMost(v, u))
  }

  ghost predicate LeastFirst(ids: set<Id>, edges: seq<Edge>, order: seq<Id>) {
    forall k | 0 <= k < |order| :: RunsNext(ids, edges, order[..k], order[k])
  }

  /** A permutation of the nodes that respects every edge and is least-identity-first at every position. */
  ghost predicate CanonicalOrder(ids: set<Id>, edges: seq<Edge>, order: seq<Id>) {
    && Distinct(order) && Elems(order) == ids && Topological(order, edges)
    && LeastFirst(ids, edges, order)
  }

  ghost predicate SameEdges(a: seq<Edge>, b: seq<Edge>) {
    forall e :: e in a <==> e in b
  }

  lemma PredsInOfSameEdges(a: seq<Edge>, b: seq<Edge>, v: Id, s: seq<Id>)
    requires SameEdges(a, b) && PredsIn(a, v, s)
    ensures PredsIn(b, v, s)
  {
    forall i | 0 <= i < |b| && b[i].to == v
      ensures b[i].from in s
    {
      assert b[i] in a;
      var j :| 0 <= j < |a| && a[j] == b[i];
    }
  }

  lemma RunsNextUnique(ids: set<Id>, a: seq<Edge>, b: seq<Edge>, emitted: seq<Id>, u: Id, v: Id)
    requires SameEdges(a, b)
    requires RunsNext(ids, a, emitted, u) && RunsNext(ids, b, emitted, v)
    ensures u == v
  {
    PredsInOfSameEdges(a, b, u, emitted);
    PredsInOfSameEdges(b, a, v, emitted);
    assert CanRun(ids, b, emitted, u) && CanRun(ids, a, emitted, v);
  }

  /** The order depends on the node and edge sets only, not on how they are listed or hashed. */
  lemma CanonicalOrderUnique(ids: set<Id>, a: seq<Edge>, p: seq<Id>, b: seq<Edge>, q: seq<Id>)
    requires SameEdges(a, b)
    requires CanonicalOrder(ids, a, p) && CanonicalOrder(ids, b, q)
    ensures p == q
  {
    DistinctCount(p);
    DistinctCount(q);
    PrefixesAgree(ids, a, p, b, q, |p|);
    assert p[..|p|] == p && q[..|q|] == q;
  }

  lemma {:induction false} PrefixesAgree(ids: set<Id>, a: seq<Edge>, p: seq<Id>, b: seq<Edge>, q: seq<Id>, n: nat)
    requires SameEdges(a, b) && n <= |p| && |p| == |q|
    requires LeastFirst(ids, a, p) && LeastFirst(ids, b, q)
    ensures p[..n] == q[..n]
  {
    if n > 0 {
      PrefixesAgree(ids, a, p, b, q, n - 1);
      assert RunsNext(ids, a, p[..n - 1], p[n - 1]) && RunsNext(ids, b, q[..n - 1], q[n - 1]);
      RunsNextUnique(ids, a, b, p[..n - 1], p[n - 1], q[n - 1]);
      assert p[..n] == p[..n - 1] + [p[n - 1]] && q[..n] == q[..n - 1] + [q[n - 1]];
    }
  }

  // ----- executable nodes -----

  datatype CpuKernel = Identity | Scale | AddScalar | Linear | Square | Relu

  const SCALE_NAME: Text := [0x73, 0x63, 0x61, 0x6c, 0x65]
  const ADDSCALAR_NAME: Text := [0x61, 0x64, 0x64, 0x73, 0x63, 0x61, 0x6c, 0x61, 0x72]
  const LINEAR_NAME: Text := [0x6c, 0x69, 0x6e, 0x65, 0x61, 0x72]
  const SQUARE_NAME: Text := [0x73, 0x71, 0x75, 0x61, 0x72, 0x65]
  const RELU_NAME: Text := [0x72, 0x65, 0x6c, 0x75]

  /** Any other name, "identity" included, is the identity kernel. */
  function ClassifyKernel(name: Text): CpuKernel {
    if name == SCALE_NAME then Scale
    else if name == ADDSCALAR_NAME then AddScalar
    else if name == LINEAR_NAME then Linear
    else if name == SQUARE_NAME then Square
    else if name == RELU_NAME then Relu
    else Identity
  }

  datatype CpuNode = CpuNode(
    id: Id, category: u32, kernel: CpuKernel, src: u32, dst: u32, bytes: u64, memset: byte, scalar: Scalar)

  function CpuNodeOf(n: Node): CpuNode {
    CpuNode(n.id, n.category, ClassifyKernel(n.kernel.name),
            if n.inputs != [] then n.inputs[0] else 0, if n.outputs != [] then n.outputs[0] else 0,
            n.bytes, n.memset, n.scalar)
  }

  datatype CpuGraph = CpuGraph(nodes: seq<CpuNode>, order: seq<Id>)

  /** What capture must produce for a valid descriptor. */
  ghost predicate Captures(nodes: seq<Node>, edges: seq<Edge>, g: CpuGraph) {
    && |g.nodes| == |nodes| && (forall i | 0 <= i < |nodes| :: g.nodes[i] == CpuNodeOf(nodes[i]))
    && CanonicalOrder(NodeIds(nodes), edges, g.order)
  }

  // ----- the algorithm -----

  function SelfKey(id: Id): Id {
    id
  }

  lemma KahnSorted(ids: set<Id>, edges: seq<Edge>, degree: Degrees, ready: seq<Id>, order: seq<Id>)
    requires Kahn(ids, edges, degree, ready, order)
    ensures Kahn(ids, edges, degree, IdOrder.Sort(ready, SelfKey), order)
  {
    hide Topological, Pending;
    var s := IdOrder.Sort(ready, SelfKey);
    IdOrder.SortProperties(ready, SelfKey);
    IdOrder.DistinctKeysOfPermutation(ready, s, SelfKey);
    assert Distinct(s) by {
      forall i, j | 0 <= i < j < |s|
        ensures s[i] != s[j]
      {
        assert SelfKey(s[i]) != SelfKey(s[j]);
      }
    }
    forall v
      ensures v in s <==> v in ready
    {
      assert v in s <==> v in multiset(s);
      assert v in ready <==> v in multiset(ready);
    }
  }

  lemma ReadyCanRun(ids: set<Id>, edges: seq<Edge>, degree: Degrees, ready: seq<Id>, order: seq<Id>, v: Id)
    requires Kahn(ids, edges, degree, ready, order)
    ensures v in ready <==> CanRun(ids, edges, order, v)
  {
    hide Topological, Distinct;
    if v in ids && v !in order {
      PendingPositive(edges, v, Elems(order));
      if degree[v] == 0 {
        forall i | 0 <= i < |edges| && edges[i].to == v
          ensures edges[i].from in order
        {
          assert edges[i].from in Elems(order);
        }
      }
    }
  }

  lemma FrontRunsNext(ids: set<Id>, edges: seq<Edge>, degree: Degrees, ready: seq<Id>, order: seq<Id>)
    requires Kahn(ids, edges, degree, ready, order) && ready != [] && IdOrder.Sorted(ready, SelfKey)
    ensures RunsNext(ids, edges, order, ready[0])
  {
    hide Kahn, CanRun;
    ReadyCanRun(ids, edges, degree, ready, order, ready[0]);
    forall u | CanRun(ids, edges, order, u)
      ensures IdOrder.AtMost(ready[0], u)
    {
      ReadyCanRun(ids, edges, degree, ready, order, u);
      var j :| 0 <= j < |ready| && ready[j] == u;
      assert j > 0 ==> IdOrder.AtMost(SelfKey(ready[0]), SelfKey(ready[j]));
    }
  }

  lemma LeastFirstSnoc(ids: set<Id>, edges: seq<Edge>, order: seq<Id>, v: Id)
    requires LeastFirst(ids, edges, order) && RunsNext(ids, edges, order, v)
    ensures LeastFirst(ids, edges, order + [v])
  {
    hide RunsNext;
    var longer := order + [v];
    forall k | 0 <= k < |longer|
      ensures RunsNext(ids, edges, longer[..k], longer[k])
    {
      assert longer[..k] == order[..k];
      assert k == |order| ==> order[..k] == order;
    }
  }

  /** Sorts the ready queue before every pop. */
  method DeterministicOrder(nodes: seq<Node>, edges: seq<Edge>) returns (order: seq<Id>)
    requires ValidTopology(nodes, edges)
    ensures CanonicalOrder(NodeIds(nodes), edges, order)
  {
    hide IdOrder.Sort, LeastFirst, RunsNext, Relaxed, Acyclic, Pending, Succs;
    ghost var ids := NodeIds(nodes);
    var degree, adj := BuildDegrees(nodes, edges);
    var ready := SeedReady(degree);
    order := [];
    KahnStart(ids, edges, degree, ready);
    LeastFirstStart(ids, edges);
    while ready != []
      invariant Kahn(ids, edges, degree, ready, order)
      invariant LeastFirst(ids, edges, order)
      decreases |ids| - |order|
    {
      KahnSorted(ids, edges, degree, ready, order);
      IdOrder.SortProperties(ready, SelfKey);
      ready := IdOrder.Sort(ready, SelfKey);
      FrontRunsNext(ids, edges, degree, ready, order);
      var cur, rest := ready[0], ready[1..];
      assert ready == [cur] + rest;
      LeastFirstSnoc(ids, edges, order, cur);
      KahnCanRelax(ids, edges, degree, ready, order, cur);
      ghost var before := degree;
      degree, ready := Relax(Neighbours(adj, cur), degree, rest);
      KahnStep(ids, edges, before, cur, rest, order, degree, ready);
      order := order + [cur];
      DistinctCount(order);
      SubsetCount(Elems(order), ids);
    }
    KahnEnd(ids, edges, degree, order);
  }

  lemma LeastFirstStart(ids: set<Id>, edges: seq<Edge>)
    ensures LeastFirst(ids, edges, [])
  {
  }

  /** Fails exactly on invalid topologies; otherwise yields the executable nodes and the one canonical order. */
  method Capture(nodes: seq<Node>, edges: seq<Edge>) returns (v: Verdict, g: CpuGraph)
    ensures v.Accepted? <==> ValidTopology(nodes, edges)
    ensures v.Accepted? ==> Captures(nodes, edges, g)
  {
    g := CpuGraph([], []);
    v := ValidateTopology(nodes, edges);
    if v.Refused? {
      return;
    }
    var seen: set<Id> := {};
    var cpu: seq<CpuNode> := [];
    for i := 0 to |nodes|
      invariant seen == set k | 0 <= k < i :: nodes[k].id
      invariant |cpu| == i && forall k | 0 <= k < i :: cpu[k] == CpuNodeOf(nodes[k])
    {
      if nodes[i].id !in seen {
        seen := seen + {nodes[i].id};
        cpu := cpu + [CpuNodeOf(nodes[i])];
      }
    }
    var order := DeterministicOrder(nodes, edges);
    g := CpuGraph(cpu, order);
  }

  // ----- every valid topology has its order -----

  lemma {:induction false} LeastId(s: set<Id>) returns (m: Id)
    requires s != {}
    ensures m in s && forall u | u in s :: IdOrder.AtMost(m, u)
  {
    m :| m in s;
    if s != {m} {
      var rest := s - {m};
      var x :| x in s && x != m;
      assert x in rest;
      var r := LeastId(rest);
      assert forall u | u in s :: u == m || u in rest;
      if IdOrder.Less(r, m) {
        m := r;
      }
    }
  }

  lemma SomeCanRun(ids: set<Id>, edges: seq<Edge>, order: seq<Id>) returns (ready: set<Id>)
    requires NoDanglingEdges(ids, edges) && Acyclic(edges) && Elems(order) < ids
    ensures ready != {} && forall v :: v in ready <==> CanRun(ids, edges, order, v)
  {
    hide Acyclic;
    ready := set v | v in ids && CanRun(ids, edges, order, v);
    if ready == {} {
      var stuck := ids - Elems(order);
      forall v | v in stuck
        ensures HasPredIn(edges, stuck, v)
      {
        assert v !in ready;
        var i :| 0 <= i < |edges| && edges[i].to == v && edges[i].from !in order;
        assert edges[i].from in stuck && HasArc(edges, edges[i].from, v);
      }
      var x :| x in ids && x !in Elems(order);
      assert x in stuck;
      StuckMeansCycle(edges, stuck);
    }
  }

  lemma {:induction false} CompleteOrder(ids: set<Id>, edges: seq<Edge>, order: seq<Id>) returns (full: seq<Id>)
    requires NoDanglingEdges(ids, edges) && Acyclic(edges)
    requires Distinct(order) && Elems(order) <= ids && Topological(order, edges) && LeastFirst(ids, edges, order)
    ensures CanonicalOrder(ids, edges, full)
    decreases ids - Elems(order)
  {
    hide Acyclic, LeastFirst, RunsNext, Topological, PredsIn;
    if Elems(order) == ids {
      full := order;
    } else {
      var ready := SomeCanRun(ids, edges, order);
      var v := LeastId(ready);
      assert CanRun(ids, edges, order, v);
      RunsNextOfLeast(ids, edges, order, ready, v);
      LeastFirstSnoc(ids, edges, order, v);
      TopologicalOfCanRun(ids, edges, order, v);
      ElemsSnoc(order, v);
      full := CompleteOrder(ids, edges, order + [v]);
    }
  }

  lemma RunsNextOfLeast(ids: set<Id>, edges: seq<Edge>, order: seq<Id>, ready: set<Id>, v: Id)
    requires v in ready && forall u | u in ready :: IdOrder.AtMost(v, u)
    requires forall u :: u in ready <==> CanRun(ids, edges, order, u)
    ensures RunsNext(ids, edges, order, v)
  {
  }

  lemma TopologicalOfCanRun(ids: set<Id>, edges: seq<Edge>, order: seq<Id>, v: Id)
    requires Topological(order, edges) && CanRun(ids, edges, order, v)
    ensures Topological(order + [v], edges)
  {
    hide PredsIn;
    var longer := order + [v];
    forall k | 0 <= k < |longer|
      ensures PredsIn(edges, longer[k], longer[..k])
    {
      assert longer[..k] == order[..k];
      assert k == |order| ==> order[..k] == order;
    }
  }

  /** A valid topology has a capture, so statements about all its captures are about something. */
  lemma CaptureExists(nodes: seq<Node>, edges: seq<Edge>) returns (g: CpuGraph)
    requires ValidTopology(nodes, edges)
    ensures Captures(nodes, edges, g)
  {
    hide CanonicalOrder, Acyclic, LeastFirst, Topological;
    LeastFirstStart(NodeIds(nodes), edges);
    NothingIsTopological(edges);
    var order := CompleteOrder(NodeIds(nodes), edges, []);
    g := CpuGraph(seq(|nodes|, i requires 0 <= i < |nodes| => CpuNodeOf(nodes[i])), order);
  }

  lemma NothingIsTopological(edges: seq<Edge>)
    ensures Topological([], edges)
  {
  }
}
