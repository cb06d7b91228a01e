/**
  The compatibility facts of include/graphcache/compatibility.hpp and how
  src/cache.cpp derives them from a request or from a stored descriptor.
 */
module Facts {
  import opened Bytes
  import opened Descriptors
  import opened TopologyCodec

  datatype Facts = Facts(
    workload: Workload, backend: Backend, runtime: Runtime, device: Device,
    captureMode: u32, streamSemantics: u32, topology: seq<byte>,
    inputShapes: seq<Shape>, outputShapes: seq<Shape>, dtypes: seq<u32>, layouts: seq<u32>,
    scalar: Scalar, quant: Quantization, binding: Binding, requiredAlignment: u64, memorySchema: Text,
    dependencies: seq<KernelRef>, modelRevision: Text, policyGeneration: Text)

  /** The part of a lookup request that facts are made of. */
  datatype Request = Request(workload: Workload, backend: Backend, runtime: Runtime, device: Device, descriptor: Descriptor)

  /** What the scan over the nodes accumulates. */
  datatype Tensors = Tensors(
    dtypes: seq<u32>, layouts: seq<u32>, shapes: seq<Shape>, scalar: Scalar, quant: Quantization,
    binding: Binding, schema: Text, align: u64, typed: bool)

  const NO_TENSORS := Tensors([], [], [], NO_SCALAR, NO_QUANT, DEFAULT_BINDING, [], 128, false)

  /** One iteration of the scan. */
  function Absorb(t: Tensors, n: Node): Tensors {
    var u :=
      if n.dtype == DTYPE_NONE then t
      else
        t.(dtypes := t.dtypes + [n.dtype], layouts := t.layouts + [n.layout], shapes := t.shapes + [n.shape],
           scalar := if n.scalar.specialized then n.scalar else t.scalar,
           align := if !t.typed || n.requiredAlignment > t.align then n.requiredAlignment else t.align,
           typed := true, schema := n.binding.schema, binding := n.binding);
    if n.quant.mode != QUANT_NONE then u.(quant := n.quant) else u
  }

  function TensorsOf(nodes: seq<Node>): Tensors {
    if nodes == [] then NO_TENSORS
    else Absorb(TensorsOf(nodes[..|nodes| - 1]), nodes[|nodes| - 1])
  }

  function FactsFrom(wl: Workload, backend: Backend, runtime: Runtime, device: Device, d: Descriptor, t: Tensors): Facts {
    Facts(wl, backend, runtime, device, d.sync.captureMode, d.sync.streamSemantics,
          CanonicalTopology(d.nodes, d.edges), t.shapes, [], t.dtypes, t.layouts, t.scalar, t.quant, t.binding,
          t.align, t.schema, d.dependencies, wl.modelRevision, wl.policyGeneration)
  }

  /** `make_facts`: identity from the request, tensors in the order the request lists its nodes. */
  function FactsOfRequest(r: Request): Facts {
    FactsFrom(r.workload, r.backend, r.runtime, r.device, r.descriptor, TensorsOf(r.descriptor.nodes))
  }

  /** `facts_from_descriptor_and_workload`: identity from the stored descriptor. */
  function FactsOfStored(d: Descriptor, wl: Workload): Facts {
    FactsFrom(wl, d.backend, d.runtime, d.device, d, TensorsOf(d.nodes))
  }

  method ScanTensors(nodes: seq<Node>) returns (t: Tensors)
    ensures t == TensorsOf(nodes)
  {
    var dtypes: seq<u32>, layouts: seq<u32>, shapes: seq<Shape> := [], [], [];
    var scalar, quant, binding := NO_SCALAR, NO_QUANT, DEFAULT_BINDING;
    var schema: Text, align: u64, haveAlign := [], 128, false;
    for i := 0 to |nodes|
      invariant Tensors(dtypes, layouts, shapes, scalar, quant, binding, schema, align, haveAlign) == TensorsOf(nodes[..i])
    {
      var n := nodes[i];
      assert nodes[..i + 1][..i] == nodes[..i];
      if n.dtype != DTYPE_NONE {
        dtypes := dtypes + [n.dtype];
        layouts := layouts + [n.layout];
        shapes := shapes + [n.shape];
        if n.scalar.specialized {
          scalar := n.scalar;
        }
        if !haveAlign || n.requiredAlignment > align {
          align := n.requiredAlignment;
        }
        haveAlign := true;
        schema := n.binding.schema;
        binding := n.binding;
      }
      if n.quant.mode != QUANT_NONE {
        quant := n.quant;
      }
    }
    assert nodes[..|nodes|] == nodes;
    t := Tensors(dtypes, layouts, shapes, scalar, quant, binding, schema, align, haveAlign);
  }

  method MakeFacts(r: Request) returns (f: Facts)
    ensures f == FactsOfRequest(r)
  {
    var topology := WriteCanonicalTopology(r.descriptor.nodes, r.descriptor.edges);
    var t := ScanTensors(r.descriptor.nodes);
    f := Facts(r.workload, r.backend, r.runtime, r.device, r.descriptor.sync.captureMode, r.descriptor.sync.streamSemantics,
               topology, t.shapes, [], t.dtypes, t.layouts, t.scalar, t.quant, t.binding, t.align, t.schema,
               r.descriptor.dependencies, r.workload.modelRevision, r.workload.policyGeneration);
  }

  // ----- what the scan computes -----

  /** The alignment is the largest any typed node asks for, and 128 when no node is typed. */
  lemma {:induction false} AlignmentIsMaximum(nodes: seq<Node>)
    ensures TensorsOf(nodes).typed <==> exists i :: 0 <= i < |nodes| && nodes[i].dtype != DTYPE_NONE
    ensures !TensorsOf(nodes).typed ==> TensorsOf(nodes).align == 128
    ensures forall i | 0 <= i < |nodes| && nodes[i].dtype != DTYPE_NONE :: nodes[i].requiredAlignment <= TensorsOf(nodes).align
    ensures TensorsOf(nodes).typed ==>
              exists i :: 0 <= i < |nodes| && nodes[i].dtype != DTYPE_NONE && nodes[i].requiredAlignment == TensorsOf(nodes).align
  {
    if nodes != [] {
      var n := |nodes| - 1;
      AlignmentIsMaximum(nodes[..n]);
      var t := TensorsOf(nodes[..n]);
      assert forall i | 0 <= i < n :: nodes[..n][i] == nodes[i];
      if t.typed {
        var i :| 0 <= i < n && nodes[..n][i].dtype != DTYPE_NONE && nodes[..n][i].requiredAlignment == t.align;
        assert nodes[i].requiredAlignment == t.align;
      }
      assert nodes[n].dtype != DTYPE_NONE ==> TensorsOf(nodes).align == nodes[n].requiredAlignment || TensorsOf(nodes).align == t.align;
    }
  }

  // ----- what the scan keeps of the order -----

  /** The typed nodes, in the order they are listed. */
  function Typed(nodes: seq<Node>): seq<Node> {
    if nodes == [] then []
    else
      var n, before := nodes[|nodes| - 1], Typed(nodes[..|nodes| - 1]);
      if n.dtype == DTYPE_NONE then before else before + [n]
  }

  /** The scalar of the last typed node that has a specialised one. */
  function LastScalar(nodes: seq<Node>): Scalar {
    if nodes == [] then NO_SCALAR
    else
      var n := nodes[|nodes| - 1];
      if n.dtype != DTYPE_NONE && n.scalar.specialized then n.scalar else LastScalar(nodes[..|nodes| - 1])
  }

  /** The quantization of the last node that has one. */
  function LastQuant(nodes: seq<Node>): Quantization {
    if nodes == [] then NO_QUANT
    else
      var n := nodes[|nodes| - 1];
      if n.quant.mode != QUANT_NONE then n.quant else LastQuant(nodes[..|nodes| - 1])
  }

  /** Typed nodes with equal datatypes, layouts and shapes in the same places, and with equal last bindings. */
  predicate SameTyped(a: seq<Node>, b: seq<Node>) {
    && |a| == |b|
    && (forall i | 0 <= i < |a| :: a[i].dtype == b[i].dtype && a[i].layout == b[i].layout && a[i].shape == b[i].shape)
    && (a != [] ==> a[|a| - 1].binding == b[|b| - 1].binding)
  }

  /** A scan cannot tell the two listings apart by looking at their nodes. */
  predicate ScansAlike(a: seq<Node>, b: seq<Node>) {
    SameTyped(Typed(a), Typed(b)) && LastScalar(a) == LastScalar(b) && LastQuant(a) == LastQuant(b)
  }

  predicate ListsTyped(t: Tensors, ns: seq<Node>) {
    && |t.dtypes| == |t.layouts| == |t.shapes| == |ns| && (t.typed <==> ns != [])
    && (forall i | 0 <= i < |ns| :: t.dtypes[i] == ns[i].dtype && t.layouts[i] == ns[i].layout && t.shapes[i] == ns[i].shape)
    && (ns == [] ==> t.binding == DEFAULT_BINDING && t.schema == [])
    && (ns != [] ==> t.binding == ns[|ns| - 1].binding && t.schema == ns[|ns| - 1].binding.schema)
  }

  lemma {:induction false} TensorsListed(nodes: seq<Node>)
    ensures ListsTyped(TensorsOf(nodes), Typed(nodes))
    ensures TensorsOf(nodes).scalar == LastScalar(nodes) && TensorsOf(nodes).quant == LastQuant(nodes)
  {
    if nodes != [] {
      hide ListsTyped;
      var n, before := nodes[|nodes| - 1], nodes[..|nodes| - 1];
      TensorsListed(before);
      ListsOneMore(TensorsOf(before), Typed(before), n);
    }
  }

  lemma ListsOneMore(t: Tensors, ns: seq<Node>, n: Node)
    requires ListsTyped(t, ns)
    ensures ListsTyped(Absorb(t, n), if n.dtype == DTYPE_NONE then ns else ns + [n])
  {
  }

  lemma TypedOfPermutation(a: seq<Node>, b: seq<Node>)
    requires multiset(a) == multiset(b) && TensorsOf(a).typed
    ensures TensorsOf(b).typed
  {
    hide TensorsOf;
    AlignmentIsMaximum(a);
    AlignmentIsMaximum(b);
    var i :| 0 <= i < |a| && a[i].dtype != DTYPE_NONE && a[i].requiredAlignment == TensorsOf(a).align;
    assert a[i] in multiset(b);
    assert a[i] in b;
  }

  lemma AlignmentOfPermutation(a: seq<Node>, b: seq<Node>)
    requires multiset(a) == multiset(b)
    ensures TensorsOf(a).align <= TensorsOf(b).align && (TensorsOf(a).typed ==> TensorsOf(b).typed)
  {
    hide TensorsOf;
    AlignmentIsMaximum(a);
    AlignmentIsMaximum(b);
    if TensorsOf(b).typed {
      TypedOfPermutation(b, a);
    }
    if TensorsOf(a).typed {
      TypedOfPermutation(a, b);
      var i :| 0 <= i < |a| && a[i].dtype != DTYPE_NONE && a[i].requiredAlignment == TensorsOf(a).align;
      assert a[i] in multiset(b);
      assert a[i] in b;
    }
  }

  /** Two listings of the same nodes give the same facts exactly when they scan alike; the alignment never depends on the order. */
  lemma ScansAlikeExactly(a: seq<Node>, b: seq<Node>)
    requires multiset(a) == multiset(b)
    ensures TensorsOf(a) == TensorsOf(b) <==> ScansAlike(a, b)
  {
    hide TensorsOf, Typed, LastScalar, LastQuant;
    TensorsListed(a);
    TensorsListed(b);
    AlignmentOfPermutation(a, b);
    AlignmentOfPermutation(b, a);
    if ScansAlike(a, b) {
      var t, u := TensorsOf(a), TensorsOf(b);
      assert t.dtypes == u.dtypes && t.layouts == u.layouts && t.shapes == u.shapes;
    } else if TensorsOf(a) == TensorsOf(b) {
      SameTensorsSameTyped(TensorsOf(a), Typed(a), Typed(b));
    }
  }

  lemma SameTensorsSameTyped(t: Tensors, a: seq<Node>, b: seq<Node>)
    requires ListsTyped(t, a) && ListsTyped(t, b)
    ensures SameTyped(a, b)
  {
    forall i | 0 <= i < |a|
      ensures a[i].dtype == b[i].dtype && a[i].layout == b[i].layout && a[i].shape == b[i].shape
    {
      assert t.dtypes[i] == a[i].dtype && t.dtypes[i] == b[i].dtype;
      assert t.layouts[i] == a[i].layout && t.layouts[i] == b[i].layout && t.shapes[i] == a[i].shape && t.shapes[i] == b[i].shape;
    }
  }

  /** The scan reads only what the canonical encoding keeps. */
  lemma AbsorbNormal(t: Tensors, n: Node)
    ensures Absorb(t, NormalNode(n)) == Absorb(t, n)
  {
  }

  lemma {:induction false} TensorsOfNormal(a: seq<Node>, b: seq<Node>)
    requires NormalNodes(a) == NormalNodes(b)
    ensures TensorsOf(a) == TensorsOf(b)
  {
    hide Absorb, NormalNode;
    assert |a| == |NormalNodes(a)| == |NormalNodes(b)| == |b|;
    if a != [] {
      var n := |a| - 1;
      assert NormalNode(a[n]) == NormalNodes(a)[n] == NormalNodes(b)[n] == NormalNode(b[n]);
      NormalNodesFront(a, b);
      TensorsOfNormal(a[..n], b[..n]);
      AbsorbNormal(TensorsOf(a[..n]), a[n]);
      AbsorbNormal(TensorsOf(b[..n]), b[n]);
    }
  }

  lemma NormalNodesFront(a: seq<Node>, b: seq<Node>)
    requires a != [] && NormalNodes(a) == NormalNodes(b)
    ensures |a| == |b| && NormalNodes(a[..|a| - 1]) == NormalNodes(b[..|b| - 1])
  {
    assert |a| == |NormalNodes(a)| == |NormalNodes(b)| == |b|;
    var x, y := NormalNodes(a[..|a| - 1]), NormalNodes(b[..|b| - 1]);
    forall i | 0 <= i < |a| - 1
      ensures x[i] == y[i]
    {
      assert NormalNodes(a)[i] == NormalNodes(b)[i];
    }
  }

  /** Nodes listed in the order of their identities, as every stored descriptor has them. */
  ghost predicate Ordered(d: Descriptor) {
    SortNodes(d.nodes) == d.nodes
  }

  /** For id-ordered nodes, equal canonical topology forces every tensor-derived fact to be equal. */
  lemma TopologyDeterminesTensors(a: Descriptor, b: Descriptor)
    requires Ordered(a) && Ordered(b)
    requires TopologyFits(a.nodes, a.edges) && TopologyFits(b.nodes, b.edges)
    requires CanonicalTopology(a.nodes, a.edges) == CanonicalTopology(b.nodes, b.edges)
    ensures TensorsOf(a.nodes) == TensorsOf(b.nodes)
  {
    CanonicalTopologyInjective(a.nodes, a.edges, b.nodes, b.edges);
    TensorsOfNormal(a.nodes, b.nodes);
  }
}
