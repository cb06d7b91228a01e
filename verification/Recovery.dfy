/**
  Persisting a captured entry and loading it back: `persist_entry`,
  `load_entry` and `decode_entry_payload` of src/cache.cpp over the envelope.
  The recovered entry answers every request as the captured one did and
  replays as it did.
 */
module Recovery {
  import opened Bytes
  import opened Descriptors
  import opened NodeCodec
  import opened Topology
  import opened TopologyCodec
  import opened CpuCapture
  import opened SameGraph
  import opened Facts
  import opened FactsCodec
  import opened StoredCodec
  import opened Decide
  import opened HitSoundness
  import opened Finalize
  import Envelope
  import IdOrder
  import Sha256

  /** The file that holds an entry. */
  function Stored(d: Descriptor, m: Metadata): seq<byte> {
    Envelope.Build(Envelope.FORMAT_VERSION, EncodePayload(d, m))
  }

  /** What an entry is rebuilt from, unless the file is refused. */
  function LoadEntry(file: seq<byte>): Option<(Descriptor, Metadata)> {
    match Envelope.Parse(Envelope.FORMAT_VERSION, file)
    case Accepted(payload) => DecodePayload(payload)
    case _ => None
  }

  lemma LoadStored(d: Descriptor, m: Metadata)
    requires DescriptorWithinLimits(d) && |EncodePayload(d, m)| <= Envelope.MAX_PAYLOAD
    ensures LoadEntry(Stored(d, m)) == Some((NormalDescriptor(d), m))
  {
    hide Envelope.Build, Envelope.Parse, EncodePayload, DecodePayload, NormalDescriptor, DescriptorWithinLimits;
    Envelope.EnvelopeExact(Envelope.FORMAT_VERSION, Stored(d, m), EncodePayload(d, m));
    PayloadBack(d, m);
  }

  lemma BuiltLength(version: u32, p: seq<byte>)
    ensures |Envelope.Build(version, p)| == |p| + 48
  {
    hide Sha256.Digest;
  }

  /** A file that loads at all loads with the metadata it was written with. */
  lemma MetadataSurvives(d: Descriptor, m: Metadata)
    requires LoadEntry(Stored(d, m)).Some?
    ensures LoadEntry(Stored(d, m)).value.1 == m
  {
    hide Envelope.Build, Envelope.Parse, EncodePayload, DecodePayload;
    var v, p := Envelope.FORMAT_VERSION, EncodePayload(d, m);
    var q := Envelope.Parse(v, Stored(d, m)).payload;
    Envelope.EnvelopeExact(v, Stored(d, m), q);
    BuiltLength(v, p);
    BuiltLength(v, q);
    Envelope.EnvelopeExact(v, Stored(d, m), p);
    PayloadMetadata(d, m);
  }

  // ----- the stored graph is the captured graph -----

  lemma NormalTwice(ns: seq<Node>)
    ensures NormalNodes(NormalNodes(ns)) == NormalNodes(ns)
  {
    forall i | 0 <= i < |ns|
      ensures NormalNode(NormalNode(ns[i])) == NormalNode(ns[i])
    {
    }
  }

  lemma NormalKeepsOrder(ns: seq<Node>)
    requires SortNodes(ns) == ns && UniqueNodeIds(ns)
    ensures SortNodes(NormalNodes(ns)) == NormalNodes(ns)
  {
    hide IdOrder.Sort;
    IdOrder.SortProperties(ns, NodeKey);
    var b := NormalNodes(ns);
    forall i | 0 <= i < |ns|
      ensures NodeKey(b[i]) == NodeKey(ns[i])
    {
    }
    IdOrder.SortIdempotent(b, NodeKey);
  }

  lemma NormalFits(n: Node)
    requires NodeFits(n)
    ensures NodeFits(NormalNode(n))
  {
  }

  /** The canonical bytes of what is stored are those of what was captured. */
  lemma StoredTopology(d: Descriptor)
    requires UniqueNodeIds(d.nodes) && UniqueEdgeIds(d.edges) && TopologyFits(d.nodes, d.edges)
    ensures var s := NormalDescriptor(Finalized(d));
            && TopologyFits(s.nodes, s.edges)
            && CanonicalTopology(s.nodes, s.edges) == CanonicalTopology(d.nodes, d.edges)
  {
    hide IdOrder.Sort, NormalNode, CanonicalTopology, CanonicalSemantic, NodeFits, EdgeFits;
    var ns, es := SortNodes(d.nodes), SortEdges(d.edges);
    ReorderedTwice(d);
    IdOrder.SortProperties(d.nodes, NodeKey);
    IdOrder.DistinctKeysOfPermutation(d.nodes, ns, NodeKey);
    UniqueKeys(ns);
    NormalKeepsOrder(ns);
    NormalTwice(ns);
    SortKeepsFits(d.nodes, d.edges);
    forall i | 0 <= i < |ns|
      ensures NodeFits(NormalNodes(ns)[i])
    {
      NormalFits(ns[i]);
    }
    CanonicalTopologyExact(NormalNodes(ns), es, d.nodes, d.edges);
  }

  lemma UniqueKeys(ns: seq<Node>)
    requires IdOrder.DistinctKeys(ns, NodeKey)
    ensures UniqueNodeIds(ns)
  {
    forall i, j | 0 <= i < j < |ns|
      ensures ns[i].id != ns[j].id
    {
      assert NodeKey(ns[i]) != NodeKey(ns[j]);
    }
  }

  // ----- facts -----

  /** The request asks for the platform its own descriptor was made for, as far as that is written. */
  predicate Agrees(r: Request) {
    && r.backend == r.descriptor.backend && r.device == r.descriptor.device
    && r.runtime.(driverText := []) == r.descriptor.runtime.(driverText := [])
  }

  lemma {:induction false} TensorsNormalForm(ns: seq<Node>)
    ensures NormalScalar(TensorsOf(ns).scalar) == TensorsOf(ns).scalar && NormalQuant(TensorsOf(ns).quant) == TensorsOf(ns).quant
  {
    if ns != [] {
      TensorsNormalForm(ns[..|ns| - 1]);
    }
  }

  /** Listed in identity order, as they are stored, the nodes scan as they do in the order the request lists them. */
  predicate OrderFree(d: Descriptor) {
    ScansAlike(SortNodes(d.nodes), d.nodes)
  }

  lemma StoredTensors(d: Descriptor)
    requires UniqueNodeIds(d.nodes) && UniqueEdgeIds(d.edges)
    ensures TensorsOf(NormalDescriptor(Finalized(d)).nodes) == TensorsOf(SortNodes(d.nodes))
  {
    hide IdOrder.Sort, NormalNode, CanonicalSemantic, TensorsOf;
    NormalTwice(SortNodes(d.nodes));
    TensorsOfNormal(NormalNodes(SortNodes(d.nodes)), SortNodes(d.nodes));
  }

  /**
    The facts rebuilt from storage are the facts that were captured, as far as
    they are ever written, exactly when the request's platform is its
    descriptor's, and in identity order the typed nodes have the same
    datatypes, layouts and shapes in the same places and the last binding,
    specialised scalar and quantization are the same.
   */
  lemma RecoveredFacts(r: Request)
    requires UniqueNodeIds(r.descriptor.nodes) && UniqueEdgeIds(r.descriptor.edges)
    requires TopologyFits(r.descriptor.nodes, r.descriptor.edges)
    ensures FactsOfStored(NormalDescriptor(Finalized(r.descriptor)), r.workload) == NormalFacts(FactsOfRequest(r)) <==>
              Agrees(r) && OrderFree(r.descriptor)
  {
    hide IdOrder.Sort, NormalNode, CanonicalTopology, CanonicalSemantic, TopologyFits, NormalScalar, NormalQuant, TensorsOf, Typed, LastScalar, LastQuant,
         ScansAlike;
    var d := r.descriptor;
    StoredTopology(d);
    StoredTensors(d);
    TensorsNormalForm(d.nodes);
    IdOrder.SortProperties(d.nodes, NodeKey);
    ScansAlikeExactly(SortNodes(d.nodes), d.nodes);
    TensorsListed(d.nodes);
    TensorsListed(SortNodes(d.nodes));
  }

  lemma CorrectnessKeysNormal(ks: seq<KernelRef>)
    ensures CorrectnessKeys(NormalKernels(ks)) == CorrectnessKeys(ks)
  {
    var ns := NormalKernels(ks);
    forall i | 0 <= i < |ks|
      ensures ns[i].contributes == ks[i].contributes && DependencyKey(ns[i]) == DependencyKey(ks[i])
    {
    }
    forall t | t in CorrectnessKeys(ks)
      ensures t in CorrectnessKeys(ns)
    {
      var i :| 0 <= i < |ks| && ks[i].contributes && DependencyKey(ks[i]) == t;
      assert ns[i].contributes;
    }
    forall t | t in CorrectnessKeys(ns)
      ensures t in CorrectnessKeys(ks)
    {
      var i :| 0 <= i < |ns| && ns[i].contributes && DependencyKey(ns[i]) == t;
      assert ks[i].contributes;
    }
  }

  /** No decision reads what is not written. */
  lemma DecidedOfNormal(q: Facts, c: Facts, p: Policy)
    requires NormalQuant(c.quant) == c.quant
    ensures Decided(q, NormalFacts(c), p) == Decided(q, c, p)
  {
    hide CorrectnessKeys, Decide.Verdict, When, NormalQuant, NormalKernels, SameDouble;
    CorrectnessKeysNormal(c.dependencies);
    var n := NormalFacts(c);
    assert PlatformReasons(q, n, p) == PlatformReasons(q, c, p);
    assert ScalarDiffers(q, n) == ScalarDiffers(q, c);
    assert GraphReasons(q, n, p) == GraphReasons(q, c, p);
    assert ShapesAdmitted(q, n, p) == ShapesAdmitted(q, c, p);
    assert SoftReasons(q, n, p) == SoftReasons(q, c, p);
  }

  // ----- when an entry still serves the request that captured it -----

  /** The platform a request asks for is its descriptor's, as far as the policy compares it. */
  predicate SamePlatform(r: Request, p: Policy) {
    var d := r.descriptor;
    && r.backend.kind == d.backend.kind && r.backend.name == d.backend.name && (p.exactBackend ==> r.backend.version == d.backend.version)
    && r.device.vendor == d.device.vendor && r.device.architecture == d.device.architecture
    && (p.exactArchitecture ==> r.device.computeMajor == d.device.computeMajor && r.device.computeMinor == d.device.computeMinor)
    && (p.exactRuntime ==> r.runtime.version == d.runtime.version) && r.runtime.driver == d.runtime.driver
    && (p.exactAbis ==> r.runtime.graphAbi == d.runtime.graphAbi && r.runtime.kernelAbi == d.runtime.kernelAbi)
  }

  predicate SameScalar(s: Scalar, t: Scalar) {
    s.specialized == t.specialized && (s.specialized ==> s.intValue == t.intValue && SameDouble(s.floatBits, t.floatBits))
  }

  function LastBinding(nodes: seq<Node>): Binding {
    if Typed(nodes) == [] then DEFAULT_BINDING else Typed(nodes)[|Typed(nodes)| - 1].binding
  }

  /** The request's binding is the stored one, or the stored one may be rebound. */
  predicate BindingServes(b: Binding, stored: Binding, p: Policy) {
    || (b.schema == stored.schema && b.bindingClass == stored.bindingClass && b.alignment == stored.alignment)
    || (p.allowRebinding && stored.eligible && stored.bindingClass != RECAPTURE_REQUIRED_BINDING && stored.bindingClass != IMMUTABLE_BINDING)
  }

  ghost predicate ShapesServe(x: seq<Node>, stored: seq<Node>, p: Policy)
    requires |x| == |stored|
  {
    || (forall i | 0 <= i < |x| :: x[i].shape == stored[i].shape)
    || (p.allowDynamicShape && x != [] && forall i | 0 <= i < |x| :: ShapeAdmits(stored[i].shape, x[i].shape))
  }

  /** The nodes as the request lists them against the nodes as they are stored. */
  ghost predicate NodesServe(nodes: seq<Node>, stored: seq<Node>, p: Policy) {
    var x, y := Typed(nodes), Typed(stored);
    && |x| == |y| && (forall i | 0 <= i < |x| :: x[i].dtype == y[i].dtype && x[i].layout == y[i].layout)
    && SameScalar(LastScalar(nodes), LastScalar(stored)) && LastQuant(nodes) == LastQuant(stored)
    && BindingServes(LastBinding(nodes), LastBinding(stored), p) && ShapesServe(x, y, p)
  }

  /** What the facts take from a list of nodes. */
  ghost predicate TakenFrom(f: Facts, nodes: seq<Node>) {
    var t := TensorsOf(nodes);
    && f.dtypes == t.dtypes && f.layouts == t.layouts && f.scalar == t.scalar && f.quant == t.quant
    && f.inputShapes == t.shapes && f.binding == t.binding && f.requiredAlignment == t.align
  }

  lemma TakenIsListed(f: Facts, nodes: seq<Node>)
    requires TakenFrom(f, nodes)
    ensures |f.dtypes| == |f.layouts| == |f.inputShapes| == |Typed(nodes)| && f.binding == LastBinding(nodes)
    ensures forall i | 0 <= i < |f.dtypes| ::
              f.dtypes[i] == Typed(nodes)[i].dtype && f.layouts[i] == Typed(nodes)[i].layout && f.inputShapes[i] == Typed(nodes)[i].shape
    ensures f.scalar == LastScalar(nodes) && f.quant == LastQuant(nodes)
  {
    hide TensorsOf, Typed, LastScalar, LastQuant;
    TensorsListed(nodes);
  }

  ghost predicate TensorsAccepted(q: Facts, c: Facts, p: Policy) {
    && q.dtypes == c.dtypes && q.layouts == c.layouts && !ScalarDiffers(q, c) && q.quant == c.quant
    && (BindingDiffers(q, c) ==> MayRebind(c, p)) && (ShapesDiffer(q, c) ==> ShapesAdmitted(q, c, p))
  }

  lemma TensorsServe(a: seq<Node>, b: seq<Node>, q: Facts, c: Facts, p: Policy)
    requires multiset(a) == multiset(b) && TakenFrom(q, a) && TakenFrom(c, b) && q.outputShapes == c.outputShapes
    ensures TensorsAccepted(q, c, p) <==> NodesServe(a, b, p)
  {
    hide TensorsOf, Typed, LastScalar, LastQuant, LastBinding, SameDouble, ShapesAdmitted, ShapesDiffer, ShapesServe;
    TakenIsListed(q, a);
    TakenIsListed(c, b);
    SameAlignment(a, b);
    SameLists(q, c, Typed(a), Typed(b));
    if |Typed(a)| == |Typed(b)| {
      SameShapes(q, c, Typed(a), Typed(b), p);
    }
  }

  lemma SameAlignment(a: seq<Node>, b: seq<Node>)
    requires multiset(a) == multiset(b)
    ensures TensorsOf(a).align == TensorsOf(b).align
  {
    AlignmentOfPermutation(a, b);
    AlignmentOfPermutation(b, a);
  }

  lemma SameShapes(q: Facts, c: Facts, x: seq<Node>, y: seq<Node>, p: Policy)
    requires |q.inputShapes| == |x| == |y| == |c.inputShapes| && q.outputShapes == c.outputShapes
    requires forall i | 0 <= i < |x| :: q.inputShapes[i] == x[i].shape && c.inputShapes[i] == y[i].shape
    ensures (ShapesDiffer(q, c) ==> ShapesAdmitted(q, c, p)) <==> ShapesServe(x, y, p)
  {
    hide ShapeAdmits;
    assert q.inputShapes == c.inputShapes <==> forall i | 0 <= i < |x| :: x[i].shape == y[i].shape;
  }

  lemma SameLists(q: Facts, c: Facts, x: seq<Node>, y: seq<Node>)
    requires |q.dtypes| == |q.layouts| == |x| && forall i | 0 <= i < |x| :: q.dtypes[i] == x[i].dtype && q.layouts[i] == x[i].layout
    requires |c.dtypes| == |c.layouts| == |y| && forall i | 0 <= i < |y| :: c.dtypes[i] == y[i].dtype && c.layouts[i] == y[i].layout
    ensures q.dtypes == c.dtypes && q.layouts == c.layouts <==>
              |x| == |y| && (forall i | 0 <= i < |x| :: x[i].dtype == y[i].dtype && x[i].layout == y[i].layout)
  {
    if q.dtypes == c.dtypes && q.layouts == c.layouts {
      forall i | 0 <= i < |x|
        ensures x[i].dtype == y[i].dtype && x[i].layout == y[i].layout
      {
        assert q.dtypes[i] == c.dtypes[i] && q.layouts[i] == c.layouts[i];
      }
    }
  }

  /**
    A recovered entry accepts the request that captured it exactly when the
    policy admits the namespace, the request's platform is its descriptor's as
    far as the policy compares it, and the nodes in identity order serve the
    nodes in the order the request lists them.
   */
  lemma RecoveredDecides(r: Request, p: Policy)
    requires UniqueNodeIds(r.descriptor.nodes) && UniqueEdgeIds(r.descriptor.edges)
    requires TopologyFits(r.descriptor.nodes, r.descriptor.edges)
    ensures Decided(FactsOfRequest(r), FactsOfStored(NormalDescriptor(Finalized(r.descriptor)), r.workload), p).Compatible() <==>
              && (p.namespaceFilter == [] || r.workload.namespace == p.namespaceFilter)
              && SamePlatform(r, p) && NodesServe(r.descriptor.nodes, SortNodes(r.descriptor.nodes), p)
  {
    hide IdOrder.Sort, TopologyFits, TensorsOf, NodesServe, Decided, FactsOfStored, FactsOfRequest, NormalDescriptor, Finalized,
         UniqueNodeIds, UniqueEdgeIds, ScalarDiffers, BindingDiffers, MayRebind, ShapesDiffer, ShapesAdmitted, PlatformAgrees, SamePlatform;
    var d := r.descriptor;
    var q, c := FactsOfRequest(r), FactsOfStored(NormalDescriptor(Finalized(d)), r.workload);
    StoredApart(r, p);
    IdOrder.SortProperties(d.nodes, NodeKey);
    DecisionMeaning(q, c, p);
    TensorsServe(d.nodes, SortNodes(d.nodes), q, c, p);
  }

  /** Everything but the platform and the order of the nodes comes back as it was. */
  lemma StoredApart(r: Request, p: Policy)
    requires UniqueNodeIds(r.descriptor.nodes) && UniqueEdgeIds(r.descriptor.edges)
    requires TopologyFits(r.descriptor.nodes, r.descriptor.edges)
    ensures var q, c := FactsOfRequest(r), FactsOfStored(NormalDescriptor(Finalized(r.descriptor)), r.workload);
            && q.workload == c.workload == r.workload && q.captureMode == c.captureMode && q.streamSemantics == c.streamSemantics
            && q.topology == c.topology && !DependenciesDiffer(q, c, p) && q.modelRevision == c.modelRevision
            && q.outputShapes == c.outputShapes && (PlatformAgrees(q, c, p) <==> SamePlatform(r, p))
            && TakenFrom(q, r.descriptor.nodes) && TakenFrom(c, SortNodes(r.descriptor.nodes))
  {
    hide IdOrder.Sort, NormalNode, CanonicalTopology, CanonicalSemantic, TopologyFits, TensorsOf, CorrectnessKeys, NormalKernels,
         UniqueNodeIds, UniqueEdgeIds;
    StoredTopology(r.descriptor);
    StoredTensors(r.descriptor);
    CorrectnessKeysNormal(r.descriptor.dependencies);
  }

  // ----- listings that matter -----

  const LOWER := DEFAULT_NODE.(id := Id(0, 1), dtype := 1)
  const UPPER := DEFAULT_NODE.(id := Id(0, 2), dtype := 2)

  lemma BackwardsScan()
    ensures SortNodes([UPPER, LOWER]) == [LOWER, UPPER]
    ensures TensorsOf([LOWER, UPPER]).dtypes == [1, 2] && TensorsOf([UPPER, LOWER]).dtypes == [2, 1]
  {
    var a, b := LOWER, UPPER;
    assert [b, a][1..] == [a] && [a][1..] == [];
    assert IdOrder.Sort([a], NodeKey) == [a];
    assert IdOrder.Insert(b, [], NodeKey) == [b];
    assert IdOrder.Insert(b, [a], NodeKey) == [a] + IdOrder.Insert(b, [a][1..], NodeKey);
    assert [a, b][..1] == [a] && [b, a][..1] == [b] && [a][..0] == [] && [b][..0] == [];
    assert TensorsOf([a]).dtypes == [1] && TensorsOf([b]).dtypes == [2];
  }

  lemma BackwardsFits()
    ensures UniqueNodeIds([UPPER, LOWER]) && UniqueEdgeIds([]) && TopologyFits([UPPER, LOWER], [])
  {
  }

  /**
    Two nodes of different datatypes, listed against their identity order: once
    persisted and recovered, the entry refuses the very request that captured
    it, under every policy that admits its namespace.
   */
  lemma ListingOrderMatters(r: Request, p: Policy)
    requires r.descriptor.nodes == [UPPER, LOWER] && r.descriptor.edges == [] && Agrees(r)
    requires p.namespaceFilter == [] || r.workload.namespace == p.namespaceFilter
    ensures !OrderFree(r.descriptor)
    ensures Decided(FactsOfRequest(r), FactsOfStored(NormalDescriptor(Finalized(r.descriptor)), r.workload), p).klass
            == Incompatible(IncompatibleDatatype)
  {
    hide IdOrder.Sort, NormalNode, CanonicalTopology, CanonicalSemantic, TopologyFits, TensorsOf, Decided, ScansAlike, CorrectnessKeys, NormalKernels,
         UniqueNodeIds, UniqueEdgeIds;
    var d := r.descriptor;
    var q, c := FactsOfRequest(r), FactsOfStored(NormalDescriptor(Finalized(d)), r.workload);
    BackwardsFits();
    BackwardsScan();
    StoredTopology(d);
    StoredTensors(d);
    CorrectnessKeysNormal(d.dependencies);
    assert q.dtypes == [2, 1] && c.dtypes == [1, 2] && q.dtypes[0] != c.dtypes[0];
    DatatypeFailsFirst(q, c, p);
    IdOrder.SortProperties(d.nodes, NodeKey);
    ScansAlikeExactly(SortNodes(d.nodes), d.nodes);
    assert TensorsOf(SortNodes(d.nodes)).dtypes[0] != TensorsOf(d.nodes).dtypes[0];
  }

  // ----- main result -----

  /**
    Persist, then recover: the file is accepted, the recovered entry keeps its
    key, every request under every policy gets the answer the captured entry
    would have given, and the graph, captured again, replays on a machine as
    before exactly when its kernels compute the same lanes there, which
    unspecialised scalars at zero ensure everywhere.
   */
  lemma PersistThenRecover(r: Request, m: Metadata)
    requires ValidTopology(r.descriptor.nodes, r.descriptor.edges) && TopologyFits(r.descriptor.nodes, r.descriptor.edges)
    requires Agrees(r) && OrderFree(r.descriptor) && m.workload == r.workload
    requires DescriptorWithinLimits(Finalized(r.descriptor))
    requires |EncodePayload(Finalized(r.descriptor), m)| <= Envelope.MAX_PAYLOAD
    ensures var d := NormalDescriptor(Finalized(r.descriptor));
            && LoadEntry(Stored(Finalized(r.descriptor), m)) == Some((d, m))
            && EncodeFacts(FactsOfStored(d, m.workload)) == EncodeFacts(FactsOfRequest(r))
            && (forall q, p :: Decided(q, FactsOfStored(d, m.workload), p) == Decided(q, FactsOfRequest(r), p))
    ensures var d := NormalDescriptor(Finalized(r.descriptor));
            && ValidTopology(d.nodes, d.edges)
            && (forall fp, g, h | Captures(r.descriptor.nodes, r.descriptor.edges, g) && Captures(d.nodes, d.edges, h) ::
                  SameReplayOn(fp, g, h) <==> LanesAgree(fp, r.descriptor.nodes, d.nodes))
    ensures PlainScalars(r.descriptor.nodes) ==>
              forall fp :: LanesAgree(fp, r.descriptor.nodes, NormalDescriptor(Finalized(r.descriptor)).nodes)
  {
    hide Stored, LoadEntry, EncodePayload, DescriptorWithinLimits, NormalDescriptor, Finalized, EncodeFacts, FactsOfStored, FactsOfRequest,
         Decided, ValidTopology, TopologyFits, Captures, SameReplayOn, LanesAgree, OrderFree, PlainScalars;
    LoadStored(Finalized(r.descriptor), m);
    SameAnswers(r);
    SameGraphBack(r.descriptor);
    if PlainScalars(r.descriptor.nodes) {
      PlainBack(r.descriptor);
      forall fp
        ensures LanesAgree(fp, r.descriptor.nodes, NormalDescriptor(Finalized(r.descriptor)).nodes)
      {
        OperandsGiveLanes(fp, r.descriptor.nodes, NormalDescriptor(Finalized(r.descriptor)).nodes);
      }
    }
  }

  lemma SameAnswers(r: Request)
    requires ValidTopology(r.descriptor.nodes, r.descriptor.edges) && TopologyFits(r.descriptor.nodes, r.descriptor.edges)
    requires Agrees(r) && OrderFree(r.descriptor)
    ensures var c := FactsOfStored(NormalDescriptor(Finalized(r.descriptor)), r.workload);
            && EncodeFacts(c) == EncodeFacts(FactsOfRequest(r))
            && (forall q, p :: Decided(q, c, p) == Decided(q, FactsOfRequest(r), p))
  {
    hide Acyclic, EncodeFacts, Decided, NormalFacts, NormalDescriptor, Finalized, TopologyFits, OrderFree, CanonicalTopology;
    var c := FactsOfRequest(r);
    RecoveredFacts(r);
    EncodeNormal(c);
    TensorsNormalForm(r.descriptor.nodes);
    forall q, p
      ensures Decided(q, NormalFacts(c), p) == Decided(q, c, p)
    {
      DecidedOfNormal(q, c, p);
    }
  }

  lemma SameGraphBack(d: Descriptor)
    requires ValidTopology(d.nodes, d.edges) && TopologyFits(d.nodes, d.edges)
    ensures var s := NormalDescriptor(Finalized(d));
            && ValidTopology(s.nodes, s.edges)
            && (forall fp, g, h | Captures(d.nodes, d.edges, g) && Captures(s.nodes, s.edges, h) ::
                  SameReplayOn(fp, g, h) <==> LanesAgree(fp, d.nodes, s.nodes))
  {
    hide NormalDescriptor, Finalized, CanonicalTopology, TopologyFits, Captures, SameReplayOn, LanesAgree, Acyclic, NormalNodes, SortNodes, SortEdges;
    var s := NormalDescriptor(Finalized(d));
    StoredTopology(d);
    CanonicalTopologyExact(d.nodes, d.edges, s.nodes, s.edges);
    ValidTogether(d.nodes, d.edges, s.nodes, s.edges);
    forall fp, g, h | Captures(d.nodes, d.edges, g) && Captures(s.nodes, s.edges, h)
      ensures SameReplayOn(fp, g, h) <==> LanesAgree(fp, d.nodes, s.nodes)
    {
      ReplayAlikeExactly(fp, d.nodes, d.edges, g, s.nodes, s.edges, h);
    }
  }

  lemma PlainBack(d: Descriptor)
    requires ValidTopology(d.nodes, d.edges) && TopologyFits(d.nodes, d.edges) && PlainScalars(d.nodes)
    ensures OperandsAgree(d.nodes, NormalDescriptor(Finalized(d)).nodes)
  {
    hide CanonicalTopology, CanonicalSemantic, TopologyFits, OperandsAgree, Acyclic, NormalNode, IdOrder.Sort;
    var s := NormalDescriptor(Finalized(d));
    StoredTopology(d);
    CanonicalTopologyExact(d.nodes, d.edges, s.nodes, s.edges);
    UniqueTogether(d.nodes, s.nodes);
    forall i | 0 <= i < |s.nodes|
      ensures s.nodes[i].scalar == NormalScalar(s.nodes[i].scalar)
    {
      NormalIsPlain(Finalized(d).nodes[i]);
    }
    PlainOperandsAgree(d.nodes, s.nodes);
  }

  lemma NormalIsPlain(n: Node)
    ensures NormalNode(n).scalar == NormalScalar(NormalNode(n).scalar)
  {
  }
}
