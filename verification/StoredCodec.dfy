/**
  src/serialization.cpp: stored descriptors and metadata, and the entry payload
  of src/cache.cpp that holds one of each.
 */
module StoredCodec {
  import opened Bytes
  import opened Canonical
  import opened Descriptors
  import opened NodeCodec
  import opened LooseCodec
  import opened Records
  import opened FactsCodec

  // ----- descriptors -----

  function HeaderFields(d: Descriptor): seq<Field> {
    [Field(1, Be64(d.artifact.hi)), Field(2, Be64(d.artifact.lo)), Field(3, Be64(d.generation))]
  }

  function SyncFields(s: Sync): seq<Field> {
    [Field(40, Be32(s.captureMode)), Field(41, Be32(s.streamSemantics)), Field(42, BoolData(s.externalSync)), Field(43, Be32(s.events))]
  }

  function ProvenanceFields(p: Provenance): seq<Field> {
    [Field(50, Be64(p.timestampMs)), Field(51, p.source), Field(52, Be64(p.durationUs)), Field(53, p.toolchain), Field(54, p.graphName)]
  }

  function NodeItems(ns: seq<Node>): (r: seq<seq<byte>>)
    ensures |r| == |ns|
    ensures forall i | 0 <= i < |ns| :: r[i] == Flatten(NodeThen(StoredForm, ns[i], []))
  {
    seq(|ns|, i requires 0 <= i < |ns| => Flatten(NodeThen(StoredForm, ns[i], [])))
  }

  function EdgeItems(es: seq<Edge>): (r: seq<seq<byte>>)
    ensures |r| == |es|
    ensures forall i | 0 <= i < |es| :: r[i] == Flatten(EdgeFields(StoredForm, es[i]))
  {
    seq(|es|, i requires 0 <= i < |es| => Flatten(EdgeFields(StoredForm, es[i])))
  }

  function FrontFields(d: Descriptor): seq<Field> {
    HeaderFields(d) + (BackendFields(d.backend) + (RuntimeFields(d.runtime)
    + (DeviceFields(d.device) + (SyncFields(d.sync) + ProvenanceFields(d.provenance)))))
  }

  function GraphFields(d: Descriptor): seq<Field> {
    CountedFields(60, 61, NodeItems(d.nodes)) + (CountedFields(62, 63, EdgeItems(d.edges))
    + CountedFields(64, 65, DependencyItems(d.dependencies)))
  }

  function DescriptorFields(d: Descriptor): seq<Field> {
    FrontFields(d) + GraphFields(d)
  }

  function SerializeDescriptor(d: Descriptor): seq<byte> {
    Flatten(DescriptorFields(d))
  }

  const MAX_NODES: int := 8192
  const MAX_EDGES: int := 16384

  function DecodeHeader(fs: seq<Field>): Parsed<(Id, u64)> {
    var (hi, fs) :- TakeU64(1, fs);
    var (lo, fs) :- TakeU64(2, fs);
    var (generation, fs) :- TakeU64(3, fs);
    Got((Id(hi, lo), generation), fs)
  }

  /** The external-sync flag may be empty and then keeps its default. */
  function DecodeSync(fs: seq<Field>): Parsed<Sync> {
    var (mode, fs) :- TakeU32(40, fs);
    var (stream, fs) :- TakeU32(41, fs);
    var (ext, fs) :- Take(42, fs);
    var (events, fs) :- TakeU32(43, fs);
    Got(Sync(mode, stream, ext != [] && ext[0] != 0, events), fs)
  }

  function DecodeProvenance(fs: seq<Field>): Parsed<Provenance> {
    var (timestamp, fs) :- TakeU64(50, fs);
    var (source, fs) :- Take(51, fs);
    var (duration, fs) :- TakeU64(52, fs);
    var (toolchain, fs) :- Take(53, fs);
    var (name, fs) :- Take(54, fs);
    Got(Provenance(timestamp, source, duration, toolchain, name), fs)
  }

  datatype Front = Front(id: (Id, u64), backend: Backend, runtime: Runtime, device: Device, sync: Sync, provenance: Provenance)

  function DecodeFront(fs: seq<Field>): Parsed<Front> {
    var (id, fs) :- DecodeHeader(fs);
    var (backend, fs) :- DecodeBackend(fs);
    var (runtime, fs) :- DecodeRuntime(fs);
    var (device, fs) :- DecodeDevice(fs);
    var (sync, fs) :- DecodeSync(fs);
    var (provenance, fs) :- DecodeProvenance(fs);
    Got(Front(id, backend, runtime, device, sync, provenance), fs)
  }

  datatype Graph = Graph(nodes: seq<Node>, edges: seq<Edge>, dependencies: seq<KernelRef>)

  function DecodeGraph(fs: seq<Field>): Parsed<Graph> {
    var (nodes, fs) :- TakeList(60, 61, MAX_NODES, DecodeNode, fs);
    var (edges, fs) :- TakeList(62, 63, MAX_EDGES, DecodeEdge, fs);
    var (dependencies, fs) :- TakeList(64, 65, MAX_DEPENDENCIES, DecodeDependency, fs);
    Got(Graph(nodes, edges, dependencies), fs)
  }

  /** `deserialize_descriptor`: nothing may follow the last dependency. */
  function DeserializeDescriptor(b: seq<byte>): Option<Descriptor> {
    var t := Tokenize(b);
    match DecodeFront(t.fields)
    case Fail => None
    case Got(f, fs) =>
      match DecodeGraph(fs)
      case Fail => None
      case Got(g, rest) =>
        if rest != [] || t.malformed then None
        else Some(Descriptor(f.id.0, f.id.1, f.backend, f.runtime, f.device, f.sync, g.nodes, g.edges, g.dependencies, f.provenance))
  }

  /** What survives storage. */
  function NormalDescriptor(d: Descriptor): Descriptor {
    d.(runtime := d.runtime.(driverText := []), nodes := NormalNodes(d.nodes), dependencies := NormalKernels(d.dependencies))
  }

  ghost predicate DescriptorWithinLimits(d: Descriptor) {
    && |d.nodes| <= MAX_NODES && |d.edges| <= MAX_EDGES && |d.dependencies| <= MAX_DEPENDENCIES
    && (forall i | 0 <= i < |d.nodes| :: NodeWithinLimits(d.nodes[i]))
  }

  lemma HeaderBack(d: Descriptor, rest: seq<Field>)
    ensures DecodeHeader(HeaderFields(d) + rest) == Got((d.artifact, d.generation), rest)
  {
    hide BigEndian, FromBigEndian;
  }

  lemma SyncBack(s: Sync, rest: seq<Field>)
    ensures DecodeSync(SyncFields(s) + rest) == Got(s, rest)
  {
    hide BigEndian, FromBigEndian;
  }

  lemma ProvenanceBack(p: Provenance, rest: seq<Field>)
    ensures DecodeProvenance(ProvenanceFields(p) + rest) == Got(p, rest)
  {
    hide BigEndian, FromBigEndian;
  }

  lemma FrontBack(d: Descriptor, rest: seq<Field>)
    ensures DecodeFront(FrontFields(d) + rest) ==
              Got(Front((d.artifact, d.generation), d.backend, d.runtime.(driverText := []), d.device, d.sync, d.provenance), rest)
  {
    hide HeaderFields, BackendFields, RuntimeFields, DeviceFields, SyncFields, ProvenanceFields,
         DecodeHeader, DecodeBackend, DecodeRuntime, DecodeDevice, DecodeSync, DecodeProvenance;
    var h, b, r := HeaderFields(d), BackendFields(d.backend), RuntimeFields(d.runtime);
    var v, s, p := DeviceFields(d.device), SyncFields(d.sync), ProvenanceFields(d.provenance);
    AppendAssociative(h, b + (r + (v + (s + p))), rest);
    AppendAssociative(b, r + (v + (s + p)), rest);
    AppendAssociative(r, v + (s + p), rest);
    AppendAssociative(v, s + p, rest);
    AppendAssociative(s, p, rest);
    HeaderBack(d, b + (r + (v + (s + (p + rest)))));
    BackendBack(d.backend, r + (v + (s + (p + rest))));
    RuntimeBack(d.runtime, v + (s + (p + rest)));
    DeviceBack(d.device, s + (p + rest));
    SyncBack(d.sync, p + rest);
    ProvenanceBack(d.provenance, rest);
  }

  lemma {:induction false} NodesBack(ns: seq<Node>)
    requires ItemsFit(NodeItems(ns)) && forall i | 0 <= i < |ns| :: NodeWithinLimits(ns[i])
    ensures DecodeAll(DecodeNode, NodeItems(ns)) == Some(NormalNodes(ns))
  {
    hide DecodeNode, Flatten, NodeThen, NormalNode, NodeWithinLimits;
    if ns != [] {
      var items := NodeItems(ns);
      assert items[1..] == NodeItems(ns[1..]);
      assert |items[0]| < TWO_32;
      ItemsFitTail(items);
      FieldsFitBySize(NodeThen(StoredForm, ns[0], []));
      NodeBack(ns[0]);
      NodesBack(ns[1..]);
      assert [NormalNode(ns[0])] + NormalNodes(ns[1..]) == NormalNodes(ns);
    }
  }

  lemma {:induction false} EdgesBack(es: seq<Edge>)
    requires ItemsFit(EdgeItems(es))
    ensures DecodeAll(DecodeEdge, EdgeItems(es)) == Some(es)
  {
    hide DecodeEdge, Flatten, EdgeFields;
    if es != [] {
      var items := EdgeItems(es);
      assert items[1..] == EdgeItems(es[1..]);
      assert |items[0]| < TWO_32;
      ItemsFitTail(items);
      FieldsFitBySize(EdgeFields(StoredForm, es[0]));
      EdgeBack(es[0]);
      EdgesBack(es[1..]);
      assert [es[0]] + es[1..] == es;
    }
  }

  lemma GraphBack(d: Descriptor)
    requires DescriptorWithinLimits(d)
    requires ItemsFit(NodeItems(d.nodes)) && ItemsFit(EdgeItems(d.edges)) && ItemsFit(DependencyItems(d.dependencies))
    ensures DecodeGraph(GraphFields(d)) == Got(Graph(NormalNodes(d.nodes), d.edges, NormalKernels(d.dependencies)), [])
  {
    hide CountedFields, TakeList, NodeItems, EdgeItems, DependencyItems, DecodeAll, NodeWithinLimits;
    var b, c := CountedFields(62, 63, EdgeItems(d.edges)), CountedFields(64, 65, DependencyItems(d.dependencies));
    NodesBack(d.nodes);
    EdgesBack(d.edges);
    DependenciesBack(d.dependencies);
    NodeItemsCount(d);
    TakeListBack(60, 61, MAX_NODES, DecodeNode, NodeItems(d.nodes), b + c);
    TakeListBack(62, 63, MAX_EDGES, DecodeEdge, EdgeItems(d.edges), c);
    assert c + [] == c;
    TakeListBack(64, 65, MAX_DEPENDENCIES, DecodeDependency, DependencyItems(d.dependencies), []);
  }

  lemma NodeItemsCount(d: Descriptor)
    ensures |NodeItems(d.nodes)| == |d.nodes| && |EdgeItems(d.edges)| == |d.edges|
    ensures |DependencyItems(d.dependencies)| == |d.dependencies|
  {
  }

  lemma DescriptorSizes(d: Descriptor)
    requires |SerializeDescriptor(d)| < TWO_32
    ensures AllFit(DescriptorFields(d))
    ensures ItemsFit(NodeItems(d.nodes)) && ItemsFit(EdgeItems(d.edges)) && ItemsFit(DependencyItems(d.dependencies))
  {
    hide Flatten, FrontFields, CountedFields, NodeItems, EdgeItems, DependencyItems, AllFit, ItemsFit;
    var n := |SerializeDescriptor(d)|;
    FieldsFitBySize(DescriptorFields(d));
    var a, b, c := CountedFields(60, 61, NodeItems(d.nodes)), CountedFields(62, 63, EdgeItems(d.edges)),
                   CountedFields(64, 65, DependencyItems(d.dependencies));
    AllFitAppend(FrontFields(d), GraphFields(d));
    AllFitAppend(a, b + c);
    AllFitAppend(b, c);
    CountedFit(60, 61, NodeItems(d.nodes), n);
    CountedFit(62, 63, EdgeItems(d.edges), n);
    CountedFit(64, 65, DependencyItems(d.dependencies), n);
  }

  /** A stored descriptor reads back as itself, up to what is not written. */
  lemma DescriptorBack(d: Descriptor)
    requires DescriptorWithinLimits(d) && |SerializeDescriptor(d)| < TWO_32
    ensures DeserializeDescriptor(SerializeDescriptor(d)) == Some(NormalDescriptor(d))
  {
    hide Flatten, Tokenize, FrontFields, GraphFields, DecodeFront, DecodeGraph, DescriptorWithinLimits, NormalNodes, NormalKernels,
         AllFit, ItemsFit;
    DescriptorSizes(d);
    TokenizeFlatten(DescriptorFields(d));
    FrontBack(d, GraphFields(d));
    GraphBack(d);
  }

  // ----- metadata -----

  datatype Metadata = Metadata(
    artifact: Id, generation: u64, cacheGeneration: u64, workload: Workload,
    artifactSize: u64, captureCostUs: u64, instantiateCostUs: u64, dependencyGeneration: u64, invalidated: bool)

  function MetaIdFields(m: Metadata): seq<Field> {
    [Field(1, Be64(m.artifact.hi)), Field(2, Be64(m.artifact.lo)), Field(3, Be64(m.generation)), Field(4, Be64(m.cacheGeneration))]
  }

  function MetaWorkloadFields(w: Workload): seq<Field> {
    [Field(10, w.name), Field(11, Be32(w.version)), Field(12, w.namespace), Field(13, Be32(w.revisionMode)),
     Field(14, w.modelRevision), Field(15, w.policyGeneration)]
  }

  function MetaCostFields(m: Metadata): seq<Field> {
    [Field(20, Be64(m.artifactSize)), Field(21, Be64(m.captureCostUs)), Field(22, Be64(m.instantiateCostUs)),
     Field(23, Be64(m.dependencyGeneration)), Field(24, BoolData(m.invalidated))]
  }

  function MetadataFields(m: Metadata): seq<Field> {
    MetaIdFields(m) + (MetaWorkloadFields(m.workload) + MetaCostFields(m))
  }

  function SerializeMetadata(m: Metadata): seq<byte> {
    Flatten(MetadataFields(m))
  }

  function DecodeMetaId(fs: seq<Field>): Parsed<(Id, u64, u64)> {
    var (hi, fs) :- TakeU64(1, fs);
    var (lo, fs) :- TakeU64(2, fs);
    var (generation, fs) :- TakeU64(3, fs);
    var (cache, fs) :- TakeU64(4, fs);
    Got((Id(hi, lo), generation, cache), fs)
  }

  function DecodeMetaWorkload(fs: seq<Field>): Parsed<Workload> {
    var (name, fs) :- Take(10, fs);
    var (version, fs) :- TakeU32(11, fs);
    var (namespace, fs) :- Take(12, fs);
    var (mode, fs) :- TakeU32(13, fs);
    var (model, fs) :- Take(14, fs);
    var (policy, fs) :- Take(15, fs);
    Got(Workload(name, version, namespace, mode, model, policy), fs)
  }

  datatype Costs = Costs(size: u64, capture: u64, instantiate: u64, dependencies: u64, invalidated: bool)

  function DecodeMetaCosts(fs: seq<Field>): Parsed<Costs> {
    var (size, fs) :- TakeU64(20, fs);
    var (capture, fs) :- TakeU64(21, fs);
    var (instantiate, fs) :- TakeU64(22, fs);
    var (dependencies, fs) :- TakeU64(23, fs);
    var (flag, fs) :- Take(24, fs);
    Got(Costs(size, capture, instantiate, dependencies, flag != [] && flag[0] != 0), fs)
  }

  function DeserializeMetadata(b: seq<byte>): Option<Metadata> {
    var t := Tokenize(b);
    match DecodeMetaId(t.fields)
    case Fail => None
    case Got(id, fs) =>
      match DecodeMetaWorkload(fs)
      case Fail => None
      case Got(w, fs) =>
        match DecodeMetaCosts(fs)
        case Fail => None
        case Got(c, rest) =>
          if rest != [] || t.malformed then None
          else Some(Metadata(id.0, id.1, id.2, w, c.size, c.capture, c.instantiate, c.dependencies, c.invalidated))
  }

  lemma MetaIdBack(m: Metadata, rest: seq<Field>)
    ensures DecodeMetaId(MetaIdFields(m) + rest) == Got((m.artifact, m.generation, m.cacheGeneration), rest)
  {
    hide BigEndian, FromBigEndian;
  }

  lemma MetaWorkloadBack(w: Workload, rest: seq<Field>)
    ensures DecodeMetaWorkload(MetaWorkloadFields(w) + rest) == Got(w, rest)
  {
    hide BigEndian, FromBigEndian;
  }

  lemma MetaCostsBack(m: Metadata, rest: seq<Field>)
    ensures DecodeMetaCosts(MetaCostFields(m) + rest) ==
              Got(Costs(m.artifactSize, m.captureCostUs, m.instantiateCostUs, m.dependencyGeneration, m.invalidated), rest)
  {
    hide BigEndian, FromBigEndian;
  }

  /** Metadata reads back exactly. */
  lemma MetadataBack(m: Metadata)
    requires |SerializeMetadata(m)| < TWO_32
    ensures DeserializeMetadata(SerializeMetadata(m)) == Some(m)
  {
    hide Flatten, Tokenize, MetaIdFields, MetaWorkloadFields, MetaCostFields, DecodeMetaId, DecodeMetaWorkload, DecodeMetaCosts;
    FieldsFitBySize(MetadataFields(m));
    TokenizeFlatten(MetadataFields(m));
    MetaIdBack(m, MetaWorkloadFields(m.workload) + MetaCostFields(m));
    MetaWorkloadBack(m.workload, MetaCostFields(m));
    assert MetaCostFields(m) + [] == MetaCostFields(m);
    MetaCostsBack(m, []);
  }

  // ----- entry payloads -----

  function PayloadFields(d: Descriptor, m: Metadata): seq<Field> {
    [Field(1, SerializeDescriptor(d)), Field(2, SerializeMetadata(m))]
  }

  function EncodePayload(d: Descriptor, m: Metadata): seq<byte> {
    Flatten(PayloadFields(d, m))
  }

  datatype Halves = Halves(descriptor: Option<Descriptor>, metadata: Option<Metadata>)

  /** One field of a payload: each half may be repeated, and the last one counts. */
  function ApplyHalf(h: Halves, f: Field): Option<Halves> {
    if f.tag == 1 then
      var d :- DeserializeDescriptor(f.data);
      Some(h.(descriptor := Some(d)))
    else if f.tag == 2 then
      var m :- DeserializeMetadata(f.data);
      Some(h.(metadata := Some(m)))
    else None
  }

  function DecodePayload(b: seq<byte>): Option<(Descriptor, Metadata)> {
    var h :- DecodeLoose(ApplyHalf, b, Halves(None, None));
    var d :- h.descriptor;
    var m :- h.metadata;
    Some((d, m))
  }

  /** Whatever becomes of the descriptor, metadata that is read back is what was written. */
  lemma PayloadMetadata(d: Descriptor, m: Metadata)
    requires |EncodePayload(d, m)| < TWO_32 && DecodePayload(EncodePayload(d, m)).Some?
    ensures DecodePayload(EncodePayload(d, m)).value.1 == m
  {
    hide Flatten, Tokenize, SerializeDescriptor, SerializeMetadata, DeserializeDescriptor, DeserializeMetadata, Fold;
    var fs := PayloadFields(d, m);
    FieldsFitBySize(fs);
    assert Fits(fs[0]) && Fits(fs[1]);
    DecodeFlatten(ApplyHalf, fs, Halves(None, None));
    MetadataBack(m);
    FoldStep(ApplyHalf, fs, 0, Halves(None, None));
    FoldStep(ApplyHalf, fs, 1, Halves(DeserializeDescriptor(fs[0].data), None));
    FoldEnds(ApplyHalf, fs);
  }

  lemma PayloadBack(d: Descriptor, m: Metadata)
    requires DescriptorWithinLimits(d) && |EncodePayload(d, m)| < TWO_32
    ensures DecodePayload(EncodePayload(d, m)) == Some((NormalDescriptor(d), m))
  {
    hide Flatten, Tokenize, SerializeDescriptor, SerializeMetadata, DeserializeDescriptor, DeserializeMetadata,
         DescriptorWithinLimits, NormalDescriptor, Fold;
    var fs := PayloadFields(d, m);
    FieldsFitBySize(fs);
    assert Fits(fs[0]) && Fits(fs[1]);
    DecodeFlatten(ApplyHalf, fs, Halves(None, None));
    DescriptorBack(d);
    MetadataBack(m);
    FoldStep(ApplyHalf, fs, 0, Halves(None, None));
    FoldStep(ApplyHalf, fs, 1, Halves(Some(NormalDescriptor(d)), None));
    FoldEnds(ApplyHalf, fs);
  }
}
