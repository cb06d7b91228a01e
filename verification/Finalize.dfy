/**
  `GraphDescriptor::finalize` and `canonical_semantic` of src/topology.cpp: a
  descriptor is validated, put into canonical order and, when it has no
  artifact identity yet, named after the digest of what it means.
 */
module Finalize {
  import opened Bytes
  import opened Canonical
  import opened Descriptors
  import opened NodeCodec
  import opened Records
  import opened FactsCodec
  import opened Topology
  import opened TopologyCodec
  import IdOrder
  import Sha256

  const ANONYMOUS: Text := [0x61, 0x6E, 0x6F, 0x6E, 0x79, 0x6D, 0x6F, 0x75, 0x73]

  function GraphName(name: Text): Text {
    if name == [] then ANONYMOUS else name
  }

  function BackendPart(d: Descriptor): (fs: seq<Field>)
    ensures |fs| == 8
  {
    [Field(201, CanonicalTopology(d.nodes, d.edges)), Field(202, Be32(d.backend.kind)), Field(203, d.backend.name),
     Field(204, Be32(d.backend.version)), Field(205, Be32(d.runtime.version)), Field(206, Be32(d.runtime.graphAbi)),
     Field(207, Be32(d.runtime.kernelAbi)), Field(208, Be32(d.runtime.driver))]
  }

  function DevicePart(d: Descriptor): (fs: seq<Field>)
    ensures |fs| == 8
  {
    [Field(209, Be32(d.device.vendor)), Field(210, d.device.architecture), Field(211, Be32(d.device.computeMajor)),
     Field(212, Be32(d.device.computeMinor)), Field(213, Be32(d.sync.captureMode)), Field(214, Be32(d.sync.streamSemantics)),
     Field(215, BoolData(d.sync.externalSync)), Field(216, Be32(d.sync.events))]
  }

  function PlatformFields(d: Descriptor): (fs: seq<Field>)
    ensures |fs| == 16
  {
    BackendPart(d) + DevicePart(d)
  }

  function OriginFields(d: Descriptor): seq<Field> {
    [Field(219, GraphName(d.provenance.graphName)), Field(220, d.provenance.toolchain)]
  }

  function SemanticFields(d: Descriptor): seq<Field> {
    PlatformFields(d) + (CountedFields(217, 218, DependencyItems(d.dependencies)) + OriginFields(d))
  }

  function CanonicalSemantic(d: Descriptor): seq<byte> {
    Flatten(SemanticFields(d))
  }

  /** The identity made of the first sixteen bytes of a digest. */
  function IdOf(digest: seq<byte>): Id
    requires |digest| >= 16
  {
    Id(FromBe64(digest[..8]), FromBe64(digest[8..16]))
  }

  /** The identity is those bytes, most significant first. */
  lemma IdIsDigest(a: seq<byte>)
    requires |a| >= 16
    ensures Be64(IdOf(a).hi) + Be64(IdOf(a).lo) == a[..16]
  {
    assert a[..16] == a[..8] + a[8..16];
  }

  /** So two digests give one identity exactly when they agree in their first sixteen bytes. */
  lemma IdExactly(a: seq<byte>, b: seq<byte>)
    requires |a| >= 16 && |b| >= 16
    ensures IdOf(a) == IdOf(b) <==> a[..16] == b[..16]
  {
    hide BigEndian, FromBigEndian;
    IdIsDigest(a);
    IdIsDigest(b);
    assert a[..8] == a[..16][..8] && a[8..16] == a[..16][8..] && b[..8] == b[..16][..8] && b[8..16] == b[..16][8..];
  }

  function Reordered(d: Descriptor): Descriptor {
    d.(nodes := SortNodes(d.nodes), edges := SortEdges(d.edges))
  }

  function Finalized(d: Descriptor): Descriptor {
    var r := Reordered(d);
    if d.artifact.Valid() then r else r.(artifact := IdOf(Sha256.Digest(CanonicalSemantic(r))))
  }

  // ----- the code -----

  method WriteBackendPart(d: Descriptor, w: CanonicalWriter)
    requires w.Valid()
    modifies w
    ensures w.Valid() && w.fields == old(w.fields) + BackendPart(d)
  {
    hide w.Valid, Be32, CanonicalTopology;
    var topology := WriteCanonicalTopology(d.nodes, d.edges);
    w.PutBytes(201, topology);
    w.PutU32(202, d.backend.kind);
    w.PutBytes(203, d.backend.name);
    w.PutU32(204, d.backend.version);
    w.PutU32(205, d.runtime.version);
    w.PutU32(206, d.runtime.graphAbi);
    w.PutU32(207, d.runtime.kernelAbi);
    w.PutU32(208, d.runtime.driver);
  }

  method WriteDevicePart(d: Descriptor, w: CanonicalWriter)
    requires w.Valid()
    modifies w
    ensures w.Valid() && w.fields == old(w.fields) + DevicePart(d)
  {
    hide w.Valid, Be32, BoolData;
    w.PutU32(209, d.device.vendor);
    w.PutBytes(210, d.device.architecture);
    w.PutU32(211, d.device.computeMajor);
    w.PutU32(212, d.device.computeMinor);
    w.PutU32(213, d.sync.captureMode);
    w.PutU32(214, d.sync.streamSemantics);
    w.PutBool(215, d.sync.externalSync);
    w.PutU32(216, d.sync.events);
  }

  method WriteSemantic(d: Descriptor) returns (bytes: seq<byte>)
    ensures bytes == CanonicalSemantic(d)
  {
    hide BackendPart, DevicePart, OriginFields, DependencyFields, Flatten, Be32;
    var w := new CanonicalWriter();
    WriteBackendPart(d, w);
    WriteDevicePart(d, w);
    w.PutU32(217, |d.dependencies| % TWO_32);
    ghost var items := DependencyItems(d.dependencies);
    ghost var front := PlatformFields(d) + [Field(217, Be32(|items| % TWO_32))];
    for i := 0 to |d.dependencies|
      invariant w.Valid() && fresh(w)
      invariant w.fields == front + ItemFields(218, items[..i])
    {
      var dw := new CanonicalWriter();
      EncodeDependency(dw, d.dependencies[i]);
      assert dw.fields == DependencyFields(d.dependencies[i]);
      w.PutBytes(218, dw.buf);
      assert ItemFields(218, items[..i + 1]) == ItemFields(218, items[..i]) + [Field(218, items[i])];
    }
    assert items[..|d.dependencies|] == items;
    w.PutBytes(219, if d.provenance.graphName == [] then ANONYMOUS else d.provenance.graphName);
    w.PutBytes(220, d.provenance.toolchain);
    assert w.fields == SemanticFields(d) by {
      assert OriginFields(d) == [Field(219, GraphName(d.provenance.graphName)), Field(220, d.provenance.toolchain)] by {
        OriginOf(d);
      }
    }
    bytes := w.buf;
  }

  lemma OriginOf(d: Descriptor)
    ensures OriginFields(d) == [Field(219, GraphName(d.provenance.graphName)), Field(220, d.provenance.toolchain)]
  {
  }

  /** An invalid topology leaves the descriptor as it was. */
  method FinalizeDescriptor(d: Descriptor) returns (v: Verdict, r: Descriptor)
    ensures v.Accepted? <==> ValidTopology(d.nodes, d.edges)
    ensures r == if v.Accepted? then Finalized(d) else d
  {
    hide ValidTopology, CanonicalSemantic, Sha256.Digest;
    r := d;
    v := ValidateTopology(d.nodes, d.edges);
    if v.Refused? {
      return;
    }
    r := r.(nodes := SortNodes(r.nodes), edges := SortEdges(r.edges));
    var semantic := WriteSemantic(r);
    var digest := Sha256.HashPieces([semantic]);
    Sha256.OnePiece(semantic);
    if !r.artifact.Valid() {
      r := r.(artifact := Id(FromBe64(digest[..8]), FromBe64(digest[8..16])));
    }
  }

  // ----- canonical order -----

  lemma ReorderedTwice(d: Descriptor)
    requires UniqueNodeIds(d.nodes) && UniqueEdgeIds(d.edges)
    ensures Reordered(Reordered(d)) == Reordered(d)
  {
    hide IdOrder.Sort;
    IdOrder.SortProperties(d.nodes, NodeKey);
    IdOrder.SortProperties(d.edges, EdgeKey);
    IdOrder.DistinctKeysOfPermutation(d.nodes, SortNodes(d.nodes), NodeKey);
    IdOrder.DistinctKeysOfPermutation(d.edges, SortEdges(d.edges), EdgeKey);
    IdOrder.SortIdempotent(SortNodes(d.nodes), NodeKey);
    IdOrder.SortIdempotent(SortEdges(d.edges), EdgeKey);
  }

  /** However a graph's nodes and edges are listed, it is finalised to the same descriptor, under the same artifact identity. */
  lemma FinalizeForgetsListing(d: Descriptor, e: Descriptor)
    requires e == d.(nodes := e.nodes, edges := e.edges)
    requires multiset(d.nodes) == multiset(e.nodes) && multiset(d.edges) == multiset(e.edges)
    requires UniqueNodeIds(d.nodes) && UniqueEdgeIds(d.edges)
    ensures Finalized(d) == Finalized(e)
  {
    hide IdOrder.Sort, CanonicalSemantic, Sha256.Digest;
    SortsAgree(d.nodes, e.nodes, d.edges, e.edges);
  }

  /** Finalising again changes nothing. */
  lemma FinalizeTwice(d: Descriptor)
    requires UniqueNodeIds(d.nodes) && UniqueEdgeIds(d.edges)
    ensures Finalized(Finalized(d)) == Finalized(d)
  {
    hide IdOrder.Sort, Flatten, CanonicalTopology, Sha256.Digest, IdOf;
    var r := Reordered(d);
    ReorderedTwice(d);
    var id := IdOf(Sha256.Digest(CanonicalSemantic(r)));
    assert SemanticFields(r.(artifact := id)) == SemanticFields(r);
  }

  // ----- what the artifact identity is named after -----

  /** Everything the semantic bytes hold: neither the artifact identity nor the workload is part of it. */
  datatype Semantics = Semantics(
    topology: seq<byte>, kind: u32, backend: Text, backendVersion: u32, runtimeVersion: u32, graphAbi: u32, kernelAbi: u32, driver: u32,
    vendor: u32, architecture: Text, computeMajor: u32, computeMinor: u32, sync: Sync,
    dependencies: seq<KernelRef>, name: Text, toolchain: Text)

  function SemanticsOf(d: Descriptor): Semantics {
    Semantics(CanonicalTopology(d.nodes, d.edges), d.backend.kind, d.backend.name, d.backend.version,
              d.runtime.version, d.runtime.graphAbi, d.runtime.kernelAbi, d.runtime.driver,
              d.device.vendor, d.device.architecture, d.device.computeMajor, d.device.computeMinor, d.sync,
              NormalKernels(d.dependencies), GraphName(d.provenance.graphName), d.provenance.toolchain)
  }

  lemma PlatformInjective(d: Descriptor, e: Descriptor)
    requires PlatformFields(d) == PlatformFields(e)
    ensures CanonicalTopology(d.nodes, d.edges) == CanonicalTopology(e.nodes, e.edges)
    ensures d.backend.kind == e.backend.kind && d.backend.name == e.backend.name && d.backend.version == e.backend.version
    ensures d.runtime.(driverText := []) == e.runtime.(driverText := [])
    ensures d.device.vendor == e.device.vendor && d.device.architecture == e.device.architecture
    ensures d.device.computeMajor == e.device.computeMajor && d.device.computeMinor == e.device.computeMinor
    ensures d.sync == e.sync
  {
    hide CanonicalTopology, BigEndian, FromBigEndian;
    var x, y := PlatformFields(d), PlatformFields(e);
    assert x[0] == y[0] && x[1] == y[1] && x[2] == y[2] && x[3] == y[3] && x[4] == y[4] && x[5] == y[5] && x[6] == y[6] && x[7] == y[7];
    assert x[8] == y[8] && x[9] == y[9] && x[10] == y[10] && x[11] == y[11] && x[12] == y[12] && x[13] == y[13] && x[14] == y[14];
    assert x[15] == y[15];
  }

  lemma SemanticSizes(d: Descriptor)
    requires |CanonicalSemantic(d)| < TWO_32
    ensures AllFit(SemanticFields(d)) && ItemsFit(DependencyItems(d.dependencies))
  {
    hide Flatten, PlatformFields, OriginFields, CountedFields, DependencyItems, AllFit, ItemsFit;
    FieldsFitBySize(SemanticFields(d));
    var c := CountedFields(217, 218, DependencyItems(d.dependencies));
    AllFitAppend(PlatformFields(d), c + OriginFields(d));
    AllFitAppend(c, OriginFields(d));
    CountedFit(217, 218, DependencyItems(d.dependencies), |CanonicalSemantic(d)|);
  }

  lemma OriginInjective(d: Descriptor, e: Descriptor)
    requires OriginFields(d) == OriginFields(e)
    ensures GraphName(d.provenance.graphName) == GraphName(e.provenance.graphName) && d.provenance.toolchain == e.provenance.toolchain
  {
    assert OriginFields(d)[0] == OriginFields(e)[0] && OriginFields(d)[1] == OriginFields(e)[1];
  }

  lemma SameSemanticFields(d: Descriptor, e: Descriptor)
    requires SemanticsOf(d) == SemanticsOf(e)
    ensures SemanticFields(d) == SemanticFields(e)
  {
    hide CanonicalTopology, CountedFields, DependencyItems, BigEndian;
    DependencyItemsNormal(d.dependencies);
    DependencyItemsNormal(e.dependencies);
    assert d.sync == e.sync && d.runtime.(driverText := []) == e.runtime.(driverText := []);
  }

  /** Two descriptors are named after the same bytes exactly when they mean the same. */
  lemma SemanticExact(d: Descriptor, e: Descriptor)
    requires |CanonicalSemantic(d)| < TWO_32
    ensures CanonicalSemantic(d) == CanonicalSemantic(e) <==> SemanticsOf(d) == SemanticsOf(e)
  {
    hide Flatten, CanonicalTopology, PlatformFields, OriginFields, CountedFields, DependencyItems, AllFit, ItemsFit, NormalKernels;
    if CanonicalSemantic(d) == CanonicalSemantic(e) {
      SemanticSizes(d);
      SemanticSizes(e);
      FlattenInjective(SemanticFields(d), SemanticFields(e));
      var c, c' := CountedFields(217, 218, DependencyItems(d.dependencies)), CountedFields(217, 218, DependencyItems(e.dependencies));
      AppendCancel(PlatformFields(d), c + OriginFields(d), PlatformFields(e), c' + OriginFields(e));
      PlatformInjective(d, e);
      FewItems(d);
      FewItems(e);
      CountedCancel(217, 218, DependencyItems(d.dependencies), OriginFields(d), DependencyItems(e.dependencies), OriginFields(e));
      DependencyItemsInjective(d.dependencies, e.dependencies);
      OriginInjective(d, e);
    } else if SemanticsOf(d) == SemanticsOf(e) {
      SameSemanticFields(d, e);
    }
  }

  lemma FewItems(d: Descriptor)
    requires ItemsFit(DependencyItems(d.dependencies))
    ensures |DependencyItems(d.dependencies)| < TWO_32
  {
  }

  predicate Spells(t: Text, s: string) {
    |t| == |s| && forall i | 0 <= i < |s| :: t[i] == s[i] as int
  }

  function Named(d: Descriptor, name: Text): Descriptor {
    d.(provenance := d.provenance.(graphName := name))
  }

  /** A graph without a name is the same artifact as the graph named "anonymous", and as no other. */
  lemma UnnamedIsAnonymous(d: Descriptor, name: Text)
    requires name != [] && |CanonicalSemantic(Named(d, []))| < TWO_32
    ensures CanonicalSemantic(Named(d, [])) == CanonicalSemantic(Named(d, name)) <==> Spells(name, "anonymous")
  {
    hide CanonicalSemantic, CanonicalTopology, NormalKernels;
    SemanticExact(Named(d, []), Named(d, name));
    assert Spells(ANONYMOUS, "anonymous");
    assert Spells(name, "anonymous") ==> name == ANONYMOUS;
  }
}
