/**
  What a hit of the coordinator is for: two lookups with one key are lookups of
  one graph, and that graph is what the coordinator sends on to a worker.
 */
module CoordinatorHits {
  import opened Bytes
  import opened Descriptors
  import opened NodeCodec
  import opened TopologyCodec
  import opened Facts
  import opened FactsCodec
  import opened StoredCodec
  import opened HexIds
  import opened HitSoundness
  import opened Coordinator
  import opened CoordinatorRuns
  import opened CoordinatorSafety
  import opened RequestFields
  import IdOrder
  import Recovery
  import Sha256

  // ----- lookups with one key -----

  /** The two byte strings are told apart by their digests. */
  predicate NoCollision(x: seq<byte>, y: seq<byte>) {
    Sha256.Digest(x) == Sha256.Digest(y) ==> x == y
  }

  function FactsWanted(w: Wanted): Facts
    requires w.Wanted?
  {
    LookupFacts(w.descriptor, w.workload)
  }

  /** What two lookups with one key agree in: a driver's text and a dependency's provenance are in no key. */
  ghost predicate WantedAlike(v: Wanted, w: Wanted)
    requires v.Wanted? && w.Wanted?
  {
    var a, b := v.descriptor, w.descriptor;
    && v.workload == w.workload && a.backend == b.backend && a.device == b.device
    && a.runtime.(driverText := []) == b.runtime.(driverText := [])
    && CanonicalTopology(a.nodes, a.edges) == CanonicalTopology(b.nodes, b.edges)
    && Dtypes(Typed(a.nodes)) == Dtypes(Typed(b.nodes)) && Layouts(Typed(a.nodes)) == Layouts(Typed(b.nodes))
    && LastScalar(a.nodes) == LastScalar(b.nodes)
    && NormalKernels(a.dependencies) == NormalKernels(b.dependencies)
  }

  lemma WantedScans(w: Wanted)
    requires w.Wanted?
    ensures var f, ns := FactsWanted(w), w.descriptor.nodes;
            f.dtypes == Dtypes(Typed(ns)) && f.layouts == Layouts(Typed(ns)) && f.scalar == LastScalar(ns) == NormalScalar(f.scalar)
  {
    hide TensorsOf, Typed, LastScalar, CanonicalTopology;
    var f, ns := FactsWanted(w), w.descriptor.nodes;
    TensorsListed(ns);
    LastIsNormal(ns);
    assert f.dtypes == Dtypes(Typed(ns));
    assert f.layouts == Layouts(Typed(ns));
  }

  /** Up to a collision, two lookups have one key exactly when they are alike in all of that. */
  lemma SameKeyExactly(v: Wanted, w: Wanted)
    requires v.Wanted? && w.Wanted?
    requires |EncodeFacts(FactsWanted(v))| < TWO_32 && NoCollision(EncodeFacts(FactsWanted(v)), EncodeFacts(FactsWanted(w)))
    ensures KeyHex(FactsWanted(v)) == KeyHex(FactsWanted(w)) <==> WantedAlike(v, w)
  {
    hide EncodeFacts, Sha256.Digest, HexBytes, CanonicalTopology, TensorsOf, Typed, LastScalar, NormalScalar, NormalQuant, NormalKernels;
    var f, g := FactsWanted(v), FactsWanted(w);
    WantedScans(v);
    WantedScans(w);
    EncodeFactsInjective(f, g);
    if KeyHex(f) == KeyHex(g) {
      HexBytesInjective(Sha256.Digest(EncodeFacts(f)), Sha256.Digest(EncodeFacts(g)));
    }
  }

  /** The lookup that a step receives. */
  function WantedAt(run: seq<Input>, n: nat): Wanted
    requires n < |run| && run[n].Receive?
  {
    ParseLookup(run[n].message.payload)
  }

  /** Up to a collision of their keys, the lookups of these two steps are alike, and their graphs can stand in for each other. */
  ghost predicate OneGraphAt(run: seq<Input>, n: nat, i: nat) {
    && n < |run| && i < |run| && run[n].Receive? && run[i].Receive? && WantedAt(run, n).Wanted? && WantedAt(run, i).Wanted?
    && var v, w := WantedAt(run, n), WantedAt(run, i);
       |EncodeFacts(FactsWanted(v))| < TWO_32 && NoCollision(EncodeFacts(FactsWanted(v)), EncodeFacts(FactsWanted(w))) ==>
         && WantedAlike(v, w)
         && (TopologyFits(v.descriptor.nodes, v.descriptor.edges) && TopologyFits(w.descriptor.nodes, w.descriptor.edges) ==>
               ReplaysLike(v.descriptor, w.descriptor))
  }

  /** A hit is answered with what was captured for a lookup of the same graph, under the current cache generation. */
  lemma HitIsOfOneGraph(scan: Text -> Id, run: seq<Input>, n: nat, k: Text) returns (i: nat, j: nat)
    requires IsRun(scan, run) && ReadsPrinted(scan) && n < |run| && Hits(StateAt(scan, run, n), run[n], k)
    ensures i < j < n && CapturedFor(scan, run, i, j, n, k) && OneGraphAt(run, n, i)
  {
    hide React, StateAt, Instructed, KeyHex, LookupFacts, Refusal, ArtifactText, ReplaysLike, TopologyFits, NoCollision, EncodeFacts, ParseLookup,
         IdToString, NamePayload, CanonicalTopology;
    HitIsPresent(scan, run, n, k);
    i, j :| 0 <= i < j < n && CapturedFor(scan, run, i, j, n, k) && KeyWanted(run[i]) == k;
    var v, w := WantedAt(run, n), WantedAt(run, i);
    if |EncodeFacts(FactsWanted(v))| < TWO_32 && NoCollision(EncodeFacts(FactsWanted(v)), EncodeFacts(FactsWanted(w))) {
      SameKeyExactly(v, w);
      if TopologyFits(v.descriptor.nodes, v.descriptor.edges) && TopologyFits(w.descriptor.nodes, w.descriptor.edges) {
        SameTopologyReplaysLike(v.descriptor, w.descriptor);
      }
    }
  }

  // ----- what is sent on to a worker -----

  lemma {:induction false} InsertNormal(x: Node, s: seq<Node>)
    ensures IdOrder.Insert(NormalNode(x), NormalNodes(s), NodeKey) == NormalNodes(IdOrder.Insert(x, s, NodeKey))
  {
    hide NormalNode;
    SameKey(x);
    if s != [] {
      SameKey(s[0]);
    }
    if s == [] || IdOrder.AtMost(NodeKey(x), NodeKey(s[0])) {
      assert [NormalNode(x)] + NormalNodes(s) == NormalNodes([x] + s);
    } else {
      InsertNormal(x, s[1..]);
      assert NormalNodes(s)[1..] == NormalNodes(s[1..]);
      var t := IdOrder.Insert(x, s[1..], NodeKey);
      assert [NormalNode(s[0])] + NormalNodes(t) == NormalNodes([s[0]] + t);
    }
  }

  lemma SameKey(x: Node)
    ensures NodeKey(NormalNode(x)) == NodeKey(x)
  {
  }

  lemma {:induction false} SortNormal(s: seq<Node>)
    ensures SortNodes(NormalNodes(s)) == NormalNodes(SortNodes(s))
  {
    hide NormalNode;
    if s != [] {
      SortNormal(s[1..]);
      assert NormalNodes(s)[1..] == NormalNodes(s[1..]);
      InsertNormal(s[0], SortNodes(s[1..]));
    }
  }

  /** What the coordinator sends on is the graph that was asked for. */
  lemma SentTopology(d: Descriptor)
    requires TopologyFits(d.nodes, d.edges)
    ensures var s := NormalDescriptor(d);
            TopologyFits(s.nodes, s.edges) && CanonicalTopology(s.nodes, s.edges) == CanonicalTopology(d.nodes, d.edges)
  {
    hide NormalNode, CanonicalTopology, IdOrder.Sort, NodeFits, EdgeFits;
    forall i | 0 <= i < |d.nodes|
      ensures NodeFits(NormalNodes(d.nodes)[i])
    {
      Recovery.NormalFits(d.nodes[i]);
    }
    SortNormal(d.nodes);
    Recovery.NormalTwice(SortNodes(d.nodes));
    CanonicalTopologyExact(NormalNodes(d.nodes), d.edges, d.nodes, d.edges);
  }
}
