/**
  What an executable is captured from: `capture_graph` of src/cache.cpp
  finalises the request's descriptor first, which changes neither its canonical
  bytes nor what its capture does.
 */
module HitReplay {
  import opened Descriptors
  import opened Topology
  import opened TopologyCodec
  import opened CpuCapture
  import opened HitSoundness
  import opened Finalize
  import IdOrder

  lemma SameNodeOperands(na: seq<Node>, nb: seq<Node>)
    requires UniqueNodeIds(na) && multiset(na) == multiset(nb)
    ensures OperandsAgree(na, nb)
  {
    forall x, y | x in na && y in nb && x.id == y.id
      ensures SameOperandsAt(x, y)
    {
      assert y in multiset(nb);
      assert y in na;
      UniqueById(na, x, y);
    }
  }

  lemma FinalizedTopology(d: Descriptor)
    requires ValidTopology(d.nodes, d.edges)
    ensures CanonicalTopology(Finalized(d).nodes, Finalized(d).edges) == CanonicalTopology(d.nodes, d.edges)
  {
    hide IdOrder.Sort, CanonicalTopology, CanonicalSemantic, Acyclic;
    IdOrder.SortProperties(d.nodes, NodeKey);
    IdOrder.SortProperties(d.edges, EdgeKey);
    CanonicalTopologyOfPermutation(d.nodes, SortNodes(d.nodes), d.edges, SortEdges(d.edges));
  }

  /** Finalising a descriptor does not change what its capture does. */
  lemma FinalizedReplaysAlike(d: Descriptor, g: CpuGraph, h: CpuGraph)
    requires ValidTopology(d.nodes, d.edges) && TopologyFits(d.nodes, d.edges)
    requires Captures(d.nodes, d.edges, g) && Captures(Finalized(d).nodes, Finalized(d).edges, h)
    ensures SameReplay(g, h)
  {
    hide IdOrder.Sort, CanonicalTopology, CanonicalSemantic, Captures, SameReplay, OperandsAgree, Acyclic, TopologyFits;
    var ns, es := SortNodes(d.nodes), SortEdges(d.edges);
    FinalizedTopology(d);
    IdOrder.SortProperties(d.nodes, NodeKey);
    SortKeepsFits(d.nodes, d.edges);
    SameNodeOperands(d.nodes, ns);
    SameReplayWhenOperandsAgree(d.nodes, d.edges, g, ns, es, h);
  }
}
