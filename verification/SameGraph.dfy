/**
  What equal canonical topology bytes mean for execution: the two graphs are
  valid together, are captured in the same order, and node by node differ at
  most in what the encoder leaves out.
 */
module SameGraph {
  import opened Descriptors
  import opened Topology
  import opened TopologyCodec
  import opened CpuCapture
  import IdOrder

  /** Two node and edge lists with the same sorted, normalised form. */
  ghost predicate Alike(na: seq<Node>, ea: seq<Edge>, nb: seq<Node>, eb: seq<Edge>) {
    NormalNodes(SortNodes(na)) == NormalNodes(SortNodes(nb)) && SortEdges(ea) == SortEdges(eb)
  }

  function Endpoints(e: Edge): (Id, Id) {
    (e.from, e.to)
  }

  lemma AlikeSymmetric(na: seq<Node>, ea: seq<Edge>, nb: seq<Node>, eb: seq<Edge>)
    requires Alike(na, ea, nb, eb)
    ensures Alike(nb, eb, na, ea)
  {
  }

  // ----- edges -----

  lemma SameEdgeMultiset(ea: seq<Edge>, eb: seq<Edge>)
    requires SortEdges(ea) == SortEdges(eb)
    ensures multiset(ea) == multiset(eb) && SameEdges(ea, eb)
  {
    IdOrder.SortProperties(ea, EdgeKey);
    IdOrder.SortProperties(eb, EdgeKey);
    forall e
      ensures e in ea <==> e in eb
    {
      assert e in ea <==> e in multiset(ea);
      assert e in eb <==> e in multiset(eb);
    }
  }

  lemma SameArcs(ea: seq<Edge>, eb: seq<Edge>, u: Id, v: Id)
    requires SameEdges(ea, eb) && HasArc(ea, u, v)
    ensures HasArc(eb, u, v)
  {
    var i :| 0 <= i < |ea| && ea[i].from == u && ea[i].to == v;
    assert ea[i] in eb;
    var j :| 0 <= j < |eb| && eb[j] == ea[i];
  }

  lemma AcyclicTogether(ea: seq<Edge>, eb: seq<Edge>)
    requires SameEdges(ea, eb) && Acyclic(ea)
    ensures Acyclic(eb)
  {
    forall p
      ensures !IsCycle(eb, p)
    {
      if IsCycle(eb, p) {
        forall k | 0 <= k < |p| - 1
          ensures HasArc(ea, p[k], p[k + 1])
        {
          SameArcs(eb, ea, p[k], p[k + 1]);
        }
        assert IsCycle(ea, p);
      }
    }
  }

  lemma EdgeChecksTogether(ids: set<Id>, ea: seq<Edge>, eb: seq<Edge>)
    requires SortEdges(ea) == SortEdges(eb) && EdgesOk(ids, ea)
    ensures EdgesOk(ids, eb)
  {
    SameEdgeMultiset(ea, eb);
    IdOrder.DistinctKeysOfPermutation(ea, eb, EdgeKey);
    assert IdOrder.DistinctKeys(ea, Endpoints);
    IdOrder.DistinctKeysOfPermutation(ea, eb, Endpoints);
    forall i | 0 <= i < |eb|
      ensures eb[i].from != eb[i].to && eb[i].from in ids && eb[i].to in ids
    {
      assert eb[i] in ea;
    }
    forall i, j | 0 <= i < j < |eb|
      ensures eb[i].id != eb[j].id && (eb[i].from != eb[j].from || eb[i].to != eb[j].to)
    {
      assert EdgeKey(eb[i]) != EdgeKey(eb[j]) && Endpoints(eb[i]) != Endpoints(eb[j]);
    }
  }

  // ----- nodes -----

  lemma MatchInSorted(na: seq<Node>, nb: seq<Node>, x: Node) returns (y: Node)
    requires NormalNodes(SortNodes(na)) == NormalNodes(SortNodes(nb)) && x in na
    ensures y in nb && NormalNode(x) == NormalNode(y) && x.id == y.id
  {
    hide NormalNode, IdOrder.Sort;
    var sa, sb := SortNodes(na), SortNodes(nb);
    IdOrder.SortProperties(na, NodeKey);
    IdOrder.SortProperties(nb, NodeKey);
    assert x in multiset(na);
    var i := IdOrder.IndexOf(x, sa);
    assert |sa| == |NormalNodes(sa)| == |sb|;
    y := sb[i];
    assert NormalNodes(sa)[i] == NormalNodes(sb)[i];
    assert y in multiset(sb);
    assert y in multiset(nb);
    SameIdOfNormal(x, y);
  }

  lemma SameIdOfNormal(x: Node, y: Node)
    requires NormalNode(x) == NormalNode(y)
    ensures x.id == y.id
  {
    assert NormalNode(x).id == x.id && NormalNode(y).id == y.id;
  }

  lemma SameNodeIds(na: seq<Node>, nb: seq<Node>)
    requires NormalNodes(SortNodes(na)) == NormalNodes(SortNodes(nb))
    ensures NodeIds(na) == NodeIds(nb)
  {
    hide NormalNode, IdOrder.Sort;
    forall id | id in NodeIds(na)
      ensures id in NodeIds(nb)
    {
      var i :| 0 <= i < |na| && na[i].id == id;
      var y := MatchInSorted(na, nb, na[i]);
    }
    forall id | id in NodeIds(nb)
      ensures id in NodeIds(na)
    {
      var i :| 0 <= i < |nb| && nb[i].id == id;
      var y := MatchInSorted(nb, na, nb[i]);
    }
  }

  lemma UniqueTogether(na: seq<Node>, nb: seq<Node>)
    requires NormalNodes(SortNodes(na)) == NormalNodes(SortNodes(nb)) && UniqueNodeIds(na)
    ensures UniqueNodeIds(nb)
  {
    hide IdOrder.Sort, NormalNode;
    var sa, sb := SortNodes(na), SortNodes(nb);
    IdOrder.SortProperties(na, NodeKey);
    IdOrder.SortProperties(nb, NodeKey);
    IdOrder.DistinctKeysOfPermutation(na, sa, NodeKey);
    assert |sa| == |NormalNodes(sa)| == |sb|;
    forall i, j | 0 <= i < j < |sb|
      ensures NodeKey(sb[i]) != NodeKey(sb[j])
    {
      assert NormalNodes(sa)[i] == NormalNodes(sb)[i] && NormalNodes(sa)[j] == NormalNodes(sb)[j];
      SameIdOfNormal(sa[i], sb[i]);
      SameIdOfNormal(sa[j], sb[j]);
      assert NodeKey(sa[i]) != NodeKey(sa[j]);
    }
    IdOrder.DistinctKeysOfPermutation(sb, nb, NodeKey);
    forall i, j | 0 <= i < j < |nb|
      ensures nb[i].id != nb[j].id
    {
      assert NodeKey(nb[i]) != NodeKey(nb[j]);
    }
  }

  /** Graphs with equal canonical topology are valid together or refused together. */
  lemma ValidTogether(na: seq<Node>, ea: seq<Edge>, nb: seq<Node>, eb: seq<Edge>)
    requires Alike(na, ea, nb, eb) && ValidTopology(na, ea)
    ensures ValidTopology(nb, eb)
  {
    hide Acyclic, NormalNodes, SortNodes, SortEdges;
    UniqueTogether(na, nb);
    SameNodeIds(na, nb);
    EdgeChecksTogether(NodeIds(na), ea, eb);
    SameEdgeMultiset(ea, eb);
    AcyclicTogether(ea, eb);
  }

  /** They are captured in the same order. */
  lemma SameOrder(na: seq<Node>, ea: seq<Edge>, g: CpuGraph, nb: seq<Node>, eb: seq<Edge>, h: CpuGraph)
    requires Alike(na, ea, nb, eb) && Captures(na, ea, g) && Captures(nb, eb, h)
    ensures g.order == h.order
  {
    hide NormalNodes, SortNodes, SortEdges, CanonicalOrder;
    SameNodeIds(na, nb);
    SameEdgeMultiset(ea, eb);
    CanonicalOrderUnique(NodeIds(na), ea, g.order, eb, h.order);
  }
}
