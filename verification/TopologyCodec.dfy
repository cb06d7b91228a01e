/**
  The canonical topology of src/topology.cpp: nodes and edges sorted by
  identity, then written flat. Equal bytes mean the same graph up to fields
  that are not written, and the listing order does not matter.
 */
module TopologyCodec {
  import opened Bytes
  import opened Canonical
  import opened Descriptors
  import opened NodeCodec
  import IdOrder

  function NodeKey(n: Node): Id {
    n.id
  }

  function EdgeKey(e: Edge): Id {
    e.id
  }

  function SortNodes(ns: seq<Node>): seq<Node> {
    IdOrder.Sort(ns, NodeKey)
  }

  function SortEdges(es: seq<Edge>): seq<Edge> {
    IdOrder.Sort(es, EdgeKey)
  }

  function NodesThen(ns: seq<Node>, rest: seq<Field>): seq<Field> {
    if ns == [] then rest else NodeThen(TopologyForm, ns[0], NodesThen(ns[1..], rest))
  }

  function EdgesFields(es: seq<Edge>): seq<Field> {
    if es == [] then [] else EdgeFields(TopologyForm, es[0]) + EdgesFields(es[1..])
  }

  /** The fields of an already sorted topology. */
  function TopologyFields(ns: seq<Node>, es: seq<Edge>): seq<Field> {
    [Field(1, Be32(|ns| % TWO_32))]
    + NodesThen(ns, [Field(2, Be32(|es| % TWO_32))] + EdgesFields(es))
  }

  function CanonicalTopology(ns: seq<Node>, es: seq<Edge>): seq<byte> {
    Flatten(TopologyFields(SortNodes(ns), SortEdges(es)))
  }

  /** Every length and count fits the 32 bits it is written in. */
  ghost predicate TopologyFits(ns: seq<Node>, es: seq<Edge>) {
    && |ns| < TWO_32 && |es| < TWO_32
    && (forall i | 0 <= i < |ns| :: NodeFits(ns[i]))
    && (forall i | 0 <= i < |es| :: EdgeFits(es[i]))
  }

  // ----- listing order does not matter -----

  lemma SortKeepsFits(ns: seq<Node>, es: seq<Edge>)
    requires TopologyFits(ns, es)
    ensures TopologyFits(SortNodes(ns), SortEdges(es))
  {
    IdOrder.SortProperties(ns, NodeKey);
    IdOrder.SortProperties(es, EdgeKey);
    forall i | 0 <= i < |SortNodes(ns)|
      ensures NodeFits(SortNodes(ns)[i])
    {
      assert SortNodes(ns)[i] in multiset(SortNodes(ns));
      var j := IdOrder.IndexOf(SortNodes(ns)[i], ns);
    }
    forall i | 0 <= i < |SortEdges(es)|
      ensures EdgeFits(SortEdges(es)[i])
    {
      assert SortEdges(es)[i] in multiset(SortEdges(es));
      var j := IdOrder.IndexOf(SortEdges(es)[i], es);
    }
  }

  lemma SortsAgree(ns: seq<Node>, ns': seq<Node>, es: seq<Edge>, es': seq<Edge>)
    requires multiset(ns) == multiset(ns') && UniqueNodeIds(ns)
    requires multiset(es) == multiset(es') && UniqueEdgeIds(es)
    ensures SortNodes(ns) == SortNodes(ns') && SortEdges(es) == SortEdges(es')
  {
    IdOrder.SortOfPermutation(ns, ns', NodeKey);
    IdOrder.SortOfPermutation(es, es', EdgeKey);
  }

  /** A permutation of the nodes and edges of a topology has the same canonical bytes. */
  lemma CanonicalTopologyOfPermutation(ns: seq<Node>, ns': seq<Node>, es: seq<Edge>, es': seq<Edge>)
    requires multiset(ns) == multiset(ns') && UniqueNodeIds(ns)
    requires multiset(es) == multiset(es') && UniqueEdgeIds(es)
    ensures CanonicalTopology(ns, es) == CanonicalTopology(ns', es')
  {
    SortsAgree(ns, ns', es, es');
  }

  // ----- equal bytes, same graph -----

  lemma {:induction false} NodesThenFits(ns: seq<Node>, rest: seq<Field>)
    requires AllFit(rest) && forall i | 0 <= i < |ns| :: NodeFits(ns[i])
    ensures AllFit(NodesThen(ns, rest))
  {
    if ns != [] {
      NodesThenFits(ns[1..], rest);
      NodeThenFits(TopologyForm, ns[0], NodesThen(ns[1..], rest));
    }
  }

  lemma {:induction false} EdgesFieldsFit(es: seq<Edge>)
    requires forall i | 0 <= i < |es| :: EdgeFits(es[i])
    ensures AllFit(EdgesFields(es))
  {
    if es != [] {
      EdgesFieldsFit(es[1..]);
      assert AllFit(EdgeFields(TopologyForm, es[0]));
      AllFitAppend(EdgeFields(TopologyForm, es[0]), EdgesFields(es[1..]));
    }
  }

  lemma TopologyFieldsFit(ns: seq<Node>, es: seq<Edge>)
    requires TopologyFits(ns, es)
    ensures AllFit(TopologyFields(ns, es))
  {
    hide NodesThen, EdgesFields, NodeFits, EdgeFits;
    EdgesFieldsFit(es);
    var tail := [Field(2, Be32(|es| % TWO_32))] + EdgesFields(es);
    AllFitAppend([Field(2, Be32(|es| % TWO_32))], EdgesFields(es));
    NodesThenFits(ns, tail);
    AllFitAppend([Field(1, Be32(|ns| % TWO_32))], NodesThen(ns, tail));
  }

  lemma NodesThenStart(ns: seq<Node>, rest: seq<Field>)
    requires EndsNode(rest)
    ensures EndsNode(NodesThen(ns, rest))
  {
    if ns != [] {
      assert NodesThen(ns, rest)[0] == IdentFields(ns[0])[0];
    }
  }

  lemma NormalNodesCons(a: seq<Node>, b: seq<Node>)
    requires a != [] && b != [] && NormalNode(a[0]) == NormalNode(b[0]) && NormalNodes(a[1..]) == NormalNodes(b[1..])
    ensures NormalNodes(a) == NormalNodes(b)
  {
    assert |a| - 1 == |NormalNodes(a[1..])| == |NormalNodes(b[1..])| == |b| - 1;
    forall i | 0 <= i < |a|
      ensures NormalNodes(a)[i] == NormalNodes(b)[i]
    {
      if i > 0 {
        assert NormalNodes(a[1..])[i - 1] == NormalNodes(b[1..])[i - 1];
      }
    }
  }

  lemma {:induction false} NodesCancel(a: seq<Node>, ra: seq<Field>, b: seq<Node>, rb: seq<Field>)
    requires |a| == |b| && EndsNode(ra) && EndsNode(rb)
    requires forall i | 0 <= i < |a| :: NodeFits(a[i])
    requires forall i | 0 <= i < |b| :: NodeFits(b[i])
    requires NodesThen(a, ra) == NodesThen(b, rb)
    ensures NormalNodes(a) == NormalNodes(b) && ra == rb
  {
    hide NodeThen, NodeFits, EndsNode, NormalNode;
    if a != [] {
      NodesThenStart(a[1..], ra);
      NodesThenStart(b[1..], rb);
      NodeCancel(TopologyForm, a[0], NodesThen(a[1..], ra), b[0], NodesThen(b[1..], rb));
      NodesCancel(a[1..], ra, b[1..], rb);
      NormalNodesCons(a, b);
    }
  }

  lemma {:induction false} EdgesInjective(a: seq<Edge>, b: seq<Edge>)
    requires |a| == |b| && EdgesFields(a) == EdgesFields(b)
    ensures a == b
  {
    if a != [] {
      AppendCancel(EdgeFields(TopologyForm, a[0]), EdgesFields(a[1..]), EdgeFields(TopologyForm, b[0]), EdgesFields(b[1..]));
      EdgeFieldsInjective(TopologyForm, a[0], b[0]);
      EdgesInjective(a[1..], b[1..]);
    }
  }

  lemma TopologyFieldsInjective(na: seq<Node>, ea: seq<Edge>, nb: seq<Node>, eb: seq<Edge>)
    requires TopologyFits(na, ea) && TopologyFits(nb, eb)
    requires TopologyFields(na, ea) == TopologyFields(nb, eb)
    ensures NormalNodes(na) == NormalNodes(nb) && ea == eb
  {
    hide NodeThen, NodeFits, NormalNode, EdgeFields, EdgeFits, NodesThen, EdgesFields, BigEndian, FromBigEndian;
    var ca, cb := [Field(1, Be32(|na| % TWO_32))], [Field(1, Be32(|nb| % TWO_32))];
    var da, db := [Field(2, Be32(|ea| % TWO_32))], [Field(2, Be32(|eb| % TWO_32))];
    AppendCancel(ca, NodesThen(na, da + EdgesFields(ea)), cb, NodesThen(nb, db + EdgesFields(eb)));
    assert ca[0].data == cb[0].data;
    NodesCancel(na, da + EdgesFields(ea), nb, db + EdgesFields(eb));
    AppendCancel(da, EdgesFields(ea), db, EdgesFields(eb));
    assert da[0].data == db[0].data;
    EdgesInjective(ea, eb);
  }

  /**
    Equal canonical bytes come from the same edges and the same nodes up to
    the fields the encoder leaves out, in the order of their identities.
   */
  lemma CanonicalTopologyInjective(na: seq<Node>, ea: seq<Edge>, nb: seq<Node>, eb: seq<Edge>)
    requires TopologyFits(na, ea) && TopologyFits(nb, eb)
    requires CanonicalTopology(na, ea) == CanonicalTopology(nb, eb)
    ensures NormalNodes(SortNodes(na)) == NormalNodes(SortNodes(nb))
    ensures SortEdges(ea) == SortEdges(eb)
  {
    SortKeepsFits(na, ea);
    SortKeepsFits(nb, eb);
    TopologyFieldsFit(SortNodes(na), SortEdges(ea));
    TopologyFieldsFit(SortNodes(nb), SortEdges(eb));
    FlattenInjective(TopologyFields(SortNodes(na), SortEdges(ea)), TopologyFields(SortNodes(nb), SortEdges(eb)));
    TopologyFieldsInjective(SortNodes(na), SortEdges(ea), SortNodes(nb), SortEdges(eb));
  }

  // ----- and conversely: normal forms encode alike -----

  lemma JoinIgnoresAbsent(a: seq<Seg>, b: seq<Seg>)
    requires Agree(a, b)
    ensures Join(a) == Join(b)
  {
    if a != [] {
      JoinIgnoresAbsent(a[1..], b[1..]);
    }
  }

  /** The encoder does not look at what normalisation clears. */
  lemma NodeThenNormal(form: Format, n: Node, rest: seq<Field>)
    ensures NodeThen(form, NormalNode(n), rest) == NodeThen(form, n, rest)
  {
    hide WorkSegs, TensorSegs, BindingSegs, TailSegs, NormalNode, Join;
    WorkNormal(form, n);
    TensorNormal(form, n);
    BindingNormal(form, n);
    TailNormal(form, n);
    NormalIdent(n);
  }

  lemma NormalIdent(n: Node)
    ensures IdentFields(NormalNode(n)) == IdentFields(n)
  {
  }

  lemma WorkNormal(form: Format, n: Node)
    ensures Join(WorkSegs(form, NormalNode(n))) == Join(WorkSegs(form, n))
  {
    hide Join, U64ListData, DimWords, IndexWords, Tag, Be32, Be64;
    assert Agree(WorkSegs(form, NormalNode(n)), WorkSegs(form, n));
    JoinIgnoresAbsent(WorkSegs(form, NormalNode(n)), WorkSegs(form, n));
  }

  lemma TensorNormal(form: Format, n: Node)
    ensures Join(TensorSegs(form, NormalNode(n))) == Join(TensorSegs(form, n))
  {
    hide Join, U64ListData, DimWords, IndexWords, Tag, Be32, Be64;
    assert Agree(TensorSegs(form, NormalNode(n)), TensorSegs(form, n));
    JoinIgnoresAbsent(TensorSegs(form, NormalNode(n)), TensorSegs(form, n));
  }

  lemma BindingNormal(form: Format, n: Node)
    ensures Join(BindingSegs(form, NormalNode(n))) == Join(BindingSegs(form, n))
  {
    hide Join, U64ListData, DimWords, IndexWords, Tag, Be32, Be64;
    assert Agree(BindingSegs(form, NormalNode(n)), BindingSegs(form, n));
    JoinIgnoresAbsent(BindingSegs(form, NormalNode(n)), BindingSegs(form, n));
  }

  lemma TailNormal(form: Format, n: Node)
    ensures Join(TailSegs(form, NormalNode(n))) == Join(TailSegs(form, n))
  {
    hide Join, U64ListData, DimWords, IndexWords, Tag, Be32, Be64;
    assert Agree(TailSegs(form, NormalNode(n)), TailSegs(form, n));
    JoinIgnoresAbsent(TailSegs(form, NormalNode(n)), TailSegs(form, n));
  }

  lemma {:induction false} NodesThenNormal(a: seq<Node>, b: seq<Node>, rest: seq<Field>)
    requires NormalNodes(a) == NormalNodes(b)
    ensures NodesThen(a, rest) == NodesThen(b, rest)
  {
    assert |a| == |NormalNodes(a)| == |NormalNodes(b)| == |b|;
    if a != [] {
      assert NormalNode(a[0]) == NormalNodes(a)[0] == NormalNodes(b)[0] == NormalNode(b[0]);
      NormalNodesTail(a, b);
      NodesThenNormal(a[1..], b[1..], rest);
      NodeThenNormal(TopologyForm, a[0], NodesThen(a[1..], rest));
      NodeThenNormal(TopologyForm, b[0], NodesThen(b[1..], rest));
    }
  }

  lemma NormalNodesTail(a: seq<Node>, b: seq<Node>)
    requires a != [] && b != [] && NormalNodes(a) == NormalNodes(b)
    ensures NormalNodes(a[1..]) == NormalNodes(b[1..])
  {
    assert |a| == |NormalNodes(a)| == |NormalNodes(b)| == |b|;
    forall i | 0 <= i < |a| - 1
      ensures NormalNodes(a[1..])[i] == NormalNodes(b[1..])[i]
    {
      assert NormalNodes(a)[i + 1] == NormalNodes(b)[i + 1];
    }
  }

  /** Canonical bytes are equal exactly when the sorted, normalised graphs are. */
  lemma CanonicalTopologyExact(na: seq<Node>, ea: seq<Edge>, nb: seq<Node>, eb: seq<Edge>)
    requires TopologyFits(na, ea) && TopologyFits(nb, eb)
    ensures CanonicalTopology(na, ea) == CanonicalTopology(nb, eb) <==>
            NormalNodes(SortNodes(na)) == NormalNodes(SortNodes(nb)) && SortEdges(ea) == SortEdges(eb)
  {
    hide NodesThen, EdgesFields, TopologyFits, NormalNode, IdOrder.Sort;
    if CanonicalTopology(na, ea) == CanonicalTopology(nb, eb) {
      CanonicalTopologyInjective(na, ea, nb, eb);
    }
    if NormalNodes(SortNodes(na)) == NormalNodes(SortNodes(nb)) && SortEdges(ea) == SortEdges(eb) {
      assert |SortNodes(na)| == |NormalNodes(SortNodes(na))| == |SortNodes(nb)|;
      var tail := [Field(2, Be32(|SortEdges(ea)| % TWO_32))] + EdgesFields(SortEdges(ea));
      NodesThenNormal(SortNodes(na), SortNodes(nb), tail);
    }
  }

  // ----- the encoder as it runs -----

  lemma NodesThenStep(ns: seq<Node>, i: nat, rest: seq<Field>)
    requires i < |ns|
    ensures NodesThen(ns[i..], rest) == NodeThen(TopologyForm, ns[i], []) + NodesThen(ns[i + 1..], rest)
  {
    hide NodeThen;
    assert ns[i..][1..] == ns[i + 1..];
    NodeThenRest(TopologyForm, ns[i], NodesThen(ns[i + 1..], rest));
  }

  /** Sorts copies of both lists and appends every record to one writer. */
  method WriteCanonicalTopology(ns: seq<Node>, es: seq<Edge>) returns (bytes: seq<byte>)
    ensures bytes == CanonicalTopology(ns, es)
  {
    hide NodeThen, EdgeFields, Flatten, IdOrder.Sort;
    var sn, se := IdOrder.Sort(ns, NodeKey), IdOrder.Sort(es, EdgeKey);
    var w := new CanonicalWriter();
    w.PutU32(1, |sn| % TWO_32);
    ghost var tail := [Field(2, Be32(|se| % TWO_32))] + EdgesFields(se);
    for i := 0 to |sn|
      invariant w.Valid() && fresh(w)
      invariant w.fields + NodesThen(sn[i..], tail) == TopologyFields(sn, se)
    {
      NodesThenStep(sn, i, tail);
      AppendAssociative(w.fields, NodeThen(TopologyForm, sn[i], []), NodesThen(sn[i + 1..], tail));
      EncodeNode(w, TopologyForm, sn[i]);
    }
    assert w.fields + tail == TopologyFields(sn, se);
    AppendAssociative(w.fields, [Field(2, Be32(|se| % TWO_32))], EdgesFields(se));
    w.PutU32(2, |se| % TWO_32);
    for i := 0 to |se|
      invariant w.Valid() && fresh(w)
      invariant w.fields + EdgesFields(se[i..]) == TopologyFields(sn, se)
    {
      assert se[i..][1..] == se[i + 1..];
      AppendAssociative(w.fields, EdgeFields(TopologyForm, se[i]), EdgesFields(se[i + 1..]));
      EncodeEdge(w, TopologyForm, se[i]);
    }
    assert w.fields + [] == w.fields;
    bytes := w.buf;
  }
}
