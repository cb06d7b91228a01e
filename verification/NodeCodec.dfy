/**
  The node, edge and dependency records. src/topology.cpp and
  src/serialization.cpp write the same fields in the same order under
  different tags, so a record is described once over its field slots.
 */
module NodeCodec {
  import opened Bytes
  import opened Canonical
  import opened Descriptors

  /** Which tag table: the canonical topology or the stored descriptor. */
  datatype Format = TopologyForm | StoredForm

  /** Slots are the stored tags 1..42; the topology tags are these, shifted and partly exchanged. */
  function Tag(form: Format, slot: u16): u16
    requires 1 <= slot <= 42
  {
    if form.StoredForm? then slot
    else if slot == 5 then 12
    else if slot == 8 then 9
    else if slot == 9 then 8
    else if slot >= 12 then slot + 1
    else slot
  }

  function EdgeTag(form: Format, slot: u16): u16
    requires 1 <= slot <= 8
  {
    if form.StoredForm? then slot else slot + 100
  }

  function DimWords(dims: seq<i64>): (r: seq<u64>)
    ensures |r| == |dims|
    ensures forall i | 0 <= i < |dims| :: r[i] == AsUnsigned(dims[i])
  {
    seq(|dims|, i requires 0 <= i < |dims| => AsUnsigned(dims[i]))
  }

  function IndexWords(xs: seq<u32>): (r: seq<u64>)
    ensures |r| == |xs|
    ensures forall i | 0 <= i < |xs| :: r[i] == xs[i]
  {
    seq(|xs|, i requires 0 <= i < |xs| => xs[i])
  }

  function IdentFields(n: Node): seq<Field> {
    [Field(1, Be64(n.id.hi)), Field(2, Be64(n.id.lo)), Field(3, Be32(n.category)), Field(4, n.name)]
  }

  function KernelFields(form: Format, k: KernelRef): seq<Field> {
    [Field(Tag(form, 5), k.name), Field(Tag(form, 6), Be64(k.idHi)), Field(Tag(form, 7), Be64(k.idLo)),
     Field(Tag(form, 8), Be64(k.generation)), Field(Tag(form, 9), Be32(k.abi)),
     Field(Tag(form, 10), k.digest), Field(Tag(form, 11), BoolData(k.contributes))]
  }

  function LaunchFields(form: Format, l: Launch): seq<Field> {
    [Field(Tag(form, 12), Be32(l.gridX)), Field(Tag(form, 13), Be32(l.gridY)), Field(Tag(form, 14), Be32(l.gridZ)),
     Field(Tag(form, 15), Be32(l.blockX)), Field(Tag(form, 16), Be32(l.blockY)), Field(Tag(form, 17), Be32(l.blockZ)),
     Field(Tag(form, 18), Be32(l.sharedBytes))]
  }

  function TypeFields(form: Format, n: Node): seq<Field> {
    [Field(Tag(form, 24), Be32(n.dtype)), Field(Tag(form, 25), Be32(n.layout))]
  }

  function ScalarFields(form: Format, s: Scalar): seq<Field> {
    [Field(Tag(form, 26), BoolData(true)), Field(Tag(form, 27), Be64(AsUnsigned(s.intValue))),
     Field(Tag(form, 28), Be64(s.floatBits))]
  }

  function QuantFields(form: Format, q: Quantization): seq<Field> {
    [Field(Tag(form, 30), Be32(q.group)), Field(Tag(form, 31), BoolData(q.symmetric)), Field(Tag(form, 32), q.scheme)]
  }

  function BindingFields(form: Format, b: Binding, align: u64): seq<Field> {
    [Field(Tag(form, 33), Be32(b.bindingClass)), Field(Tag(form, 34), Be32(b.alignment)),
     Field(Tag(form, 35), b.schema), Field(Tag(form, 36), BoolData(b.eligible)), Field(Tag(form, 37), Be64(align))]
  }

  function ChildFields(form: Format, n: Node): seq<Field> {
    [Field(Tag(form, 38), Be64(n.childHi)), Field(Tag(form, 39), Be64(n.childLo))]
  }

  // Each run of fields, with the condition under which it is written.

  function WorkSegs(form: Format, n: Node): seq<Seg> {
    [Seg(n.category == KERNEL, KernelFields(form, n.kernel)),
     Seg(n.category == KERNEL, LaunchFields(form, n.launch)),
     Seg(true, [Field(Tag(form, 19), Be64(n.bytes))]),
     Seg(n.category == MEMORY_SET, [Field(Tag(form, 20), [n.memset])])]
  }

  function TensorSegs(form: Format, n: Node): seq<Seg> {
    [Seg(n.dtype != DTYPE_NONE && n.shape.dims != [], [Field(Tag(form, 21), U64ListData(DimWords(n.shape.dims)))]),
     Seg(n.dtype != DTYPE_NONE, [Field(Tag(form, 22), BoolData(n.shape.dynamic))]),
     Seg(n.dtype != DTYPE_NONE && n.shape.maxRank != 0, [Field(Tag(form, 23), Be32(n.shape.maxRank))]),
     Seg(n.dtype != DTYPE_NONE, TypeFields(form, n))]
  }

  function BindingSegs(form: Format, n: Node): seq<Seg> {
    [Seg(n.scalar.specialized, ScalarFields(form, n.scalar)),
     Seg(true, [Field(Tag(form, 29), Be32(n.quant.mode))]),
     Seg(n.quant.mode != QUANT_NONE, QuantFields(form, n.quant)),
     Seg(true, BindingFields(form, n.binding, n.requiredAlignment))]
  }

  function TailSegs(form: Format, n: Node): seq<Seg> {
    [Seg(n.childLo != 0, ChildFields(form, n)),
     Seg(n.inputs != [], [Field(Tag(form, 40), U64ListData(IndexWords(n.inputs)))]),
     Seg(n.outputs != [], [Field(Tag(form, 41), U64ListData(IndexWords(n.outputs)))]),
     Seg(n.payload != [], [Field(Tag(form, 42), n.payload)])]
  }

  /** One node, followed by the fields `rest`. */
  function NodeThen(form: Format, n: Node, rest: seq<Field>): seq<Field> {
    IdentFields(n) +
    (Join(WorkSegs(form, n)) +
     (Join(TensorSegs(form, n)) +
      (Join(BindingSegs(form, n)) +
       (Join(TailSegs(form, n)) + rest))))
  }

  function EdgeFields(form: Format, e: Edge): seq<Field> {
    [Field(EdgeTag(form, 1), Be64(e.id.hi)), Field(EdgeTag(form, 2), Be64(e.id.lo)),
     Field(EdgeTag(form, 3), Be64(e.from.hi)), Field(EdgeTag(form, 4), Be64(e.from.lo)),
     Field(EdgeTag(form, 5), Be64(e.to.hi)), Field(EdgeTag(form, 6), Be64(e.to.lo)),
     Field(EdgeTag(form, 7), Be32(e.kind)), Field(EdgeTag(form, 8), e.caption)]
  }

  /** A dependency record, tagged 1..7 in every format that has one. */
  function DependencyFields(k: KernelRef): seq<Field> {
    [Field(1, k.name), Field(2, Be64(k.idHi)), Field(3, Be64(k.idLo)), Field(4, Be64(k.generation)),
     Field(5, Be32(k.abi)), Field(6, k.digest), Field(7, BoolData(k.contributes))]
  }

  // ----- sizes the 32-bit length field can carry -----

  ghost predicate KernelFits(k: KernelRef) {
    |k.name| < TWO_32 && |k.digest| < TWO_32
  }

  ghost predicate NodeFits(n: Node) {
    && |n.name| < TWO_32 && KernelFits(n.kernel) && |n.quant.scheme| < TWO_32 && |n.binding.schema| < TWO_32
    && |n.payload| < TWO_32
    && 8 * |n.shape.dims| + 4 < TWO_32 && 8 * |n.inputs| + 4 < TWO_32 && 8 * |n.outputs| + 4 < TWO_32
  }

  ghost predicate EdgeFits(e: Edge) {
    |e.caption| < TWO_32
  }

  lemma FrontSegsFit(form: Format, n: Node)
    requires NodeFits(n)
    ensures AllFit(Join(WorkSegs(form, n))) && AllFit(Join(TensorSegs(form, n)))
  {
    AllFitJoin(WorkSegs(form, n));
    AllFitJoin(TensorSegs(form, n));
  }

  lemma BackSegsFit(form: Format, n: Node)
    requires NodeFits(n)
    ensures AllFit(Join(BindingSegs(form, n))) && AllFit(Join(TailSegs(form, n)))
  {
    AllFitJoin(BindingSegs(form, n));
    AllFitJoin(TailSegs(form, n));
  }

  lemma NodeThenFits(form: Format, n: Node, rest: seq<Field>)
    requires NodeFits(n) && AllFit(rest)
    ensures AllFit(NodeThen(form, n, rest))
  {
    FrontSegsFit(form, n);
    BackSegsFit(form, n);
    var t3 := Join(TailSegs(form, n)) + rest;
    var t2 := Join(BindingSegs(form, n)) + t3;
    var t1 := Join(TensorSegs(form, n)) + t2;
    AllFitAppend(Join(TailSegs(form, n)), rest);
    AllFitAppend(Join(BindingSegs(form, n)), t3);
    AllFitAppend(Join(TensorSegs(form, n)), t2);
    AllFitAppend(Join(WorkSegs(form, n)), t1);
    AllFitAppend(IdentFields(n), Join(WorkSegs(form, n)) + t1);
  }

  /** What follows a node does not change how the node is written. */
  lemma NodeThenRest(form: Format, n: Node, rest: seq<Field>)
    ensures NodeThen(form, n, rest) == NodeThen(form, n, []) + rest
  {
    var w, t, b, e := Join(WorkSegs(form, n)), Join(TensorSegs(form, n)), Join(BindingSegs(form, n)), Join(TailSegs(form, n));
    assert e + [] == e;
    AppendAssociative(b, e, rest);
    AppendAssociative(t, b + e, rest);
    AppendAssociative(w, t + (b + e), rest);
    AppendAssociative(IdentFields(n), w + (t + (b + e)), rest);
  }

  // ----- a record determines its fields -----

  lemma KernelFieldsInjective(form: Format, a: KernelRef, b: KernelRef)
    requires KernelFields(form, a) == KernelFields(form, b)
    ensures NormalKernel(a) == NormalKernel(b)
  {
    var x, y := KernelFields(form, a), KernelFields(form, b);
    assert x[0] == y[0] && x[1] == y[1] && x[2] == y[2] && x[3] == y[3] && x[4] == y[4] && x[5] == y[5] && x[6] == y[6];
  }

  lemma LaunchFieldsInjective(form: Format, a: Launch, b: Launch)
    requires LaunchFields(form, a) == LaunchFields(form, b)
    ensures a == b
  {
    var x, y := LaunchFields(form, a), LaunchFields(form, b);
    assert x[0] == y[0] && x[1] == y[1] && x[2] == y[2] && x[3] == y[3] && x[4] == y[4] && x[5] == y[5] && x[6] == y[6];
  }

  lemma QuantFieldsInjective(form: Format, a: Quantization, b: Quantization)
    requires QuantFields(form, a) == QuantFields(form, b)
    ensures a.group == b.group && a.symmetric == b.symmetric && a.scheme == b.scheme
  {
    var x, y := QuantFields(form, a), QuantFields(form, b);
    assert x[0] == y[0] && x[1] == y[1] && x[2] == y[2];
  }

  lemma ScalarFieldsInjective(form: Format, a: Scalar, b: Scalar)
    requires ScalarFields(form, a) == ScalarFields(form, b)
    ensures a.intValue == b.intValue && a.floatBits == b.floatBits
  {
    var x, y := ScalarFields(form, a), ScalarFields(form, b);
    assert x[1] == y[1] && x[2] == y[2];
  }

  lemma BindingFieldsInjective(form: Format, a: Binding, i: u64, b: Binding, j: u64)
    requires BindingFields(form, a, i) == BindingFields(form, b, j)
    ensures a == b && i == j
  {
    var x, y := BindingFields(form, a, i), BindingFields(form, b, j);
    assert x[0] == y[0] && x[1] == y[1] && x[2] == y[2] && x[3] == y[3] && x[4] == y[4];
  }

  lemma DimWordsInjective(a: seq<i64>, b: seq<i64>)
    requires DimWords(a) == DimWords(b)
    ensures a == b
  {
    assert |a| == |b|;
    forall i | 0 <= i < |a|
      ensures a[i] == b[i]
    {
      assert DimWords(a)[i] == DimWords(b)[i];
    }
  }

  lemma IndexWordsInjective(a: seq<u32>, b: seq<u32>)
    requires IndexWords(a) == IndexWords(b)
    ensures a == b
  {
    assert |a| == |b|;
    forall i | 0 <= i < |a|
      ensures a[i] == b[i]
    {
      assert IndexWords(a)[i] == IndexWords(b)[i];
    }
  }

  lemma WorkShape(form: Format, n: Node)
    ensures Shaped(WorkSegs(form, n)) && TagsWithin(WorkSegs(form, n), 5, Tag(form, 21))
  {
  }

  lemma TensorShape(form: Format, n: Node)
    ensures Shaped(TensorSegs(form, n)) && TagsWithin(TensorSegs(form, n), Tag(form, 21), Tag(form, 26))
  {
  }

  lemma BindingShape(form: Format, n: Node)
    ensures Shaped(BindingSegs(form, n)) && TagsWithin(BindingSegs(form, n), Tag(form, 26), Tag(form, 38))
  {
  }

  lemma TailShape(form: Format, n: Node)
    ensures Shaped(TailSegs(form, n)) && TagsWithin(TailSegs(form, n), Tag(form, 38), 0x1_0000)
  {
  }

  // Each group of runs can be read back from the front of a stream.

  lemma WorkCancel(form: Format, a: Node, ra: seq<Field>, b: Node, rb: seq<Field>)
    requires a.category == b.category
    requires HeadOutside(ra, 5, Tag(form, 21)) && HeadOutside(rb, 5, Tag(form, 21))
    requires Join(WorkSegs(form, a)) + ra == Join(WorkSegs(form, b)) + rb
    ensures ra == rb
    ensures NormalNode(a).kernel == NormalNode(b).kernel && NormalNode(a).launch == NormalNode(b).launch
    ensures a.bytes == b.bytes && NormalNode(a).memset == NormalNode(b).memset
  {
    hide Join, U64ListData, BigEndian, FromBigEndian, Shaped, TagsWithin;
    var x, y := WorkSegs(form, a), WorkSegs(form, b);
    WorkShape(form, a);
    WorkShape(form, b);
    JoinCancel(x, ra, y, rb, 5, Tag(form, 21));
    if a.category == KERNEL {
      assert x[0].fields == y[0].fields && x[1].fields == y[1].fields;
      KernelFieldsInjective(form, a.kernel, b.kernel);
      LaunchFieldsInjective(form, a.launch, b.launch);
    }
    assert x[2].fields[0].data == y[2].fields[0].data;
    if a.category == MEMORY_SET {
      assert x[3].fields[0].data[0] == y[3].fields[0].data[0];
    }
  }

  lemma TensorCancel(form: Format, a: Node, ra: seq<Field>, b: Node, rb: seq<Field>)
    requires NodeFits(a) && NodeFits(b)
    requires HeadOutside(ra, Tag(form, 21), Tag(form, 26)) && HeadOutside(rb, Tag(form, 21), Tag(form, 26))
    requires Join(TensorSegs(form, a)) + ra == Join(TensorSegs(form, b)) + rb
    ensures ra == rb
    ensures a.dtype == b.dtype
    ensures NormalNode(a).shape == NormalNode(b).shape && NormalNode(a).layout == NormalNode(b).layout
  {
    hide Join, U64ListData, BigEndian, FromBigEndian, Shaped, TagsWithin;
    var x, y := TensorSegs(form, a), TensorSegs(form, b);
    TensorShape(form, a);
    TensorShape(form, b);
    JoinCancel(x, ra, y, rb, Tag(form, 21), Tag(form, 26));
    assert x[3].on == y[3].on;
    if a.dtype != DTYPE_NONE {
      assert x[3].fields[0].data == y[3].fields[0].data && x[3].fields[1].data == y[3].fields[1].data;
      assert x[1].fields[0].data == y[1].fields[0].data;
      assert x[0].on == y[0].on && x[2].on == y[2].on;
      if a.shape.dims != [] {
        assert x[0].fields[0].data == y[0].fields[0].data;
        U64ListInjective(DimWords(a.shape.dims), DimWords(b.shape.dims));
        DimWordsInjective(a.shape.dims, b.shape.dims);
      }
      if a.shape.maxRank != 0 {
        assert x[2].fields[0].data == y[2].fields[0].data;
      }
    }
  }

  lemma BindingCancel(form: Format, a: Node, ra: seq<Field>, b: Node, rb: seq<Field>)
    requires HeadOutside(ra, Tag(form, 26), Tag(form, 38)) && HeadOutside(rb, Tag(form, 26), Tag(form, 38))
    requires Join(BindingSegs(form, a)) + ra == Join(BindingSegs(form, b)) + rb
    ensures ra == rb
    ensures NormalNode(a).scalar == NormalNode(b).scalar && NormalNode(a).quant == NormalNode(b).quant
    ensures a.binding == b.binding && a.requiredAlignment == b.requiredAlignment
  {
    hide Join, U64ListData, BigEndian, FromBigEndian, Shaped, TagsWithin;
    var x, y := BindingSegs(form, a), BindingSegs(form, b);
    BindingShape(form, a);
    BindingShape(form, b);
    JoinCancel(x, ra, y, rb, Tag(form, 26), Tag(form, 38));
    assert x[0].on == y[0].on;
    if a.scalar.specialized {
      assert x[0].fields == y[0].fields;
      ScalarFieldsInjective(form, a.scalar, b.scalar);
    }
    assert x[1].fields[0].data == y[1].fields[0].data;
    if a.quant.mode != QUANT_NONE {
      assert x[2].fields == y[2].fields;
      QuantFieldsInjective(form, a.quant, b.quant);
    }
    assert x[3].fields == y[3].fields;
    BindingFieldsInjective(form, a.binding, a.requiredAlignment, b.binding, b.requiredAlignment);
  }

  lemma TailCancel(form: Format, a: Node, ra: seq<Field>, b: Node, rb: seq<Field>)
    requires NodeFits(a) && NodeFits(b)
    requires HeadOutside(ra, Tag(form, 38), 0x1_0000) && HeadOutside(rb, Tag(form, 38), 0x1_0000)
    requires Join(TailSegs(form, a)) + ra == Join(TailSegs(form, b)) + rb
    ensures ra == rb
    ensures a.childLo == b.childLo && NormalNode(a).childHi == NormalNode(b).childHi
    ensures a.inputs == b.inputs && a.outputs == b.outputs && a.payload == b.payload
  {
    hide Join, U64ListData, BigEndian, FromBigEndian, Shaped, TagsWithin;
    var x, y := TailSegs(form, a), TailSegs(form, b);
    TailShape(form, a);
    TailShape(form, b);
    JoinCancel(x, ra, y, rb, Tag(form, 38), 0x1_0000);
    assert x[0].on == y[0].on && x[1].on == y[1].on && x[2].on == y[2].on && x[3].on == y[3].on;
    if a.childLo != 0 {
      assert x[0].fields[0].data == y[0].fields[0].data && x[0].fields[1].data == y[0].fields[1].data;
    }
    if a.inputs != [] {
      assert x[1].fields[0].data == y[1].fields[0].data;
      U64ListInjective(IndexWords(a.inputs), IndexWords(b.inputs));
      IndexWordsInjective(a.inputs, b.inputs);
    }
    if a.outputs != [] {
      assert x[2].fields[0].data == y[2].fields[0].data;
      U64ListInjective(IndexWords(a.outputs), IndexWords(b.outputs));
      IndexWordsInjective(a.outputs, b.outputs);
    }
    if a.payload != [] {
      assert x[3].fields[0].data == y[3].fields[0].data;
    }
  }

  /** Tags 1 and 2 start the next node and the edge section; no optional run starts with them. */
  ghost predicate EndsNode(rest: seq<Field>) {
    rest == [] || rest[0].tag == 1 || rest[0].tag == 2
  }

  lemma HeadsAfter(form: Format, n: Node, rest: seq<Field>)
    requires EndsNode(rest)
    ensures
      var t3 := Join(TailSegs(form, n)) + rest;
      var t2 := Join(BindingSegs(form, n)) + t3;
      && HeadOutside(rest, Tag(form, 38), 0x1_0000)
      && HeadOutside(t3, Tag(form, 26), Tag(form, 38))
      && HeadOutside(t2, Tag(form, 21), Tag(form, 26))
      && HeadOutside(Join(TensorSegs(form, n)) + t2, 5, Tag(form, 21))
  {
    hide Join, TailSegs, BindingSegs, TensorSegs, Shaped;
    var t3 := Join(TailSegs(form, n)) + rest;
    var t2 := Join(BindingSegs(form, n)) + t3;
    TailShape(form, n);
    BindingShape(form, n);
    TensorShape(form, n);
    HeadOfJoin(TailSegs(form, n), rest, 5, Tag(form, 38));
    HeadOfJoin(BindingSegs(form, n), t3, 5, Tag(form, 26));
    HeadOfJoin(TensorSegs(form, n), t2, 5, Tag(form, 21));
  }

  /** Flat node records can be told apart: what is written determines the normalised node. */
  lemma NodeCancel(form: Format, a: Node, ra: seq<Field>, b: Node, rb: seq<Field>)
    requires NodeFits(a) && NodeFits(b) && EndsNode(ra) && EndsNode(rb)
    requires NodeThen(form, a, ra) == NodeThen(form, b, rb)
    ensures NormalNode(a) == NormalNode(b) && ra == rb
  {
    var a3, b3 := Join(TailSegs(form, a)) + ra, Join(TailSegs(form, b)) + rb;
    var a2, b2 := Join(BindingSegs(form, a)) + a3, Join(BindingSegs(form, b)) + b3;
    var a1, b1 := Join(TensorSegs(form, a)) + a2, Join(TensorSegs(form, b)) + b2;
    AppendCancel(IdentFields(a), Join(WorkSegs(form, a)) + a1, IdentFields(b), Join(WorkSegs(form, b)) + b1);
    IdentInjective(a, b);
    HeadsAfter(form, a, ra);
    HeadsAfter(form, b, rb);
    WorkCancel(form, a, a1, b, b1);
    TensorCancel(form, a, a2, b, b2);
    BindingCancel(form, a, a3, b, b3);
    TailCancel(form, a, ra, b, rb);
  }

  lemma IdentInjective(a: Node, b: Node)
    requires IdentFields(a) == IdentFields(b)
    ensures a.id == b.id && a.category == b.category && a.name == b.name
  {
    var x, y := IdentFields(a), IdentFields(b);
    assert x[0] == y[0] && x[1] == y[1] && x[2] == y[2] && x[3] == y[3];
  }

  lemma EdgeFieldsInjective(form: Format, a: Edge, b: Edge)
    requires EdgeFields(form, a) == EdgeFields(form, b)
    ensures a == b
  {
    var x, y := EdgeFields(form, a), EdgeFields(form, b);
    assert x[0] == y[0] && x[1] == y[1] && x[2] == y[2] && x[3] == y[3];
    assert x[4] == y[4] && x[5] == y[5] && x[6] == y[6] && x[7] == y[7];
  }

  // ----- the encoders as they append to a writer -----

  function Present(s: Seg): seq<Field> {
    if s.on then s.fields else []
  }

  lemma JoinFour(a: seq<Seg>)
    requires |a| == 4
    ensures Join(a) == Present(a[0]) + (Present(a[1]) + (Present(a[2]) + Present(a[3])))
  {
    assert a[1..][1..] == a[2..] && a[2..][1..] == a[3..] && a[3..][1..] == [];
    assert Join(a[3..]) == Present(a[3]) + Join([]);
    assert Join(a[2..]) == Present(a[2]) + Join(a[3..]);
    assert Join(a[1..]) == Present(a[1]) + Join(a[2..]);
  }

  lemma AppendFour(f: seq<Field>, a: seq<Field>, b: seq<Field>, c: seq<Field>, d: seq<Field>)
    ensures f + a + b + c + d == f + (a + (b + (c + d)))
  {
  }

  method PutKernel(w: CanonicalWriter, form: Format, k: KernelRef)
    requires w.Valid()
    modifies w
    ensures w.Valid() && w.fields == old(w.fields) + KernelFields(form, k)
  {
    hide w.Valid, Tag, Be64, Be32;
    w.PutBytes(Tag(form, 5), k.name);
    w.PutU64(Tag(form, 6), k.idHi);
    w.PutU64(Tag(form, 7), k.idLo);
    w.PutU64(Tag(form, 8), k.generation);
    w.PutU32(Tag(form, 9), k.abi);
    w.PutBytes(Tag(form, 10), k.digest);
    w.PutBool(Tag(form, 11), k.contributes);
  }

  method PutLaunch(w: CanonicalWriter, form: Format, l: Launch)
    requires w.Valid()
    modifies w
    ensures w.Valid() && w.fields == old(w.fields) + LaunchFields(form, l)
  {
    hide w.Valid, Tag, Be32;
    w.PutU32(Tag(form, 12), l.gridX);
    w.PutU32(Tag(form, 13), l.gridY);
    w.PutU32(Tag(form, 14), l.gridZ);
    w.PutU32(Tag(form, 15), l.blockX);
    w.PutU32(Tag(form, 16), l.blockY);
    w.PutU32(Tag(form, 17), l.blockZ);
    w.PutU32(Tag(form, 18), l.sharedBytes);
  }

  method PutWork(w: CanonicalWriter, form: Format, n: Node)
    requires w.Valid()
    modifies w
    ensures w.Valid() && w.fields == old(w.fields) + Join(WorkSegs(form, n))
  {
    hide w.Valid, Tag, Be64, Join, KernelFields, LaunchFields;
    ghost var s := WorkSegs(form, n);
    JoinFour(s);
    AppendFour(w.fields, Present(s[0]), Present(s[1]), Present(s[2]), Present(s[3]));
    if n.category == KERNEL {
      PutKernel(w, form, n.kernel);
    }
    if n.category == KERNEL {
      PutLaunch(w, form, n.launch);
    }
    w.PutU64(Tag(form, 19), n.bytes);
    if n.category == MEMORY_SET {
      w.PutBytes(Tag(form, 20), [n.memset]);
    }
  }

  method PutTensor(w: CanonicalWriter, form: Format, n: Node)
    requires w.Valid()
    modifies w
    ensures w.Valid() && w.fields == old(w.fields) + Join(TensorSegs(form, n))
  {
    hide w.Valid, Tag, Be32, Join, U64ListData, BoolData;
    ghost var s := TensorSegs(form, n);
    ghost var f := w.fields;
    JoinFour(s);
    AppendFour(f, Present(s[0]), Present(s[1]), Present(s[2]), Present(s[3]));
    if n.dtype != DTYPE_NONE {
      if n.shape.dims != [] {
        w.PutU64List(Tag(form, 21), DimWords(n.shape.dims));
      }
      w.PutBool(Tag(form, 22), n.shape.dynamic);
      if n.shape.maxRank != 0 {
        w.PutU32(Tag(form, 23), n.shape.maxRank);
      }
      assert w.fields == f + Present(s[0]) + Present(s[1]) + Present(s[2]);
      w.PutU32(Tag(form, 24), n.dtype);
      w.PutU32(Tag(form, 25), n.layout);
    }
  }

  method PutScalar(w: CanonicalWriter, form: Format, s: Scalar)
    requires w.Valid()
    modifies w
    ensures w.Valid() && w.fields == old(w.fields) + ScalarFields(form, s)
  {
    hide w.Valid, Tag, Be64, BoolData;
    w.PutBool(Tag(form, 26), true);
    w.PutU64(Tag(form, 27), AsUnsigned(s.intValue));
    w.PutU64(Tag(form, 28), s.floatBits);
  }

  method PutQuant(w: CanonicalWriter, form: Format, q: Quantization)
    requires w.Valid()
    modifies w
    ensures w.Valid() && w.fields == old(w.fields) + QuantFields(form, q)
  {
    hide w.Valid, Tag, Be32, BoolData;
    w.PutU32(Tag(form, 30), q.group);
    w.PutBool(Tag(form, 31), q.symmetric);
    w.PutBytes(Tag(form, 32), q.scheme);
  }

  method PutBindingFields(w: CanonicalWriter, form: Format, b: Binding, align: u64)
    requires w.Valid()
    modifies w
    ensures w.Valid() && w.fields == old(w.fields) + BindingFields(form, b, align)
  {
    hide w.Valid, Tag, Be32, Be64, BoolData;
    w.PutU32(Tag(form, 33), b.bindingClass);
    w.PutU32(Tag(form, 34), b.alignment);
    w.PutBytes(Tag(form, 35), b.schema);
    w.PutBool(Tag(form, 36), b.eligible);
    w.PutU64(Tag(form, 37), align);
  }

  method PutBinding(w: CanonicalWriter, form: Format, n: Node)
    requires w.Valid()
    modifies w
    ensures w.Valid() && w.fields == old(w.fields) + Join(BindingSegs(form, n))
  {
    hide w.Valid, Tag, Be32, Join, ScalarFields, QuantFields, BindingFields;
    ghost var s := BindingSegs(form, n);
    JoinFour(s);
    AppendFour(w.fields, Present(s[0]), Present(s[1]), Present(s[2]), Present(s[3]));
    if n.scalar.specialized {
      PutScalar(w, form, n.scalar);
    }
    w.PutU32(Tag(form, 29), n.quant.mode);
    if n.quant.mode != QUANT_NONE {
      PutQuant(w, form, n.quant);
    }
    PutBindingFields(w, form, n.binding, n.requiredAlignment);
  }

  method PutTail(w: CanonicalWriter, form: Format, n: Node)
    requires w.Valid()
    modifies w
    ensures w.Valid() && w.fields == old(w.fields) + Join(TailSegs(form, n))
  {
    hide w.Valid, Tag, Be64, Join, U64ListData;
    ghost var s := TailSegs(form, n);
    JoinFour(s);
    AppendFour(w.fields, Present(s[0]), Present(s[1]), Present(s[2]), Present(s[3]));
    if n.childLo != 0 {
      w.PutU64(Tag(form, 38), n.childHi);
      w.PutU64(Tag(form, 39), n.childLo);
    }
    if n.inputs != [] {
      w.PutU64List(Tag(form, 40), IndexWords(n.inputs));
    }
    if n.outputs != [] {
      w.PutU64List(Tag(form, 41), IndexWords(n.outputs));
    }
    if n.payload != [] {
      w.PutBytes(Tag(form, 42), n.payload);
    }
  }

  /** `encode_node`, under either tag table. */
  method EncodeNode(w: CanonicalWriter, form: Format, n: Node)
    requires w.Valid()
    modifies w
    ensures w.Valid() && w.fields == old(w.fields) + NodeThen(form, n, [])
  {
    hide w.Valid, Tag, Be32, Be64, Join, WorkSegs, TensorSegs, BindingSegs, TailSegs;
    ghost var f := w.fields;
    w.PutU64(1, n.id.hi);
    w.PutU64(2, n.id.lo);
    w.PutU32(3, n.category);
    w.PutBytes(4, n.name);
    assert w.fields == f + IdentFields(n);
    PutWork(w, form, n);
    PutTensor(w, form, n);
    PutBinding(w, form, n);
    PutTail(w, form, n);
    assert Join(TailSegs(form, n)) + [] == Join(TailSegs(form, n));
    AppendFour(f + IdentFields(n), Join(WorkSegs(form, n)), Join(TensorSegs(form, n)), Join(BindingSegs(form, n)),
               Join(TailSegs(form, n)));
    AppendAssociative(f, IdentFields(n), Join(WorkSegs(form, n)) +
      (Join(TensorSegs(form, n)) + (Join(BindingSegs(form, n)) + Join(TailSegs(form, n)))));
  }

  /** `encode_edge`, under either tag table. */
  method EncodeEdge(w: CanonicalWriter, form: Format, e: Edge)
    requires w.Valid()
    modifies w
    ensures w.Valid() && w.fields == old(w.fields) + EdgeFields(form, e)
  {
    hide w.Valid, EdgeTag, Be32, Be64;
    w.PutU64(EdgeTag(form, 1), e.id.hi);
    w.PutU64(EdgeTag(form, 2), e.id.lo);
    w.PutU64(EdgeTag(form, 3), e.from.hi);
    w.PutU64(EdgeTag(form, 4), e.from.lo);
    w.PutU64(EdgeTag(form, 5), e.to.hi);
    w.PutU64(EdgeTag(form, 6), e.to.lo);
    w.PutU32(EdgeTag(form, 7), e.kind);
    w.PutBytes(EdgeTag(form, 8), e.caption);
  }

  /** `encode_dep`, the same in every file. */
  method EncodeDependency(w: CanonicalWriter, k: KernelRef)
    requires w.Valid()
    modifies w
    ensures w.Valid() && w.fields == old(w.fields) + DependencyFields(k)
  {
    hide w.Valid, Be32, Be64;
    w.PutBytes(1, k.name);
    w.PutU64(2, k.idHi);
    w.PutU64(3, k.idLo);
    w.PutU64(4, k.generation);
    w.PutU32(5, k.abi);
    w.PutBytes(6, k.digest);
    w.PutBool(7, k.contributes);
  }
}
