/**
  The tag-switch decoders: `while (r.next(tag, p)) switch (tag)`. Fields may
  come in any order and be missing or repeated; an unknown tag or a malformed
  stream is refused. Shapes, dependencies, nodes and edges are read this way.
 */
module LooseCodec {
  import opened Bytes
  import opened Canonical
  import opened Descriptors
  import opened NodeCodec

  function Fold<S>(step: (S, Field) -> Option<S>, fs: seq<Field>, s: S): Option<S> {
    if fs == [] then Some(s)
    else
      match step(s, fs[0])
      case None => None
      case Some(t) => Fold(step, fs[1..], t)
  }

  function DecodeLoose<S>(step: (S, Field) -> Option<S>, bytes: seq<byte>, init: S): Option<S> {
    var t := Tokenize(bytes);
    if t.malformed then None else Fold(step, t.fields, init)
  }

  /** The loop over a reader. */
  method ReadLoose<S>(step: (S, Field) -> Option<S>, bytes: seq<byte>, init: S) returns (r: Option<S>)
    ensures r == DecodeLoose(step, bytes, init)
  {
    hide Tokenize;
    var reader := new CanonicalReader(bytes);
    var acc := init;
    ghost var all := Tokenize(bytes);
    var ok, tag, payload := reader.Advance();
    while ok
      invariant reader.Valid() && fresh(reader)
      invariant ok ==> !reader.malformed && reader.Unread().malformed == all.malformed
      invariant ok ==> Fold(step, all.fields, init) == Fold(step, [Field(tag, payload)] + reader.Unread().fields, acc)
      invariant !ok ==> reader.malformed == all.malformed && Fold(step, all.fields, init) == Some(acc)
      decreases |reader.data| - reader.off, ok
    {
      var next := step(acc, Field(tag, payload));
      if next.None? {
        return None;
      }
      acc := next.value;
      ghost var left := reader.Unread().fields;
      assert ([Field(tag, payload)] + left)[1..] == left;
      ok, tag, payload := reader.Advance();
      assert ok ==> [Field(tag, payload)] + reader.Unread().fields == left;
    }
    r := if reader.malformed then None else Some(acc);
  }

  lemma {:induction false} FoldAppend<S>(step: (S, Field) -> Option<S>, a: seq<Field>, b: seq<Field>, s: S)
    ensures Fold(step, a + b, s) == match Fold(step, a, s) case None => None case Some(t) => Fold(step, b, t)
  {
    if a == [] {
      assert a + b == b;
    } else {
      assert (a + b)[1..] == a[1..] + b;
      match step(s, a[0])
      case None =>
      case Some(t) => FoldAppend(step, a[1..], b, t);
    }
  }

  lemma DecodeFlatten<S>(step: (S, Field) -> Option<S>, fs: seq<Field>, init: S)
    requires AllFit(fs)
    ensures DecodeLoose(step, Flatten(fs), init) == Fold(step, fs, init)
  {
    TokenizeFlatten(fs);
  }

  lemma FoldOne<S>(step: (S, Field) -> Option<S>, f: Field, s: S)
    ensures Fold(step, [f], s) == step(s, f)
  {
    assert [f][1..] == [];
  }

  // ----- lists -----

  function DimsOfWords(ws: seq<u64>): (r: seq<i64>)
    ensures |r| == |ws|
    ensures forall i | 0 <= i < |ws| :: r[i] == AsSigned(ws[i])
  {
    seq(|ws|, i requires 0 <= i < |ws| => AsSigned(ws[i]))
  }

  /** `static_cast<uint32_t>` of each value. */
  function IndicesOfWords(ws: seq<u64>): (r: seq<u32>)
    ensures |r| == |ws|
    ensures forall i | 0 <= i < |ws| :: r[i] == ws[i] % TWO_32
  {
    seq(|ws|, i requires 0 <= i < |ws| => ws[i] % TWO_32)
  }

  lemma ListReads(ws: seq<u64>)
    requires |ws| < TWO_32
    ensures AsU64List(U64ListData(ws)) == if |ws| <= MAX_LIST then Some(ws) else None
  {
    if |ws| <= MAX_LIST {
      U64ListRoundTrip(ws);
    } else {
      hide BigEndian, FromBigEndian;
      SplitAppend(Be32(|ws| % TWO_32), U64sBytes(ws));
    }
  }

  lemma DimsBack(dims: seq<i64>)
    ensures DimsOfWords(DimWords(dims)) == dims
  {
  }

  lemma IndicesBack(xs: seq<u32>)
    ensures IndicesOfWords(IndexWords(xs)) == xs
  {
  }

  // ----- shapes -----

  function ShapeFields(s: Shape): seq<Field> {
    (if s.dims != [] then [Field(1, U64ListData(DimWords(s.dims)))] else [])
    + ([Field(2, BoolData(s.dynamic))]
       + (if s.maxRank != 0 then [Field(3, Be32(s.maxRank))] else []))
  }

  /** Repeated dimension lists are appended to each other. */
  function ApplyShape(s: Shape, f: Field): Option<Shape> {
    if f.tag == 1 then
      var ws :- AsU64List(f.data);
      Some(s.(dims := s.dims + DimsOfWords(ws)))
    else if f.tag == 2 then
      var v :- AsBool(f.data);
      Some(s.(dynamic := v))
    else if f.tag == 3 then
      var v :- AsU32(f.data);
      Some(s.(maxRank := v))
    else None
  }

  function DecodeShape(bytes: seq<byte>): Option<Shape> {
    DecodeLoose(ApplyShape, bytes, NO_SHAPE)
  }

  lemma ShapeBack(s: Shape)
    requires |Flatten(ShapeFields(s))| < TWO_32 && AllFit(ShapeFields(s)) && |s.dims| < TWO_32
    ensures DecodeShape(Flatten(ShapeFields(s))) == if |s.dims| <= MAX_LIST then Some(s) else None
  {
    hide BigEndian, FromBigEndian, Flatten, Tokenize, U64ListData, AsU64List;
    DecodeFlatten(ApplyShape, ShapeFields(s), NO_SHAPE);
    var a := if s.dims != [] then [Field(1, U64ListData(DimWords(s.dims)))] else [];
    var b := [Field(2, BoolData(s.dynamic))];
    var c := if s.maxRank != 0 then [Field(3, Be32(s.maxRank))] else [];
    FoldAppend(ApplyShape, a, b + c, NO_SHAPE);
    ListReads(DimWords(s.dims));
    DimsBack(s.dims);
    if s.dims != [] {
      FoldOne(ApplyShape, a[0], NO_SHAPE);
      assert [] + s.dims == s.dims;
    }
    if |s.dims| <= MAX_LIST {
      var t := NO_SHAPE.(dims := s.dims);
      assert Fold(ApplyShape, a, NO_SHAPE) == Some(t);
      FoldAppend(ApplyShape, b, c, t);
      FoldOne(ApplyShape, b[0], t);
      if s.maxRank != 0 {
        FoldOne(ApplyShape, c[0], t.(dynamic := s.dynamic));
      }
    }
  }

  // ----- dependencies -----

  function ApplyDependency(k: KernelRef, f: Field): Option<KernelRef> {
    match f.tag
    case 1 => Some(k.(name := f.data))
    case 2 => var v :- AsU64(f.data); Some(k.(idHi := v))
    case 3 => var v :- AsU64(f.data); Some(k.(idLo := v))
    case 4 => var v :- AsU64(f.data); Some(k.(generation := v))
    case 5 => var v :- AsU32(f.data); Some(k.(abi := v))
    case 6 => Some(k.(digest := f.data))
    case 7 => var v :- AsBool(f.data); Some(k.(contributes := v))
    case _ => None
  }

  function DecodeDependency(bytes: seq<byte>): Option<KernelRef> {
    DecodeLoose(ApplyDependency, bytes, NO_KERNEL)
  }

  lemma DependencyFold(k: KernelRef)
    ensures Fold(ApplyDependency, DependencyFields(k), NO_KERNEL) == Some(NormalKernel(k))
  {
    hide BigEndian, FromBigEndian, Fold;
    var fs := DependencyFields(k);
    FoldStep(ApplyDependency, fs, 0, NO_KERNEL);
    var k1 := NO_KERNEL.(name := k.name);
    FoldStep(ApplyDependency, fs, 1, k1);
    var k2 := k1.(idHi := k.idHi);
    FoldStep(ApplyDependency, fs, 2, k2);
    var k3 := k2.(idLo := k.idLo);
    FoldStep(ApplyDependency, fs, 3, k3);
    var k4 := k3.(generation := k.generation);
    FoldStep(ApplyDependency, fs, 4, k4);
    var k5 := k4.(abi := k.abi);
    FoldStep(ApplyDependency, fs, 5, k5);
    var k6 := k5.(digest := k.digest);
    FoldStep(ApplyDependency, fs, 6, k6);
    FoldEnds(ApplyDependency, fs);
  }

  lemma FoldEnds<S(!new)>(step: (S, Field) -> Option<S>, fs: seq<Field>)
    ensures fs[0..] == fs && fs[|fs|..] == []
    ensures forall s :: Fold(step, [], s) == Some(s)
  {
  }

  lemma FoldStep<S>(step: (S, Field) -> Option<S>, fs: seq<Field>, i: nat, s: S)
    requires i < |fs|
    ensures Fold(step, fs[i..], s) == match step(s, fs[i]) case None => None case Some(t) => Fold(step, fs[i + 1..], t)
  {
    assert fs[i..][1..] == fs[i + 1..];
  }

  lemma DependencyBack(k: KernelRef)
    requires AllFit(DependencyFields(k))
    ensures DecodeDependency(Flatten(DependencyFields(k))) == Some(NormalKernel(k))
  {
    hide Fold, Flatten, Tokenize, DependencyFields;
    DecodeFlatten(ApplyDependency, DependencyFields(k), NO_KERNEL);
    DependencyFold(k);
  }

  // ----- nodes -----

  /** The launch geometry, tags 12 to 18. */
  function ApplyLaunch(l: Launch, f: Field): Option<Launch> {
    var v :- AsU32(f.data);
    match f.tag
    case 12 => Some(l.(gridX := v))
    case 13 => Some(l.(gridY := v))
    case 14 => Some(l.(gridZ := v))
    case 15 => Some(l.(blockX := v))
    case 16 => Some(l.(blockY := v))
    case 17 => Some(l.(blockZ := v))
    case 18 => Some(l.(sharedBytes := v))
    case _ => None
  }

  function ApplyWork(n: Node, f: Field): Option<Node> {
    match f.tag
    case 1 => var v :- AsU64(f.data); Some(n.(id := n.id.(hi := v)))
    case 2 => var v :- AsU64(f.data); Some(n.(id := n.id.(lo := v)))
    case 3 => var v :- AsU32(f.data); Some(n.(category := v))
    case 4 => Some(n.(name := f.data))
    case 19 => var v :- AsU64(f.data); Some(n.(bytes := v))
    case 20 => if f.data == [] then None else Some(n.(memset := f.data[0]))
    case _ => None
  }

  function ApplyProperty(n: Node, f: Field): Option<Node> {
    match f.tag
    case 21 => var ws :- AsU64List(f.data); Some(n.(shape := n.shape.(dims := n.shape.dims + DimsOfWords(ws))))
    case 22 => var v :- AsBool(f.data); Some(n.(shape := n.shape.(dynamic := v)))
    case 23 => var v :- AsU32(f.data); Some(n.(shape := n.shape.(maxRank := v)))
    case 24 => var v :- AsU32(f.data); Some(n.(dtype := v))
    case 25 => var v :- AsU32(f.data); Some(n.(layout := v))
    case 26 => Some(if f.data == [] then n else n.(scalar := n.scalar.(specialized := f.data[0] != 0)))
    case 27 => var v :- AsU64(f.data); Some(n.(scalar := n.scalar.(intValue := AsSigned(v))))
    case 28 => var v :- AsU64(f.data); Some(n.(scalar := n.scalar.(floatBits := v)))
    case 29 => var v :- AsU32(f.data); Some(n.(quant := n.quant.(mode := v)))
    case 30 => var v :- AsU32(f.data); Some(n.(quant := n.quant.(group := v)))
    case 31 => var v :- AsBool(f.data); Some(n.(quant := n.quant.(symmetric := v)))
    case 32 => Some(n.(quant := n.quant.(scheme := f.data)))
    case 33 => var v :- AsU32(f.data); Some(n.(binding := n.binding.(bindingClass := v)))
    case 34 => var v :- AsU32(f.data); Some(n.(binding := n.binding.(alignment := v)))
    case 35 => Some(n.(binding := n.binding.(schema := f.data)))
    case 36 => var v :- AsBool(f.data); Some(n.(binding := n.binding.(eligible := v)))
    case 37 => var v :- AsU64(f.data); Some(n.(requiredAlignment := v))
    case 38 => var v :- AsU64(f.data); Some(n.(childHi := v))
    case 39 => var v :- AsU64(f.data); Some(n.(childLo := v))
    case 40 => var ws :- AsU64List(f.data); Some(n.(inputs := n.inputs + IndicesOfWords(ws)))
    case 41 => var ws :- AsU64List(f.data); Some(n.(outputs := n.outputs + IndicesOfWords(ws)))
    case 42 => Some(n.(payload := f.data))
    case _ => None
  }

  /** The switch of `decode_node`, tags 1 to 42; tags 5 to 11 are the dependency fields of the kernel. */
  function ApplyNode(n: Node, f: Field): Option<Node> {
    if 5 <= f.tag <= 11 then
      var k :- ApplyDependency(n.kernel, Field(f.tag - 4, f.data));
      Some(n.(kernel := k))
    else if 12 <= f.tag <= 18 then
      var l :- ApplyLaunch(n.launch, f);
      Some(n.(launch := l))
    else if f.tag <= 20 then ApplyWork(n, f)
    else ApplyProperty(n, f)
  }

  function DecodeNode(bytes: seq<byte>): Option<Node> {
    DecodeLoose(ApplyNode, bytes, DEFAULT_NODE)
  }

  lemma IdentFold(x: Node)
    ensures Fold(ApplyNode, IdentFields(x), DEFAULT_NODE) == Some(DEFAULT_NODE.(id := x.id, category := x.category, name := x.name))
  {
    hide BigEndian, FromBigEndian, ApplyProperty, ApplyLaunch, ApplyDependency, Fold;
    var fs := IdentFields(x);
    var n := DEFAULT_NODE;
    FoldStep(ApplyNode, fs, 0, n);
    var n1 := n.(id := Id(x.id.hi, 0));
    FoldStep(ApplyNode, fs, 1, n1);
    var n2 := n1.(id := x.id);
    FoldStep(ApplyNode, fs, 2, n2);
    var n3 := n2.(category := x.category);
    FoldStep(ApplyNode, fs, 3, n3);
    FoldEnds(ApplyNode, fs);
  }

  lemma {:induction false} KernelLift(fs: seq<Field>, gs: seq<Field>, n: Node)
    requires |fs| == |gs|
    requires forall i | 0 <= i < |fs| :: 5 <= fs[i].tag <= 11 && gs[i] == Field(fs[i].tag - 4, fs[i].data)
    ensures Fold(ApplyNode, fs, n) ==
              match Fold(ApplyDependency, gs, n.kernel) case None => None case Some(k) => Some(n.(kernel := k))
  {
    hide ApplyDependency, ApplyLaunch, ApplyWork, ApplyProperty;
    if fs != [] {
      match ApplyDependency(n.kernel, gs[0])
      case None =>
      case Some(k) => KernelLift(fs[1..], gs[1..], n.(kernel := k));
    }
  }

  lemma KernelFold(k: KernelRef, n: Node)
    requires n.kernel == NO_KERNEL
    ensures Fold(ApplyNode, KernelFields(StoredForm, k), n) == Some(n.(kernel := NormalKernel(k)))
  {
    hide Fold, BoolData, Be32, Be64;
    KernelLift(KernelFields(StoredForm, k), DependencyFields(k), n);
    DependencyFold(k);
  }

  lemma {:induction false} LaunchLift(fs: seq<Field>, n: Node)
    requires forall i | 0 <= i < |fs| :: 12 <= fs[i].tag <= 18
    ensures Fold(ApplyNode, fs, n) ==
              match Fold(ApplyLaunch, fs, n.launch) case None => None case Some(l) => Some(n.(launch := l))
  {
    hide ApplyDependency, ApplyLaunch, ApplyWork, ApplyProperty;
    if fs != [] {
      match ApplyLaunch(n.launch, fs[0])
      case None =>
      case Some(l) => LaunchLift(fs[1..], n.(launch := l));
    }
  }

  lemma LaunchFieldsFold(l: Launch, m: Launch)
    ensures Fold(ApplyLaunch, LaunchFields(StoredForm, l), m) == Some(l)
  {
    hide BigEndian, FromBigEndian, Fold;
    var fs := LaunchFields(StoredForm, l);
    FoldStep(ApplyLaunch, fs, 0, m);
    var m1 := m.(gridX := l.gridX);
    FoldStep(ApplyLaunch, fs, 1, m1);
    var m2 := m1.(gridY := l.gridY);
    FoldStep(ApplyLaunch, fs, 2, m2);
    var m3 := m2.(gridZ := l.gridZ);
    FoldStep(ApplyLaunch, fs, 3, m3);
    var m4 := m3.(blockX := l.blockX);
    FoldStep(ApplyLaunch, fs, 4, m4);
    var m5 := m4.(blockY := l.blockY);
    FoldStep(ApplyLaunch, fs, 5, m5);
    FoldStep(ApplyLaunch, fs, 6, m5.(blockZ := l.blockZ));
    FoldEnds(ApplyLaunch, fs);
  }

  lemma LaunchFold(l: Launch, n: Node)
    ensures Fold(ApplyNode, LaunchFields(StoredForm, l), n) == Some(n.(launch := l))
  {
    hide Fold, Be32;
    LaunchLift(LaunchFields(StoredForm, l), n);
    LaunchFieldsFold(l, n.launch);
  }

  lemma ScalarFold(c: Scalar, n: Node)
    requires c.specialized
    ensures Fold(ApplyNode, ScalarFields(StoredForm, c), n) == Some(n.(scalar := c))
  {
    hide BigEndian, FromBigEndian, ApplyWork, ApplyLaunch, ApplyDependency, AsU64List, Fold;
    var fs := ScalarFields(StoredForm, c);
    FoldStep(ApplyNode, fs, 0, n);
    var n1 := n.(scalar := n.scalar.(specialized := true));
    FoldStep(ApplyNode, fs, 1, n1);
    var n2 := n1.(scalar := n1.scalar.(intValue := c.intValue));
    FoldStep(ApplyNode, fs, 2, n2);
    FoldEnds(ApplyNode, fs);
  }

  lemma QuantFold(q: Quantization, n: Node)
    requires n.quant.mode == q.mode
    ensures Fold(ApplyNode, QuantFields(StoredForm, q), n) == Some(n.(quant := q))
  {
    hide BigEndian, FromBigEndian, ApplyWork, ApplyLaunch, ApplyDependency, AsU64List, Fold;
    var fs := QuantFields(StoredForm, q);
    FoldStep(ApplyNode, fs, 0, n);
    var n1 := n.(quant := n.quant.(group := q.group));
    FoldStep(ApplyNode, fs, 1, n1);
    var n2 := n1.(quant := n1.quant.(symmetric := q.symmetric));
    FoldStep(ApplyNode, fs, 2, n2);
    FoldEnds(ApplyNode, fs);
  }

  lemma BindingSteps(n: Node, x: Binding, align: u64)
    ensures ApplyNode(n, Field(33, Be32(x.bindingClass))) == Some(n.(binding := n.binding.(bindingClass := x.bindingClass)))
    ensures ApplyNode(n, Field(34, Be32(x.alignment))) == Some(n.(binding := n.binding.(alignment := x.alignment)))
    ensures ApplyNode(n, Field(35, x.schema)) == Some(n.(binding := n.binding.(schema := x.schema)))
    ensures ApplyNode(n, Field(36, BoolData(x.eligible))) == Some(n.(binding := n.binding.(eligible := x.eligible)))
    ensures ApplyNode(n, Field(37, Be64(align))) == Some(n.(requiredAlignment := align))
  {
    hide BigEndian, FromBigEndian, AsU64List;
  }

  lemma BindingFold(b: Binding, align: u64, n: Node)
    ensures Fold(ApplyNode, BindingFields(StoredForm, b, align), n) == Some(n.(binding := b, requiredAlignment := align))
  {
    hide Fold, ApplyNode, Be32, Be64, BoolData;
    var fs := BindingFields(StoredForm, b, align);
    FoldStep(ApplyNode, fs, 0, n);
    BindingSteps(n, b, align);
    var n1 := n.(binding := n.binding.(bindingClass := b.bindingClass));
    FoldStep(ApplyNode, fs, 1, n1);
    BindingSteps(n1, b, align);
    var n2 := n1.(binding := n1.binding.(alignment := b.alignment));
    FoldStep(ApplyNode, fs, 2, n2);
    BindingSteps(n2, b, align);
    var n3 := n2.(binding := n2.binding.(schema := b.schema));
    FoldStep(ApplyNode, fs, 3, n3);
    BindingSteps(n3, b, align);
    var n4 := n3.(binding := b);
    FoldStep(ApplyNode, fs, 4, n4);
    BindingSteps(n4, b, align);
    FoldEnds(ApplyNode, fs);
  }

  lemma FoldFour<S>(step: (S, Field) -> Option<S>, a: seq<Field>, b: seq<Field>, c: seq<Field>, d: seq<Field>,
                    s: S, s1: S, s2: S, s3: S)
    requires Fold(step, a, s) == Some(s1) && Fold(step, b, s1) == Some(s2) && Fold(step, c, s2) == Some(s3)
    ensures Fold(step, a + (b + (c + d)), s) == Fold(step, d, s3)
  {
    FoldAppend(step, a, b + (c + d), s);
    FoldAppend(step, b, c + d, s1);
    FoldAppend(step, c, d, s2);
  }

  lemma WorkFold(x: Node, n: Node)
    requires n.kernel == NO_KERNEL && n.launch == UNIT_LAUNCH && n.memset == 0
    ensures Fold(ApplyNode, Join(WorkSegs(StoredForm, x)), n) ==
              Some(n.(kernel := NormalNode(x).kernel, launch := NormalNode(x).launch,
                      bytes := x.bytes, memset := NormalNode(x).memset))
  {
    hide Join, KernelFields, LaunchFields, BigEndian, FromBigEndian, ApplyProperty, ApplyLaunch, ApplyDependency, Fold;
    var segs := WorkSegs(StoredForm, x);
    JoinFour(segs);
    var n1 := n.(kernel := NormalNode(x).kernel);
    var n2 := n1.(launch := NormalNode(x).launch);
    var n3 := n2.(bytes := x.bytes);
    if x.category == KERNEL {
      KernelFold(x.kernel, n);
      LaunchFold(x.launch, n1);
    }
    FoldOne(ApplyNode, Field(19, Be64(x.bytes)), n2);
    FoldOne(ApplyNode, Field(20, [x.memset]), n3);
    FoldEnds(ApplyNode, []);
    FoldFour(ApplyNode, Present(segs[0]), Present(segs[1]), Present(segs[2]), Present(segs[3]), n, n1, n2, n3);
  }

  lemma TensorFold(x: Node, n: Node)
    requires n.shape == NO_SHAPE && n.dtype == DTYPE_NONE && n.layout == LAYOUT_CONTIGUOUS
    requires x.dtype != DTYPE_NONE ==> |x.shape.dims| <= MAX_LIST
    ensures Fold(ApplyNode, Join(TensorSegs(StoredForm, x)), n) ==
              Some(n.(shape := NormalNode(x).shape, dtype := x.dtype, layout := NormalNode(x).layout))
  {
    hide Join, U64ListData, AsU64List, BigEndian, FromBigEndian, ApplyWork;
    var segs := TensorSegs(StoredForm, x);
    JoinFour(segs);
    if x.dtype == DTYPE_NONE {
      FoldFour(ApplyNode, Present(segs[0]), Present(segs[1]), Present(segs[2]), Present(segs[3]), n, n, n, n);
    } else {
      var n1 := n.(shape := n.shape.(dims := x.shape.dims));
      var n2 := n1.(shape := n1.shape.(dynamic := x.shape.dynamic));
      var n3 := n2.(shape := x.shape);
      ListReads(DimWords(x.shape.dims));
      DimsBack(x.shape.dims);
      assert [] + x.shape.dims == x.shape.dims;
      FoldOne(ApplyNode, Field(21, U64ListData(DimWords(x.shape.dims))), n);
      FoldOne(ApplyNode, Field(22, BoolData(x.shape.dynamic)), n1);
      FoldOne(ApplyNode, Field(23, Be32(x.shape.maxRank)), n2);
      FoldFour(ApplyNode, Present(segs[0]), Present(segs[1]), Present(segs[2]), Present(segs[3]), n, n1, n2, n3);
      TypeFold(x, n3);
    }
  }

  lemma TypeFold(x: Node, n: Node)
    ensures Fold(ApplyNode, TypeFields(StoredForm, x), n) == Some(n.(dtype := x.dtype, layout := x.layout))
  {
    hide BigEndian, FromBigEndian, ApplyWork, ApplyLaunch, ApplyDependency, AsU64List, Fold;
    var fs := TypeFields(StoredForm, x);
    FoldStep(ApplyNode, fs, 0, n);
    FoldStep(ApplyNode, fs, 1, n.(dtype := x.dtype));
    FoldEnds(ApplyNode, fs);
  }

  lemma PropertyFold(x: Node, n: Node)
    requires n.scalar == NO_SCALAR && n.quant == NO_QUANT
    ensures Fold(ApplyNode, Join(BindingSegs(StoredForm, x)), n) ==
              Some(n.(scalar := NormalNode(x).scalar, quant := NormalNode(x).quant,
                      binding := x.binding, requiredAlignment := x.requiredAlignment))
  {
    hide Join, ScalarFields, QuantFields, BindingFields, BigEndian, FromBigEndian, ApplyWork;
    var segs := BindingSegs(StoredForm, x);
    JoinFour(segs);
    var n1 := n.(scalar := NormalNode(x).scalar);
    var n2 := n1.(quant := n1.quant.(mode := x.quant.mode));
    var n3 := n2.(quant := NormalNode(x).quant);
    if x.scalar.specialized {
      ScalarFold(x.scalar, n);
    }
    FoldOne(ApplyNode, Field(29, Be32(x.quant.mode)), n1);
    if x.quant.mode != QUANT_NONE {
      QuantFold(x.quant, n2);
    }
    BindingFold(x.binding, x.requiredAlignment, n3);
    FoldFour(ApplyNode, Present(segs[0]), Present(segs[1]), Present(segs[2]), Present(segs[3]), n, n1, n2, n3);
  }

  lemma ListSteps(x: Node, n: Node, m: Node)
    requires n.inputs == [] && m.outputs == [] && |x.inputs| <= MAX_LIST && |x.outputs| <= MAX_LIST
    ensures ApplyNode(n, Field(40, U64ListData(IndexWords(x.inputs)))) == Some(n.(inputs := x.inputs))
    ensures ApplyNode(m, Field(41, U64ListData(IndexWords(x.outputs)))) == Some(m.(outputs := x.outputs))
  {
    hide U64ListData, AsU64List, ApplyWork;
    ListReads(IndexWords(x.inputs));
    ListReads(IndexWords(x.outputs));
    IndicesBack(x.inputs);
    IndicesBack(x.outputs);
    assert [] + x.inputs == x.inputs && [] + x.outputs == x.outputs;
  }

  lemma PayloadStep(x: Node, n: Node)
    ensures ApplyNode(n, Field(42, x.payload)) == Some(n.(payload := x.payload))
  {
    hide AsU64List, ApplyWork;
  }

  lemma TailFold(x: Node, n: Node)
    requires n.childHi == 0 && n.childLo == 0 && n.inputs == [] && n.outputs == [] && n.payload == []
    requires |x.inputs| <= MAX_LIST && |x.outputs| <= MAX_LIST
    ensures Fold(ApplyNode, Join(TailSegs(StoredForm, x)), n) ==
              Some(n.(childHi := NormalNode(x).childHi, childLo := x.childLo, inputs := x.inputs, outputs := x.outputs,
                      payload := x.payload))
  {
    hide Join, U64ListData, ApplyNode, ChildFields;
    var segs := TailSegs(StoredForm, x);
    JoinFour(segs);
    var n1 := n.(childHi := NormalNode(x).childHi, childLo := x.childLo);
    var n2 := n1.(inputs := x.inputs);
    var n3 := n2.(outputs := x.outputs);
    ListSteps(x, n1, n2);
    PayloadStep(x, n3);
    if x.childLo != 0 {
      ChildFold(x, n);
    }
    FoldOne(ApplyNode, Field(40, U64ListData(IndexWords(x.inputs))), n1);
    FoldOne(ApplyNode, Field(41, U64ListData(IndexWords(x.outputs))), n2);
    FoldOne(ApplyNode, Field(42, x.payload), n3);
    FoldFour(ApplyNode, Present(segs[0]), Present(segs[1]), Present(segs[2]), Present(segs[3]), n, n1, n2, n3);
  }

  lemma ChildFold(x: Node, n: Node)
    ensures Fold(ApplyNode, ChildFields(StoredForm, x), n) == Some(n.(childHi := x.childHi, childLo := x.childLo))
  {
    hide BigEndian, FromBigEndian, ApplyWork, ApplyLaunch, ApplyDependency, AsU64List, Fold;
    var fs := ChildFields(StoredForm, x);
    FoldStep(ApplyNode, fs, 0, n);
    FoldStep(ApplyNode, fs, 1, n.(childHi := x.childHi));
    FoldEnds(ApplyNode, fs);
  }

  /** What the list decoder accepts. */
  ghost predicate NodeWithinLimits(x: Node) {
    && (x.dtype != DTYPE_NONE ==> |x.shape.dims| <= MAX_LIST)
    && |x.inputs| <= MAX_LIST && |x.outputs| <= MAX_LIST
  }

  lemma NodeFold(x: Node)
    requires NodeWithinLimits(x)
    ensures Fold(ApplyNode, NodeThen(StoredForm, x, []), DEFAULT_NODE) == Some(NormalNode(x))
  {
    hide Join, WorkSegs, TensorSegs, BindingSegs, TailSegs, ApplyNode, IdentFields, Fold;
    var n0 := DEFAULT_NODE.(id := x.id, category := x.category, name := x.name);
    var n1 := n0.(kernel := NormalNode(x).kernel, launch := NormalNode(x).launch, bytes := x.bytes, memset := NormalNode(x).memset);
    var n2 := n1.(shape := NormalNode(x).shape, dtype := x.dtype, layout := NormalNode(x).layout);
    var n3 := n2.(scalar := NormalNode(x).scalar, quant := NormalNode(x).quant, binding := x.binding, requiredAlignment := x.requiredAlignment);
    IdentFold(x);
    WorkFold(x, n0);
    TensorFold(x, n1);
    PropertyFold(x, n2);
    TailFold(x, n3);
    var w, t, b, e := Join(WorkSegs(StoredForm, x)), Join(TensorSegs(StoredForm, x)), Join(BindingSegs(StoredForm, x)), Join(TailSegs(StoredForm, x));
    assert e + [] == e;
    FoldAppend(ApplyNode, IdentFields(x), w + (t + (b + e)), DEFAULT_NODE);
    FoldFour(ApplyNode, w, t, b, e, n0, n1, n2, n3);
  }

  /** A stored node reads back as itself, up to what is not written. */
  lemma NodeBack(x: Node)
    requires NodeWithinLimits(x) && AllFit(NodeThen(StoredForm, x, []))
    ensures DecodeNode(Flatten(NodeThen(StoredForm, x, []))) == Some(NormalNode(x))
  {
    hide Fold, Flatten, Tokenize, NodeThen, NormalNode, ApplyNode;
    DecodeFlatten(ApplyNode, NodeThen(StoredForm, x, []), DEFAULT_NODE);
    NodeFold(x);
  }

  // ----- edges -----

  function ApplyEdge(e: Edge, f: Field): Option<Edge> {
    match f.tag
    case 1 => var v :- AsU64(f.data); Some(e.(id := e.id.(hi := v)))
    case 2 => var v :- AsU64(f.data); Some(e.(id := e.id.(lo := v)))
    case 3 => var v :- AsU64(f.data); Some(e.(from := e.from.(hi := v)))
    case 4 => var v :- AsU64(f.data); Some(e.(from := e.from.(lo := v)))
    case 5 => var v :- AsU64(f.data); Some(e.(to := e.to.(hi := v)))
    case 6 => var v :- AsU64(f.data); Some(e.(to := e.to.(lo := v)))
    case 7 => var v :- AsU32(f.data); Some(e.(kind := v))
    case 8 => Some(e.(caption := f.data))
    case _ => None
  }

  function DecodeEdge(bytes: seq<byte>): Option<Edge> {
    DecodeLoose(ApplyEdge, bytes, DEFAULT_EDGE)
  }

  function EdgeEnds(e: Edge): Edge {
    DEFAULT_EDGE.(id := e.id, from := e.from)
  }

  lemma EdgeFoldEnds(e: Edge)
    ensures Fold(ApplyEdge, EdgeFields(StoredForm, e)[0..], DEFAULT_EDGE) == Fold(ApplyEdge, EdgeFields(StoredForm, e)[4..], EdgeEnds(e))
  {
    hide BigEndian, FromBigEndian, Fold;
    var fs := EdgeFields(StoredForm, e);
    FoldStep(ApplyEdge, fs, 0, DEFAULT_EDGE);
    var e1 := DEFAULT_EDGE.(id := Id(e.id.hi, 0));
    FoldStep(ApplyEdge, fs, 1, e1);
    var e2 := e1.(id := e.id);
    FoldStep(ApplyEdge, fs, 2, e2);
    FoldStep(ApplyEdge, fs, 3, e2.(from := Id(e.from.hi, 0)));
  }

  lemma EdgeFold(e: Edge)
    ensures Fold(ApplyEdge, EdgeFields(StoredForm, e), DEFAULT_EDGE) == Some(e)
  {
    hide BigEndian, FromBigEndian, Fold;
    var fs := EdgeFields(StoredForm, e);
    EdgeFoldEnds(e);
    var e4 := EdgeEnds(e);
    FoldStep(ApplyEdge, fs, 4, e4);
    var e5 := e4.(to := Id(e.to.hi, 0));
    FoldStep(ApplyEdge, fs, 5, e5);
    var e6 := e5.(to := e.to);
    FoldStep(ApplyEdge, fs, 6, e6);
    FoldStep(ApplyEdge, fs, 7, e6.(kind := e.kind));
    FoldEnds(ApplyEdge, fs);
  }

  lemma EdgeBack(e: Edge)
    requires AllFit(EdgeFields(StoredForm, e))
    ensures DecodeEdge(Flatten(EdgeFields(StoredForm, e))) == Some(e)
  {
    hide Fold, Flatten, Tokenize, EdgeFields;
    DecodeFlatten(ApplyEdge, EdgeFields(StoredForm, e), DEFAULT_EDGE);
    EdgeFold(e);
  }
}
