/**
  The canonical encoding of compatibility facts in src/compatibility.cpp, its
  strict decoder and `from_canonical` with its re-encode check.
 */
module FactsCodec {
  import opened Bytes
  import opened Canonical
  import opened Descriptors
  import opened NodeCodec
  import opened LooseCodec
  import opened Records
  import opened Facts

  // ----- encoding -----

  function WorkloadFields(w: Workload): seq<Field> {
    [Field(1, w.name), Field(2, Be32(w.version)), Field(3, w.namespace), Field(4, Be32(w.revisionMode)),
     Field(5, w.modelRevision), Field(6, w.policyGeneration)]
  }

  function BackendFields(b: Backend): seq<Field> {
    [Field(10, Be32(b.kind)), Field(11, b.name), Field(12, Be32(b.version)), Field(13, b.implementation)]
  }

  function RuntimeFields(r: Runtime): seq<Field> {
    [Field(20, Be32(r.version)), Field(21, Be32(r.graphAbi)), Field(22, Be32(r.kernelAbi)), Field(23, Be32(r.driver))]
  }

  function DeviceFields(d: Device): seq<Field> {
    [Field(30, Be32(d.vendor)), Field(31, d.architecture), Field(32, Be32(d.computeMajor)),
     Field(33, Be32(d.computeMinor)), Field(34, Be32(d.index)), Field(35, d.name)]
  }

  function ModeFields(mode: u32, stream: u32, topology: seq<byte>): seq<Field> {
    [Field(40, Be32(mode)), Field(41, Be32(stream)), Field(50, topology)]
  }

  function ShapeItems(ss: seq<Shape>): (r: seq<seq<byte>>)
    ensures |r| == |ss|
    ensures forall i | 0 <= i < |ss| :: r[i] == Flatten(ShapeFields(ss[i]))
  {
    seq(|ss|, i requires 0 <= i < |ss| => Flatten(ShapeFields(ss[i])))
  }

  function WordItems(vs: seq<u32>): (r: seq<seq<byte>>)
    ensures |r| == |vs|
    ensures forall i | 0 <= i < |vs| :: r[i] == Be32(vs[i])
  {
    seq(|vs|, i requires 0 <= i < |vs| => Be32(vs[i]))
  }

  function DependencyItems(ks: seq<KernelRef>): (r: seq<seq<byte>>)
    ensures |r| == |ks|
    ensures forall i | 0 <= i < |ks| :: r[i] == Flatten(DependencyFields(ks[i]))
  {
    seq(|ks|, i requires 0 <= i < |ks| => Flatten(DependencyFields(ks[i])))
  }

  function ScalarPart(s: Scalar): seq<Field> {
    [Field(70, BoolData(s.specialized))]
    + (if s.specialized then [Field(71, Be64(AsUnsigned(s.intValue))), Field(72, Be64(s.floatBits))] else [])
  }

  function QuantPart(q: Quantization): seq<Field> {
    [Field(73, Be32(q.mode))]
    + (if q.mode != QUANT_NONE then [Field(74, Be32(q.group)), Field(75, BoolData(q.symmetric)), Field(76, q.scheme)] else [])
  }

  function BindingPart(b: Binding, align: u64, schema: Text): seq<Field> {
    [Field(77, Be32(b.bindingClass)), Field(78, Be32(b.alignment)), Field(79, b.schema), Field(80, BoolData(b.eligible)),
     Field(81, Be64(align)), Field(82, schema)]
  }

  function RevisionPart(model: Text, policy: Text): seq<Field> {
    [Field(95, model), Field(96, policy)]
  }

  function IdentityFields(f: Facts): seq<Field> {
    WorkloadFields(f.workload) + (BackendFields(f.backend) + (RuntimeFields(f.runtime) + DeviceFields(f.device)))
  }

  function TensorFields(f: Facts): seq<Field> {
    CountedFields(60, 61, ShapeItems(f.inputShapes)) + (CountedFields(62, 63, ShapeItems(f.outputShapes))
    + (CountedFields(64, 65, WordItems(f.dtypes)) + CountedFields(66, 67, WordItems(f.layouts))))
  }

  function PropertyFields(f: Facts): seq<Field> {
    ScalarPart(f.scalar) + (QuantPart(f.quant) + (BindingPart(f.binding, f.requiredAlignment, f.memorySchema)
    + (CountedFields(90, 91, DependencyItems(f.dependencies)) + RevisionPart(f.modelRevision, f.policyGeneration))))
  }

  function FactsFields(f: Facts): seq<Field> {
    IdentityFields(f) + (ModeFields(f.captureMode, f.streamSemantics, f.topology) + (TensorFields(f) + PropertyFields(f)))
  }

  function EncodeFacts(f: Facts): seq<byte> {
    Flatten(FactsFields(f))
  }

  // ----- decoding -----

  function DecodeWorkload(fs: seq<Field>): Parsed<Workload> {
    var (name, fs) :- Take(1, fs);
    var (version, fs) :- TakeU32(2, fs);
    var (namespace, fs) :- Take(3, fs);
    var (mode, fs) :- TakeU32(4, fs);
    var (model, fs) :- Take(5, fs);
    var (policy, fs) :- Take(6, fs);
    Got(Workload(name, version, namespace, mode, model, policy), fs)
  }

  function DecodeBackend(fs: seq<Field>): Parsed<Backend> {
    var (kind, fs) :- TakeU32(10, fs);
    var (name, fs) :- Take(11, fs);
    var (version, fs) :- TakeU32(12, fs);
    var (implementation, fs) :- Take(13, fs);
    Got(Backend(kind, name, version, implementation), fs)
  }

  function DecodeRuntime(fs: seq<Field>): Parsed<Runtime> {
    var (version, fs) :- TakeU32(20, fs);
    var (graphAbi, fs) :- TakeU32(21, fs);
    var (kernelAbi, fs) :- TakeU32(22, fs);
    var (driver, fs) :- TakeU32(23, fs);
    Got(Runtime(version, graphAbi, kernelAbi, driver, []), fs)
  }

  function DecodeDevice(fs: seq<Field>): Parsed<Device> {
    var (vendor, fs) :- TakeU32(30, fs);
    var (architecture, fs) :- Take(31, fs);
    var (major, fs) :- TakeU32(32, fs);
    var (minor, fs) :- TakeU32(33, fs);
    var (index, fs) :- TakeU32(34, fs);
    var (name, fs) :- Take(35, fs);
    Got(Device(vendor, architecture, major, minor, index, name), fs)
  }

  lemma WorkloadBack(w: Workload, rest: seq<Field>)
    ensures DecodeWorkload(WorkloadFields(w) + rest) == Got(w, rest)
  {
    hide BigEndian, FromBigEndian;
  }

  lemma BackendBack(b: Backend, rest: seq<Field>)
    ensures DecodeBackend(BackendFields(b) + rest) == Got(b, rest)
  {
    hide BigEndian, FromBigEndian;
  }

  lemma RuntimeBack(r: Runtime, rest: seq<Field>)
    ensures DecodeRuntime(RuntimeFields(r) + rest) == Got(r.(driverText := []), rest)
  {
    hide BigEndian, FromBigEndian;
  }

  lemma DeviceBack(d: Device, rest: seq<Field>)
    ensures DecodeDevice(DeviceFields(d) + rest) == Got(d, rest)
  {
    hide BigEndian, FromBigEndian;
  }

  function DecodeMode(fs: seq<Field>): Parsed<(u32, u32, seq<byte>)> {
    var (mode, fs) :- TakeU32(40, fs);
    var (stream, fs) :- TakeU32(41, fs);
    var (topology, fs) :- Take(50, fs);
    Got((mode, stream, topology), fs)
  }

  function DecodeScalar(fs: seq<Field>): Parsed<Scalar> {
    var (specialized, fs) :- TakeBool(70, fs);
    if specialized then
      var (i, fs) :- TakeU64(71, fs);
      var (d, fs) :- TakeU64(72, fs);
      Got(Scalar(true, AsSigned(i), d), fs)
    else Got(NO_SCALAR, fs)
  }

  function DecodeQuant(fs: seq<Field>): Parsed<Quantization> {
    var (mode, fs) :- TakeU32(73, fs);
    if mode != QUANT_NONE then
      var (group, fs) :- TakeU32(74, fs);
      var (symmetric, fs) :- TakeBool(75, fs);
      var (scheme, fs) :- Take(76, fs);
      Got(Quantization(mode, group, symmetric, scheme), fs)
    else Got(NO_QUANT, fs)
  }

  function DecodeBinding(fs: seq<Field>): Parsed<(Binding, u64, Text)> {
    var (kind, fs) :- TakeU32(77, fs);
    var (alignment, fs) :- TakeU32(78, fs);
    var (schema, fs) :- Take(79, fs);
    var (eligible, fs) :- TakeBool(80, fs);
    var (align, fs) :- TakeU64(81, fs);
    var (memory, fs) :- Take(82, fs);
    Got((Binding(kind, alignment, schema, eligible), align, memory), fs)
  }

  function DecodeRevision(fs: seq<Field>): Parsed<(Text, Text)> {
    var (model, fs) :- Take(95, fs);
    var (policy, fs) :- Take(96, fs);
    Got((model, policy), fs)
  }

  const MAX_DEPENDENCIES: int := 8192

  function DecodeIdentity(fs: seq<Field>): Parsed<(Workload, Backend, Runtime, Device)> {
    var (w, fs) :- DecodeWorkload(fs);
    var (b, fs) :- DecodeBackend(fs);
    var (r, fs) :- DecodeRuntime(fs);
    var (d, fs) :- DecodeDevice(fs);
    Got((w, b, r, d), fs)
  }

  datatype TensorLists = TensorLists(inputs: seq<Shape>, outputs: seq<Shape>, dtypes: seq<u32>, layouts: seq<u32>)

  function DecodeTensors(fs: seq<Field>): Parsed<TensorLists> {
    var (inputs, fs) :- TakeList(60, 61, MAX_LIST, DecodeShape, fs);
    var (outputs, fs) :- TakeList(62, 63, MAX_LIST, DecodeShape, fs);
    var (dtypes, fs) :- TakeList(64, 65, MAX_LIST, AsU32, fs);
    var (layouts, fs) :- TakeList(66, 67, MAX_LIST, AsU32, fs);
    Got(TensorLists(inputs, outputs, dtypes, layouts), fs)
  }

  datatype Properties = Properties(
    scalar: Scalar, quant: Quantization, binding: (Binding, u64, Text), dependencies: seq<KernelRef>, revision: (Text, Text))

  function DecodeProperties(fs: seq<Field>): Parsed<Properties> {
    var (scalar, fs) :- DecodeScalar(fs);
    var (quant, fs) :- DecodeQuant(fs);
    var (binding, fs) :- DecodeBinding(fs);
    var (dependencies, fs) :- TakeList(90, 91, MAX_DEPENDENCIES, DecodeDependency, fs);
    var (revision, fs) :- DecodeRevision(fs);
    Got(Properties(scalar, quant, binding, dependencies, revision), fs)
  }

  /** `decode_facts`: the encoder's exact order of tags; what follows the last field is not looked at. */
  function DecodeFacts(fs: seq<Field>): Parsed<Facts> {
    var (id, fs) :- DecodeIdentity(fs);
    var (mode, fs) :- DecodeMode(fs);
    var (t, fs) :- DecodeTensors(fs);
    var (p, fs) :- DecodeProperties(fs);
    Got(Facts(id.0, id.1, id.2, id.3, mode.0, mode.1, mode.2, t.inputs, t.outputs, t.dtypes, t.layouts,
              p.scalar, p.quant, p.binding.0, p.binding.1, p.binding.2, p.dependencies, p.revision.0, p.revision.1), fs)
  }

  /** `GraphCompatibilityKey::from_canonical`: decode, encode again, and insist on the same bytes. */
  function FromCanonical(b: seq<byte>): Option<Facts> {
    match DecodeFacts(Tokenize(b).fields)
    case Fail => None
    case Got(f, _) => if EncodeFacts(f) == b then Some(f) else None
  }

  /** The fields no encoder writes are cleared. */
  function NormalFacts(f: Facts): Facts {
    f.(runtime := f.runtime.(driverText := []), scalar := NormalScalar(f.scalar), quant := NormalQuant(f.quant),
       dependencies := NormalKernels(f.dependencies))
  }

  ghost predicate ShapesWithinLimits(ss: seq<Shape>) {
    |ss| <= MAX_LIST && forall i | 0 <= i < |ss| :: |ss[i].dims| <= MAX_LIST
  }

  ghost predicate WithinLimits(f: Facts) {
    && ShapesWithinLimits(f.inputShapes) && ShapesWithinLimits(f.outputShapes)
    && |f.dtypes| <= MAX_LIST && |f.layouts| <= MAX_LIST && |f.dependencies| <= MAX_DEPENDENCIES
  }

  // ----- decoding inverts encoding -----

  lemma ModeBack(mode: u32, stream: u32, topology: seq<byte>, rest: seq<Field>)
    ensures DecodeMode(ModeFields(mode, stream, topology) + rest) == Got((mode, stream, topology), rest)
  {
    hide BigEndian, FromBigEndian;
  }

  lemma ScalarBack(s: Scalar, rest: seq<Field>)
    ensures DecodeScalar(ScalarPart(s) + rest) == Got(NormalScalar(s), rest)
  {
    hide BigEndian, FromBigEndian;
  }

  lemma QuantBack(q: Quantization, rest: seq<Field>)
    ensures DecodeQuant(QuantPart(q) + rest) == Got(NormalQuant(q), rest)
  {
    hide BigEndian, FromBigEndian;
  }

  lemma BindingBack(b: Binding, align: u64, schema: Text, rest: seq<Field>)
    ensures DecodeBinding(BindingPart(b, align, schema) + rest) == Got((b, align, schema), rest)
  {
    hide BigEndian, FromBigEndian;
  }

  lemma RevisionBack(model: Text, policy: Text, rest: seq<Field>)
    ensures DecodeRevision(RevisionPart(model, policy) + rest) == Got((model, policy), rest)
  {
  }

  lemma IdentityBack(f: Facts, rest: seq<Field>)
    ensures DecodeIdentity(IdentityFields(f) + rest) ==
              Got((f.workload, f.backend, f.runtime.(driverText := []), f.device), rest)
  {
    hide WorkloadFields, BackendFields, RuntimeFields, DeviceFields, DecodeWorkload, DecodeBackend, DecodeRuntime, DecodeDevice;
    var w, b, r, d := WorkloadFields(f.workload), BackendFields(f.backend), RuntimeFields(f.runtime), DeviceFields(f.device);
    AppendAssociative(w, b + (r + d), rest);
    AppendAssociative(b, r + d, rest);
    AppendAssociative(r, d, rest);
    WorkloadBack(f.workload, b + (r + (d + rest)));
    BackendBack(f.backend, r + (d + rest));
    RuntimeBack(f.runtime, d + rest);
    DeviceBack(f.device, rest);
  }

  ghost predicate ItemsFit(items: seq<seq<byte>>) {
    |items| < TWO_32 && forall i | 0 <= i < |items| :: |items[i]| < TWO_32
  }

  lemma {:induction false} WordsBack(vs: seq<u32>)
    ensures DecodeAll(AsU32, WordItems(vs)) == Some(vs)
  {
    hide BigEndian, FromBigEndian;
    if vs != [] {
      WordsBack(vs[1..]);
      assert WordItems(vs)[1..] == WordItems(vs[1..]);
      assert [vs[0]] + vs[1..] == vs;
    }
  }

  lemma ShapeItemBack(s: Shape)
    requires |Flatten(ShapeFields(s))| < TWO_32
    ensures DecodeShape(Flatten(ShapeFields(s))) == if |s.dims| <= MAX_LIST then Some(s) else None
  {
    hide Flatten, DecodeShape, Be32;
    FieldsFitBySize(ShapeFields(s));
    if s.dims != [] {
      assert Fits(ShapeFields(s)[0]);
    }
    ShapeBack(s);
  }

  lemma {:induction false} ShapesBack(ss: seq<Shape>)
    requires ItemsFit(ShapeItems(ss))
    ensures DecodeAll(DecodeShape, ShapeItems(ss)) ==
              if forall i | 0 <= i < |ss| :: |ss[i].dims| <= MAX_LIST then Some(ss) else None
  {
    hide DecodeShape, Flatten, ShapeFields;
    if ss != [] {
      var items := ShapeItems(ss);
      assert items[1..] == ShapeItems(ss[1..]);
      assert |items[0]| < TWO_32;
      ItemsFitTail(items);
      ShapeItemBack(ss[0]);
      ShapesBack(ss[1..]);
      assert [ss[0]] + ss[1..] == ss;
      assert (forall i | 0 <= i < |ss| :: |ss[i].dims| <= MAX_LIST) <==>
             |ss[0].dims| <= MAX_LIST && (forall i | 0 <= i < |ss[1..]| :: |ss[1..][i].dims| <= MAX_LIST) by {
        assert forall i | 1 <= i < |ss| :: ss[i] == ss[1..][i - 1];
      }
    }
  }

  lemma ItemsFitTail(items: seq<seq<byte>>)
    requires ItemsFit(items) && items != []
    ensures ItemsFit(items[1..])
  {
  }

  lemma {:induction false} DependenciesBack(ks: seq<KernelRef>)
    requires ItemsFit(DependencyItems(ks))
    ensures DecodeAll(DecodeDependency, DependencyItems(ks)) == Some(NormalKernels(ks))
  {
    hide DecodeDependency, Flatten, DependencyFields;
    if ks != [] {
      var items := DependencyItems(ks);
      assert items[1..] == DependencyItems(ks[1..]);
      assert |items[0]| < TWO_32;
      ItemsFitTail(items);
      FieldsFitBySize(DependencyFields(ks[0]));
      DependencyBack(ks[0]);
      DependenciesBack(ks[1..]);
      assert [NormalKernel(ks[0])] + NormalKernels(ks[1..]) == NormalKernels(ks);
    }
  }

  lemma TensorsBack(f: Facts, rest: seq<Field>)
    requires ItemsFit(ShapeItems(f.inputShapes)) && ItemsFit(ShapeItems(f.outputShapes))
    requires |f.dtypes| < TWO_32 && |f.layouts| < TWO_32
    ensures DecodeTensors(TensorFields(f) + rest) ==
              if ShapesWithinLimits(f.inputShapes) && ShapesWithinLimits(f.outputShapes)
                 && |f.dtypes| <= MAX_LIST && |f.layouts| <= MAX_LIST
              then Got(TensorLists(f.inputShapes, f.outputShapes, f.dtypes, f.layouts), rest) else Fail
  {
    hide CountedFields, TakeList, ShapeItems, WordItems, DecodeAll;
    var a, b := CountedFields(60, 61, ShapeItems(f.inputShapes)), CountedFields(62, 63, ShapeItems(f.outputShapes));
    var c, d := CountedFields(64, 65, WordItems(f.dtypes)), CountedFields(66, 67, WordItems(f.layouts));
    AppendAssociative(a, b + (c + d), rest);
    AppendAssociative(b, c + d, rest);
    AppendAssociative(c, d, rest);
    ShapesBack(f.inputShapes);
    ShapesBack(f.outputShapes);
    WordsBack(f.dtypes);
    WordsBack(f.layouts);
    TakeListBack(60, 61, MAX_LIST, DecodeShape, ShapeItems(f.inputShapes), b + (c + (d + rest)));
    TakeListBack(62, 63, MAX_LIST, DecodeShape, ShapeItems(f.outputShapes), c + (d + rest));
    TakeListBack(64, 65, MAX_LIST, AsU32, WordItems(f.dtypes), d + rest);
    TakeListBack(66, 67, MAX_LIST, AsU32, WordItems(f.layouts), rest);
  }

  lemma PropertiesBack(f: Facts, rest: seq<Field>)
    requires ItemsFit(DependencyItems(f.dependencies))
    ensures DecodeProperties(PropertyFields(f) + rest) ==
              if |f.dependencies| <= MAX_DEPENDENCIES
              then Got(Properties(NormalScalar(f.scalar), NormalQuant(f.quant), (f.binding, f.requiredAlignment, f.memorySchema),
                                  NormalKernels(f.dependencies), (f.modelRevision, f.policyGeneration)), rest)
              else Fail
  {
    hide ScalarPart, QuantPart, BindingPart, RevisionPart, CountedFields, TakeList, DependencyItems, DecodeAll,
         DecodeScalar, DecodeQuant, DecodeBinding, DecodeRevision;
    var s, q, b := ScalarPart(f.scalar), QuantPart(f.quant), BindingPart(f.binding, f.requiredAlignment, f.memorySchema);
    var d, r := CountedFields(90, 91, DependencyItems(f.dependencies)), RevisionPart(f.modelRevision, f.policyGeneration);
    AppendAssociative(s, q + (b + (d + r)), rest);
    AppendAssociative(q, b + (d + r), rest);
    AppendAssociative(b, d + r, rest);
    AppendAssociative(d, r, rest);
    ScalarBack(f.scalar, q + (b + (d + (r + rest))));
    QuantBack(f.quant, b + (d + (r + rest)));
    BindingBack(f.binding, f.requiredAlignment, f.memorySchema, d + (r + rest));
    DependenciesBack(f.dependencies);
    TakeListBack(90, 91, MAX_DEPENDENCIES, DecodeDependency, DependencyItems(f.dependencies), r + rest);
    RevisionBack(f.modelRevision, f.policyGeneration, rest);
  }

  // ----- sizes -----

  lemma CountedFit(countTag: u16, tag: u16, items: seq<seq<byte>>, total: nat)
    requires AllFit(CountedFields(countTag, tag, items)) && |CountedFields(countTag, tag, items)| <= total < TWO_32
    ensures ItemsFit(items)
  {
    hide Be32;
    var fs := CountedFields(countTag, tag, items);
    forall i | 0 <= i < |items|
      ensures |items[i]| < TWO_32
    {
      assert fs[i + 1] == Field(tag, items[i]);
      assert Fits(fs[i + 1]);
    }
  }

  /** An encoding below 2^32 bytes has every length and count below 2^32. */
  lemma SizesFit(f: Facts)
    requires |EncodeFacts(f)| < TWO_32
    ensures AllFit(FactsFields(f))
    ensures ItemsFit(ShapeItems(f.inputShapes)) && ItemsFit(ShapeItems(f.outputShapes))
    ensures |f.dtypes| < TWO_32 && |f.layouts| < TWO_32 && ItemsFit(DependencyItems(f.dependencies))
  {
    hide Flatten, IdentityFields, ModeFields, CountedFields, ShapeItems, WordItems, DependencyItems, AllFit, ItemsFit,
         ScalarPart, QuantPart, BindingPart, RevisionPart;
    var n := |EncodeFacts(f)|;
    FieldsFitBySize(FactsFields(f));
    var m := ModeFields(f.captureMode, f.streamSemantics, f.topology);
    AllFitAppend(IdentityFields(f), m + (TensorFields(f) + PropertyFields(f)));
    AllFitAppend(m, TensorFields(f) + PropertyFields(f));
    AllFitAppend(TensorFields(f), PropertyFields(f));
    TensorSizes(f, n);
    PropertySizes(f, n);
  }

  lemma TensorSizes(f: Facts, n: nat)
    requires AllFit(TensorFields(f)) && |TensorFields(f)| <= n < TWO_32
    ensures ItemsFit(ShapeItems(f.inputShapes)) && ItemsFit(ShapeItems(f.outputShapes))
    ensures |f.dtypes| < TWO_32 && |f.layouts| < TWO_32
  {
    hide AllFit, CountedFields, ShapeItems, WordItems, ItemsFit;
    var a, b := CountedFields(60, 61, ShapeItems(f.inputShapes)), CountedFields(62, 63, ShapeItems(f.outputShapes));
    var c, d := CountedFields(64, 65, WordItems(f.dtypes)), CountedFields(66, 67, WordItems(f.layouts));
    AllFitAppend(a, b + (c + d));
    AllFitAppend(b, c + d);
    CountedFit(60, 61, ShapeItems(f.inputShapes), n);
    CountedFit(62, 63, ShapeItems(f.outputShapes), n);
    CountedLength(64, 65, WordItems(f.dtypes));
    CountedLength(66, 67, WordItems(f.layouts));
  }

  lemma CountedLength(countTag: u16, tag: u16, items: seq<seq<byte>>)
    ensures |CountedFields(countTag, tag, items)| == 1 + |items|
  {
  }

  lemma PropertySizes(f: Facts, n: nat)
    requires AllFit(PropertyFields(f)) && |PropertyFields(f)| <= n < TWO_32
    ensures ItemsFit(DependencyItems(f.dependencies))
  {
    hide AllFit, CountedFields, DependencyItems, ItemsFit, ScalarPart, QuantPart, BindingPart, RevisionPart;
    var s, q, b := ScalarPart(f.scalar), QuantPart(f.quant), BindingPart(f.binding, f.requiredAlignment, f.memorySchema);
    var d, r := CountedFields(90, 91, DependencyItems(f.dependencies)), RevisionPart(f.modelRevision, f.policyGeneration);
    AllFitAppend(s, q + (b + (d + r)));
    AllFitAppend(q, b + (d + r));
    AllFitAppend(b, d + r);
    AllFitAppend(d, r);
    CountedFit(90, 91, DependencyItems(f.dependencies), n);
  }

  // ----- the main results -----

  lemma FactsBack(f: Facts)
    requires |EncodeFacts(f)| < TWO_32
    ensures DecodeFacts(FactsFields(f)) == if WithinLimits(f) then Got(NormalFacts(f), []) else Fail
  {
    hide Flatten, IdentityFields, ModeFields, TensorFields, PropertyFields, DecodeIdentity, DecodeMode, DecodeTensors,
         DecodeProperties, ShapesWithinLimits, NormalScalar, NormalQuant, NormalKernels;
    SizesFit(f);
    var m := ModeFields(f.captureMode, f.streamSemantics, f.topology);
    IdentityBack(f, m + (TensorFields(f) + PropertyFields(f)));
    ModeBack(f.captureMode, f.streamSemantics, f.topology, TensorFields(f) + PropertyFields(f));
    TensorsBack(f, PropertyFields(f));
    assert PropertyFields(f) + [] == PropertyFields(f);
    PropertiesBack(f, []);
  }

  /** Decoding inverts encoding within the decoder's limits, and outside them it fails. */
  lemma DecodeEncode(f: Facts)
    requires |EncodeFacts(f)| < TWO_32
    ensures DecodeFacts(Tokenize(EncodeFacts(f)).fields) == if WithinLimits(f) then Got(NormalFacts(f), []) else Fail
  {
    hide Flatten, FactsFields, DecodeFacts, WithinLimits, NormalFacts;
    SizesFit(f);
    TokenizeFlatten(FactsFields(f));
    FactsBack(f);
  }

  lemma {:induction false} DependencyItemsNormal(ks: seq<KernelRef>)
    ensures DependencyItems(NormalKernels(ks)) == DependencyItems(ks)
  {
    hide Flatten;
    var a, b := DependencyItems(NormalKernels(ks)), DependencyItems(ks);
    forall i | 0 <= i < |ks|
      ensures a[i] == b[i]
    {
      assert DependencyFields(NormalKernels(ks)[i]) == DependencyFields(ks[i]);
    }
  }

  /** The encoder does not look at what normalisation clears. */
  lemma EncodeNormal(f: Facts)
    ensures EncodeFacts(NormalFacts(f)) == EncodeFacts(f)
  {
    hide Flatten, WorkloadFields, BackendFields, DeviceFields, ModeFields, TensorFields, CountedFields, DependencyItems,
         BindingPart, RevisionPart, NormalKernels;
    DependencyItemsNormal(f.dependencies);
    TensorFieldsNormal(f);
  }

  lemma TensorFieldsNormal(f: Facts)
    ensures TensorFields(NormalFacts(f)) == TensorFields(f)
  {
  }

  /** Restoring a key from its canonical bytes gives back the facts it was built from. */
  lemma FromCanonicalBack(f: Facts)
    requires WithinLimits(f) && |EncodeFacts(f)| < TWO_32
    ensures FromCanonical(EncodeFacts(f)) == Some(NormalFacts(f))
  {
    hide EncodeFacts, WithinLimits, NormalFacts, DecodeFacts, Tokenize;
    DecodeEncode(f);
    EncodeNormal(f);
  }

  /** `from_canonical` accepts exactly the encodings of facts within the decoder's limits. */
  lemma FromCanonicalExact(b: seq<byte>)
    requires |b| < TWO_32
    ensures FromCanonical(b).Some? <==> exists f :: WithinLimits(f) && EncodeFacts(f) == b
  {
    hide EncodeFacts, WithinLimits, NormalFacts, DecodeFacts, Tokenize;
    if FromCanonical(b).Some? {
      var f := FromCanonical(b).value;
      DecodeEncode(f);
      assert WithinLimits(f) && EncodeFacts(f) == b;
    }
    if f :| WithinLimits(f) && EncodeFacts(f) == b {
      FromCanonicalBack(f);
    }
  }

  // ----- equal bytes, equal facts, with no limit on list lengths -----

  lemma CountedCancel(countTag: u16, tag: u16, a: seq<seq<byte>>, ra: seq<Field>, b: seq<seq<byte>>, rb: seq<Field>)
    requires |a| < TWO_32 && |b| < TWO_32
    requires CountedFields(countTag, tag, a) + ra == CountedFields(countTag, tag, b) + rb
    ensures a == b && ra == rb
  {
    hide CountedFields, TakeCounted;
    TakeCountedBack(countTag, tag, TWO_32, a, ra);
    TakeCountedBack(countTag, tag, TWO_32, b, rb);
  }

  lemma ShapeFieldsInjective(s: Shape, t: Shape)
    requires ShapeFields(s) == ShapeFields(t) && |s.dims| < TWO_32 && |t.dims| < TWO_32
    ensures s == t
  {
    hide BigEndian, FromBigEndian, U64ListData;
    var x, y := ShapeFields(s), ShapeFields(t);
    assert s.dims != [] <==> x[0].tag == 1;
    assert t.dims != [] <==> y[0].tag == 1;
    var at := if s.dims != [] then 1 else 0;
    if s.dims != [] {
      assert x[0].data == y[0].data;
      U64ListInjective(DimWords(s.dims), DimWords(t.dims));
      DimWordsInjective(s.dims, t.dims);
    }
    assert x[at] == Field(2, BoolData(s.dynamic)) && y[at] == Field(2, BoolData(t.dynamic));
    assert s.maxRank != 0 <==> |x| == at + 2;
    assert t.maxRank != 0 <==> |y| == at + 2;
    if s.maxRank != 0 {
      assert x[at + 1].data == Be32(s.maxRank) && y[at + 1].data == Be32(t.maxRank);
    }
  }

  lemma ShapeItemsInjective(a: seq<Shape>, b: seq<Shape>)
    requires ItemsFit(ShapeItems(a)) && ShapeItems(a) == ShapeItems(b)
    ensures a == b
  {
    hide Flatten;
    assert |a| == |ShapeItems(a)| == |ShapeItems(b)| == |b|;
    forall i | 0 <= i < |a|
      ensures a[i] == b[i]
    {
      assert ShapeItems(a)[i] == ShapeItems(b)[i];
      SameShape(a[i], b[i]);
    }
  }

  lemma SameShape(s: Shape, t: Shape)
    requires |Flatten(ShapeFields(s))| < TWO_32 && Flatten(ShapeFields(s)) == Flatten(ShapeFields(t))
    ensures s == t
  {
    hide Flatten, BigEndian, FromBigEndian;
    FieldsFitBySize(ShapeFields(s));
    FieldsFitBySize(ShapeFields(t));
    FlattenInjective(ShapeFields(s), ShapeFields(t));
    assert Fits(ShapeFields(s)[0]) && Fits(ShapeFields(t)[0]);
    ShapeFieldsInjective(s, t);
  }

  lemma WordItemsInjective(a: seq<u32>, b: seq<u32>)
    requires WordItems(a) == WordItems(b)
    ensures a == b
  {
    hide DecodeAll;
    WordsBack(a);
    WordsBack(b);
  }

  lemma DependencyItemsInjective(a: seq<KernelRef>, b: seq<KernelRef>)
    requires ItemsFit(DependencyItems(a)) && DependencyItems(a) == DependencyItems(b)
    ensures NormalKernels(a) == NormalKernels(b)
  {
    hide DecodeAll, DependencyItems;
    DependenciesBack(a);
    DependenciesBack(b);
  }

  lemma TensorsCancel(f: Facts, rf: seq<Field>, g: Facts, rg: seq<Field>)
    requires ItemsFit(ShapeItems(f.inputShapes)) && ItemsFit(ShapeItems(f.outputShapes))
    requires ItemsFit(ShapeItems(g.inputShapes)) && ItemsFit(ShapeItems(g.outputShapes))
    requires |f.dtypes| < TWO_32 && |f.layouts| < TWO_32 && |g.dtypes| < TWO_32 && |g.layouts| < TWO_32
    requires TensorFields(f) + rf == TensorFields(g) + rg
    ensures f.inputShapes == g.inputShapes && f.outputShapes == g.outputShapes
    ensures f.dtypes == g.dtypes && f.layouts == g.layouts && rf == rg
  {
    hide CountedFields;
    var a, b := CountedFields(60, 61, ShapeItems(f.inputShapes)), CountedFields(62, 63, ShapeItems(f.outputShapes));
    var c, d := CountedFields(64, 65, WordItems(f.dtypes)), CountedFields(66, 67, WordItems(f.layouts));
    var a', b' := CountedFields(60, 61, ShapeItems(g.inputShapes)), CountedFields(62, 63, ShapeItems(g.outputShapes));
    var c', d' := CountedFields(64, 65, WordItems(g.dtypes)), CountedFields(66, 67, WordItems(g.layouts));
    AppendAssociative(a, b + (c + d), rf);
    AppendAssociative(b, c + d, rf);
    AppendAssociative(c, d, rf);
    AppendAssociative(a', b' + (c' + d'), rg);
    AppendAssociative(b', c' + d', rg);
    AppendAssociative(c', d', rg);
    CountedCancel(60, 61, ShapeItems(f.inputShapes), b + (c + (d + rf)), ShapeItems(g.inputShapes), b' + (c' + (d' + rg)));
    CountedCancel(62, 63, ShapeItems(f.outputShapes), c + (d + rf), ShapeItems(g.outputShapes), c' + (d' + rg));
    CountedCancel(64, 65, WordItems(f.dtypes), d + rf, WordItems(g.dtypes), d' + rg);
    CountedCancel(66, 67, WordItems(f.layouts), rf, WordItems(g.layouts), rg);
    ShapeItemsInjective(f.inputShapes, g.inputShapes);
    ShapeItemsInjective(f.outputShapes, g.outputShapes);
    WordItemsInjective(f.dtypes, g.dtypes);
    WordItemsInjective(f.layouts, g.layouts);
  }

  lemma PropertiesCancel(f: Facts, g: Facts)
    requires ItemsFit(DependencyItems(f.dependencies)) && ItemsFit(DependencyItems(g.dependencies))
    requires PropertyFields(f) == PropertyFields(g)
    ensures NormalScalar(f.scalar) == NormalScalar(g.scalar) && NormalQuant(f.quant) == NormalQuant(g.quant)
    ensures f.binding == g.binding && f.requiredAlignment == g.requiredAlignment && f.memorySchema == g.memorySchema
    ensures NormalKernels(f.dependencies) == NormalKernels(g.dependencies)
    ensures f.modelRevision == g.modelRevision && f.policyGeneration == g.policyGeneration
  {
    hide ScalarPart, QuantPart, BindingPart, RevisionPart, CountedFields, DependencyItems,
         DecodeScalar, DecodeQuant, DecodeBinding, DecodeRevision;
    var b := BindingPart(f.binding, f.requiredAlignment, f.memorySchema);
    var d, r := CountedFields(90, 91, DependencyItems(f.dependencies)), RevisionPart(f.modelRevision, f.policyGeneration);
    var b' := BindingPart(g.binding, g.requiredAlignment, g.memorySchema);
    var d', r' := CountedFields(90, 91, DependencyItems(g.dependencies)), RevisionPart(g.modelRevision, g.policyGeneration);
    ScalarBack(f.scalar, QuantPart(f.quant) + (b + (d + r)));
    ScalarBack(g.scalar, QuantPart(g.quant) + (b' + (d' + r')));
    QuantBack(f.quant, b + (d + r));
    QuantBack(g.quant, b' + (d' + r'));
    BindingBack(f.binding, f.requiredAlignment, f.memorySchema, d + r);
    BindingBack(g.binding, g.requiredAlignment, g.memorySchema, d' + r');
    CountedCancel(90, 91, DependencyItems(f.dependencies), r, DependencyItems(g.dependencies), r');
    DependencyItemsInjective(f.dependencies, g.dependencies);
    assert r + [] == r && r' + [] == r';
    RevisionBack(f.modelRevision, f.policyGeneration, []);
    RevisionBack(g.modelRevision, g.policyGeneration, []);
  }

  /** Facts with the same canonical bytes, and so the same key, agree in every field that is encoded. */
  lemma EncodeFactsInjective(f: Facts, g: Facts)
    requires |EncodeFacts(f)| < TWO_32
    ensures EncodeFacts(f) == EncodeFacts(g) <==> NormalFacts(f) == NormalFacts(g)
  {
    hide Flatten, IdentityFields, ModeFields, TensorFields, PropertyFields, DecodeIdentity, DecodeMode, AllFit, ItemsFit,
         NormalScalar, NormalQuant, NormalKernels;
    EncodeNormal(f);
    EncodeNormal(g);
    if EncodeFacts(f) == EncodeFacts(g) {
      SizesFit(f);
      SizesFit(g);
      FlattenInjective(FactsFields(f), FactsFields(g));
      var m, m' := ModeFields(f.captureMode, f.streamSemantics, f.topology), ModeFields(g.captureMode, g.streamSemantics, g.topology);
      IdentityBack(f, m + (TensorFields(f) + PropertyFields(f)));
      IdentityBack(g, m' + (TensorFields(g) + PropertyFields(g)));
      ModeBack(f.captureMode, f.streamSemantics, f.topology, TensorFields(f) + PropertyFields(f));
      ModeBack(g.captureMode, g.streamSemantics, g.topology, TensorFields(g) + PropertyFields(g));
      TensorsCancel(f, PropertyFields(f), g, PropertyFields(g));
      PropertiesCancel(f, g);
    }
  }
}
