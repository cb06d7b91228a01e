/**
  `decide_compatibility` of src/compatibility.cpp: a field-by-field comparison
  of a request against a candidate's captured facts.
 */
module Decide {
  import opened Bytes
  import opened Descriptors
  import opened Facts

  datatype Policy = Policy(
    allowRebinding: bool, allowDynamicShape: bool,
    exactBackend: bool, exactArchitecture: bool, exactRuntime: bool, exactAbis: bool,
    exactTopology: bool, exactDependencies: bool, laxModelRevision: bool, namespaceFilter: Text)

  /** What can rule a candidate out; the class and the reason code of a refusal both name it. */
  datatype Domain =
    | IncompatibleWorkload | PolicyRejected
    | IncompatibleBackend | IncompatibleArchitecture | IncompatibleRuntime | IncompatibleDriver
    | IncompatibleGraphAbi | IncompatibleKernelAbi | IncompatibleCaptureMode | IncompatibleStreamSemantics
    | IncompatibleTopology | IncompatibleDependency | IncompatibleDatatype | IncompatibleLayout
    | IncompatibleSpecialization | IncompatibleQuantization | IncompatibleAlignment | IncompatibleMemoryBinding
    | IncompatibleShape | IncompatibleModelRevision

  datatype Class = ExactCompatible | CompatibleWithRebinding | CompatibleWithDynamicShape | Incompatible(domain: Domain)

  datatype Reason = Fails(domain: Domain) | RebindingLegal | DynamicShapeAccepted | ExactMatch

  datatype Decision = Decision(klass: Class, reasons: seq<Reason>) {
    predicate Compatible() {
      !klass.Incompatible?
    }
  }

  // ----- comparisons -----

  /** IEEE equality of two doubles given by their bits: a NaN equals nothing, and the two zeros are equal. */
  predicate SameDouble(a: u64, b: u64) {
    var x, y := a % 0x8000_0000_0000_0000, b % 0x8000_0000_0000_0000;
    x <= 0x7FF0_0000_0000_0000 && y <= 0x7FF0_0000_0000_0000 && (a == b || (x == 0 && y == 0))
  }

  function Decimal(n: nat): (t: Text)
    ensures t != [] && forall i | 0 <= i < |t| :: 0x30 <= t[i] <= 0x39
  {
    if n < 10 then [0x30 + n] else Decimal(n / 10) + [0x30 + n % 10]
  }

  const BAR: byte := 0x7c

  /** The joined string by which dependencies are compared. */
  function DependencyKey(k: KernelRef): Text {
    k.name + [BAR] + Decimal(k.generation) + [BAR] + k.digest
  }

  function CorrectnessKeys(ks: seq<KernelRef>): set<Text> {
    set i | 0 <= i < |ks| && ks[i].contributes :: DependencyKey(ks[i])
  }

  predicate ShapeAdmits(c: Shape, r: Shape) {
    r.dims == c.dims || (c.dynamic && c.maxRank >= |r.dims|)
  }

  // ----- the domains, in the order they are compared -----

  predicate BackendDiffers(q: Facts, c: Facts, p: Policy) {
    q.backend.kind != c.backend.kind || q.backend.name != c.backend.name
    || (p.exactBackend && q.backend.version != c.backend.version)
  }

  predicate ArchitectureDiffers(q: Facts, c: Facts, p: Policy) {
    q.device.architecture != c.device.architecture
    || (p.exactArchitecture
        && (q.device.computeMajor != c.device.computeMajor || q.device.computeMinor != c.device.computeMinor))
  }

  predicate DependenciesDiffer(q: Facts, c: Facts, p: Policy) {
    p.exactDependencies && !(CorrectnessKeys(c.dependencies) <= CorrectnessKeys(q.dependencies))
  }

  predicate ScalarDiffers(q: Facts, c: Facts) {
    q.scalar.specialized != c.scalar.specialized
    || (q.scalar.specialized
        && (q.scalar.intValue != c.scalar.intValue || !SameDouble(q.scalar.floatBits, c.scalar.floatBits)))
  }

  predicate BindingDiffers(q: Facts, c: Facts) {
    q.requiredAlignment != c.requiredAlignment || q.binding.schema != c.binding.schema
    || q.binding.bindingClass != c.binding.bindingClass || q.binding.alignment != c.binding.alignment
  }

  predicate MayRebind(c: Facts, p: Policy) {
    p.allowRebinding && c.binding.eligible
    && c.binding.bindingClass != RECAPTURE_REQUIRED_BINDING && c.binding.bindingClass != IMMUTABLE_BINDING
  }

  predicate ShapesDiffer(q: Facts, c: Facts) {
    q.inputShapes != c.inputShapes || q.outputShapes != c.outputShapes
  }

  predicate ShapesAdmitted(q: Facts, c: Facts, p: Policy) {
    p.allowDynamicShape && |c.inputShapes| == |q.inputShapes| > 0
    && (forall i | 0 <= i < |q.inputShapes| :: ShapeAdmits(c.inputShapes[i], q.inputShapes[i]))
  }

  predicate ModelRevisionDiffers(q: Facts, c: Facts, p: Policy) {
    q.modelRevision != [] && c.modelRevision != [] && q.modelRevision != c.modelRevision && !p.laxModelRevision
  }

  function When(fails: bool, domain: Domain): seq<Reason> {
    if fails then [Fails(domain)] else []
  }

  /** The platform domains. */
  function PlatformReasons(q: Facts, c: Facts, p: Policy): seq<Reason> {
    When(BackendDiffers(q, c, p), IncompatibleBackend)
    + When(q.device.vendor != c.device.vendor, IncompatibleArchitecture)
    + When(ArchitectureDiffers(q, c, p), IncompatibleArchitecture)
    + When(p.exactRuntime && q.runtime.version != c.runtime.version, IncompatibleRuntime)
    + When(q.runtime.driver != c.runtime.driver, IncompatibleDriver)
    + When(p.exactAbis && q.runtime.graphAbi != c.runtime.graphAbi, IncompatibleGraphAbi)
    + When(p.exactAbis && q.runtime.kernelAbi != c.runtime.kernelAbi, IncompatibleKernelAbi)
  }

  /** The graph domains that must agree outright. */
  function GraphReasons(q: Facts, c: Facts, p: Policy): seq<Reason> {
    When(q.captureMode != c.captureMode, IncompatibleCaptureMode)
    + When(q.streamSemantics != c.streamSemantics, IncompatibleStreamSemantics)
    + When(p.exactTopology && q.topology != c.topology, IncompatibleTopology)
    + When(DependenciesDiffer(q, c, p), IncompatibleDependency)
    + When(q.dtypes != c.dtypes, IncompatibleDatatype)
    + When(q.layouts != c.layouts, IncompatibleLayout)
    + When(ScalarDiffers(q, c), IncompatibleSpecialization)
    + When(q.quant != c.quant, IncompatibleQuantization)
  }

  /** The domains in which a difference may be legal. */
  function SoftReasons(q: Facts, c: Facts, p: Policy): seq<Reason> {
    (if !BindingDiffers(q, c) then []
     else if MayRebind(c, p) then [RebindingLegal]
     else if q.requiredAlignment != c.requiredAlignment then [Fails(IncompatibleAlignment)]
     else [Fails(IncompatibleMemoryBinding)])
    + (if !ShapesDiffer(q, c) then []
       else if ShapesAdmitted(q, c, p) then [DynamicShapeAccepted]
       else [Fails(IncompatibleShape)])
    + When(ModelRevisionDiffers(q, c, p), IncompatibleModelRevision)
  }

  function AllReasons(q: Facts, c: Facts, p: Policy): seq<Reason> {
    PlatformReasons(q, c, p) + GraphReasons(q, c, p) + SoftReasons(q, c, p)
  }

  function FirstFailure(rs: seq<Reason>): Option<Domain> {
    if rs == [] then None
    else if rs[0].Fails? then Some(rs[0].domain)
    else FirstFailure(rs[1..])
  }

  /** The class follows from the reasons: the first failing domain, else the strongest concession made. */
  function Verdict(rs: seq<Reason>): Decision {
    match FirstFailure(rs)
    case Some(domain) => Decision(Incompatible(domain), rs)
    case None =>
      if RebindingLegal in rs then
        Decision(CompatibleWithRebinding, if DynamicShapeAccepted in rs then rs + [DynamicShapeAccepted] else rs)
      else if DynamicShapeAccepted in rs then Decision(CompatibleWithDynamicShape, rs)
      else Decision(ExactCompatible, rs + [ExactMatch])
  }

  function Decided(q: Facts, c: Facts, p: Policy): Decision {
    if q.workload.name != c.workload.name then Decision(Incompatible(IncompatibleWorkload), [Fails(IncompatibleWorkload)])
    else if p.namespaceFilter != [] && q.workload.namespace != p.namespaceFilter then
      Decision(Incompatible(PolicyRejected), [Fails(PolicyRejected)])
    else Verdict(AllReasons(q, c, p))
  }

  // ----- what a decision means -----

  ghost predicate PlatformAgrees(q: Facts, c: Facts, p: Policy) {
    && !BackendDiffers(q, c, p) && q.device.vendor == c.device.vendor && !ArchitectureDiffers(q, c, p)
    && (p.exactRuntime ==> q.runtime.version == c.runtime.version)
    && q.runtime.driver == c.runtime.driver
    && (p.exactAbis ==> q.runtime.graphAbi == c.runtime.graphAbi && q.runtime.kernelAbi == c.runtime.kernelAbi)
  }

  ghost predicate GraphAgrees(q: Facts, c: Facts, p: Policy) {
    && q.captureMode == c.captureMode && q.streamSemantics == c.streamSemantics
    && (p.exactTopology ==> q.topology == c.topology)
    && !DependenciesDiffer(q, c, p)
    && q.dtypes == c.dtypes && q.layouts == c.layouts && !ScalarDiffers(q, c) && q.quant == c.quant
  }

  /** When a request may use a candidate at all. */
  ghost predicate Accepts(q: Facts, c: Facts, p: Policy) {
    && q.workload.name == c.workload.name
    && (p.namespaceFilter == [] || q.workload.namespace == p.namespaceFilter)
    && PlatformAgrees(q, c, p) && GraphAgrees(q, c, p)
    && (BindingDiffers(q, c) ==> MayRebind(c, p))
    && (ShapesDiffer(q, c) ==> ShapesAdmitted(q, c, p))
    && !ModelRevisionDiffers(q, c, p)
  }

  ghost predicate NoFailure(rs: seq<Reason>) {
    forall i | 0 <= i < |rs| :: !rs[i].Fails?
  }

  lemma {:induction false} FirstFailureNone(rs: seq<Reason>)
    ensures FirstFailure(rs).None? <==> NoFailure(rs)
    ensures FirstFailure(rs).Some? ==> Fails(FirstFailure(rs).value) in rs
  {
    if rs != [] && !rs[0].Fails? {
      FirstFailureNone(rs[1..]);
      assert NoFailure(rs) <==> NoFailure(rs[1..]) by {
        if NoFailure(rs[1..]) {
          forall i | 0 <= i < |rs|
            ensures !rs[i].Fails?
          {
            assert i > 0 ==> rs[1..][i - 1] == rs[i];
          }
        }
      }
    }
  }

  lemma NoFailureAppend(a: seq<Reason>, b: seq<Reason>)
    ensures NoFailure(a + b) <==> NoFailure(a) && NoFailure(b)
  {
    if NoFailure(a + b) {
      forall i | 0 <= i < |a| ensures !a[i].Fails? { assert (a + b)[i] == a[i]; }
      forall i | 0 <= i < |b| ensures !b[i].Fails? { assert (a + b)[|a| + i] == b[i]; }
    }
  }

  lemma WhenNoFailure(fails: bool, domain: Domain)
    ensures NoFailure(When(fails, domain)) <==> !fails
  {
    assert fails ==> When(fails, domain)[0].Fails?;
  }

  lemma ThreeNoFailure(a: bool, x: Domain, b: bool, y: Domain, c: bool, z: Domain, before: seq<Reason>)
    ensures NoFailure(before + When(a, x) + When(b, y) + When(c, z)) <==> NoFailure(before) && !a && !b && !c
  {
    hide When, NoFailure;
    WhenNoFailure(a, x);
    WhenNoFailure(b, y);
    WhenNoFailure(c, z);
    NoFailureAppend(before, When(a, x));
    NoFailureAppend(before + When(a, x), When(b, y));
    NoFailureAppend(before + When(a, x) + When(b, y), When(c, z));
  }

  lemma PlatformNoFailure(q: Facts, c: Facts, p: Policy)
    ensures NoFailure(PlatformReasons(q, c, p)) <==> PlatformAgrees(q, c, p)
  {
    hide When, NoFailure, BackendDiffers, ArchitectureDiffers;
    var b := When(BackendDiffers(q, c, p), IncompatibleBackend);
    WhenNoFailure(BackendDiffers(q, c, p), IncompatibleBackend);
    var runtime := p.exactRuntime && q.runtime.version != c.runtime.version;
    ThreeNoFailure(q.device.vendor != c.device.vendor, IncompatibleArchitecture,
                   ArchitectureDiffers(q, c, p), IncompatibleArchitecture,
                   runtime, IncompatibleRuntime, b);
    ThreeNoFailure(q.runtime.driver != c.runtime.driver, IncompatibleDriver,
                   p.exactAbis && q.runtime.graphAbi != c.runtime.graphAbi, IncompatibleGraphAbi,
                   p.exactAbis && q.runtime.kernelAbi != c.runtime.kernelAbi, IncompatibleKernelAbi,
                   b + When(q.device.vendor != c.device.vendor, IncompatibleArchitecture)
                   + When(ArchitectureDiffers(q, c, p), IncompatibleArchitecture)
                   + When(runtime, IncompatibleRuntime));
  }

  lemma GraphNoFailure(q: Facts, c: Facts, p: Policy)
    ensures NoFailure(GraphReasons(q, c, p)) <==> GraphAgrees(q, c, p)
  {
    hide When, NoFailure, DependenciesDiffer, ScalarDiffers;
    var a := When(q.captureMode != c.captureMode, IncompatibleCaptureMode);
    var b := When(q.streamSemantics != c.streamSemantics, IncompatibleStreamSemantics);
    WhenNoFailure(q.captureMode != c.captureMode, IncompatibleCaptureMode);
    WhenNoFailure(q.streamSemantics != c.streamSemantics, IncompatibleStreamSemantics);
    NoFailureAppend(a, b);
    var topology := p.exactTopology && q.topology != c.topology;
    ThreeNoFailure(topology, IncompatibleTopology,
                   DependenciesDiffer(q, c, p), IncompatibleDependency,
                   q.dtypes != c.dtypes, IncompatibleDatatype, a + b);
    ThreeNoFailure(q.layouts != c.layouts, IncompatibleLayout,
                   ScalarDiffers(q, c), IncompatibleSpecialization,
                   q.quant != c.quant, IncompatibleQuantization,
                   a + b + When(topology, IncompatibleTopology)
                   + When(DependenciesDiffer(q, c, p), IncompatibleDependency)
                   + When(q.dtypes != c.dtypes, IncompatibleDatatype));
  }

  lemma SoftNoFailure(q: Facts, c: Facts, p: Policy)
    ensures NoFailure(SoftReasons(q, c, p)) <==>
              && (BindingDiffers(q, c) ==> MayRebind(c, p))
              && (ShapesDiffer(q, c) ==> ShapesAdmitted(q, c, p))
              && !ModelRevisionDiffers(q, c, p)
  {
    hide BindingDiffers, MayRebind, ShapesDiffer, ShapesAdmitted, ModelRevisionDiffers;
    var binding := if !BindingDiffers(q, c) then []
                   else if MayRebind(c, p) then [RebindingLegal]
                   else if q.requiredAlignment != c.requiredAlignment then [Fails(IncompatibleAlignment)]
                   else [Fails(IncompatibleMemoryBinding)];
    var shape := if !ShapesDiffer(q, c) then []
                 else if ShapesAdmitted(q, c, p) then [DynamicShapeAccepted]
                 else [Fails(IncompatibleShape)];
    var model := When(ModelRevisionDiffers(q, c, p), IncompatibleModelRevision);
    WhenNoFailure(ModelRevisionDiffers(q, c, p), IncompatibleModelRevision);
    NoFailureAppend(binding, shape);
    NoFailureAppend(binding + shape, model);
    assert BindingDiffers(q, c) && !MayRebind(c, p) ==> binding[0].Fails?;
    assert ShapesDiffer(q, c) && !ShapesAdmitted(q, c, p) ==> shape[0].Fails?;
  }

  lemma PlatformOnlyFails(q: Facts, c: Facts, p: Policy)
    ensures RebindingLegal !in PlatformReasons(q, c, p) && DynamicShapeAccepted !in PlatformReasons(q, c, p)
  {
    hide BackendDiffers, ArchitectureDiffers;
  }

  lemma GraphOnlyFails(q: Facts, c: Facts, p: Policy)
    ensures RebindingLegal !in GraphReasons(q, c, p) && DynamicShapeAccepted !in GraphReasons(q, c, p)
  {
    hide DependenciesDiffer, ScalarDiffers;
  }

  /** The concessions appear exactly when the corresponding difference was accepted. */
  lemma Concessions(q: Facts, c: Facts, p: Policy)
    ensures RebindingLegal in AllReasons(q, c, p) <==> BindingDiffers(q, c) && MayRebind(c, p)
    ensures DynamicShapeAccepted in AllReasons(q, c, p) <==> ShapesDiffer(q, c) && ShapesAdmitted(q, c, p)
  {
    hide PlatformReasons, GraphReasons, BindingDiffers, MayRebind, ShapesDiffer, ShapesAdmitted, ModelRevisionDiffers;
    PlatformOnlyFails(q, c, p);
    GraphOnlyFails(q, c, p);
    var soft := SoftReasons(q, c, p);
    assert RebindingLegal in soft <==> BindingDiffers(q, c) && MayRebind(c, p) by {
      assert BindingDiffers(q, c) && MayRebind(c, p) ==> soft[0] == RebindingLegal;
    }
    assert DynamicShapeAccepted in soft <==> ShapesDiffer(q, c) && ShapesAdmitted(q, c, p) by {
      var i := if BindingDiffers(q, c) then 1 else 0;
      assert ShapesDiffer(q, c) && ShapesAdmitted(q, c, p) ==> soft[i] == DynamicShapeAccepted;
    }
  }

  /**
    A decision is compatible exactly when every domain agrees or its difference
    is one the policy lets through, and its class says which difference that was.
   */
  lemma DecisionMeaning(q: Facts, c: Facts, p: Policy)
    ensures Decided(q, c, p).Compatible() <==> Accepts(q, c, p)
    ensures Decided(q, c, p).klass == ExactCompatible <==>
              Accepts(q, c, p) && !BindingDiffers(q, c) && !ShapesDiffer(q, c)
    ensures Decided(q, c, p).klass == CompatibleWithRebinding <==> Accepts(q, c, p) && BindingDiffers(q, c)
    ensures Decided(q, c, p).klass == CompatibleWithDynamicShape <==>
              Accepts(q, c, p) && !BindingDiffers(q, c) && ShapesDiffer(q, c)
  {
    hide PlatformReasons, GraphReasons, SoftReasons, PlatformAgrees, GraphAgrees, NoFailure, FirstFailure,
         BindingDiffers, MayRebind, ShapesDiffer, ShapesAdmitted, ModelRevisionDiffers;
    var rs := AllReasons(q, c, p);
    PlatformNoFailure(q, c, p);
    GraphNoFailure(q, c, p);
    SoftNoFailure(q, c, p);
    NoFailureAppend(PlatformReasons(q, c, p), GraphReasons(q, c, p));
    NoFailureAppend(PlatformReasons(q, c, p) + GraphReasons(q, c, p), SoftReasons(q, c, p));
    FirstFailureNone(rs);
    Concessions(q, c, p);
  }

  /** When everything compared before the datatypes agrees and they do not, that is what the refusal names. */
  lemma DatatypeFailsFirst(q: Facts, c: Facts, p: Policy)
    requires q.workload.name == c.workload.name && (p.namespaceFilter == [] || q.workload.namespace == p.namespaceFilter)
    requires PlatformAgrees(q, c, p) && q.captureMode == c.captureMode && q.streamSemantics == c.streamSemantics
    requires q.topology == c.topology && !DependenciesDiffer(q, c, p) && q.dtypes != c.dtypes
    ensures Decided(q, c, p).klass == Incompatible(IncompatibleDatatype)
  {
    hide SoftReasons, ScalarDiffers, BackendDiffers, ArchitectureDiffers, DependenciesDiffer;
    assert PlatformReasons(q, c, p) == [];
    assert GraphReasons(q, c, p)[0] == Fails(IncompatibleDatatype);
    assert AllReasons(q, c, p)[0] == Fails(IncompatibleDatatype);
  }

  predicate IsNaN(bits: u64) {
    bits % 0x8000_0000_0000_0000 > 0x7FF0_0000_0000_0000
  }

  /**
    A request finds what it captured itself compatible exactly when the
    specialised scalar its facts keep is not a NaN: a NaN does not even equal
    itself.
   */
  lemma SelfCompatibleExactly(f: Facts, p: Policy)
    requires p.namespaceFilter == [] || f.workload.namespace == p.namespaceFilter
    ensures Decided(f, f, p).Compatible() <==> !(f.scalar.specialized && IsNaN(f.scalar.floatBits))
    ensures Decided(f, f, p).Compatible() ==> Decided(f, f, p).klass == ExactCompatible
  {
    hide Decided;
    DecisionMeaning(f, f, p);
  }

  /** Swapping request and candidate cannot turn an exact match into anything else. */
  lemma ExactIsSymmetric(q: Facts, c: Facts, p: Policy)
    requires Decided(q, c, p).klass == ExactCompatible
    requires CorrectnessKeys(q.dependencies) == CorrectnessKeys(c.dependencies)
    requires p.namespaceFilter == [] || c.workload.namespace == p.namespaceFilter
    ensures Decided(c, q, p).klass == ExactCompatible
  {
    hide Decided, CorrectnessKeys, ShapesAdmitted, MayRebind;
    DecisionMeaning(q, c, p);
    DecisionMeaning(c, q, p);
  }

  // ----- the function as it runs -----

  datatype Progress = Progress(hardFail: bool, failClass: Domain, reasons: seq<Reason>) {
    /** The flags record the first failure among the reasons. */
    ghost predicate Tracks() {
      FirstFailure(reasons) == if hardFail then Some(failClass) else None
    }
  }

  lemma {:induction false} FirstFailureSnoc(rs: seq<Reason>, r: Reason)
    ensures FirstFailure(rs + [r]) ==
              if FirstFailure(rs).Some? then FirstFailure(rs) else if r.Fails? then Some(r.domain) else None
  {
    if rs == [] {
      assert rs + [r] == [r];
    } else {
      assert (rs + [r])[1..] == rs[1..] + [r];
      FirstFailureSnoc(rs[1..], r);
    }
  }

  /** The `fail` closure: the first failing domain gives the class, every failing domain a reason. */
  method Check(fails: bool, domain: Domain, g: Progress) returns (h: Progress)
    requires g.Tracks()
    ensures h.Tracks() && h.reasons == g.reasons + When(fails, domain)
  {
    h := g;
    if fails {
      FirstFailureSnoc(g.reasons, Fails(domain));
      if !h.hardFail {
        h := h.(hardFail := true, failClass := domain);
      }
      h := h.(reasons := h.reasons + [Fails(domain)]);
    }
  }

  method Concede(r: Reason, g: Progress) returns (h: Progress)
    requires g.Tracks() && !r.Fails?
    ensures h.Tracks() && h.reasons == g.reasons + [r]
  {
    FirstFailureSnoc(g.reasons, r);
    h := g.(reasons := g.reasons + [r]);
  }

  method CheckPlatform(q: Facts, c: Facts, p: Policy, g: Progress) returns (h: Progress)
    requires g.Tracks() && g.reasons == []
    ensures h.Tracks() && h.reasons == PlatformReasons(q, c, p)
  {
    hide When, FirstFailure;
    h := Check(q.backend.kind != c.backend.kind || q.backend.name != c.backend.name
               || (p.exactBackend && q.backend.version != c.backend.version), IncompatibleBackend, g);
    assert [] + When(BackendDiffers(q, c, p), IncompatibleBackend) == When(BackendDiffers(q, c, p), IncompatibleBackend);
    h := Check(q.device.vendor != c.device.vendor, IncompatibleArchitecture, h);
    h := Check(q.device.architecture != c.device.architecture
               || (p.exactArchitecture
                   && (q.device.computeMajor != c.device.computeMajor || q.device.computeMinor != c.device.computeMinor)),
               IncompatibleArchitecture, h);
    h := Check(p.exactRuntime && q.runtime.version != c.runtime.version, IncompatibleRuntime, h);
    h := Check(q.runtime.driver != c.runtime.driver, IncompatibleDriver, h);
    h := Check(p.exactAbis && q.runtime.graphAbi != c.runtime.graphAbi, IncompatibleGraphAbi, h);
    h := Check(p.exactAbis && q.runtime.kernelAbi != c.runtime.kernelAbi, IncompatibleKernelAbi, h);
  }

  /** Collects the request's keys, then looks each candidate key up, stopping at the first one missing. */
  method CompareDependencies(q: seq<KernelRef>, c: seq<KernelRef>) returns (differ: bool)
    ensures differ <==> !(CorrectnessKeys(c) <= CorrectnessKeys(q))
  {
    var keys: set<Text> := {};
    for i := 0 to |q|
      invariant keys == CorrectnessKeys(q[..i])
    {
      KeysSnoc(q, i);
      if q[i].contributes {
        keys := keys + {DependencyKey(q[i])};
      }
    }
    assert q[..|q|] == q;
    for i := 0 to |c|
      invariant CorrectnessKeys(c[..i]) <= keys
    {
      KeysSnoc(c, i);
      if c[i].contributes && DependencyKey(c[i]) !in keys {
        assert DependencyKey(c[i]) in CorrectnessKeys(c);
        return true;
      }
    }
    assert c[..|c|] == c;
    differ := false;
  }

  lemma KeysSnoc(ks: seq<KernelRef>, i: nat)
    requires i < |ks|
    ensures CorrectnessKeys(ks[..i + 1]) ==
              CorrectnessKeys(ks[..i]) + (if ks[i].contributes then {DependencyKey(ks[i])} else {})
  {
    hide DependencyKey;
    var a, b := ks[..i + 1], ks[..i];
    assert forall j | 0 <= j < i :: a[j] == b[j];
    assert a[i] == ks[i];
  }

  method CheckGraph(q: Facts, c: Facts, p: Policy, g: Progress) returns (h: Progress)
    requires g.Tracks()
    ensures h.Tracks() && h.reasons == g.reasons + GraphReasons(q, c, p)
  {
    hide When, FirstFailure, CorrectnessKeys, SameDouble;
    ghost var r := g.reasons;
    h := Check(q.captureMode != c.captureMode, IncompatibleCaptureMode, g);
    h := Check(q.streamSemantics != c.streamSemantics, IncompatibleStreamSemantics, h);
    h := Check(p.exactTopology && q.topology != c.topology, IncompatibleTopology, h);
    var missing := false;
    if p.exactDependencies {
      missing := CompareDependencies(q.dependencies, c.dependencies);
    }
    h := Check(missing, IncompatibleDependency, h);
    h := Check(q.dtypes != c.dtypes, IncompatibleDatatype, h);
    h := Check(q.layouts != c.layouts, IncompatibleLayout, h);
    h := Check(q.scalar.specialized != c.scalar.specialized
               || (q.scalar.specialized
                   && (q.scalar.intValue != c.scalar.intValue || !SameDouble(q.scalar.floatBits, c.scalar.floatBits))),
               IncompatibleSpecialization, h);
    h := Check(q.quant.mode != c.quant.mode || q.quant.group != c.quant.group
               || q.quant.symmetric != c.quant.symmetric || q.quant.scheme != c.quant.scheme,
               IncompatibleQuantization, h);
    AppendEight(r, When(q.captureMode != c.captureMode, IncompatibleCaptureMode),
                When(q.streamSemantics != c.streamSemantics, IncompatibleStreamSemantics),
                When(p.exactTopology && q.topology != c.topology, IncompatibleTopology),
                When(missing, IncompatibleDependency), When(q.dtypes != c.dtypes, IncompatibleDatatype),
                When(q.layouts != c.layouts, IncompatibleLayout),
                When(ScalarDiffers(q, c), IncompatibleSpecialization), When(q.quant != c.quant, IncompatibleQuantization));
  }

  lemma AppendEight(f: seq<Reason>, a: seq<Reason>, b: seq<Reason>, c: seq<Reason>, d: seq<Reason>,
                    e: seq<Reason>, g: seq<Reason>, h: seq<Reason>, i: seq<Reason>)
    ensures f + a + b + c + d + e + g + h + i == f + (a + b + c + d + e + g + h + i)
  {
  }

  /** The loop over the request's shapes, stopping at the first one the candidate does not admit. */
  method AdmitShapes(q: Facts, c: Facts, p: Policy) returns (ok: bool)
    ensures ok <==> ShapesAdmitted(q, c, p)
  {
    if !p.allowDynamicShape || |c.inputShapes| != |q.inputShapes| {
      return false;
    }
    for i := 0 to |q.inputShapes|
      invariant forall j | 0 <= j < i :: ShapeAdmits(c.inputShapes[j], q.inputShapes[j])
    {
      if !ShapeAdmits(c.inputShapes[i], q.inputShapes[i]) {
        return false;
      }
    }
    ok := q.inputShapes != [];
  }

  method CheckSoft(q: Facts, c: Facts, p: Policy, g: Progress) returns (h: Progress, rebinding: bool, dynamic: bool)
    requires g.Tracks()
    ensures h.Tracks() && h.reasons == g.reasons + SoftReasons(q, c, p)
    ensures rebinding <==> BindingDiffers(q, c) && MayRebind(c, p)
    ensures dynamic <==> ShapesDiffer(q, c) && ShapesAdmitted(q, c, p)
  {
    hide FirstFailure, ShapesAdmitted, BindingDiffers, MayRebind, ModelRevisionDiffers;
    h, rebinding, dynamic := g, false, false;
    if BindingDiffers(q, c) {
      if MayRebind(c, p) {
        rebinding := true;
        h := Concede(RebindingLegal, h);
      } else {
        h := Check(true, if q.requiredAlignment != c.requiredAlignment then IncompatibleAlignment
                         else IncompatibleMemoryBinding, h);
      }
    }
    if q.inputShapes != c.inputShapes || q.outputShapes != c.outputShapes {
      dynamic := AdmitShapes(q, c, p);
      if dynamic {
        h := Concede(DynamicShapeAccepted, h);
      } else {
        h := Check(true, IncompatibleShape, h);
      }
    }
    h := Check(ModelRevisionDiffers(q, c, p), IncompatibleModelRevision, h);
  }

  /** Flags and reasons built up step by step give the decision of the specification. */
  method DecideCompatibility(q: Facts, c: Facts, p: Policy) returns (d: Decision)
    ensures d == Decided(q, c, p)
  {
    hide PlatformReasons, GraphReasons, SoftReasons, FirstFailure, BindingDiffers, MayRebind, ShapesDiffer, ShapesAdmitted;
    if q.workload.name != c.workload.name {
      return Decision(Incompatible(IncompatibleWorkload), [Fails(IncompatibleWorkload)]);
    }
    if p.namespaceFilter != [] && q.workload.namespace != p.namespaceFilter {
      return Decision(Incompatible(PolicyRejected), [Fails(PolicyRejected)]);
    }
    var g := Progress(false, IncompatibleWorkload, []);
    NothingFailed();
    g := CheckPlatform(q, c, p, g);
    g := CheckGraph(q, c, p, g);
    var rebinding, dynamic;
    g, rebinding, dynamic := CheckSoft(q, c, p, g);
    Concessions(q, c, p);
    if g.hardFail {
      d := Decision(Incompatible(g.failClass), g.reasons);
    } else if rebinding {
      d := Decision(CompatibleWithRebinding, g.reasons + (if dynamic then [DynamicShapeAccepted] else []));
      assert !dynamic ==> d.reasons == g.reasons;
    } else if dynamic {
      d := Decision(CompatibleWithDynamicShape, g.reasons);
    } else {
      d := Decision(ExactCompatible, g.reasons + [ExactMatch]);
    }
  }

  lemma NothingFailed()
    ensures FirstFailure([]) == None
  {
  }
}
