/**
  What `decide_compatibility` answers, said on the fields of the two facts
  alone: in which domains a candidate fails, which of them the refusal names,
  and that a more permissive policy never refuses what a stricter one accepts.
 */
module DecideFields {
  import opened Bytes
  import opened Descriptors
  import opened Facts
  import opened Decide

  /** A double with all exponent bits set and a fraction that is not zero. */
  predicate NotANumber(bits: u64) {
    bits / 0x10_0000_0000_0000 % 0x800 == 0x7FF && bits % 0x10_0000_0000_0000 != 0
  }

  predicate IsZero(bits: u64) {
    bits == 0 || bits == 0x8000_0000_0000_0000
  }

  /** The candidate has a counting dependency that no counting dependency of the request is spelled like. */
  predicate Unsupplied(q: seq<KernelRef>, c: seq<KernelRef>) {
    exists j | 0 <= j < |c| && c[j].contributes ::
      forall i | 0 <= i < |q| && q[i].contributes ::
        q[i].name + [0x7C] + Decimal(q[i].generation) + [0x7C] + q[i].digest
        != c[j].name + [0x7C] + Decimal(c[j].generation) + [0x7C] + c[j].digest
  }

  /** Binding classes 1 and 3 are the immutable one and the one that requires a recapture. */
  predicate Rebindable(b: Binding, p: Policy) {
    p.allowRebinding && b.eligible && b.bindingClass != 1 && b.bindingClass != 3
  }

  predicate SameBinding(qa: u64, q: Binding, ca: u64, c: Binding) {
    qa == ca && q.schema == c.schema && q.bindingClass == c.bindingClass && q.alignment == c.alignment
  }

  predicate ShapesServe(q: seq<Shape>, c: seq<Shape>, p: Policy) {
    && p.allowDynamicShape && |q| == |c| && q != []
    && forall i | 0 <= i < |q| :: q[i].dims == c[i].dims || (c[i].dynamic && |q[i].dims| <= c[i].maxRank)
  }

  /** The candidate fails in this domain. */
  predicate FailsOn(d: Domain, q: Facts, c: Facts, p: Policy) {
    match d
    case IncompatibleWorkload => q.workload.name != c.workload.name
    case PolicyRejected => p.namespaceFilter != [] && q.workload.namespace != p.namespaceFilter
    case IncompatibleBackend =>
      || q.backend.kind != c.backend.kind || q.backend.name != c.backend.name
      || (p.exactBackend && q.backend.version != c.backend.version)
    case IncompatibleArchitecture =>
      || q.device.vendor != c.device.vendor || q.device.architecture != c.device.architecture
      || (p.exactArchitecture && q.device.computeMajor != c.device.computeMajor)
      || (p.exactArchitecture && q.device.computeMinor != c.device.computeMinor)
    case IncompatibleRuntime => p.exactRuntime && q.runtime.version != c.runtime.version
    case IncompatibleDriver => q.runtime.driver != c.runtime.driver
    case IncompatibleGraphAbi => p.exactAbis && q.runtime.graphAbi != c.runtime.graphAbi
    case IncompatibleKernelAbi => p.exactAbis && q.runtime.kernelAbi != c.runtime.kernelAbi
    case IncompatibleCaptureMode => q.captureMode != c.captureMode
    case IncompatibleStreamSemantics => q.streamSemantics != c.streamSemantics
    case IncompatibleTopology => p.exactTopology && q.topology != c.topology
    case IncompatibleDependency => p.exactDependencies && Unsupplied(q.dependencies, c.dependencies)
    case IncompatibleDatatype => q.dtypes != c.dtypes
    case IncompatibleLayout => q.layouts != c.layouts
    case IncompatibleSpecialization =>
      || q.scalar.specialized != c.scalar.specialized
      || (q.scalar.specialized && q.scalar.intValue != c.scalar.intValue)
      || (q.scalar.specialized && (NotANumber(q.scalar.floatBits) || NotANumber(c.scalar.floatBits)))
      || (q.scalar.specialized && q.scalar.floatBits != c.scalar.floatBits && !(IsZero(q.scalar.floatBits) && IsZero(c.scalar.floatBits)))
    case IncompatibleQuantization =>
      || q.quant.mode != c.quant.mode || q.quant.group != c.quant.group
      || q.quant.symmetric != c.quant.symmetric || q.quant.scheme != c.quant.scheme
    case IncompatibleAlignment => q.requiredAlignment != c.requiredAlignment && !Rebindable(c.binding, p)
    case IncompatibleMemoryBinding =>
      && q.requiredAlignment == c.requiredAlignment && !Rebindable(c.binding, p)
      && !SameBinding(q.requiredAlignment, q.binding, c.requiredAlignment, c.binding)
    case IncompatibleShape =>
      (q.inputShapes != c.inputShapes || q.outputShapes != c.outputShapes) && !ShapesServe(q.inputShapes, c.inputShapes, p)
    case IncompatibleModelRevision =>
      !(q.modelRevision == [] || c.modelRevision == [] || q.modelRevision == c.modelRevision || p.laxModelRevision)
  }

  // ----- each comparison is the one on fields -----

  lemma SameDoubleMeans(a: u64, b: u64)
    ensures SameDouble(a, b) <==> !NotANumber(a) && !NotANumber(b) && (a == b || (IsZero(a) && IsZero(b)))
  {
  }

  lemma DependenciesMean(q: Facts, c: Facts, p: Policy)
    ensures DependenciesDiffer(q, c, p) <==> FailsOn(IncompatibleDependency, q, c, p)
  {
    var a, b := q.dependencies, c.dependencies;
    if p.exactDependencies && Unsupplied(a, b) {
      var j :| 0 <= j < |b| && b[j].contributes
        && forall i | 0 <= i < |a| && a[i].contributes ::
             a[i].name + [0x7C] + Decimal(a[i].generation) + [0x7C] + a[i].digest
             != b[j].name + [0x7C] + Decimal(b[j].generation) + [0x7C] + b[j].digest;
      assert DependencyKey(b[j]) in CorrectnessKeys(b);
      assert DependencyKey(b[j]) !in CorrectnessKeys(a);
    }
    if DependenciesDiffer(q, c, p) {
      var k :| k in CorrectnessKeys(b) && k !in CorrectnessKeys(a);
      var j :| 0 <= j < |b| && b[j].contributes && DependencyKey(b[j]) == k;
      forall i | 0 <= i < |a| && a[i].contributes
        ensures a[i].name + [0x7C] + Decimal(a[i].generation) + [0x7C] + a[i].digest
                != b[j].name + [0x7C] + Decimal(b[j].generation) + [0x7C] + b[j].digest
      {
        assert DependencyKey(a[i]) in CorrectnessKeys(a);
      }
    }
  }

  lemma ScalarsMean(q: Facts, c: Facts, p: Policy)
    ensures ScalarDiffers(q, c) <==> FailsOn(IncompatibleSpecialization, q, c, p)
  {
    hide SameDouble, NotANumber, IsZero;
    SameDoubleMeans(q.scalar.floatBits, c.scalar.floatBits);
  }

  // ----- the first domain that fails -----

  lemma {:induction false} FirstFailureAppend(a: seq<Reason>, b: seq<Reason>)
    ensures FirstFailure(a + b) == if FirstFailure(a).Some? then FirstFailure(a) else FirstFailure(b)
  {
    if a == [] {
      assert a + b == b;
    } else {
      FirstFailureAppend(a[1..], b);
      assert (a + b)[0] == a[0] && (a + b)[1..] == a[1..] + b;
    }
  }

  function Or(a: Option<Domain>, b: Option<Domain>): Option<Domain> {
    if a.Some? then a else b
  }

  lemma OneMore(before: seq<Reason>, fails: bool, d: Domain)
    ensures FirstFailure(before + When(fails, d)) == Or(FirstFailure(before), if fails then Some(d) else None)
  {
    hide FirstFailure;
    FirstFailureAppend(before, When(fails, d));
    OneReason(fails, d);
  }

  lemma OneReason(fails: bool, d: Domain)
    ensures FirstFailure(When(fails, d)) == if fails then Some(d) else None
  {
  }

  function IfFails(d: Domain, q: Facts, c: Facts, p: Policy): Option<Domain> {
    if FailsOn(d, q, c, p) then Some(d) else None
  }

  function FirstPlatform(q: Facts, c: Facts, p: Policy): Option<Domain> {
    Or(Or(Or(Or(Or(IfFails(IncompatibleBackend, q, c, p), IfFails(IncompatibleArchitecture, q, c, p)),
                IfFails(IncompatibleRuntime, q, c, p)), IfFails(IncompatibleDriver, q, c, p)),
          IfFails(IncompatibleGraphAbi, q, c, p)), IfFails(IncompatibleKernelAbi, q, c, p))
  }

  function FirstGraph(q: Facts, c: Facts, p: Policy): Option<Domain> {
    Or(Or(Or(Or(Or(Or(Or(IfFails(IncompatibleCaptureMode, q, c, p), IfFails(IncompatibleStreamSemantics, q, c, p)),
                      IfFails(IncompatibleTopology, q, c, p)), IfFails(IncompatibleDependency, q, c, p)),
                IfFails(IncompatibleDatatype, q, c, p)), IfFails(IncompatibleLayout, q, c, p)),
          IfFails(IncompatibleSpecialization, q, c, p)), IfFails(IncompatibleQuantization, q, c, p))
  }

  function FirstSoft(q: Facts, c: Facts, p: Policy): Option<Domain> {
    Or(Or(Or(IfFails(IncompatibleAlignment, q, c, p), IfFails(IncompatibleMemoryBinding, q, c, p)),
          IfFails(IncompatibleShape, q, c, p)), IfFails(IncompatibleModelRevision, q, c, p))
  }

  /** The domains in the order in which a refusal names them. */
  function FirstFailing(q: Facts, c: Facts, p: Policy): Option<Domain> {
    Or(Or(IfFails(IncompatibleWorkload, q, c, p), IfFails(PolicyRejected, q, c, p)),
       Or(Or(FirstPlatform(q, c, p), FirstGraph(q, c, p)), FirstSoft(q, c, p)))
  }

  lemma PlatformFirst(q: Facts, c: Facts, p: Policy)
    ensures FirstFailure(PlatformReasons(q, c, p)) == FirstPlatform(q, c, p)
  {
    hide When, FirstFailure;
    var b := When(BackendDiffers(q, c, p), IncompatibleBackend);
    OneReason(BackendDiffers(q, c, p), IncompatibleBackend);
    var v := b + When(q.device.vendor != c.device.vendor, IncompatibleArchitecture);
    OneMore(b, q.device.vendor != c.device.vendor, IncompatibleArchitecture);
    var a := v + When(ArchitectureDiffers(q, c, p), IncompatibleArchitecture);
    OneMore(v, ArchitectureDiffers(q, c, p), IncompatibleArchitecture);
    var r := a + When(p.exactRuntime && q.runtime.version != c.runtime.version, IncompatibleRuntime);
    OneMore(a, p.exactRuntime && q.runtime.version != c.runtime.version, IncompatibleRuntime);
    var d := r + When(q.runtime.driver != c.runtime.driver, IncompatibleDriver);
    OneMore(r, q.runtime.driver != c.runtime.driver, IncompatibleDriver);
    var g := d + When(p.exactAbis && q.runtime.graphAbi != c.runtime.graphAbi, IncompatibleGraphAbi);
    OneMore(d, p.exactAbis && q.runtime.graphAbi != c.runtime.graphAbi, IncompatibleGraphAbi);
    OneMore(g, p.exactAbis && q.runtime.kernelAbi != c.runtime.kernelAbi, IncompatibleKernelAbi);
  }

  /** The comparisons of the graph domains, none of which is anything but a comparison of fields. */
  lemma GraphMeans(q: Facts, c: Facts, p: Policy)
    ensures q.captureMode != c.captureMode <==> FailsOn(IncompatibleCaptureMode, q, c, p)
    ensures q.streamSemantics != c.streamSemantics <==> FailsOn(IncompatibleStreamSemantics, q, c, p)
    ensures p.exactTopology && q.topology != c.topology <==> FailsOn(IncompatibleTopology, q, c, p)
    ensures q.dtypes != c.dtypes <==> FailsOn(IncompatibleDatatype, q, c, p)
    ensures q.layouts != c.layouts <==> FailsOn(IncompatibleLayout, q, c, p)
    ensures q.quant != c.quant <==> FailsOn(IncompatibleQuantization, q, c, p)
  {
    hide Unsupplied, NotANumber, IsZero;
  }

  lemma GraphFirst(q: Facts, c: Facts, p: Policy)
    ensures FirstFailure(GraphReasons(q, c, p)) == FirstGraph(q, c, p)
  {
    hide When, FirstFailure, FailsOn, DependenciesDiffer, ScalarDiffers;
    GraphMeans(q, c, p);
    DependenciesMean(q, c, p);
    ScalarsMean(q, c, p);
    var a := When(q.captureMode != c.captureMode, IncompatibleCaptureMode);
    OneReason(q.captureMode != c.captureMode, IncompatibleCaptureMode);
    var s := a + When(q.streamSemantics != c.streamSemantics, IncompatibleStreamSemantics);
    OneMore(a, q.streamSemantics != c.streamSemantics, IncompatibleStreamSemantics);
    var t := s + When(p.exactTopology && q.topology != c.topology, IncompatibleTopology);
    OneMore(s, p.exactTopology && q.topology != c.topology, IncompatibleTopology);
    var d := t + When(DependenciesDiffer(q, c, p), IncompatibleDependency);
    OneMore(t, DependenciesDiffer(q, c, p), IncompatibleDependency);
    var y := d + When(q.dtypes != c.dtypes, IncompatibleDatatype);
    OneMore(d, q.dtypes != c.dtypes, IncompatibleDatatype);
    var l := y + When(q.layouts != c.layouts, IncompatibleLayout);
    OneMore(y, q.layouts != c.layouts, IncompatibleLayout);
    var x := l + When(ScalarDiffers(q, c), IncompatibleSpecialization);
    OneMore(l, ScalarDiffers(q, c), IncompatibleSpecialization);
    OneMore(x, q.quant != c.quant, IncompatibleQuantization);
  }

  lemma OneBinding(q: Facts, c: Facts, p: Policy)
    ensures var rs := if !BindingDiffers(q, c) then []
                      else if MayRebind(c, p) then [RebindingLegal]
                      else if q.requiredAlignment != c.requiredAlignment then [Fails(IncompatibleAlignment)]
                      else [Fails(IncompatibleMemoryBinding)];
            FirstFailure(rs) == Or(IfFails(IncompatibleAlignment, q, c, p), IfFails(IncompatibleMemoryBinding, q, c, p))
  {
    assert FirstFailure([]) == None && FirstFailure([RebindingLegal]) == None;
  }

  lemma OneShape(q: Facts, c: Facts, p: Policy)
    ensures var rs := if !ShapesDiffer(q, c) then []
                      else if ShapesAdmitted(q, c, p) then [DynamicShapeAccepted]
                      else [Fails(IncompatibleShape)];
            FirstFailure(rs) == IfFails(IncompatibleShape, q, c, p)
  {
    assert FirstFailure([]) == None && FirstFailure([DynamicShapeAccepted]) == None;
  }

  lemma RevisionMeans(q: Facts, c: Facts, p: Policy)
    ensures ModelRevisionDiffers(q, c, p) <==> FailsOn(IncompatibleModelRevision, q, c, p)
  {
  }

  lemma SoftFirst(q: Facts, c: Facts, p: Policy)
    ensures FirstFailure(SoftReasons(q, c, p)) == FirstSoft(q, c, p)
  {
    hide When, FirstFailure, FailsOn, BindingDiffers, MayRebind, ShapesDiffer, ShapesAdmitted, ModelRevisionDiffers;
    var binding := if !BindingDiffers(q, c) then []
                   else if MayRebind(c, p) then [RebindingLegal]
                   else if q.requiredAlignment != c.requiredAlignment then [Fails(IncompatibleAlignment)]
                   else [Fails(IncompatibleMemoryBinding)];
    var shape := if !ShapesDiffer(q, c) then []
                 else if ShapesAdmitted(q, c, p) then [DynamicShapeAccepted]
                 else [Fails(IncompatibleShape)];
    OneBinding(q, c, p);
    OneShape(q, c, p);
    RevisionMeans(q, c, p);
    FirstFailureAppend(binding, shape);
    OneMore(binding + shape, ModelRevisionDiffers(q, c, p), IncompatibleModelRevision);
  }

  /** A refusal names the first domain that fails, and there is a refusal exactly when one does. */
  lemma RefusedExactly(q: Facts, c: Facts, p: Policy)
    ensures Decided(q, c, p).Compatible() <==> FirstFailing(q, c, p).None?
    ensures FirstFailing(q, c, p).Some? ==> Decided(q, c, p).klass == Incompatible(FirstFailing(q, c, p).value)
  {
    hide FirstPlatform, FirstGraph, FirstSoft, PlatformReasons, GraphReasons, SoftReasons, FirstFailure;
    PlatformFirst(q, c, p);
    GraphFirst(q, c, p);
    SoftFirst(q, c, p);
    FirstFailureAppend(PlatformReasons(q, c, p), GraphReasons(q, c, p));
    FirstFailureAppend(PlatformReasons(q, c, p) + GraphReasons(q, c, p), SoftReasons(q, c, p));
  }

  lemma NoneFails(q: Facts, c: Facts, p: Policy)
    ensures FirstFailing(q, c, p).None? <==> forall d: Domain :: !FailsOn(d, q, c, p)
    ensures FirstFailing(q, c, p).Some? ==> FailsOn(FirstFailing(q, c, p).value, q, c, p)
  {
    hide FailsOn;
    if FirstFailing(q, c, p).None? {
      forall d: Domain
        ensures !FailsOn(d, q, c, p)
      {
        match d {
          case IncompatibleWorkload => assert IfFails(d, q, c, p).None?;
          case _ => assert IfFails(d, q, c, p).None?;
        }
      }
    }
  }

  /** A request is accepted exactly when the candidate fails in no domain. */
  lemma AcceptedExactly(q: Facts, c: Facts, p: Policy)
    ensures Decided(q, c, p).Compatible() <==> forall d: Domain :: !FailsOn(d, q, c, p)
  {
    hide FailsOn, FirstFailing, Decided;
    RefusedExactly(q, c, p);
    NoneFails(q, c, p);
  }

  /** And which of the three ways of being accepted it is depends on the binding and the shapes alone. */
  lemma ClassExactly(q: Facts, c: Facts, p: Policy)
    requires Decided(q, c, p).Compatible()
    ensures var same := SameBinding(q.requiredAlignment, q.binding, c.requiredAlignment, c.binding);
            && (Decided(q, c, p).klass == CompatibleWithRebinding <==> !same)
            && (Decided(q, c, p).klass == CompatibleWithDynamicShape <==>
                  same && (q.inputShapes != c.inputShapes || q.outputShapes != c.outputShapes))
            && (Decided(q, c, p).klass == ExactCompatible <==>
                  same && q.inputShapes == c.inputShapes && q.outputShapes == c.outputShapes)
  {
    hide Decided, Accepts;
    DecisionMeaning(q, c, p);
  }

  // ----- the reasons -----

  lemma InWhen(x: Reason, fails: bool, d: Domain)
    ensures x in When(fails, d) <==> fails && x == Fails(d)
  {
  }

  lemma InFour(x: Reason, a: seq<Reason>, b: seq<Reason>, c: seq<Reason>, d: seq<Reason>)
    ensures x in a + b + c + d <==> x in a || x in b || x in c || x in d
  {
  }

  predicate PlatformDomain(d: Domain) {
    d in {IncompatibleBackend, IncompatibleArchitecture, IncompatibleRuntime, IncompatibleDriver, IncompatibleGraphAbi, IncompatibleKernelAbi}
  }

  predicate GraphDomain(d: Domain) {
    d in {IncompatibleCaptureMode, IncompatibleStreamSemantics, IncompatibleTopology, IncompatibleDependency, IncompatibleDatatype,
          IncompatibleLayout, IncompatibleSpecialization, IncompatibleQuantization}
  }

  predicate SoftDomain(d: Domain) {
    d in {IncompatibleAlignment, IncompatibleMemoryBinding, IncompatibleShape, IncompatibleModelRevision}
  }

  lemma PlatformMeans(q: Facts, c: Facts, p: Policy)
    ensures BackendDiffers(q, c, p) <==> FailsOn(IncompatibleBackend, q, c, p)
    ensures q.device.vendor != c.device.vendor || ArchitectureDiffers(q, c, p) <==> FailsOn(IncompatibleArchitecture, q, c, p)
    ensures p.exactRuntime && q.runtime.version != c.runtime.version <==> FailsOn(IncompatibleRuntime, q, c, p)
    ensures q.runtime.driver != c.runtime.driver <==> FailsOn(IncompatibleDriver, q, c, p)
    ensures p.exactAbis && q.runtime.graphAbi != c.runtime.graphAbi <==> FailsOn(IncompatibleGraphAbi, q, c, p)
    ensures p.exactAbis && q.runtime.kernelAbi != c.runtime.kernelAbi <==> FailsOn(IncompatibleKernelAbi, q, c, p)
  {
    hide Unsupplied, NotANumber, IsZero;
  }

  lemma InPlatform(x: Reason, q: Facts, c: Facts, p: Policy)
    ensures x in PlatformReasons(q, c, p) <==> x.Fails? && PlatformDomain(x.domain) && FailsOn(x.domain, q, c, p)
  {
    hide When, FailsOn, BackendDiffers, ArchitectureDiffers;
    PlatformMeans(q, c, p);
    var b := When(BackendDiffers(q, c, p), IncompatibleBackend);
    var v := When(q.device.vendor != c.device.vendor, IncompatibleArchitecture);
    var a := When(ArchitectureDiffers(q, c, p), IncompatibleArchitecture);
    var r := When(p.exactRuntime && q.runtime.version != c.runtime.version, IncompatibleRuntime);
    InWhen(x, BackendDiffers(q, c, p), IncompatibleBackend);
    InWhen(x, q.device.vendor != c.device.vendor, IncompatibleArchitecture);
    InWhen(x, ArchitectureDiffers(q, c, p), IncompatibleArchitecture);
    InWhen(x, p.exactRuntime && q.runtime.version != c.runtime.version, IncompatibleRuntime);
    InFour(x, b, v, a, r);
    var d := When(q.runtime.driver != c.runtime.driver, IncompatibleDriver);
    var g := When(p.exactAbis && q.runtime.graphAbi != c.runtime.graphAbi, IncompatibleGraphAbi);
    var k := When(p.exactAbis && q.runtime.kernelAbi != c.runtime.kernelAbi, IncompatibleKernelAbi);
    InWhen(x, q.runtime.driver != c.runtime.driver, IncompatibleDriver);
    InWhen(x, p.exactAbis && q.runtime.graphAbi != c.runtime.graphAbi, IncompatibleGraphAbi);
    InWhen(x, p.exactAbis && q.runtime.kernelAbi != c.runtime.kernelAbi, IncompatibleKernelAbi);
    InFour(x, b + v + a + r, d, g, k);
  }

  lemma InGraph(x: Reason, q: Facts, c: Facts, p: Policy)
    ensures x in GraphReasons(q, c, p) <==> x.Fails? && GraphDomain(x.domain) && FailsOn(x.domain, q, c, p)
  {
    hide When, FailsOn, DependenciesDiffer, ScalarDiffers;
    GraphMeans(q, c, p);
    DependenciesMean(q, c, p);
    ScalarsMean(q, c, p);
    var a := When(q.captureMode != c.captureMode, IncompatibleCaptureMode);
    var s := When(q.streamSemantics != c.streamSemantics, IncompatibleStreamSemantics);
    var t := When(p.exactTopology && q.topology != c.topology, IncompatibleTopology);
    var d := When(DependenciesDiffer(q, c, p), IncompatibleDependency);
    InWhen(x, q.captureMode != c.captureMode, IncompatibleCaptureMode);
    InWhen(x, q.streamSemantics != c.streamSemantics, IncompatibleStreamSemantics);
    InWhen(x, p.exactTopology && q.topology != c.topology, IncompatibleTopology);
    InWhen(x, DependenciesDiffer(q, c, p), IncompatibleDependency);
    InFour(x, a, s, t, d);
    var y := When(q.dtypes != c.dtypes, IncompatibleDatatype);
    var l := When(q.layouts != c.layouts, IncompatibleLayout);
    var e := When(ScalarDiffers(q, c), IncompatibleSpecialization);
    InWhen(x, q.dtypes != c.dtypes, IncompatibleDatatype);
    InWhen(x, q.layouts != c.layouts, IncompatibleLayout);
    InWhen(x, ScalarDiffers(q, c), IncompatibleSpecialization);
    InFour(x, a + s + t + d, y, l, e);
    InWhen(x, q.quant != c.quant, IncompatibleQuantization);
  }

  lemma InSoft(x: Reason, q: Facts, c: Facts, p: Policy)
    ensures x in SoftReasons(q, c, p) <==>
              match x
              case Fails(d) => SoftDomain(d) && FailsOn(d, q, c, p)
              case RebindingLegal => !SameBinding(q.requiredAlignment, q.binding, c.requiredAlignment, c.binding) && Rebindable(c.binding, p)
              case DynamicShapeAccepted =>
                (q.inputShapes != c.inputShapes || q.outputShapes != c.outputShapes) && ShapesServe(q.inputShapes, c.inputShapes, p)
              case ExactMatch => false
  {
    hide When, Unsupplied, NotANumber, IsZero;
    InWhen(x, ModelRevisionDiffers(q, c, p), IncompatibleModelRevision);
  }

  lemma VerdictReasons(rs: seq<Reason>, x: Reason)
    ensures x in Decide.Verdict(rs).reasons <==> x in rs || (x == ExactMatch && Decide.Verdict(rs).klass == ExactCompatible)
  {
    hide FirstFailure;
  }

  /**
    Between workloads that may be compared, the reasons list every domain that
    fails, and every concession that was made, whatever the verdict.
   */
  lemma ReasonsExactly(d: Domain, q: Facts, c: Facts, p: Policy)
    requires !FailsOn(IncompatibleWorkload, q, c, p) && !FailsOn(PolicyRejected, q, c, p)
    ensures Fails(d) in Decided(q, c, p).reasons <==> FailsOn(d, q, c, p)
    ensures RebindingLegal in Decided(q, c, p).reasons <==>
              !SameBinding(q.requiredAlignment, q.binding, c.requiredAlignment, c.binding) && Rebindable(c.binding, p)
    ensures DynamicShapeAccepted in Decided(q, c, p).reasons <==>
              (q.inputShapes != c.inputShapes || q.outputShapes != c.outputShapes) && ShapesServe(q.inputShapes, c.inputShapes, p)
    ensures ExactMatch in Decided(q, c, p).reasons <==> Decided(q, c, p).klass == ExactCompatible
  {
    assert Decided(q, c, p) == Decide.Verdict(AllReasons(q, c, p));
    hide Decided, AllReasons, Decide.Verdict, SameBinding, ShapesServe, Rebindable;
    AnyReason(Fails(d), q, c, p);
    AnyReason(RebindingLegal, q, c, p);
    AnyReason(DynamicShapeAccepted, q, c, p);
    AnyReason(ExactMatch, q, c, p);
  }

  lemma AnyReason(x: Reason, q: Facts, c: Facts, p: Policy)
    ensures x in AllReasons(q, c, p) <==>
              match x
              case Fails(d) => d != IncompatibleWorkload && d != PolicyRejected && FailsOn(d, q, c, p)
              case RebindingLegal => !SameBinding(q.requiredAlignment, q.binding, c.requiredAlignment, c.binding) && Rebindable(c.binding, p)
              case DynamicShapeAccepted =>
                (q.inputShapes != c.inputShapes || q.outputShapes != c.outputShapes) && ShapesServe(q.inputShapes, c.inputShapes, p)
              case ExactMatch => false
    ensures x in Decide.Verdict(AllReasons(q, c, p)).reasons <==>
              x in AllReasons(q, c, p) || (x == ExactMatch && Decide.Verdict(AllReasons(q, c, p)).klass == ExactCompatible)
  {
    hide FailsOn, PlatformReasons, GraphReasons, SoftReasons, Decide.Verdict, SameBinding, ShapesServe, Rebindable;
    InPlatform(x, q, c, p);
    InGraph(x, q, c, p);
    InSoft(x, q, c, p);
    VerdictReasons(AllReasons(q, c, p), x);
  }

  // ----- policies -----

  /** The second policy requires nothing the first does not, and allows what the first does. */
  predicate Relaxes(p: Policy, r: Policy) {
    && (r.exactBackend ==> p.exactBackend) && (r.exactArchitecture ==> p.exactArchitecture) && (r.exactRuntime ==> p.exactRuntime)
    && (r.exactAbis ==> p.exactAbis) && (r.exactTopology ==> p.exactTopology) && (r.exactDependencies ==> p.exactDependencies)
    && (p.allowRebinding ==> r.allowRebinding) && (p.allowDynamicShape ==> r.allowDynamicShape)
    && (p.laxModelRevision ==> r.laxModelRevision) && (r.namespaceFilter == [] || r.namespaceFilter == p.namespaceFilter)
  }

  lemma RelaxedFails(d: Domain, q: Facts, c: Facts, p: Policy, r: Policy)
    requires Relaxes(p, r) && FailsOn(d, q, c, r)
    ensures exists e: Domain :: FailsOn(e, q, c, p)
  {
    hide Unsupplied, NotANumber, IsZero;
    if d == IncompatibleMemoryBinding {
      assert FailsOn(IncompatibleMemoryBinding, q, c, p);
    } else {
      assert FailsOn(d, q, c, p);
    }
  }

  /** Relaxing a policy never turns an acceptance into a refusal. */
  lemma RelaxingKeepsAcceptance(q: Facts, c: Facts, p: Policy, r: Policy)
    requires Relaxes(p, r) && Decided(q, c, p).Compatible()
    ensures Decided(q, c, r).Compatible()
  {
    hide FailsOn, Decided, Relaxes;
    AcceptedExactly(q, c, p);
    AcceptedExactly(q, c, r);
    if d: Domain :| FailsOn(d, q, c, r) {
      RelaxedFails(d, q, c, p, r);
    }
  }

  // ----- decimal numbers -----

  function NumberIn(t: Text): int {
    if t == [] then 0
    else
      var last: int := t[|t| - 1];
      10 * NumberIn(t[..|t| - 1]) + (last - 0x30)
  }

  /** The generations are written in decimal, most significant digit first and without leading zeros. */
  lemma {:induction false} DecimalIsDecimal(n: nat)
    ensures NumberIn(Decimal(n)) == n && (n > 0 ==> Decimal(n)[0] != 0x30)
  {
    if n >= 10 {
      DecimalIsDecimal(n / 10);
      assert Decimal(n)[..|Decimal(n)| - 1] == Decimal(n / 10);
    } else {
      assert Decimal(n)[..0] == [];
    }
  }
}
