/**
  When a graph captured for one request serves another, said on the two
  requests themselves: what of a request decides whether it is accepted,
  whether its dependencies are up to date, and which key it has.
 */
module RequestFields {
  import opened Bytes
  import opened Descriptors
  import opened TopologyCodec
  import opened Facts
  import opened FactsCodec
  import opened Decide
  import opened DecideFields
  import opened CacheRegistry

  // ----- what the nodes of a request contribute -----

  function Dtypes(ns: seq<Node>): (r: seq<u32>)
    ensures |r| == |ns|
  {
    seq(|ns|, i requires 0 <= i < |ns| => ns[i].dtype)
  }

  function Layouts(ns: seq<Node>): (r: seq<u32>)
    ensures |r| == |ns|
  {
    seq(|ns|, i requires 0 <= i < |ns| => ns[i].layout)
  }

  function Shapes(ns: seq<Node>): (r: seq<Shape>)
    ensures |r| == |ns|
  {
    seq(|ns|, i requires 0 <= i < |ns| => ns[i].shape)
  }

  /** The binding of the last typed node. */
  function LastBinding(ns: seq<Node>): Binding {
    var ts := Typed(ns);
    if ts == [] then DEFAULT_BINDING else ts[|ts| - 1].binding
  }

  /** The greatest alignment that a node asks for. */
  function Greatest(ts: seq<Node>): u64 {
    if |ts| == 0 then 128
    else if |ts| == 1 then ts[0].requiredAlignment
    else
      var before, a := Greatest(ts[..|ts| - 1]), ts[|ts| - 1].requiredAlignment;
      if before < a then a else before
  }

  /** What a scan over the nodes of a request leaves, read off the nodes. */
  ghost predicate ScansTo(nodes: seq<Node>, f: Facts) {
    var ts := Typed(nodes);
    && f.dtypes == Dtypes(ts) && f.layouts == Layouts(ts) && f.inputShapes == Shapes(ts) && f.outputShapes == []
    && f.scalar == LastScalar(nodes) && f.quant == LastQuant(nodes) && f.binding == LastBinding(nodes)
    && f.requiredAlignment == Greatest(ts) && f.memorySchema == LastBinding(nodes).schema
  }

  lemma {:induction false} GreatestOfTyped(nodes: seq<Node>)
    ensures TensorsOf(nodes).align == Greatest(Typed(nodes)) && (TensorsOf(nodes).typed <==> Typed(nodes) != [])
  {
    if nodes != [] {
      var n, before := nodes[|nodes| - 1], nodes[..|nodes| - 1];
      GreatestOfTyped(before);
      assert n.dtype != DTYPE_NONE ==> Typed(nodes)[..|Typed(nodes)| - 1] == Typed(before);
    }
  }

  lemma RequestScans(q: Request)
    ensures ScansTo(q.descriptor.nodes, FactsOfRequest(q))
  {
    hide TensorsOf, Typed, LastScalar, LastQuant, Greatest, CanonicalTopology;
    var nodes, f := q.descriptor.nodes, FactsOfRequest(q);
    TensorsListed(nodes);
    GreatestOfTyped(nodes);
    assert f.dtypes == Dtypes(Typed(nodes));
    assert f.layouts == Layouts(Typed(nodes));
    assert f.inputShapes == Shapes(Typed(nodes));
  }

  // ----- acceptance -----

  /** A graph captured for the second request fails the first one in this domain. */
  ghost predicate RequestFails(d: Domain, q: Request, c: Request, p: Policy) {
    var a, b := q.descriptor, c.descriptor;
    match d
    case IncompatibleWorkload => q.workload.name != c.workload.name
    case PolicyRejected => p.namespaceFilter != [] && q.workload.namespace != p.namespaceFilter
    case IncompatibleBackend =>
      || q.backend.kind != c.backend.kind || q.backend.name != c.backend.name
      || (p.exactBackend && q.backend.version != c.backend.version)
    case IncompatibleArchitecture =>
      || q.device.vendor != c.device.vendor || q.device.architecture != c.device.architecture
      || (p.exactArchitecture && q.device.computeMajor != c.device.computeMajor)
      || (p.exactArchitecture && q.device.computeMinor != c.device.computeMinor)
    case IncompatibleRuntime => p.exactRuntime && q.runtime.version != c.runtime.version
    case IncompatibleDriver => q.runtime.driver != c.runtime.driver
    case IncompatibleGraphAbi => p.exactAbis && q.runtime.graphAbi != c.runtime.graphAbi
    case IncompatibleKernelAbi => p.exactAbis && q.runtime.kernelAbi != c.runtime.kernelAbi
    case IncompatibleCaptureMode => a.sync.captureMode != b.sync.captureMode
    case IncompatibleStreamSemantics => a.sync.streamSemantics != b.sync.streamSemantics
    case IncompatibleTopology => p.exactTopology && CanonicalTopology(a.nodes, a.edges) != CanonicalTopology(b.nodes, b.edges)
    case IncompatibleDependency => p.exactDependencies && Unsupplied(a.dependencies, b.dependencies)
    case IncompatibleDatatype => Dtypes(Typed(a.nodes)) != Dtypes(Typed(b.nodes))
    case IncompatibleLayout => Layouts(Typed(a.nodes)) != Layouts(Typed(b.nodes))
    case IncompatibleSpecialization => !SameScalar(LastScalar(a.nodes), LastScalar(b.nodes))
    case IncompatibleQuantization => LastQuant(a.nodes) != LastQuant(b.nodes)
    case IncompatibleAlignment => Greatest(Typed(a.nodes)) != Greatest(Typed(b.nodes)) && !Rebindable(LastBinding(b.nodes), p)
    case IncompatibleMemoryBinding =>
      && Greatest(Typed(a.nodes)) == Greatest(Typed(b.nodes)) && !Rebindable(LastBinding(b.nodes), p)
      && !SameBinding(0, LastBinding(a.nodes), 0, LastBinding(b.nodes))
    case IncompatibleShape =>
      Shapes(Typed(a.nodes)) != Shapes(Typed(b.nodes)) && !ShapesServe(Shapes(Typed(a.nodes)), Shapes(Typed(b.nodes)), p)
    case IncompatibleModelRevision =>
      !(q.workload.modelRevision == [] || c.workload.modelRevision == [] || q.workload.modelRevision == c.workload.modelRevision || p.laxModelRevision)
  }

  /** Neither is specialised, or both are, to one integer and one number. */
  predicate SameScalar(a: Scalar, b: Scalar) {
    || (!a.specialized && !b.specialized)
    || (&& a.specialized && b.specialized && a.intValue == b.intValue
        && !NotANumber(a.floatBits) && !NotANumber(b.floatBits)
        && (a.floatBits == b.floatBits || (IsZero(a.floatBits) && IsZero(b.floatBits))))
  }

  lemma FailsOnRequests(d: Domain, q: Request, c: Request, p: Policy)
    ensures FailsOn(d, FactsOfRequest(q), FactsOfRequest(c), p) <==> RequestFails(d, q, c, p)
  {
    hide TensorsOf, Typed, LastScalar, LastQuant, LastBinding, Greatest, CanonicalTopology, Unsupplied, ShapesServe, NotANumber, IsZero;
    RequestScans(q);
    RequestScans(c);
  }

  /** A request is accepted against the facts of another exactly when no comparison of the two requests fails. */
  lemma RequestAcceptedExactly(q: Request, c: Request, p: Policy)
    ensures Decided(FactsOfRequest(q), FactsOfRequest(c), p).Compatible() <==> forall d: Domain :: !RequestFails(d, q, c, p)
  {
    hide FailsOn, RequestFails, Decided, FactsOfRequest;
    AcceptedExactly(FactsOfRequest(q), FactsOfRequest(c), p);
    forall d: Domain
      ensures FailsOn(d, FactsOfRequest(q), FactsOfRequest(c), p) <==> RequestFails(d, q, c, p)
    {
      FailsOnRequests(d, q, c, p);
    }
  }

  // ----- dependencies -----

  /** The requests count a dependency of one name in different generations, with different digests or ABIs. */
  ghost predicate MovedOn(q: Request, c: Request) {
    exists i, j ::
      && 0 <= i < |q.descriptor.dependencies| && 0 <= j < |c.descriptor.dependencies|
      && var k, was := q.descriptor.dependencies[i], c.descriptor.dependencies[j];
         && k.contributes && was.contributes && k.name == was.name
         && (k.generation != was.generation || k.digest != was.digest || k.abi != was.abi)
  }

  lemma FreshExactly(q: Request, c: Request)
    ensures Fresh(FactsOfRequest(c).dependencies, FactsOfRequest(q).dependencies) <==> !MovedOn(q, c)
  {
    hide TensorsOf, CanonicalTopology;
  }

  // ----- the answer to a request -----

  /** Every entry was captured for one of these requests. */
  ghost predicate CapturedFrom(r: Registry, cs: seq<Request>) {
    |cs| == |r.entries| && forall n | 0 <= n < |cs| :: r.entries[n].facts == FactsOfRequest(cs[n])
  }

  /** The entry is selectable and was captured for a workload of the same joined name. */
  ghost predicate Offered(r: Registry, cs: seq<Request>, q: Request, n: nat) {
    && n < |cs| && Selectable(r, n)
    && cs[n].workload.name + [BAR] + cs[n].workload.namespace == q.workload.name + [BAR] + q.workload.namespace
  }

  lemma OfferedIsCandidate(r: Registry, cs: seq<Request>, q: Request, n: nat)
    requires CapturedFrom(r, cs)
    ensures Offered(r, cs, q, n) <==> Candidate(r, FactsOfRequest(q), n)
    ensures Offered(r, cs, q, n) ==> (Fresh(r.entries[n].facts.dependencies, FactsOfRequest(q).dependencies) <==> !MovedOn(q, cs[n]))
  {
    hide TensorsOf, CanonicalTopology, Fresh, MovedOn;
    if n < |cs| {
      FreshExactly(q, cs[n]);
    }
  }

  lemma OfferedMatches(r: Registry, cs: seq<Request>, q: Request, p: Policy, n: nat)
    requires CapturedFrom(r, cs)
    ensures Matches(r, FactsOfRequest(q), p, n) <==>
              Offered(r, cs, q, n) && !MovedOn(q, cs[n]) && forall d: Domain :: !RequestFails(d, q, cs[n], p)
  {
    hide TensorsOf, CanonicalTopology, Fresh, MovedOn, Decided, Typed, LastScalar, LastQuant, LastBinding, Greatest, Unsupplied;
    OfferedIsCandidate(r, cs, q, n);
    if n < |cs| {
      var c := cs[n];
      RequestAcceptedExactly(q, c, p);
      if forall d: Domain :: !RequestFails(d, q, c, p) {
        assert !RequestFails(IncompatibleWorkload, q, c, p);
        if Offered(r, cs, q, n) {
          NamespaceOfKey(c.workload, q.workload);
        }
      }
    }
  }

  /**
    What a request is answered, on the requests that the entries were captured
    for: a hit if something selectable of its workload is up to date and passes
    every comparison, else a refusal if something is up to date, else a stale
    dependency if there is anything, and else a capture is required.
   */
  lemma AnsweredExactly(r: Registry, cs: seq<Request>, q: Request, p: Policy)
    requires WorkloadIndexed(r) && CapturedFrom(r, cs)
    ensures var answer := Search(r, FactsOfRequest(q), p);
            && (answer.Hit? <==> exists n: nat :: Offered(r, cs, q, n) && !MovedOn(q, cs[n]) && forall d: Domain :: !RequestFails(d, q, cs[n], p))
            && (answer.Hit? ==> var n := answer.found.n; Offered(r, cs, q, n) && !MovedOn(q, cs[n]) && forall d: Domain :: !RequestFails(d, q, cs[n], p))
            && (answer == MissIncompatible <==> !answer.Hit? && exists n: nat :: Offered(r, cs, q, n) && !MovedOn(q, cs[n]))
            && (answer == MissStaleDependency <==>
                  (exists n: nat :: Offered(r, cs, q, n)) && forall n: nat | Offered(r, cs, q, n) :: MovedOn(q, cs[n]))
            && (answer == MissCaptureRequired <==> !exists n: nat :: Offered(r, cs, q, n))
  {
    hide Search, FactsOfRequest, Decided, Selectable, WorkloadIndexed, Fresh, MovedOn, RequestFails, WorkloadKey;
    var f := FactsOfRequest(q);
    SearchIsFullScan(r, f, p);
    CandidatesDecide(r, f, p);
    forall n: nat
      ensures Offered(r, cs, q, n) <==> Candidate(r, f, n)
      ensures Offered(r, cs, q, n) ==> (Fresh(r.entries[n].facts.dependencies, f.dependencies) <==> !MovedOn(q, cs[n]))
      ensures Matches(r, f, p, n) <==> Offered(r, cs, q, n) && !MovedOn(q, cs[n]) && forall d: Domain :: !RequestFails(d, q, cs[n], p)
    {
      OfferedIsCandidate(r, cs, q, n);
      OfferedMatches(r, cs, q, p, n);
    }
  }

  // ----- a request and its own capture -----

  /** Two counting dependencies of one name that differ in generation, digest or ABI. */
  ghost predicate Clash(ks: seq<KernelRef>) {
    exists i, j ::
      && 0 <= i < |ks| && 0 <= j < |ks| && ks[i].contributes && ks[j].contributes && ks[i].name == ks[j].name
      && (ks[i].generation != ks[j].generation || ks[i].digest != ks[j].digest || ks[i].abi != ks[j].abi)
  }

  lemma ClashMovesOn(q: Request)
    ensures MovedOn(q, q) <==> Clash(q.descriptor.dependencies)
  {
    var ks := q.descriptor.dependencies;
    if Clash(ks) {
      var i, j :| 0 <= i < |ks| && 0 <= j < |ks| && ks[i].contributes && ks[j].contributes && ks[i].name == ks[j].name
        && (ks[i].generation != ks[j].generation || ks[i].digest != ks[j].digest || ks[i].abi != ks[j].abi);
      assert q.descriptor.dependencies[i] == ks[i] && q.descriptor.dependencies[j] == ks[j];
    }
  }

  lemma SelfSupplied(ks: seq<KernelRef>)
    ensures !Unsupplied(ks, ks)
  {
  }

  lemma SelfFails(d: Domain, q: Request, p: Policy)
    ensures RequestFails(d, q, q, p) <==>
              || (d == PolicyRejected && p.namespaceFilter != [] && q.workload.namespace != p.namespaceFilter)
              || (d == IncompatibleSpecialization && LastScalar(q.descriptor.nodes).specialized
                  && NotANumber(LastScalar(q.descriptor.nodes).floatBits))
  {
    hide Unsupplied, NotANumber, IsZero, LastScalar, LastQuant, LastBinding, Typed, Greatest, CanonicalTopology, Rebindable, ShapesServe;
    SelfSupplied(q.descriptor.dependencies);
  }

  /**
    A capture serves the very request it was made for exactly when the request
    does not count two versions of one dependency, does not keep a NaN as its
    specialised scalar, and passes the policy's namespace filter.
   */
  lemma OwnCaptureServes(q: Request, p: Policy)
    ensures !MovedOn(q, q) && (forall d: Domain :: !RequestFails(d, q, q, p)) <==>
              && !Clash(q.descriptor.dependencies)
              && !(LastScalar(q.descriptor.nodes).specialized && NotANumber(LastScalar(q.descriptor.nodes).floatBits))
              && (p.namespaceFilter == [] || q.workload.namespace == p.namespaceFilter)
  {
    hide RequestFails, MovedOn, Clash, NotANumber, LastScalar;
    ClashMovesOn(q);
    SelfFails(PolicyRejected, q, p);
    SelfFails(IncompatibleSpecialization, q, p);
    forall d: Domain
      ensures RequestFails(d, q, q, p) <==>
                || (d == PolicyRejected && p.namespaceFilter != [] && q.workload.namespace != p.namespaceFilter)
                || (d == IncompatibleSpecialization && LastScalar(q.descriptor.nodes).specialized
                    && NotANumber(LastScalar(q.descriptor.nodes).floatBits))
    {
      SelfFails(d, q, p);
    }
  }

  /** So a request that counts two versions of one dependency is told that its own captures are stale, however many there are. */
  lemma OwnCaptureIsStale(r: Registry, cs: seq<Request>, q: Request, p: Policy, n: nat)
    requires WorkloadIndexed(r) && CapturedFrom(r, cs) && Clash(q.descriptor.dependencies) && Offered(r, cs, q, n)
    requires forall m: nat | Offered(r, cs, q, m) :: cs[m] == q
    ensures Search(r, FactsOfRequest(q), p) == MissStaleDependency
  {
    hide Search, FactsOfRequest, Selectable, WorkloadIndexed, MovedOn, RequestFails, Clash;
    ClashMovesOn(q);
    AnsweredExactly(r, cs, q, p);
  }

  /** Two counting versions of one kernel are such a pair. */
  lemma TwoVersionsClash(name: Text, digest: Text)
    ensures Clash([NO_KERNEL.(name := name, digest := digest, generation := 1), NO_KERNEL.(name := name, digest := digest, generation := 2)])
  {
    var ks := [NO_KERNEL.(name := name, digest := digest, generation := 1), NO_KERNEL.(name := name, digest := digest, generation := 2)];
    assert ks[0].name == ks[1].name && ks[0].generation != ks[1].generation;
  }

  // ----- keys -----

  /** What two requests with one key agree in. */
  ghost predicate KeyedAlike(q: Request, c: Request) {
    var a, b := q.descriptor, c.descriptor;
    && q.workload == c.workload && q.backend == c.backend && q.device == c.device
    && q.runtime.(driverText := []) == c.runtime.(driverText := [])
    && a.sync.captureMode == b.sync.captureMode && a.sync.streamSemantics == b.sync.streamSemantics
    && CanonicalTopology(a.nodes, a.edges) == CanonicalTopology(b.nodes, b.edges)
    && Dtypes(Typed(a.nodes)) == Dtypes(Typed(b.nodes)) && Layouts(Typed(a.nodes)) == Layouts(Typed(b.nodes))
    && Shapes(Typed(a.nodes)) == Shapes(Typed(b.nodes))
    && LastScalar(a.nodes) == LastScalar(b.nodes) && LastQuant(a.nodes) == LastQuant(b.nodes) && LastBinding(a.nodes) == LastBinding(b.nodes)
    && Greatest(Typed(a.nodes)) == Greatest(Typed(b.nodes))
    && NormalKernels(a.dependencies) == NormalKernels(b.dependencies)
  }

  lemma {:induction false} LastIsNormal(nodes: seq<Node>)
    ensures NormalScalar(LastScalar(nodes)) == LastScalar(nodes) && NormalQuant(LastQuant(nodes)) == LastQuant(nodes)
  {
    if nodes != [] {
      LastIsNormal(nodes[..|nodes| - 1]);
    }
  }

  /** Two requests are keyed by the same bytes exactly when they agree in all of it. */
  lemma SameKeyExactly(q: Request, c: Request)
    requires |EncodeFacts(FactsOfRequest(q))| < TWO_32
    ensures EncodeFacts(FactsOfRequest(q)) == EncodeFacts(FactsOfRequest(c)) <==> KeyedAlike(q, c)
  {
    hide EncodeFacts, TensorsOf, Typed, LastScalar, LastQuant, LastBinding, Greatest, CanonicalTopology, NormalKernels, NormalScalar, NormalQuant;
    EncodeFactsInjective(FactsOfRequest(q), FactsOfRequest(c));
    RequestScans(q);
    RequestScans(c);
    LastIsNormal(q.descriptor.nodes);
    LastIsNormal(c.descriptor.nodes);
  }
}
