/**
  The registry of src/cache.cpp: entries, the three indices over them, the
  current generation of each key, and the search for a candidate. Entries are
  shared objects there and positions in one growing list here; `published`
  records that an entry has been put into the indices.
 */
module CacheRegistry {
  import opened Bytes
  import opened Descriptors
  import opened Facts
  import opened Decide

  datatype Residency = MetadataOnly | PersistentStorage | HostResident | BackendResident

  /** The two lifecycle states the engine assigns. */
  datatype Lifecycle = Valid | Invalidated

  predicate ReplayEligible(l: Lifecycle) {
    l == Valid
  }

  datatype Entry = Entry(
    artifact: Id, graphId: Id, key: Text, facts: Facts, backend: Backend, generation: nat, cacheGeneration: nat, dependencyGeneration: nat,
    published: bool, invalidated: bool, lifecycle: Lifecycle, residency: Residency, exec: bool)

  datatype Registry = Registry(
    entries: seq<Entry>, byArtifact: map<Id, nat>, byKey: map<Text, seq<nat>>, byWorkload: map<Text, seq<nat>>,
    current: map<Text, nat>, graphGen: nat, cacheGen: nat)

  const EMPTY := Registry([], map[], map[], map[], map[], 1, 1)

  function WorkloadKey(w: Workload): Text {
    w.name + [BAR] + w.namespace
  }

  function Bucket(index: map<Text, seq<nat>>, k: Text): seq<nat> {
    if k in index then index[k] else []
  }

  // ----- searching -----

  predicate Published(r: Registry, n: nat) {
    n < |r.entries| && r.entries[n].published
  }

  /** `is_dependency_fresh`: dependencies of one name, where both sides count for correctness, have not moved on. */
  ghost predicate Fresh(captured: seq<KernelRef>, wanted: seq<KernelRef>) {
    forall i, j | 0 <= i < |wanted| && 0 <= j < |captured| && wanted[i].contributes && captured[j].contributes && captured[j].name == wanted[i].name ::
      captured[j].generation == wanted[i].generation && captured[j].digest == wanted[i].digest && captured[j].abi == wanted[i].abi
  }

  /** Neither invalidated nor superseded by a newer capture of its key. */
  predicate Selectable(r: Registry, n: nat) {
    && Published(r, n) && !r.entries[n].invalidated
    && r.entries[n].key in r.current && r.entries[n].generation == r.current[r.entries[n].key]
    && ReplayEligible(r.entries[n].lifecycle)
  }

  datatype Found = Found(n: nat, decision: Decision)

  datatype Scan = Scan(found: Option<Found>, incompatible: bool, stale: bool)

  const NOTHING := Scan(None, false, false)

  /** One candidate: a compatible one is taken if it is the first, and an exact one always. */
  ghost function Visit(r: Registry, q: Facts, p: Policy, s: Scan, n: nat): Scan {
    if !Selectable(r, n) then s
    else if !Fresh(r.entries[n].facts.dependencies, q.dependencies) then s.(stale := true)
    else
      var d := Decided(q, r.entries[n].facts, p);
      if !d.Compatible() then s.(incompatible := true)
      else if s.found.None? || d.klass == ExactCompatible then s.(found := Some(Found(n, d)))
      else s
  }

  ghost function ScanAll(r: Registry, q: Facts, p: Policy, ns: seq<nat>): Scan {
    if ns == [] then NOTHING else Visit(r, q, p, ScanAll(r, q, p, ns[..|ns| - 1]), ns[|ns| - 1])
  }

  datatype Outcome = Hit(found: Found) | MissIncompatible | MissStaleDependency | MissCaptureRequired

  function Conclude(s: Scan): Outcome {
    if s.found.Some? then Hit(s.found.value)
    else if s.incompatible then MissIncompatible
    else if s.stale then MissStaleDependency
    else MissCaptureRequired
  }

  ghost function Search(r: Registry, q: Facts, p: Policy): Outcome {
    Conclude(ScanAll(r, q, p, Bucket(r.byWorkload, WorkloadKey(q.workload))))
  }

  // ----- the indices agree with a full scan -----

  ghost predicate WorkloadIndexed(r: Registry) {
    forall w: Text, n: nat :: n in Bucket(r.byWorkload, w) <==> Published(r, n) && WorkloadKey(r.entries[n].facts.workload) == w
  }

  ghost predicate KeyIndexed(r: Registry) {
    forall k: Text, n: nat :: n in Bucket(r.byKey, k) <==> Published(r, n) && r.entries[n].key == k
  }

  ghost predicate ArtifactIndexed(r: Registry) {
    && (forall a | a in r.byArtifact :: Published(r, r.byArtifact[a]) && r.entries[r.byArtifact[a]].artifact == a)
    && (forall n: nat | Published(r, n) :: r.entries[n].artifact in r.byArtifact)
  }

  /** What a search should find: by workload name and namespace, over everything that was ever published. */
  ghost predicate Matches(r: Registry, q: Facts, p: Policy, n: nat) {
    && Selectable(r, n) && Fresh(r.entries[n].facts.dependencies, q.dependencies)
    && r.entries[n].facts.workload.name == q.workload.name && r.entries[n].facts.workload.namespace == q.workload.namespace
    && Decided(q, r.entries[n].facts, p).Compatible()
  }

  ghost predicate MatchesExactly(r: Registry, q: Facts, p: Policy, n: nat) {
    Matches(r, q, p, n) && Decided(q, r.entries[n].facts, p).klass == ExactCompatible
  }

  ghost predicate Usable(r: Registry, q: Facts, p: Policy, n: nat) {
    && Selectable(r, n) && Fresh(r.entries[n].facts.dependencies, q.dependencies) && Decided(q, r.entries[n].facts, p).Compatible()
  }

  ghost predicate Exact(r: Registry, q: Facts, p: Policy, n: nat) {
    Usable(r, q, p, n) && Decided(q, r.entries[n].facts, p).klass == ExactCompatible
  }

  ghost predicate AnyUsable(r: Registry, q: Facts, p: Policy, ns: seq<nat>) {
    exists n: nat :: n in ns && Usable(r, q, p, n)
  }

  ghost predicate AnyExact(r: Registry, q: Facts, p: Policy, ns: seq<nat>) {
    exists n: nat :: n in ns && Exact(r, q, p, n)
  }

  ghost predicate AnySelectable(r: Registry, ns: seq<nat>) {
    exists n: nat :: n in ns && Selectable(r, n)
  }

  lemma AnySnoc(r: Registry, q: Facts, p: Policy, ns: seq<nat>, x: nat)
    ensures AnyUsable(r, q, p, ns + [x]) <==> AnyUsable(r, q, p, ns) || Usable(r, q, p, x)
    ensures AnyExact(r, q, p, ns + [x]) <==> AnyExact(r, q, p, ns) || Exact(r, q, p, x)
    ensures AnySelectable(r, ns + [x]) <==> AnySelectable(r, ns) || Selectable(r, x)
  {
    hide Usable, Exact, Selectable;
    assert x in ns + [x];
    assert forall n: nat | n in ns :: n in ns + [x];
    assert forall n: nat | n in ns + [x] :: n in ns || n == x;
  }

  /** What the scan has found so far says what is in the part of the bucket it has seen. */
  ghost predicate Summarizes(r: Registry, q: Facts, p: Policy, ns: seq<nat>, s: Scan) {
    && (s.found.Some? <==> AnyUsable(r, q, p, ns))
    && (s.found.Some? ==>
          && s.found.value.n in ns && Usable(r, q, p, s.found.value.n)
          && s.found.value.decision == Decided(q, r.entries[s.found.value.n].facts, p))
    && (AnyExact(r, q, p, ns) ==> s.found.Some? && s.found.value.decision.klass == ExactCompatible)
    && (s != NOTHING <==> AnySelectable(r, ns))
  }

  lemma VisitSummarizes(r: Registry, q: Facts, p: Policy, ns: seq<nat>, s: Scan, x: nat)
    requires Summarizes(r, q, p, ns, s)
    ensures Summarizes(r, q, p, ns + [x], Visit(r, q, p, s, x))
  {
    hide Decided, Fresh, Selectable, AnyUsable, AnyExact, AnySelectable;
    AnySnoc(r, q, p, ns, x);
    assert x in ns + [x];
  }

  lemma {:induction false} ScanSummarizes(r: Registry, q: Facts, p: Policy, ns: seq<nat>)
    ensures Summarizes(r, q, p, ns, ScanAll(r, q, p, ns))
  {
    hide Visit, Usable, Exact, Selectable;
    if ns != [] {
      var n := |ns| - 1;
      ScanSummarizes(r, q, p, ns[..n]);
      VisitSummarizes(r, q, p, ns[..n], ScanAll(r, q, p, ns[..n]), ns[n]);
      assert ns[..n] + [ns[n]] == ns;
    }
  }

  /** One name and one joined key leave one namespace. */
  lemma NamespaceOfKey(a: Workload, b: Workload)
    requires WorkloadKey(a) == WorkloadKey(b) && a.name == b.name
    ensures a.namespace == b.namespace
  {
    var n := |a.name| + 1;
    assert a.namespace == WorkloadKey(a)[n..] && b.namespace == WorkloadKey(b)[n..];
  }

  lemma AcceptsName(q: Facts, c: Facts, p: Policy)
    requires Decided(q, c, p).Compatible()
    ensures q.workload.name == c.workload.name
  {
    hide AllReasons, Decide.Verdict;
  }

  /** Joined keys of different workloads can be equal, but then their names differ and the decision refuses the entry. */
  lemma BucketMatches(r: Registry, q: Facts, p: Policy, n: nat)
    requires WorkloadIndexed(r)
    ensures n in Bucket(r.byWorkload, WorkloadKey(q.workload)) && Usable(r, q, p, n) <==> Matches(r, q, p, n)
  {
    hide Decided, Fresh, Bucket;
    if Usable(r, q, p, n) {
      AcceptsName(q, r.entries[n].facts, p);
      if n in Bucket(r.byWorkload, WorkloadKey(q.workload)) {
        NamespaceOfKey(r.entries[n].facts.workload, q.workload);
      }
    }
  }

  /**
    A search over the workload index hits exactly when a full scan would find
    a match; what it returns is a match, and an exact one whenever there is one.
   */
  lemma SearchIsFullScan(r: Registry, q: Facts, p: Policy)
    requires WorkloadIndexed(r)
    ensures Search(r, q, p).Hit? <==> exists n: nat :: Matches(r, q, p, n)
    ensures Search(r, q, p).Hit? ==>
              var f := Search(r, q, p).found;
              Matches(r, q, p, f.n) && f.decision == Decided(q, r.entries[f.n].facts, p)
    ensures (exists n: nat :: MatchesExactly(r, q, p, n)) ==>
              Search(r, q, p).Hit? && Search(r, q, p).found.decision.klass == ExactCompatible
  {
    hide Decided, Fresh, Selectable, Bucket, ScanAll, WorkloadIndexed, Matches, Usable;
    var ns := Bucket(r.byWorkload, WorkloadKey(q.workload));
    var s := ScanAll(r, q, p, ns);
    ScanSummarizes(r, q, p, ns);
    forall n: nat
      ensures n in ns && Usable(r, q, p, n) <==> Matches(r, q, p, n)
    {
      BucketMatches(r, q, p, n);
    }
    if n: nat :| MatchesExactly(r, q, p, n) {
      assert n in ns && Exact(r, q, p, n);
    }
  }

  /** A capture is asked for exactly when nothing selectable has the request's joined workload key. */
  lemma CaptureRequiredExactly(r: Registry, q: Facts, p: Policy)
    requires WorkloadIndexed(r)
    ensures Search(r, q, p) == MissCaptureRequired <==>
              forall n: nat | Selectable(r, n) :: WorkloadKey(r.entries[n].facts.workload) != WorkloadKey(q.workload)
  {
    hide Decided, Fresh, Bucket, ScanAll, WorkloadKey, Usable, Exact;
    var w := WorkloadKey(q.workload);
    var ns := Bucket(r.byWorkload, w);
    ScanSummarizes(r, q, p, ns);
    forall n: nat | Selectable(r, n)
      ensures n in ns <==> WorkloadKey(r.entries[n].facts.workload) == w
    {
    }
  }

  /** Of the entries at these positions, the one taken is the last exact one, and without one the first that is usable. */
  ghost predicate Taken(r: Registry, q: Facts, p: Policy, ns: seq<nat>, i: nat) {
    && i < |ns| && Usable(r, q, p, ns[i])
    && (Exact(r, q, p, ns[i]) ==> forall j | i < j < |ns| :: !Exact(r, q, p, ns[j]))
    && (!Exact(r, q, p, ns[i]) ==>
          && (forall j | 0 <= j < |ns| :: !Exact(r, q, p, ns[j]))
          && (forall j | 0 <= j < i :: !Usable(r, q, p, ns[j])))
  }

  ghost predicate Takes(r: Registry, q: Facts, p: Policy, ns: seq<nat>, n: nat) {
    exists i: nat :: Taken(r, q, p, ns, i) && ns[i] == n
  }

  lemma TakesSnoc(r: Registry, q: Facts, p: Policy, ns: seq<nat>, x: nat, n: nat)
    requires Takes(r, q, p, ns, n) && !Exact(r, q, p, x)
    ensures Takes(r, q, p, ns + [x], n)
  {
    hide Usable, Exact;
    var i: nat :| Taken(r, q, p, ns, i) && ns[i] == n;
    assert Taken(r, q, p, ns + [x], i);
  }

  lemma {:induction false} ScanTakes(r: Registry, q: Facts, p: Policy, ns: seq<nat>)
    ensures ScanAll(r, q, p, ns).found.Some? ==> Takes(r, q, p, ns, ScanAll(r, q, p, ns).found.value.n)
  {
    hide Decided, Fresh, Selectable, Takes, ScanAll, Summarizes;
    if ns != [] {
      var last := |ns| - 1;
      var front, x := ns[..last], ns[last];
      var s := ScanAll(r, q, p, front);
      ScanStep(r, q, p, ns);
      ScanTakes(r, q, p, front);
      ScanFinds(r, q, p, front);
      assert ns == front + [x];
      if Exact(r, q, p, x) || (s.found.None? && Usable(r, q, p, x)) {
        TakesLast(r, q, p, front, x);
      } else if s.found.Some? {
        TakesSnoc(r, q, p, front, x, s.found.value.n);
      }
    } else {
      ScanStep(r, q, p, ns);
    }
  }

  lemma ScanStep(r: Registry, q: Facts, p: Policy, ns: seq<nat>)
    ensures ns == [] ==> ScanAll(r, q, p, ns) == NOTHING
    ensures ns != [] ==> ScanAll(r, q, p, ns) == Visit(r, q, p, ScanAll(r, q, p, ns[..|ns| - 1]), ns[|ns| - 1])
  {
  }

  lemma ScanFinds(r: Registry, q: Facts, p: Policy, ns: seq<nat>)
    ensures ScanAll(r, q, p, ns).found.None? ==> forall i | 0 <= i < |ns| :: !Usable(r, q, p, ns[i])
  {
    hide ScanAll, Usable, Exact;
    ScanSummarizes(r, q, p, ns);
  }

  lemma TakesLast(r: Registry, q: Facts, p: Policy, ns: seq<nat>, x: nat)
    requires Exact(r, q, p, x) || (Usable(r, q, p, x) && forall i | 0 <= i < |ns| :: !Usable(r, q, p, ns[i]))
    ensures Takes(r, q, p, ns + [x], x)
  {
    hide Decided, Fresh, Selectable;
    assert Taken(r, q, p, ns + [x], |ns|);
  }

  /** A hit takes, of the entries of its workload key in the order they were published, the last exact one or else the first usable one. */
  lemma HitTakes(r: Registry, q: Facts, p: Policy)
    requires Search(r, q, p).Hit?
    ensures Takes(r, q, p, Bucket(r.byWorkload, WorkloadKey(q.workload)), Search(r, q, p).found.n)
  {
    hide Takes, ScanAll;
    ScanTakes(r, q, p, Bucket(r.byWorkload, WorkloadKey(q.workload)));
  }

  /** What can be selected for the request, by the joined key of its workload. */
  ghost predicate Candidate(r: Registry, q: Facts, n: nat) {
    Selectable(r, n) && WorkloadKey(r.entries[n].facts.workload) == WorkloadKey(q.workload)
  }

  ghost predicate AnyRefused(r: Registry, q: Facts, p: Policy, ns: seq<nat>) {
    exists n: nat :: n in ns && Refused(r, q, p, n)
  }

  ghost predicate Refused(r: Registry, q: Facts, p: Policy, n: nat) {
    Selectable(r, n) && Fresh(r.entries[n].facts.dependencies, q.dependencies) && !Decided(q, r.entries[n].facts, p).Compatible()
  }

  lemma {:induction false} RefusedScan(r: Registry, q: Facts, p: Policy, ns: seq<nat>)
    ensures ScanAll(r, q, p, ns).incompatible <==> AnyRefused(r, q, p, ns)
  {
    hide Decided, Fresh, Selectable;
    if ns != [] {
      var front, x := ns[..|ns| - 1], ns[|ns| - 1];
      RefusedScan(r, q, p, front);
      RefusedSnoc(r, q, p, front, x);
      assert ns == front + [x];
    }
  }

  lemma RefusedSnoc(r: Registry, q: Facts, p: Policy, ns: seq<nat>, x: nat)
    ensures AnyRefused(r, q, p, ns + [x]) <==> AnyRefused(r, q, p, ns) || Refused(r, q, p, x)
  {
    hide Refused;
    assert x in ns + [x];
    assert forall n: nat | n in ns :: n in ns + [x];
    assert forall n: nat | n in ns + [x] :: n in ns || n == x;
  }

  /**
    Without a hit, a candidate that is up to date is reported as incompatible;
    a stale dependency is reported only when every candidate has one.
   */
  lemma MissesExactly(r: Registry, q: Facts, p: Policy)
    requires WorkloadIndexed(r) && !Search(r, q, p).Hit?
    ensures Search(r, q, p) == MissIncompatible <==>
              exists n: nat :: Candidate(r, q, n) && Fresh(r.entries[n].facts.dependencies, q.dependencies)
    ensures Search(r, q, p) == MissStaleDependency <==>
              && (exists n: nat :: Candidate(r, q, n))
              && forall n: nat | Candidate(r, q, n) :: !Fresh(r.entries[n].facts.dependencies, q.dependencies)
  {
    hide Decided, Fresh, Selectable, Bucket, ScanAll, WorkloadKey;
    var ns := Bucket(r.byWorkload, WorkloadKey(q.workload));
    ScanSummarizes(r, q, p, ns);
    RefusedScan(r, q, p, ns);
    CaptureRequiredExactly(r, q, p);
    forall n: nat | Selectable(r, n)
      ensures n in ns <==> Candidate(r, q, n)
    {
      SelectablePublished(r, n);
    }
  }

  /** The four answers by the candidates. */
  lemma CandidatesDecide(r: Registry, q: Facts, p: Policy)
    requires WorkloadIndexed(r)
    ensures Search(r, q, p) == MissCaptureRequired <==> !exists n: nat :: Candidate(r, q, n)
    ensures Search(r, q, p) == MissStaleDependency <==>
              && (exists n: nat :: Candidate(r, q, n))
              && forall n: nat | Candidate(r, q, n) :: !Fresh(r.entries[n].facts.dependencies, q.dependencies)
    ensures Search(r, q, p) == MissIncompatible <==>
              && !Search(r, q, p).Hit?
              && exists n: nat :: Candidate(r, q, n) && Fresh(r.entries[n].facts.dependencies, q.dependencies)
  {
    hide Decided, Fresh, Selectable, Search, WorkloadIndexed;
    CaptureRequiredExactly(r, q, p);
    SearchIsFullScan(r, q, p);
    if Search(r, q, p).Hit? {
      assert Candidate(r, q, Search(r, q, p).found.n);
    } else {
      MissesExactly(r, q, p);
    }
  }

  lemma SelectablePublished(r: Registry, n: nat)
    requires Selectable(r, n)
    ensures Published(r, n)
  {
  }

  /** Workloads of different names whose joined keys are equal. */
  predicate Collide(v: Workload, w: Workload) {
    WorkloadKey(v) == WorkloadKey(w) && v.name != w.name
  }

  /** No selectable entry is of a workload of this name. */
  ghost predicate NoneNamed(r: Registry, name: Text) {
    forall m: nat | Selectable(r, m) :: r.entries[m].facts.workload.name != name
  }

  /**
    So a workload can be kept from ever being captured by another one. While an
    entry of a colliding workload is selectable and none of the request's own
    is, the search neither hits nor asks for a capture, under any policy.
   */
  lemma CollisionBlocksCapture(r: Registry, q: Facts, p: Policy, n: nat)
    requires WorkloadIndexed(r) && Selectable(r, n) && Collide(r.entries[n].facts.workload, q.workload)
    requires NoneNamed(r, q.workload.name)
    ensures Search(r, q, p) == MissIncompatible || Search(r, q, p) == MissStaleDependency
  {
    hide Decided, Fresh, Bucket, ScanAll, WorkloadKey, WorkloadIndexed, Selectable;
    CaptureRequiredExactly(r, q, p);
    SearchIsFullScan(r, q, p);
  }

  /** And there are such workloads for any three texts: `a|b` in `c` collides with `a` in `b|c`. */
  lemma WorkloadsCollide(v: Workload, w: Workload, a: Text, b: Text, c: Text)
    requires v.name == a + [BAR] + b && v.namespace == c && w.name == a && w.namespace == b + [BAR] + c
    ensures Collide(v, w)
  {
    assert WorkloadKey(v) == a + [BAR] + b + [BAR] + c == WorkloadKey(w);
    assert |v.name| > |w.name|;
  }
}
