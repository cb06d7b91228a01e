/**
  What the engine of src/cache.cpp does to its registry, one critical section
  or atomic access at a time, and the invariants every such move keeps.
 */
module CacheMoves {
  import opened Bytes
  import opened Descriptors
  import opened Facts
  import opened Decide
  import opened CacheRegistry

  datatype Move =
    | Number                              // graph_generation_counter.fetch_add(1)
    | Build(entry: Entry)                 // a captured entry, not yet visible to anyone else
    | Publish(n: nat)                     // into the three indices, under registry_mutex
    | BumpCache                           // cache_generation.fetch_add(1)
    | Mark(n: nat)                        // one target of an invalidation
    | Materialize(n: nat, captured: bool) // under entry_mutex
    | Unload(n: nat)                      // evict, unload, and strong invalidation

  /** An entry as `capture_graph` makes it. */
  predicate Captured(e: Entry) {
    !e.published && !e.invalidated && e.lifecycle == Valid && e.residency == HostResident && e.exec
  }

  predicate Enabled(r: Registry, m: Move) {
    match m
    case Build(e) => Captured(e)
    case Publish(n) => n < |r.entries| && !r.entries[n].published
    case Mark(n) => Published(r, n)
    case Materialize(n, _) => Published(r, n)
    case Unload(n) => Published(r, n)
    case _ => true
  }

  function Put(r: Registry, n: nat, e: Entry): Registry
    requires n < |r.entries|
  {
    r.(entries := r.entries[n := e])
  }

  function Add(index: map<Text, seq<nat>>, k: Text, n: nat): map<Text, seq<nat>> {
    index[k := Bucket(index, k) + [n]]
  }

  function Apply(r: Registry, m: Move): Registry
    requires Enabled(r, m)
  {
    match m
    case Number => r.(graphGen := r.graphGen + 1)
    case Build(e) => r.(entries := r.entries + [e])
    case Publish(n) =>
      var e := r.entries[n];
      Put(r, n, e.(published := true)).(
        byArtifact := r.byArtifact[e.artifact := n], byKey := Add(r.byKey, e.key, n),
        byWorkload := Add(r.byWorkload, WorkloadKey(e.facts.workload), n), current := r.current[e.key := e.generation])
    case BumpCache => r.(cacheGen := r.cacheGen + 1)
    case Mark(n) =>
      if r.entries[n].invalidated then r
      else Put(r, n, r.entries[n].(invalidated := true, lifecycle := Invalidated)).(graphGen := r.graphGen + 1)
    case Materialize(n, captured) =>
      if r.entries[n].exec || !captured then r else Put(r, n, r.entries[n].(exec := true, residency := HostResident))
    case Unload(n) =>
      if r.entries[n].residency == BackendResident then Put(r, n, r.entries[n].(residency := PersistentStorage)) else r
  }

  // ----- invariants -----

  /** The counter runs ahead of the entries, and every key with a live entry has a current generation. */
  ghost predicate Generations(r: Registry) {
    && (forall n: nat | Published(r, n) :: r.entries[n].generation < r.graphGen)
    && (forall k | k in r.current :: r.current[k] < r.graphGen)
    && (forall n: nat | Published(r, n) && !r.entries[n].invalidated :: r.entries[n].key in r.current)
  }

  /** A key's current generation is the greatest published for it: kept by every move, but not by every recovery. */
  ghost predicate InOrder(r: Registry) {
    && (forall n: nat | Published(r, n) && r.entries[n].key in r.current :: r.entries[n].generation <= r.current[r.entries[n].key])
    && (forall n: nat, m: nat | Published(r, n) && Published(r, m) && n != m && r.entries[n].key == r.entries[m].key ::
          r.entries[n].generation != r.entries[m].generation)
  }

  /** An executable is there exactly when the entry is host resident; nothing else is ever resident. */
  predicate Resident(e: Entry) {
    && (e.exec <==> e.residency == HostResident) && (e.residency == HostResident || e.residency == MetadataOnly)
    && (e.invalidated <==> e.lifecycle == Invalidated)
  }

  ghost predicate Residents(r: Registry) {
    forall n: nat | n < |r.entries| :: Resident(r.entries[n])
  }

  /** Equal artifact identities imply equal keys. */
  ghost predicate OneKeyPerArtifact(r: Registry) {
    forall n: nat, m: nat | Published(r, n) && Published(r, m) && r.entries[n].artifact == r.entries[m].artifact ::
      r.entries[n].key == r.entries[m].key
  }

  /** The artifact index points at the newest entry of each artifact. */
  ghost predicate NewestInSlot(r: Registry) {
    forall n: nat | Published(r, n) ::
      && r.entries[n].artifact in r.byArtifact && r.byArtifact[r.entries[n].artifact] < |r.entries|
      && r.entries[n].generation <= r.entries[r.byArtifact[r.entries[n].artifact]].generation
  }

  ghost predicate Inv(r: Registry) {
    && WorkloadIndexed(r) && KeyIndexed(r) && ArtifactIndexed(r) && Generations(r) && Residents(r)
    && (OneKeyPerArtifact(r) ==> NewestInSlot(r))
  }

  /** Newer than every published entry of its key: what single flight guarantees of a capture that publishes. */
  ghost predicate Newest(r: Registry, n: nat) {
    && n < |r.entries| && r.entries[n].generation < r.graphGen
    && (r.entries[n].key in r.current ==> r.current[r.entries[n].key] < r.entries[n].generation)
    && (forall m: nat | Published(r, m) && r.entries[m].key == r.entries[n].key :: r.entries[m].generation < r.entries[n].generation)
  }

  lemma EmptyInv()
    ensures Inv(EMPTY) && InOrder(EMPTY)
  {
  }

  // ----- indices -----

  lemma AddBucket(index: map<Text, seq<nat>>, k: Text, n: nat, j: Text, m: nat)
    ensures m in Bucket(Add(index, k, n), j) <==> m in Bucket(index, j) || (j == k && m == n)
  {
  }

  lemma WorkloadIndexKept(r: Registry, m: Move)
    requires WorkloadIndexed(r) && Enabled(r, m)
    ensures WorkloadIndexed(Apply(r, m))
  {
    hide WorkloadKey, Bucket, Add;
    var s := Apply(r, m);
    forall w: Text, n: nat
      ensures n in Bucket(s.byWorkload, w) <==> Published(s, n) && WorkloadKey(s.entries[n].facts.workload) == w
    {
      assert n in Bucket(r.byWorkload, w) <==> Published(r, n) && WorkloadKey(r.entries[n].facts.workload) == w;
      if m.Publish? {
        AddBucket(r.byWorkload, WorkloadKey(r.entries[m.n].facts.workload), m.n, w, n);
      }
    }
  }

  lemma KeyIndexKept(r: Registry, m: Move)
    requires KeyIndexed(r) && Enabled(r, m)
    ensures KeyIndexed(Apply(r, m))
  {
    hide WorkloadKey, Bucket, Add;
    var s := Apply(r, m);
    forall k: Text, n: nat
      ensures n in Bucket(s.byKey, k) <==> Published(s, n) && s.entries[n].key == k
    {
      assert n in Bucket(r.byKey, k) <==> Published(r, n) && r.entries[n].key == k;
      if m.Publish? {
        AddBucket(r.byKey, r.entries[m.n].key, m.n, k, n);
      }
    }
  }

  /** What no move changes about an entry, and which way the rest goes. */
  predicate Evolves(x: Entry, y: Entry) {
    && x.artifact == y.artifact && x.graphId == y.graphId && x.key == y.key && x.facts == y.facts && x.backend == y.backend
    && x.generation == y.generation && x.cacheGeneration == y.cacheGeneration && x.dependencyGeneration == y.dependencyGeneration
    && (x.published ==> y.published) && (x.invalidated ==> y.invalidated) && (x.exec ==> y.exec)
  }

  /** A move changes at most the entry it names. */
  lemma EntryAfter(r: Registry, m: Move, n: nat)
    requires Enabled(r, m) && n < |r.entries|
    ensures n < |Apply(r, m).entries|
    ensures Apply(r, m).entries[n] ==
              var e := r.entries[n];
              if m == Publish(n) then e.(published := true)
              else if m == Mark(n) then e.(invalidated := true, lifecycle := if e.invalidated then e.lifecycle else Invalidated)
              else if m == Materialize(n, true) && !e.exec then e.(exec := true, residency := HostResident)
              else if m == Unload(n) && e.residency == BackendResident then e.(residency := PersistentStorage)
              else e
  {
    hide WorkloadKey, Bucket, Add;
    match m
    case Publish(_) =>
    case Mark(_) =>
    case Materialize(_, _) =>
    case Unload(_) =>
    case _ =>
  }

  lemma EntryKept(r: Registry, m: Move, n: nat)
    requires Enabled(r, m) && n < |r.entries|
    ensures n < |Apply(r, m).entries| && Evolves(r.entries[n], Apply(r, m).entries[n])
    ensures Apply(r, m).entries[n].published <==> r.entries[n].published || m == Publish(n)
    ensures Apply(r, m).entries[n].invalidated <==> r.entries[n].invalidated || m == Mark(n)
  {
    hide Apply;
    EntryAfter(r, m, n);
  }

  lemma StepKeeps(r: Registry, m: Move)
    requires Enabled(r, m)
    ensures |r.entries| <= |Apply(r, m).entries| && r.graphGen <= Apply(r, m).graphGen && r.cacheGen <= Apply(r, m).cacheGen
    ensures forall n: nat | n < |r.entries| :: Evolves(r.entries[n], Apply(r, m).entries[n])
    ensures forall n: nat :: Published(Apply(r, m), n) <==> Published(r, n) || m == Publish(n)
    ensures forall n: nat | n < |r.entries| :: Apply(r, m).entries[n].invalidated <==> r.entries[n].invalidated || m == Mark(n)
  {
    hide WorkloadKey, Bucket, Add, Evolves;
    var s := Apply(r, m);
    forall n: nat | n < |r.entries|
      ensures Evolves(r.entries[n], s.entries[n]) && (s.entries[n].published <==> r.entries[n].published || m == Publish(n))
      ensures s.entries[n].invalidated <==> r.entries[n].invalidated || m == Mark(n)
    {
      EntryKept(r, m, n);
    }
  }

  lemma TablesKept(r: Registry, m: Move)
    requires Enabled(r, m)
    ensures Apply(r, m).byArtifact == if m.Publish? then r.byArtifact[r.entries[m.n].artifact := m.n] else r.byArtifact
    ensures Apply(r, m).current == if m.Publish? then r.current[r.entries[m.n].key := r.entries[m.n].generation] else r.current
  {
    hide WorkloadKey, Bucket, Add;
  }

  lemma ArtifactIndexKept(r: Registry, m: Move)
    requires ArtifactIndexed(r) && Enabled(r, m)
    ensures ArtifactIndexed(Apply(r, m))
  {
    hide Apply;
    StepKeeps(r, m);
    TablesKept(r, m);
  }

  // ----- generations -----

  lemma GenerationsKept(r: Registry, m: Move)
    requires Generations(r) && Enabled(r, m) && (m.Publish? ==> Newest(r, m.n))
    ensures Generations(Apply(r, m))
  {
    hide Apply;
    StepKeeps(r, m);
    TablesKept(r, m);
  }

  lemma OrderKept(r: Registry, m: Move)
    requires InOrder(r) && Enabled(r, m) && (m.Publish? ==> Newest(r, m.n))
    ensures InOrder(Apply(r, m))
  {
    hide Apply;
    StepKeeps(r, m);
    TablesKept(r, m);
  }

  lemma ResidentsKept(r: Registry, m: Move)
    requires Residents(r) && Enabled(r, m)
    ensures Residents(Apply(r, m))
  {
    hide WorkloadKey, Bucket, Add;
  }

  lemma OneKeyBefore(r: Registry, m: Move)
    requires Enabled(r, m) && OneKeyPerArtifact(Apply(r, m))
    ensures OneKeyPerArtifact(r)
  {
    hide Apply;
    StepKeeps(r, m);
  }

  lemma SlotsKept(r: Registry, m: Move)
    requires Enabled(r, m) && ArtifactIndexed(r) && (m.Publish? ==> Newest(r, m.n))
    requires OneKeyPerArtifact(Apply(r, m)) && NewestInSlot(r)
    ensures NewestInSlot(Apply(r, m))
  {
    hide Apply, Enabled;
    var s := Apply(r, m);
    StepKeeps(r, m);
    TablesKept(r, m);
    forall n: nat | Published(s, n)
      ensures s.entries[n].artifact in s.byArtifact && s.byArtifact[s.entries[n].artifact] < |s.entries|
      ensures s.entries[n].generation <= s.entries[s.byArtifact[s.entries[n].artifact]].generation
    {
      if m.Publish? && n != m.n && s.entries[n].artifact == s.entries[m.n].artifact {
        assert Published(s, m.n) && s.entries[n].key == s.entries[m.n].key;
      }
    }
  }

  lemma StepInv(r: Registry, m: Move)
    requires Inv(r) && Enabled(r, m) && (m.Publish? ==> Newest(r, m.n))
    ensures Inv(Apply(r, m))
  {
    hide Apply, Enabled, WorkloadIndexed, KeyIndexed, ArtifactIndexed, Generations, Residents, OneKeyPerArtifact, NewestInSlot, Newest;
    WorkloadIndexKept(r, m);
    KeyIndexKept(r, m);
    ArtifactIndexKept(r, m);
    GenerationsKept(r, m);
    ResidentsKept(r, m);
    if OneKeyPerArtifact(Apply(r, m)) {
      OneKeyBefore(r, m);
      SlotsKept(r, m);
    }
  }

  // ----- what the invariants mean -----

  /** The selectable entry of a key is the one with the greatest generation, and the only one. */
  lemma SelectableIsNewest(r: Registry, n: nat, m: nat)
    requires InOrder(r) && Selectable(r, n) && Published(r, m) && r.entries[m].key == r.entries[n].key
    ensures r.entries[m].generation <= r.entries[n].generation
    ensures r.entries[m].generation == r.entries[n].generation ==> m == n
  {
  }

  /** A key's current generation only increases. */
  lemma CurrentGrows(r: Registry, m: Move, k: Text)
    requires Enabled(r, m) && (m.Publish? ==> Newest(r, m.n)) && k in r.current
    ensures k in Apply(r, m).current && r.current[k] <= Apply(r, m).current[k]
    ensures m.Publish? && r.entries[m.n].key == k ==> r.current[k] < Apply(r, m).current[k]
  {
    hide Apply;
    TablesKept(r, m);
  }

  /** An entry that is invalidated or superseded stays so. */
  lemma NeverSelectableAgain(r: Registry, m: Move, n: nat)
    requires Inv(r) && Enabled(r, m) && (m.Publish? ==> Newest(r, m.n)) && Published(r, n) && !Selectable(r, n)
    ensures !Selectable(Apply(r, m), n)
  {
    hide Apply;
    EntryAfter(r, m, n);
    TablesKept(r, m);
    ResidentsKept(r, m);
  }

  // ----- a publication and the searches after it -----

  lemma PublishSelects(r: Registry, n: nat)
    requires Enabled(r, Publish(n)) && !r.entries[n].invalidated && r.entries[n].lifecycle == Valid
    ensures var s := Apply(r, Publish(n));
            Selectable(s, n) && s.entries[n].facts == r.entries[n].facts
            && Bucket(s.byWorkload, WorkloadKey(r.entries[n].facts.workload)) ==
                 Bucket(r.byWorkload, WorkloadKey(r.entries[n].facts.workload)) + [n]
  {
  }

  /** The entry published last is the one that is found by every request that it serves exactly. */
  lemma PublishedIsFound(r: Registry, n: nat, q: Facts, p: Policy)
    requires Enabled(r, Publish(n)) && !r.entries[n].invalidated && r.entries[n].lifecycle == Valid
    requires q.workload.name == r.entries[n].facts.workload.name && q.workload.namespace == r.entries[n].facts.workload.namespace
    requires Fresh(r.entries[n].facts.dependencies, q.dependencies) && Decided(q, r.entries[n].facts, p).klass == ExactCompatible
    ensures Search(Apply(r, Publish(n)), q, p) == Hit(Found(n, Decided(q, r.entries[n].facts, p)))
  {
    hide Apply, Decided, Fresh, Selectable, ScanAll, Usable, Exact;
    var s := Apply(r, Publish(n));
    PublishSelects(r, n);
    var ns := Bucket(s.byWorkload, WorkloadKey(q.workload));
    assert ns[|ns| - 1] == n;
    ServesExactly(s, q, p, n);
    ScanSummarizes(s, q, p, ns);
    ScanTakes(s, q, p, ns);
    var i: nat :| Taken(s, q, p, ns, i) && ns[i] == ScanAll(s, q, p, ns).found.value.n;
    LastExact(s, q, p, ns, i);
  }

  lemma ServesExactly(s: Registry, q: Facts, p: Policy, n: nat)
    requires Selectable(s, n) && Fresh(s.entries[n].facts.dependencies, q.dependencies)
    requires Decided(q, s.entries[n].facts, p).klass == ExactCompatible
    ensures Exact(s, q, p, n)
  {
    hide Selectable, Fresh, Decided;
  }

  lemma LastExact(s: Registry, q: Facts, p: Policy, ns: seq<nat>, i: nat)
    requires Taken(s, q, p, ns, i) && Exact(s, q, p, ns[|ns| - 1])
    ensures i == |ns| - 1
  {
    hide Usable;
  }
}
