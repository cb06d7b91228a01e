/**
  `recover` of src/cache.cpp into a fresh cache: every entry that loads goes
  into the indices without an executable, and the generation counters are
  moved past everything that was recovered.
 */
module CacheRecovery {
  import opened Bytes
  import opened Descriptors
  import opened Facts
  import opened Decide
  import opened FactsCodec
  import opened CacheRegistry
  import opened CacheMoves
  import Recovery

  /** An entry as `decode_entry_payload` makes it. */
  predicate Loaded(e: Entry) {
    !e.published && !e.exec && e.residency == MetadataOnly && (e.lifecycle == Invalidated <==> e.invalidated)
  }

  function RecoverOne(r: Registry, e: Entry): Registry {
    var n := |r.entries|;
    r.(entries := r.entries + [e.(published := true)], byArtifact := r.byArtifact[e.artifact := n], byKey := Add(r.byKey, e.key, n),
       byWorkload := Add(r.byWorkload, WorkloadKey(e.facts.workload), n),
       current := if e.invalidated then r.current else r.current[e.key := e.generation])
  }

  function RecoverAll(es: seq<Entry>): Registry {
    if es == [] then EMPTY else RecoverOne(RecoverAll(es[..|es| - 1]), es[|es| - 1])
  }

  function Max(a: nat, b: nat): nat {
    if a < b then b else a
  }

  /** The greatest generations among the entries the artifact index points at. */
  function GreatestGeneration(r: Registry, n: nat): nat
    requires n <= |r.entries|
  {
    if n == 0 then 0
    else
      var e := r.entries[n - 1];
      var before := GreatestGeneration(r, n - 1);
      if e.artifact in r.byArtifact && r.byArtifact[e.artifact] == n - 1 then Max(before, e.generation) else before
  }

  function GreatestCacheGeneration(r: Registry, n: nat): nat
    requires n <= |r.entries|
  {
    if n == 0 then 0
    else
      var e := r.entries[n - 1];
      var before := GreatestCacheGeneration(r, n - 1);
      if e.artifact in r.byArtifact && r.byArtifact[e.artifact] == n - 1 then Max(before, e.cacheGeneration) else before
  }

  function MoveCounters(r: Registry): Registry {
    r.(graphGen := Max(r.graphGen, GreatestGeneration(r, |r.entries|) + 1),
       cacheGen := Max(r.cacheGen, GreatestCacheGeneration(r, |r.entries|) + 1))
  }

  function Recovered(es: seq<Entry>): Registry {
    MoveCounters(RecoverAll(es))
  }

  /** A store holds one file per artifact. */
  ghost predicate OnePerArtifact(es: seq<Entry>) {
    forall i, j | 0 <= i < j < |es| :: es[i].artifact != es[j].artifact
  }

  /** Of the entries of this key that are not invalidated, the one that is listed last. */
  ghost predicate LastLive(es: seq<Entry>, k: Text, n: nat) {
    && n < |es| && es[n].key == k && !es[n].invalidated
    && (forall m: nat | n < m < |es| && es[m].key == k :: es[m].invalidated)
  }

  lemma LastLiveSnoc(es: seq<Entry>, e: Entry, k: Text, n: nat)
    ensures LastLive(es + [e], k, n) <==> if !e.invalidated && e.key == k then n == |es| else LastLive(es, k, n)
  {
    var fs := es + [e];
    assert fs[|es|] == e && forall m: nat | m < |es| :: fs[m] == es[m];
  }

  lemma {:induction false} HasLastLive(es: seq<Entry>, n: nat) returns (j: nat)
    requires n < |es| && !es[n].invalidated
    ensures LastLive(es, es[n].key, j)
    decreases |es| - n
  {
    if LastLive(es, es[n].key, n) {
      j := n;
    } else {
      var m: nat :| n < m < |es| && es[m].key == es[n].key && !es[m].invalidated;
      j := HasLastLive(es, m);
    }
  }

  // ----- what is in the recovered registry -----

  ghost predicate HoldsEntries(r: Registry, es: seq<Entry>) {
    |r.entries| == |es| && (forall n: nat | n < |es| :: r.entries[n] == es[n].(published := true))
  }

  ghost predicate HoldsArtifacts(r: Registry, es: seq<Entry>) {
    && (forall n: nat | n < |es| :: es[n].artifact in r.byArtifact && r.byArtifact[es[n].artifact] == n)
    && (forall a | a in r.byArtifact :: r.byArtifact[a] < |es| && es[r.byArtifact[a]].artifact == a)
  }

  ghost predicate HoldsCurrent(r: Registry, es: seq<Entry>) {
    && (forall k, n: nat | LastLive(es, k, n) :: k in r.current && r.current[k] == es[n].generation)
    && (forall k | k in r.current :: exists n: nat :: LastLive(es, k, n))
  }

  lemma ArtifactsStep(r: Registry, es: seq<Entry>, e: Entry)
    requires HoldsEntries(r, es) && HoldsArtifacts(r, es) && OnePerArtifact(es + [e])
    ensures HoldsArtifacts(RecoverOne(r, e), es + [e])
  {
    hide Add, WorkloadKey;
    var fs := es + [e];
    forall n: nat | n < |es|
      ensures fs[n] == es[n] && fs[n].artifact != e.artifact
    {
      assert fs[n].artifact != fs[|es|].artifact;
    }
  }

  lemma CurrentStep(r: Registry, es: seq<Entry>, e: Entry)
    requires HoldsCurrent(r, es)
    ensures HoldsCurrent(RecoverOne(r, e), es + [e])
  {
    hide Add, WorkloadKey, LastLive;
    var fs := es + [e];
    forall k, n: nat
      ensures LastLive(fs, k, n) <==> if !e.invalidated && e.key == k then n == |es| else LastLive(es, k, n)
    {
      LastLiveSnoc(es, e, k, n);
    }
    forall k, n: nat | LastLive(es, k, n)
      ensures n < |es| && fs[n] == es[n]
    {
      LastLiveInside(es, k, n);
    }
    forall k | k in RecoverOne(r, e).current
      ensures exists n: nat :: LastLive(fs, k, n)
    {
      if !e.invalidated && e.key == k {
        assert LastLive(fs, k, |es|);
      } else {
        var n: nat :| LastLive(es, k, n);
        assert LastLive(fs, k, n);
      }
    }
  }

  lemma LastLiveInside(es: seq<Entry>, k: Text, n: nat)
    requires LastLive(es, k, n)
    ensures n < |es| && es[n].key == k && !es[n].invalidated
  {
  }

  lemma {:induction false} RecoverAllArtifacts(es: seq<Entry>)
    requires OnePerArtifact(es)
    ensures HoldsArtifacts(RecoverAll(es), es)
  {
    hide HoldsArtifacts, RecoverOne;
    if es == [] {
      NothingHeld();
    } else {
      var n := |es| - 1;
      assert es[..n] + [es[n]] == es;
      RecoverAllEntries(es[..n]);
      RecoverAllArtifacts(es[..n]);
      ArtifactsStep(RecoverAll(es[..n]), es[..n], es[n]);
    }
  }

  lemma {:induction false} RecoverAllCurrent(es: seq<Entry>)
    ensures HoldsCurrent(RecoverAll(es), es)
  {
    hide HoldsCurrent, RecoverOne;
    if es == [] {
      NothingHeld();
    } else {
      var n := |es| - 1;
      assert es[..n] + [es[n]] == es;
      RecoverAllCurrent(es[..n]);
      CurrentStep(RecoverAll(es[..n]), es[..n], es[n]);
    }
  }

  lemma {:induction false} RecoverAllEntries(es: seq<Entry>)
    ensures HoldsEntries(RecoverAll(es), es)
  {
    hide Add, WorkloadKey;
    if es != [] {
      RecoverAllEntries(es[..|es| - 1]);
    }
  }

  lemma NothingHeld()
    ensures HoldsEntries(EMPTY, []) && HoldsArtifacts(EMPTY, []) && HoldsCurrent(EMPTY, [])
  {
  }

  lemma {:induction false} RecoverAllIndexed(es: seq<Entry>)
    ensures |RecoverAll(es).entries| == |es| && (forall n: nat | n < |es| :: RecoverAll(es).entries[n].published)
    ensures WorkloadIndexed(RecoverAll(es)) && KeyIndexed(RecoverAll(es))
  {
    hide Bucket, Add, WorkloadKey;
    if es == [] {
      EmptyInv();
    } else {
      var last := |es| - 1;
      RecoverAllIndexed(es[..last]);
      var r, s, e := RecoverAll(es[..last]), RecoverAll(es), es[last];
      forall w: Text, n: nat
        ensures n in Bucket(s.byWorkload, w) <==> Published(s, n) && WorkloadKey(s.entries[n].facts.workload) == w
      {
        AddBucket(r.byWorkload, WorkloadKey(e.facts.workload), last, w, n);
        assert n in Bucket(r.byWorkload, w) <==> Published(r, n) && WorkloadKey(r.entries[n].facts.workload) == w;
      }
      forall k: Text, n: nat
        ensures n in Bucket(s.byKey, k) <==> Published(s, n) && s.entries[n].key == k
      {
        AddBucket(r.byKey, e.key, last, k, n);
        assert n in Bucket(r.byKey, k) <==> Published(r, n) && r.entries[n].key == k;
      }
    }
  }

  lemma {:induction false} GreatestIsGreatest(r: Registry, es: seq<Entry>, n: nat, m: nat)
    requires HoldsEntries(r, es) && HoldsArtifacts(r, es) && m < n <= |r.entries|
    ensures r.entries[m].generation <= GreatestGeneration(r, n) && r.entries[m].cacheGeneration <= GreatestCacheGeneration(r, n)
  {
    if m < n - 1 {
      GreatestIsGreatest(r, es, n - 1, m);
    }
  }

  /**
    The last live entry of each key has the greatest generation of all entries
    of its key, and no two entries of a key have the same generation.
   */
  ghost predicate NewestLast(es: seq<Entry>) {
    && (forall i: nat, j: nat | i < j < |es| && es[i].key == es[j].key :: es[i].generation != es[j].generation)
    && (forall i: nat, j: nat | i < |es| && LastLive(es, es[i].key, j) :: es[i].generation <= es[j].generation)
  }

  /**
    Recovery establishes everything the engine relies on, with both counters
    past what was recovered, and has generations in order exactly when the
    files of each key happen to be listed with the newest generation last.
   */
  lemma RecoveredInv(es: seq<Entry>)
    requires OnePerArtifact(es) && forall i | 0 <= i < |es| :: Loaded(es[i])
    ensures Inv(Recovered(es)) && (InOrder(Recovered(es)) <==> NewestLast(es))
    ensures forall i | 0 <= i < |es| :: es[i].generation < Recovered(es).graphGen && es[i].cacheGeneration < Recovered(es).cacheGen
  {
    hide WorkloadKey, Bucket, RecoverAll, GreatestGeneration, GreatestCacheGeneration, HoldsArtifacts, HoldsCurrent, NewestLast, InOrder, OneKeyPerArtifact;
    var r, s := RecoverAll(es), Recovered(es);
    RecoverAllEntries(es);
    RecoverAllArtifacts(es);
    RecoverAllCurrent(es);
    RecoverAllIndexed(es);
    forall i: nat | i < |es|
      ensures es[i].generation < s.graphGen && es[i].cacheGeneration < s.cacheGen
    {
      GreatestIsGreatest(r, es, |es|, i);
    }
    SameTables(r, s, es);
    assert WorkloadIndexed(s) && KeyIndexed(s) by {
      SameIndices(r, s);
    }
    RecoveredSlots(s, es);
    RecoveredGenerations(s, es);
    if NewestLast(es) {
      NewestLastInOrder(s, es);
    } else if InOrder(s) {
      InOrderNewestLast(s, es);
    }
  }

  lemma SameTables(r: Registry, s: Registry, es: seq<Entry>)
    requires HoldsEntries(r, es) && HoldsArtifacts(r, es) && HoldsCurrent(r, es)
    requires s.entries == r.entries && s.byArtifact == r.byArtifact && s.current == r.current
    ensures HoldsEntries(s, es) && HoldsArtifacts(s, es) && HoldsCurrent(s, es)
  {
  }

  lemma SameIndices(r: Registry, s: Registry)
    requires WorkloadIndexed(r) && KeyIndexed(r) && s.entries == r.entries && s.byWorkload == r.byWorkload && s.byKey == r.byKey
    ensures WorkloadIndexed(s) && KeyIndexed(s)
  {
    hide WorkloadKey, Bucket;
    forall w: Text, n: nat
      ensures n in Bucket(s.byWorkload, w) <==> Published(s, n) && WorkloadKey(s.entries[n].facts.workload) == w
    {
      assert n in Bucket(r.byWorkload, w) <==> Published(r, n) && WorkloadKey(r.entries[n].facts.workload) == w;
    }
    forall k: Text, n: nat
      ensures n in Bucket(s.byKey, k) <==> Published(s, n) && s.entries[n].key == k
    {
      assert n in Bucket(r.byKey, k) <==> Published(r, n) && r.entries[n].key == k;
    }
  }

  lemma RecoveredSlots(s: Registry, es: seq<Entry>)
    requires HoldsEntries(s, es) && HoldsArtifacts(s, es) && forall i | 0 <= i < |es| :: Loaded(es[i])
    ensures ArtifactIndexed(s) && Residents(s) && NewestInSlot(s)
  {
  }

  lemma RecoveredGenerations(s: Registry, es: seq<Entry>)
    requires HoldsEntries(s, es) && HoldsCurrent(s, es) && forall i | 0 <= i < |es| :: es[i].generation < s.graphGen
    ensures Generations(s)
  {
    forall k | k in s.current
      ensures s.current[k] < s.graphGen
    {
      var n: nat :| LastLive(es, k, n);
    }
    forall n: nat | Published(s, n) && !s.entries[n].invalidated
      ensures s.entries[n].key in s.current
    {
      var j := HasLastLive(es, n);
    }
  }

  lemma NewestLastInOrder(s: Registry, es: seq<Entry>)
    requires HoldsEntries(s, es) && HoldsCurrent(s, es) && NewestLast(es)
    ensures InOrder(s)
  {
    forall n: nat | Published(s, n) && s.entries[n].key in s.current
      ensures s.entries[n].generation <= s.current[s.entries[n].key]
    {
      var j: nat :| LastLive(es, es[n].key, j);
    }
    forall n: nat, m: nat | Published(s, n) && Published(s, m) && n != m && s.entries[n].key == s.entries[m].key
      ensures s.entries[n].generation != s.entries[m].generation
    {
      var i, j := if n < m then n else m, if n < m then m else n;
      assert i < j && es[i].key == es[j].key;
    }
  }

  lemma InOrderNewestLast(s: Registry, es: seq<Entry>)
    requires HoldsEntries(s, es) && HoldsCurrent(s, es) && InOrder(s)
    ensures NewestLast(es)
  {
    forall i: nat, j: nat | i < j < |es| && es[i].key == es[j].key
      ensures es[i].generation != es[j].generation
    {
      assert Published(s, i) && Published(s, j);
    }
    forall i: nat, j: nat | i < |es| && LastLive(es, es[i].key, j)
      ensures es[i].generation <= es[j].generation
    {
      assert Published(s, i) && s.entries[i].key in s.current;
    }
  }

  // ----- the recovered cache answers as the old one would have -----

  lemma FreshOfNormal(c: seq<KernelRef>, w: seq<KernelRef>)
    ensures Fresh(NormalKernels(c), w) <==> Fresh(c, w)
  {
    var n := NormalKernels(c);
    assert forall j | 0 <= j < |c| :: n[j] == NormalKernel(c[j]);
    if Fresh(n, w) {
      forall i, j | 0 <= i < |w| && 0 <= j < |c| && w[i].contributes && c[j].contributes && c[j].name == w[i].name
        ensures c[j].generation == w[i].generation && c[j].digest == w[i].digest && c[j].abi == w[i].abi
      {
        assert n[j].contributes && n[j].name == w[i].name;
      }
    }
    if Fresh(c, w) {
      forall i, j | 0 <= i < |w| && 0 <= j < |n| && w[i].contributes && n[j].contributes && n[j].name == w[i].name
        ensures n[j].generation == w[i].generation && n[j].digest == w[i].digest && n[j].abi == w[i].abi
      {
        assert c[j].contributes && c[j].name == w[i].name;
      }
    }
  }

  /** What the entry captured with facts `f` would have answered. */
  ghost predicate WouldMatch(f: Facts, q: Facts, p: Policy) {
    && Fresh(f.dependencies, q.dependencies) && f.workload.name == q.workload.name && f.workload.namespace == q.workload.namespace
    && Decided(q, f, p).Compatible()
  }

  /** Live, and of the generation of the last live entry of its key. */
  ghost predicate Current(es: seq<Entry>, n: nat) {
    n < |es| && !es[n].invalidated && exists j: nat :: LastLive(es, es[n].key, j) && es[j].generation == es[n].generation
  }

  /** What the recovered cache selects depends on the order in which the files are listed. */
  lemma RecoveredSelects(es: seq<Entry>, n: nat)
    requires forall i | 0 <= i < |es| :: Loaded(es[i])
    ensures Selectable(Recovered(es), n) <==> Current(es, n)
  {
    hide RecoverAll, GreatestGeneration, GreatestCacheGeneration;
    RecoverAllEntries(es);
    RecoverAllCurrent(es);
    if n < |es| && !es[n].invalidated {
      var j := HasLastLive(es, n);
    }
  }

  /** Live, and not older than any other live entry of its key: what a search should be able to select. */
  ghost predicate Newest(es: seq<Entry>, n: nat) {
    && n < |es| && !es[n].invalidated
    && (forall m: nat | m < |es| && es[m].key == es[n].key && !es[m].invalidated :: es[m].generation <= es[n].generation)
  }

  ghost predicate LiveNewestLast(es: seq<Entry>) {
    forall i: nat, j: nat | i < |es| && !es[i].invalidated && LastLive(es, es[i].key, j) :: es[i].generation <= es[j].generation
  }

  /** It selects the newest entry of every key exactly when, of the live files of each key, a newest one is listed last. */
  lemma RecoveredSelectsNewest(es: seq<Entry>)
    requires forall i | 0 <= i < |es| :: Loaded(es[i])
    ensures (forall n: nat :: Selectable(Recovered(es), n) <==> Newest(es, n)) <==> LiveNewestLast(es)
  {
    hide Recovered, Selectable, Loaded;
    forall n: nat
      ensures Selectable(Recovered(es), n) <==> Current(es, n)
    {
      RecoveredSelects(es, n);
    }
    if LiveNewestLast(es) {
      forall n: nat
        ensures Current(es, n) <==> Newest(es, n)
      {
        CurrentIsNewest(es, n);
      }
    } else {
      var i: nat, j: nat :| i < |es| && !es[i].invalidated && LastLive(es, es[i].key, j) && es[i].generation > es[j].generation;
      assert Current(es, j) && !Newest(es, j);
    }
  }

  lemma CurrentIsNewest(es: seq<Entry>, n: nat)
    requires LiveNewestLast(es)
    ensures Current(es, n) <==> Newest(es, n)
  {
    if n < |es| && !es[n].invalidated {
      var j := HasLastLive(es, n);
      assert es[n].generation <= es[j].generation;
      if Current(es, n) {
        var i: nat :| LastLive(es, es[n].key, i) && es[i].generation == es[n].generation;
      }
    }
  }

  lemma RecoveredMatches(es: seq<Entry>, n: nat, f: Facts, q: Facts, p: Policy)
    requires (forall i | 0 <= i < |es| :: Loaded(es[i])) && n < |es|
    requires es[n].facts == NormalFacts(f) && NormalQuant(f.quant) == f.quant
    ensures Matches(Recovered(es), q, p, n) <==> Current(es, n) && WouldMatch(f, q, p)
  {
    hide Recovered, Selectable, Current, Loaded, Decided, Fresh, NormalKernels, NormalQuant, NormalScalar;
    RecoveredEntry(es, n);
    RecoveredSelects(es, n);
    FreshOfNormal(f.dependencies, q.dependencies);
    Recovery.DecidedOfNormal(q, f, p);
  }

  /**
    A search of the recovered cache hits exactly when one of the entries that
    were persisted and are current would have matched, and returns such an
    entry with the decision made on the facts it was captured with.
   */
  lemma RecoveredAnswers(es: seq<Entry>, fs: seq<Facts>, q: Facts, p: Policy)
    requires (forall i | 0 <= i < |es| :: Loaded(es[i])) && |fs| == |es|
    requires forall i | 0 <= i < |es| :: es[i].facts == NormalFacts(fs[i]) && NormalQuant(fs[i].quant) == fs[i].quant
    ensures Search(Recovered(es), q, p).Hit? <==> exists n: nat :: n < |es| && Current(es, n) && WouldMatch(fs[n], q, p)
    ensures Search(Recovered(es), q, p).Hit? ==>
              var f := Search(Recovered(es), q, p).found;
              f.n < |es| && Current(es, f.n) && WouldMatch(fs[f.n], q, p) && f.decision == Decided(q, fs[f.n], p)
  {
    hide Recovered, Search, WouldMatch, Matches, NormalFacts, NormalQuant, Loaded, Decided, Current;
    var r := Recovered(es);
    RecoveredSize(es);
    SearchIsFullScan(r, q, p);
    forall n: nat | n < |es|
      ensures Matches(r, q, p, n) <==> Current(es, n) && WouldMatch(fs[n], q, p)
    {
      RecoveredMatches(es, n, fs[n], q, p);
    }
    forall n: nat | Matches(r, q, p, n)
      ensures n < |es|
    {
      MatchIsEntry(r, q, p, n);
    }
    if Search(r, q, p).Hit? {
      var n := Search(r, q, p).found.n;
      RecoveredEntry(es, n);
      Recovery.DecidedOfNormal(q, fs[n], p);
    }
  }

  lemma RecoveredEntry(es: seq<Entry>, n: nat)
    requires n < |es|
    ensures n < |Recovered(es).entries| && Recovered(es).entries[n].facts == es[n].facts
  {
    hide RecoverAll, GreatestGeneration, GreatestCacheGeneration;
    RecoverAllEntries(es);
  }

  lemma MatchIsEntry(r: Registry, q: Facts, p: Policy, n: nat)
    requires Matches(r, q, p, n)
    ensures n < |r.entries|
  {
  }

  lemma RecoveredSize(es: seq<Entry>)
    ensures |Recovered(es).entries| == |es| && WorkloadIndexed(Recovered(es))
  {
    hide RecoverAll, GreatestGeneration, GreatestCacheGeneration, WorkloadKey, Bucket;
    RecoverAllIndexed(es);
    SameIndices(RecoverAll(es), Recovered(es));
  }

  // ----- a restart -----

  predicate Apart(es: seq<Entry>) {
    forall i, j | 0 <= i < j < |es| :: es[i].generation != es[j].generation
  }

  /**
    `es[i]` was loaded from a file of the entry `ns[i]`, which was written when
    that entry was live or invalidated, and it may have been invalidated since.
   */
  ghost predicate Mirrors(r: Registry, ns: seq<nat>, es: seq<Entry>) {
    && |ns| == |es| && Apart(es)
    && (forall i | 0 <= i < |es| ::
          && Loaded(es[i]) && Published(r, ns[i]) && es[i].generation == r.entries[ns[i]].generation
          && (es[i].invalidated ==> r.entries[ns[i]].invalidated))
  }

  ghost predicate Selects(es: seq<Entry>, i: nat) {
    Selectable(Recovered(es), i)
  }

  /** After the restart searches can select exactly what they could select before. */
  ghost predicate RestartKeeps(r: Registry, ns: seq<nat>, es: seq<Entry>) {
    && (forall i: nat | i < |ns| && Selects(es, i) :: Selectable(r, ns[i]))
    && (forall n: nat | Selectable(r, n) :: exists i: nat :: i < |ns| && ns[i] == n && Selects(es, i))
  }

  /**
    The last live file of each rebuilt key is of an entry that is still
    selectable, every selectable entry has a file that loads, and no two
    selectable entries have theirs under one rebuilt key.
   */
  ghost predicate UpToDate(r: Registry, ns: seq<nat>, es: seq<Entry>)
    requires |ns| == |es|
  {
    && (forall k, j: nat | LastLive(es, k, j) :: j < |ns| && Selectable(r, ns[j]))
    && (forall n: nat | Selectable(r, n) :: n in ns)
    && (forall i: nat, j: nat | i < j < |ns| && es[i].key == es[j].key :: !Selectable(r, ns[i]) || !Selectable(r, ns[j]))
  }

  lemma SelectsCurrent(r: Registry, ns: seq<nat>, es: seq<Entry>, i: nat)
    requires Mirrors(r, ns, es)
    ensures Selects(es, i) <==> Current(es, i)
  {
    hide Loaded, Current, Recovered, Selectable, Apart;
    RecoveredSelects(es, i);
  }

  /** Only the last live entry of a key is selected. */
  lemma SelectsLastLive(r: Registry, ns: seq<nat>, es: seq<Entry>, i: nat)
    requires Mirrors(r, ns, es)
    ensures Selects(es, i) <==> i < |es| && LastLive(es, es[i].key, i)
  {
    hide Selects, Loaded, Selectable;
    SelectsCurrent(r, ns, es, i);
    if Selects(es, i) {
      var j: nat :| LastLive(es, es[i].key, j) && es[j].generation == es[i].generation;
      assert i < j || j < i || i == j;
    }
  }

  lemma OneLastLive(es: seq<Entry>, k: Text, i: nat, j: nat)
    requires LastLive(es, k, i) && LastLive(es, k, j)
    ensures i == j
  {
  }

  lemma SameEntrySamePlace(r: Registry, ns: seq<nat>, es: seq<Entry>, i: nat, j: nat)
    requires Mirrors(r, ns, es) && i < |ns| && j < |ns| && ns[i] == ns[j]
    ensures i == j
  {
    hide Loaded;
    assert es[i].generation == es[j].generation;
    assert i < j || j < i || i == j;
  }

  lemma KeepsThenUpToDate(r: Registry, ns: seq<nat>, es: seq<Entry>)
    requires Mirrors(r, ns, es) && RestartKeeps(r, ns, es)
    ensures UpToDate(r, ns, es)
  {
    hide Selects, Selectable, LastLive, Mirrors;
    MirrorsLength(r, ns, es);
    forall k, j: nat | LastLive(es, k, j)
      ensures j < |ns| && Selectable(r, ns[j])
    {
      LastLiveInside(es, k, j);
      SelectsLastLive(r, ns, es, j);
    }
    forall i: nat, j: nat | i < j < |ns| && es[i].key == es[j].key && Selectable(r, ns[i])
      ensures !Selectable(r, ns[j])
    {
      if Selectable(r, ns[j]) {
        SelectedThere(r, ns, es, i);
        SelectedThere(r, ns, es, j);
        OneLastLive(es, es[i].key, i, j);
      }
    }
  }

  lemma MirrorsLength(r: Registry, ns: seq<nat>, es: seq<Entry>)
    requires Mirrors(r, ns, es)
    ensures |ns| == |es|
  {
  }

  lemma SelectedThere(r: Registry, ns: seq<nat>, es: seq<Entry>, i: nat)
    requires Mirrors(r, ns, es) && RestartKeeps(r, ns, es) && i < |ns| && i < |es| && Selectable(r, ns[i])
    ensures LastLive(es, es[i].key, i)
  {
    hide Selects, Selectable, LastLive, Mirrors;
    var m: nat :| m < |ns| && ns[m] == ns[i] && Selects(es, m);
    SameEntrySamePlace(r, ns, es, m, i);
    SelectsLastLive(r, ns, es, i);
  }

  lemma UpToDateThenKeeps(r: Registry, ns: seq<nat>, es: seq<Entry>)
    requires Mirrors(r, ns, es) && UpToDate(r, ns, es)
    ensures RestartKeeps(r, ns, es)
  {
    hide Selects, Selectable, LastLive, Mirrors;
    forall i: nat | i < |ns| && Selects(es, i)
      ensures Selectable(r, ns[i])
    {
      SelectsLastLive(r, ns, es, i);
    }
    forall n: nat | Selectable(r, n)
      ensures exists i: nat :: i < |ns| && ns[i] == n && Selects(es, i)
    {
      var i: nat :| i < |ns| && ns[i] == n;
      LiveInFile(r, ns, es, i);
      var j := HasLastLive(es, i);
      LastLiveInside(es, es[i].key, j);
      assert Selectable(r, ns[i]) && Selectable(r, ns[j]);
      assert !(i < j) && !(j < i);
      SelectsLastLive(r, ns, es, i);
    }
  }

  lemma LiveInFile(r: Registry, ns: seq<nat>, es: seq<Entry>, i: nat)
    requires Mirrors(r, ns, es) && i < |ns| && Selectable(r, ns[i])
    ensures i < |es| && !es[i].invalidated
  {
  }

  /** A restart changes nothing exactly when the files are up to date in that sense. */
  lemma RestartExactly(r: Registry, ns: seq<nat>, es: seq<Entry>)
    requires Mirrors(r, ns, es)
    ensures RestartKeeps(r, ns, es) <==> UpToDate(r, ns, es)
  {
    hide RestartKeeps, UpToDate;
    if RestartKeeps(r, ns, es) {
      KeepsThenUpToDate(r, ns, es);
    } else if UpToDate(r, ns, es) {
      UpToDateThenKeeps(r, ns, es);
    }
  }

  lemma AloneIsSelected(es: seq<Entry>)
    requires |es| == 1 && Loaded(es[0]) && !es[0].invalidated
    ensures Selects(es, 0)
  {
    hide Recovered, Selectable, Loaded;
    assert LastLive(es, es[0].key, 0);
    RecoveredSelects(es, 0);
  }

  /** Of two live entries of one key the one listed last is selected, and the other is lost. */
  lemma LastIsSelected(es: seq<Entry>)
    requires |es| == 2 && Loaded(es[0]) && Loaded(es[1]) && !es[0].invalidated && !es[1].invalidated
    requires es[0].key == es[1].key && es[0].generation != es[1].generation
    ensures Selects(es, 1) && !Selects(es, 0)
  {
    hide Recovered, Selectable, Loaded;
    assert LastLive(es, es[0].key, 1);
    RecoveredSelects(es, 0);
    RecoveredSelects(es, 1);
  }
}
