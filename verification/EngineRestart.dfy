/**
  Three restarts that go wrong, each with its run from an empty cache and the
  files that the run leaves behind. `invalidate` writes no file, so what was
  invalidated comes back. Two lookups of one graph under two names have two
  artifacts, hence two files, and one rebuilt key: only the file that is listed
  last survives, even if it is the older one, and even if the two lookups had
  different keys before.
 */
module EngineRestart {
  import opened Descriptors
  import opened Topology
  import opened Facts
  import opened StoredCodec
  import opened Finalize
  import opened CacheRegistry
  import opened CacheInvalidation
  import opened CacheRecovery
  import opened CacheStore
  import opened CacheEngine
  import opened EngineRuns
  import opened EngineTraces
  import opened EngineJobs
  import opened EngineStore
  import opened GraphCache
  import R = CacheMoves
  import Decide
  import Envelope
  import Recovery

  // ----- files of requests -----

  /** The file of entry `n`, captured for this request. */
  function FileFor(r: Request, n: nat, m: Metadata): File {
    File(n, Finalized(r.descriptor), m)
  }

  /** Within what the decoder accepts. */
  ghost predicate FileFits(r: Request, m: Metadata) {
    DescriptorWithinLimits(Finalized(r.descriptor)) && |EncodePayload(Finalized(r.descriptor), m)| <= Envelope.MAX_PAYLOAD
  }

  /** Neither the platform the request asked for nor the graph's name is in the key that is rebuilt. */
  lemma FileForLoads(r: Request, n: nat, m: Metadata)
    requires FileFits(r, m)
    ensures Loads(FileFor(r, n, m))
    ensures EntryIn(FileFor(r, n, m)).key == KeyOf(FactsOfStored(NormalDescriptor(Finalized(r.descriptor)), m.workload))
  {
    hide DescriptorWithinLimits, EncodePayload, Recovery.Stored, Recovery.LoadEntry, NormalDescriptor, Finalized, KeyOf, GraphIdOf, FactsOfStored;
    Recovery.LoadStored(Finalized(r.descriptor), m);
  }

  /** Requests for one workload whose descriptors differ in the graph's name only, whatever platforms they ask for. */
  predicate OneGraph(r: Request, q: Request) {
    && q.workload == r.workload && q.descriptor == r.descriptor.(provenance := q.descriptor.provenance)
  }

  lemma OneRebuiltKey(r: Request, n: nat, m: Metadata, q: Request, k: nat, l: Metadata)
    requires OneGraph(r, q) && FileFits(r, m) && FileFits(q, l) && m.workload == l.workload
    ensures Loads(FileFor(r, n, m)) && Loads(FileFor(q, k, l))
    ensures EntryIn(FileFor(r, n, m)).key == EntryIn(FileFor(q, k, l)).key
  {
    hide FileFits, FileFor, KeyOf, Loads, EntryIn, FactsOfStored;
    FileForLoads(r, n, m);
    FileForLoads(q, k, l);
    OneStoredFacts(r, q, m.workload);
  }

  lemma OneStoredFacts(r: Request, q: Request, wl: Workload)
    requires OneGraph(r, q)
    ensures FactsOfStored(NormalDescriptor(Finalized(r.descriptor)), wl) == FactsOfStored(NormalDescriptor(Finalized(q.descriptor)), wl)
  {
  }

  // ----- two captures -----

  /** The two captures in the run, and the files of both as they are at its end. */
  ghost predicate EndsWithBoth(a: Job, f: File, b: Job, g: File) {
    var run := Twice(a, b);
    && |run.actions| == 18 && IsRun(run, 18) && StoreAt(run, 18, [f, g]) && StoreAt(run, 18, [g, f])
    && At(run, 18).reg.entries == [NewEntry(a, 1, 1).(published := true), NewEntry(b, 2, 1).(published := true)]
    && At(run, 18).reg.current == map[a.entry.key := 1][b.entry.key := 2]
  }

  lemma TwiceEnds(a: Job, f: File, b: Job, g: File)
    requires R.Captured(a.entry) && R.Captured(b.entry) && a.valid && b.valid && a.entry.artifact != b.entry.artifact
    requires f.n == 0 && Describes(f.m, NewEntry(a, 1, 1)) && g.n == 1 && Describes(g.m, NewEntry(b, 2, 1))
    ensures EndsWithBoth(a, f, b, g)
  {
    hide IsRun, At, R.Captured;
    TwiceRuns(a, b);
    assert WrittenAt(Twice(a, b), 18, f) && WrittenAt(Twice(a, b), 18, g);
  }

  /** The entries at the end of that run. */
  lemma SelectableAtEnd(a: Job, b: Job, r: Registry)
    requires R.Captured(a.entry) && R.Captured(b.entry)
    requires r.entries == [NewEntry(a, 1, 1).(published := true), NewEntry(b, 2, 1).(published := true)]
    requires r.current == map[a.entry.key := 1][b.entry.key := 2]
    ensures Selectable(r, 1) && (Selectable(r, 0) <==> a.entry.key != b.entry.key)
  {
  }

  /** The second capture is current, and after a restart the first one is selected instead. */
  ghost predicate OlderReturns(a: Job, f: File, b: Job, g: File) {
    && EndsWithBoth(a, f, b, g) && Selectable(At(Twice(a, b), 18).reg, 1) && !Selectable(At(Twice(a, b), 18).reg, 0)
    && Owners([g, f]) == [1, 0] && Selects(LoadAll(Disk([g, f])), 1) && !Selects(LoadAll(Disk([g, f])), 0)
  }

  /** So it is for two lookups of any one valid graph that differ in its name, if the newer file is listed first. */
  lemma SupersededReturns(r: Request, m: Metadata, q: Request, l: Metadata, p: Decide.Policy)
    requires ValidTopology(r.descriptor.nodes, r.descriptor.edges) && Renamed(r, q) && EntryFor(q).artifact != EntryFor(r).artifact
    requires FileFits(r, m) && FileFits(q, l)
    requires Describes(m, NewEntry(JobOf(r, p), 1, 1)) && Describes(l, NewEntry(JobOf(q, p), 2, 1))
    ensures OlderReturns(JobOf(r, p), FileFor(r, 0, m), JobOf(q, p), FileFor(q, 1, l))
  {
    hide *;
    KeyRenamed(r, q);
    JobsMakeFiles(r, m, q, l, p);
    OlderAtEnd(JobOf(r, p), FileFor(r, 0, m), JobOf(q, p), FileFor(q, 1, l));
  }

  /** Live files of the two captures, under one rebuilt key. */
  ghost predicate TwoFiles(a: Job, f: File, b: Job, g: File) {
    && R.Captured(a.entry) && R.Captured(b.entry) && a.valid && b.valid && a.entry.artifact != b.entry.artifact
    && f.n == 0 && Describes(f.m, NewEntry(a, 1, 1)) && g.n == 1 && Describes(g.m, NewEntry(b, 2, 1))
    && Loads(f) && Loads(g) && EntryIn(f).key == EntryIn(g).key
  }

  lemma FilesAreLive(a: Job, f: File, b: Job, g: File)
    requires TwoFiles(a, f, b, g)
    ensures !f.m.invalidated && !g.m.invalidated && f.m.generation != g.m.generation
  {
    hide Loads, EntryIn;
  }

  lemma OlderAtEnd(a: Job, f: File, b: Job, g: File)
    requires TwoFiles(a, f, b, g) && a.entry.key == b.entry.key
    ensures OlderReturns(a, f, b, g)
  {
    hide EndsWithBoth, Loads, EntryIn, Selects, LoadAll, Kept, IsRun, At, Selectable, R.Captured, Describes;
    FilesAreLive(a, f, b, g);
    TwiceEnds(a, f, b, g);
    EndRegistry(a, f, b, g);
    LastFileIsSelected(g, f);
  }

  lemma FirstAtEnd(a: Job, f: File, b: Job, g: File)
    requires TwoFiles(a, f, b, g) && a.entry.key != b.entry.key
    ensures FirstIsLost(a, f, b, g)
  {
    hide EndsWithBoth, Loads, EntryIn, Selects, LoadAll, Kept, IsRun, At, Selectable, R.Captured, Describes;
    FilesAreLive(a, f, b, g);
    TwiceEnds(a, f, b, g);
    EndRegistry(a, f, b, g);
    LastFileIsSelected(f, g);
  }

  lemma EndRegistry(a: Job, f: File, b: Job, g: File)
    requires EndsWithBoth(a, f, b, g) && R.Captured(a.entry) && R.Captured(b.entry)
    ensures IsRun(Twice(a, b), 18) && |Twice(a, b).actions| == 18 && Selectable(At(Twice(a, b), 18).reg, 1)
    ensures Selectable(At(Twice(a, b), 18).reg, 0) <==> a.entry.key != b.entry.key
  {
    hide IsRun, At, Selectable, R.Captured;
    SelectableAtEnd(a, b, At(Twice(a, b), 18).reg);
  }

  /** The job and the file of a request. */
  lemma LiveFiles(r: Request, m: Metadata, n: nat, g: nat, p: Decide.Policy)
    requires Describes(m, NewEntry(JobOf(r, p), g, 1)) && ValidTopology(r.descriptor.nodes, r.descriptor.edges)
    ensures R.Captured(JobOf(r, p).entry) && JobOf(r, p).valid && JobOf(r, p).entry == EntryFor(r)
    ensures FileFor(r, n, m).n == n && FileFor(r, n, m).m == m && m.workload == r.workload
  {
    hide ValidTopology;
  }

  lemma JobsMakeFiles(r: Request, m: Metadata, q: Request, l: Metadata, p: Decide.Policy)
    requires ValidTopology(r.descriptor.nodes, r.descriptor.edges) && OneGraph(r, q) && EntryFor(q).artifact != EntryFor(r).artifact
    requires FileFits(r, m) && FileFits(q, l)
    requires Describes(m, NewEntry(JobOf(r, p), 1, 1)) && Describes(l, NewEntry(JobOf(q, p), 2, 1))
    ensures TwoFiles(JobOf(r, p), FileFor(r, 0, m), JobOf(q, p), FileFor(q, 1, l))
    ensures JobOf(r, p).entry == EntryFor(r) && JobOf(q, p).entry == EntryFor(q)
  {
    hide ValidTopology, FileFits, Loads, EntryIn, EntryFor, Describes, JobOf, FileFor, R.Captured;
    LiveFiles(r, m, 0, 1, p);
    LiveFiles(q, l, 1, 2, p);
    OneRebuiltKey(r, 0, m, q, 1, l);
  }

  lemma KeyRenamed(r: Request, q: Request)
    requires Renamed(r, q)
    ensures EntryFor(q).key == EntryFor(r).key && OneGraph(r, q)
  {
    SameFactsRenamed(r, q);
  }

  /** Both captures are current under keys of their own, and after a restart the one whose file is listed first is lost. */
  ghost predicate FirstIsLost(a: Job, f: File, b: Job, g: File) {
    && EndsWithBoth(a, f, b, g) && Selectable(At(Twice(a, b), 18).reg, 0) && Selectable(At(Twice(a, b), 18).reg, 1)
    && Owners([f, g]) == [0, 1] && !Selects(LoadAll(Disk([f, g])), 0) && Selects(LoadAll(Disk([f, g])), 1)
  }

  /** So it is for two lookups of one graph under two names that ask for different platforms, which no file keeps. */
  lemma KeysMerge(r: Request, m: Metadata, q: Request, l: Metadata, p: Decide.Policy)
    requires ValidTopology(r.descriptor.nodes, r.descriptor.edges) && OneGraph(r, q)
    requires EntryFor(q).artifact != EntryFor(r).artifact && EntryFor(q).key != EntryFor(r).key
    requires FileFits(r, m) && FileFits(q, l)
    requires Describes(m, NewEntry(JobOf(r, p), 1, 1)) && Describes(l, NewEntry(JobOf(q, p), 2, 1))
    ensures FirstIsLost(JobOf(r, p), FileFor(r, 0, m), JobOf(q, p), FileFor(q, 1, l))
  {
    hide *;
    JobsMakeFiles(r, m, q, l, p);
    FirstAtEnd(JobOf(r, p), FileFor(r, 0, m), JobOf(q, p), FileFor(q, 1, l));
  }

  // ----- an invalidation -----

  /** At the end of that run everything has been invalidated, from beginning to end, after the capture was published. */
  ghost predicate EndsInvalidated(a: Job) {
    var run := Invalidation(a);
    && |run.actions| == 12 && run.actions[7] == PublishEntry(0) && run.actions[8] == BeginInvalidate(1, ByAll) && run.actions[11] == MarkNext(1)
    && IsRun(run, 12) && |At(run, 12).threads| == 2 && At(run, 12).threads[1] == Idle
    && |At(run, 12).reg.entries| == 1 && At(run, 12).reg.entries[0].invalidated
  }

  /** A restart from this file alone selects its entry. */
  ghost predicate IsSelectedAlone(f: File) {
    Owners([f]) == [f.n] && Selects(LoadAll(Disk([f])), 0)
  }

  /** The file was written at the capture, the entry is invalidated since, and a restart selects it. */
  ghost predicate ComesBack(a: Job, f: File) {
    EndsInvalidated(a) && f.n == 0 && StoreAt(Invalidation(a), 12, [f]) && IsSelectedAlone(f)
  }

  lemma InvalidationStore(a: Job, f: File)
    requires R.Captured(a.entry) && a.valid && f.n == 0 && Describes(f.m, NewEntry(a, 1, 1))
    ensures |Invalidation(a).actions| == 12 && StoreAt(Invalidation(a), 12, [f]) && !f.m.invalidated
  {
    hide IsRun, At, R.Captured, Invalidation;
    InvalidationRuns(a);
    assert WrittenAt(Invalidation(a), 8, f);
  }

  lemma RunEndsInvalidated(a: Job)
    requires R.Captured(a.entry) && a.valid
    ensures EndsInvalidated(a)
  {
    hide IsRun, At, R.Captured;
    InvalidationRuns(a);
  }

  lemma SelectedAlone(f: File)
    requires Loads(f) && !f.m.invalidated
    ensures IsSelectedAlone(f)
  {
    hide Loads, Selects, LoadAll, Kept;
    OneFileIsSelected(f);
  }

  lemma InvalidatedComesBack(a: Job, f: File)
    requires R.Captured(a.entry) && a.valid && f.n == 0 && Describes(f.m, NewEntry(a, 1, 1)) && Loads(f)
    ensures ComesBack(a, f)
  {
    hide EndsInvalidated, StoreAt, IsSelectedAlone, R.Captured, Describes, Loads, Invalidation;
    RunEndsInvalidated(a);
    InvalidationStore(a, f);
    SelectedAlone(f);
  }

  /** Capture, invalidate, restart: whatever the request, the entry can be selected again. */
  lemma InvalidationForgotten(r: Request, m: Metadata, p: Decide.Policy)
    requires ValidTopology(r.descriptor.nodes, r.descriptor.edges) && FileFits(r, m) && Describes(m, NewEntry(JobOf(r, p), 1, 1))
    ensures ComesBack(JobOf(r, p), FileFor(r, 0, m))
  {
    hide ComesBack, ValidTopology, EntryFor, FileFits, Loads, EntryIn;
    FileForLoads(r, 0, m);
    InvalidatedComesBack(JobOf(r, p), FileFor(r, 0, m));
  }
}
