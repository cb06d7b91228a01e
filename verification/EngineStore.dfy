/**
  The store along the runs of the engine: each file was written at some step,
  for an entry that was published then and with the flag it had then.
 */
module EngineStore {
  import opened Bytes
  import opened StoredCodec
  import opened CacheRegistry
  import opened CacheRecovery
  import opened CacheInvalidation
  import opened CacheStore
  import opened CacheEngine
  import opened EngineInvariant
  import opened EngineRuns
  import opened GraphCache
  import R = CacheMoves
  import F = SingleFlight
  import L = Leases

  // ----- generations are never given out twice -----

  predicate IsNumbered(th: Thread) {
    th.Flying? && th.work.Numbered?
  }

  predicate UniqueEntries(r: Registry) {
    && (forall n: nat | n < |r.entries| :: r.entries[n].generation < r.graphGen)
    && (forall n: nat, m: nat | n < m < |r.entries| :: r.entries[n].generation != r.entries[m].generation)
  }

  predicate Unused(r: Registry, g: nat) {
    g < r.graphGen && forall n: nat | n < |r.entries| :: r.entries[n].generation != g
  }

  ghost predicate Unique(s: Engine) {
    && UniqueEntries(s.reg)
    && (forall t | 0 <= t < |s.threads| && IsNumbered(s.threads[t]) :: Unused(s.reg, s.threads[t].work.generation))
    && (forall t, u | 0 <= t < u < |s.threads| && IsNumbered(s.threads[t]) && IsNumbered(s.threads[u]) ::
          s.threads[t].work.generation != s.threads[u].work.generation)
  }

  lemma SameEntries(r: Registry, m: R.Move)
    requires R.Enabled(r, m) && !m.Build?
    ensures |R.Apply(r, m).entries| == |r.entries| && r.graphGen <= R.Apply(r, m).graphGen
    ensures forall n: nat | n < |r.entries| :: R.Apply(r, m).entries[n].generation == r.entries[n].generation
  {
    hide WorkloadKey, R.Add;
  }

  lemma BuildsUnique(r: Registry, e: Entry)
    requires UniqueEntries(r) && R.Captured(e) && Unused(r, e.generation)
    ensures UniqueEntries(R.Apply(r, R.Build(e)))
    ensures forall g | Unused(r, g) && g != e.generation :: Unused(R.Apply(r, R.Build(e)), g)
  {
  }

  /** Only these two actions touch what is numbered. */
  lemma NumberedBefore(s: Engine, a: Action, t: nat)
    requires Enabled(s, a) && t < |Apply(s, a).threads| && IsNumbered(Apply(s, a).threads[t])
    ensures t < |s.threads|
    ensures if a == NumberCapture(t) then Apply(s, a).threads[t].work.generation == s.reg.graphGen
            else s.threads[t] == Apply(s, a).threads[t] && a != BuildEntry(t)
  {
    hide RegistryMove, FlightMove, LedgerMove, R.Apply, R.Enabled, F.Apply, F.Enabled, L.Apply, L.Enabled, Search, Invalidates;
  }

  lemma NumberingStep(s: Engine, a: Action)
    requires Enabled(s, a) && a.NumberCapture?
    ensures Apply(s, a).reg == s.reg.(graphGen := s.reg.graphGen + 1)
  {
    hide FlightMove, LedgerMove, F.Apply, F.Enabled, L.Apply, L.Enabled, ThreadAfter, Runs;
  }

  lemma BuildingStep(s: Engine, a: Action)
    requires Enabled(s, a) && a.BuildEntry?
    ensures a.t < |s.threads| && IsNumbered(s.threads[a.t])
    ensures var e := NewEntry(s.threads[a.t].job, s.threads[a.t].work.generation, s.reg.cacheGen);
            R.Captured(e) && Apply(s, a).reg == R.Apply(s.reg, R.Build(e))
  {
    hide FlightMove, LedgerMove, F.Apply, F.Enabled, L.Apply, L.Enabled, ThreadAfter, R.Apply;
  }

  lemma OtherStep(s: Engine, a: Action)
    requires Enabled(s, a) && !a.BuildEntry?
    ensures |Apply(s, a).reg.entries| == |s.reg.entries| && s.reg.graphGen <= Apply(s, a).reg.graphGen
    ensures forall n: nat | n < |s.reg.entries| :: Apply(s, a).reg.entries[n].generation == s.reg.entries[n].generation
  {
    hide FlightMove, LedgerMove, F.Apply, F.Enabled, L.Apply, L.Enabled, ThreadAfter, R.Apply, R.Enabled, Runs;
    if RegistryMove(s, a).Some? {
      SameEntries(s.reg, RegistryMove(s, a).value);
    }
  }

  lemma UniqueRegistry(s: Engine, a: Action)
    requires Enabled(s, a) && Unique(s)
    ensures UniqueEntries(Apply(s, a).reg)
    ensures forall g | Unused(s.reg, g) && !(a.BuildEntry? && a.t < |s.threads| && IsNumbered(s.threads[a.t]) && s.threads[a.t].work.generation == g) ::
              Unused(Apply(s, a).reg, g)
  {
    hide Enabled, Apply, R.Apply, R.Captured;
    if a.BuildEntry? {
      BuildingStep(s, a);
      BuildsUnique(s.reg, NewEntry(s.threads[a.t].job, s.threads[a.t].work.generation, s.reg.cacheGen));
    } else {
      OtherStep(s, a);
    }
  }

  lemma UniqueKept(s: Engine, a: Action)
    requires Enabled(s, a) && Unique(s)
    ensures Unique(Apply(s, a))
  {
    hide Enabled, Apply, UniqueEntries;
    var x := Apply(s, a);
    UniqueRegistry(s, a);
    forall t | 0 <= t < |x.threads| && IsNumbered(x.threads[t])
      ensures Unused(x.reg, x.threads[t].work.generation)
    {
      NumberedBefore(s, a, t);
      if a == NumberCapture(t) {
        NumberingStep(s, a);
        FreshNumber(s.reg);
      } else if a.BuildEntry? {
        BuildingStep(s, a);
        assert a.t < t || t < a.t;
      }
    }
    forall t, u | 0 <= t < u < |x.threads| && IsNumbered(x.threads[t]) && IsNumbered(x.threads[u])
      ensures x.threads[t].work.generation != x.threads[u].work.generation
    {
      NumberedBefore(s, a, t);
      NumberedBefore(s, a, u);
    }
  }

  lemma FreshNumber(r: Registry)
    requires UniqueEntries(r)
    ensures Unused(r.(graphGen := r.graphGen + 1), r.graphGen)
  {
  }

  lemma {:induction false} RunUnique(run: Run, n: nat)
    requires n <= |run.actions| && IsRun(run, n) && UniqueEntries(run.reg)
    ensures Unique(At(run, n))
  {
    hide Enabled, Apply, UniqueEntries;
    if n > 0 {
      RunUnique(run, n - 1);
      UniqueKept(At(run, n - 1), run.actions[n - 1]);
    }
  }

  // ----- files -----

  /** What `encode_entry_payload` writes about an entry; the sizes and costs are whatever they are. */
  predicate Describes(m: Metadata, e: Entry) {
    && m.artifact == e.artifact && m.generation == e.generation && m.cacheGeneration == e.cacheGeneration
    && m.workload == e.facts.workload && m.dependencyGeneration == e.dependencyGeneration && m.invalidated == e.invalidated
  }

  ghost predicate WrittenAt(run: Run, i: nat, f: File)
    requires i <= |run.actions| && IsRun(run, i)
  {
    Published(At(run, i).reg, f.n) && Describes(f.m, At(run, i).reg.entries[f.n])
  }

  /** What the store holds at step `n`: for each artifact a file that was written at this step or before. */
  ghost predicate StoreAt(run: Run, n: nat, fs: seq<File>)
    requires n <= |run.actions|
  {
    && (forall f | f in fs :: exists i: nat :: i <= n && IsRun(run, i) && WrittenAt(run, i, f))
    && (forall i, j | 0 <= i < j < |fs| :: fs[i].m.artifact != fs[j].m.artifact)
  }

  lemma {:induction false} EntryEvolves(run: Run, i: nat, n: nat, e: nat)
    requires i <= n <= |run.actions| && IsRun(run, n) && IsRun(run, i) && e < |At(run, i).reg.entries|
    ensures e < |At(run, n).reg.entries| && R.Evolves(At(run, i).reg.entries[e], At(run, n).reg.entries[e])
  {
    hide Inv, Enabled, Apply, R.Apply, R.Enabled, RegistryMove;
    if i < n {
      var s, a := At(run, n - 1), run.actions[n - 1];
      EntryEvolves(run, i, n - 1, e);
      RunInv(run, n - 1);
      RegistryStep(s, a);
      if RegistryMove(s, a).Some? {
        R.StepKeeps(s.reg, RegistryMove(s, a).value);
      }
    }
  }

  lemma WrittenStays(run: Run, n: nat, f: File)
    requires n <= |run.actions| && IsRun(run, n) && exists i: nat :: i <= n && IsRun(run, i) && WrittenAt(run, i, f)
    ensures IsFileOf(At(run, n).reg, f) && f.m.artifact == At(run, n).reg.entries[f.n].artifact
  {
    hide IsRun, At;
    var i: nat :| i <= n && IsRun(run, i) && WrittenAt(run, i, f);
    EntryEvolves(run, i, n, f.n);
  }

  lemma StoreReflects(run: Run, n: nat, fs: seq<File>)
    requires n <= |run.actions| && IsRun(run, n) && UniqueEntries(run.reg) && StoreAt(run, n, fs)
    ensures Reflects(At(run, n).reg, fs)
  {
    hide IsRun, At, WrittenAt;
    RunUnique(run, n);
    var r := At(run, n).reg;
    forall f | f in fs
      ensures IsFileOf(r, f) && f.m.artifact == r.entries[f.n].artifact
    {
      WrittenStays(run, n, f);
    }
    forall i, j | 0 <= i < j < |fs|
      ensures Differ(fs[i], fs[j])
    {
      assert fs[i] in fs && fs[j] in fs;
      assert fs[i].n < fs[j].n || fs[j].n < fs[i].n;
    }
  }

  /** The bytes in the store: those files, and among them anything that does not load. */
  predicate OnDisk(disk: seq<seq<byte>>, fs: seq<File>) {
    Loadable(disk) == Loadable(Disk(fs))
  }

  /**
    In every run over entries with generations of their own, at every step and
    with every store that was written on the way: a restart changes nothing
    that searches can select exactly when the files are up to date.
   */
  lemma RestartInRun(run: Run, n: nat, fs: seq<File>, disk: seq<seq<byte>>)
    requires n <= |run.actions| && IsRun(run, n) && UniqueEntries(run.reg) && StoreAt(run, n, fs) && OnDisk(disk, fs)
    ensures |Owners(fs)| == |LoadAll(disk)|
    ensures RestartKeeps(At(run, n).reg, Owners(fs), LoadAll(disk)) <==> UpToDate(At(run, n).reg, Owners(fs), LoadAll(disk))
  {
    hide IsRun, At, UniqueEntries, StoreAt, RestartKeeps, UpToDate, LoadAll, Loadable, Owners, Apart, OnePerArtifact, Loaded;
    SameLoadable(disk, Disk(fs));
    StoreReflects(run, n, fs);
    RestartFromDisk(At(run, n).reg, fs);
  }

  /** The next run starts from what this one left on disk, and all of this holds of it again. */
  lemma RestartStarts(run: Run, n: nat, fs: seq<File>, disk: seq<seq<byte>>)
    requires n <= |run.actions| && IsRun(run, n) && UniqueEntries(run.reg) && StoreAt(run, n, fs) && OnDisk(disk, fs)
    ensures R.Inv(Recovered(LoadAll(disk))) && UniqueEntries(Recovered(LoadAll(disk)))
  {
    hide IsRun, At, StoreAt, RestartKeeps, UpToDate, LoadAll, Loadable, Owners, OnePerArtifact, Loaded, R.Inv, Recovered;
    SameLoadable(disk, Disk(fs));
    StoreReflects(run, n, fs);
    RestartFromDisk(At(run, n).reg, fs);
    RecoveredInv(LoadAll(disk));
    RecoveredGiven(LoadAll(disk));
  }

  lemma RecoveredGiven(es: seq<Entry>)
    requires Apart(es) && forall i | 0 <= i < |es| :: es[i].generation < Recovered(es).graphGen
    ensures UniqueEntries(Recovered(es))
  {
    hide RecoverAll, GreatestGeneration, GreatestCacheGeneration;
    RecoverAllEntries(es);
  }
}
