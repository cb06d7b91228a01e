/**
  From lookup to execution, in every run of the engine: whatever request opens
  a lease, the executable it is given replays as the request's own graph would,
  whether the entry was captured in the run or recovered from a file.
 */
module EngineHits {
  import opened Bytes
  import opened Descriptors
  import opened Topology
  import opened TopologyCodec
  import opened Facts
  import opened Decide
  import opened Finalize
  import opened HitSoundness
  import opened HitReplay
  import opened CacheRegistry
  import opened CacheRecovery
  import opened CacheInvalidation
  import opened CacheEngine
  import opened EngineInvariant
  import opened EngineRuns
  import opened EngineJobs
  import opened GraphCache
  import Recovery
  import StoredCodec
  import R = CacheMoves
  import F = SingleFlight
  import L = Leases

  // ----- what the entries of a run were made from -----

  ghost predicate IsRequestJob(job: Job) {
    exists q :: job == JobOf(q, job.policy)
  }

  /** Every lookup in the run is one of a request. */
  ghost predicate FromRequests(run: Run) {
    forall i | 0 <= i < |run.actions| && run.actions[i].Begin? :: IsRequestJob(run.actions[i].job)
  }

  /** The entry was loaded from one of the files, with this descriptor. */
  ghost predicate LoadedFrom(files: seq<seq<byte>>, e: Entry, d: Descriptor) {
    exists i: nat, m :: i < |files| && Recovery.LoadEntry(files[i]) == Some((d, m)) && e == EntryOf(d, m).(published := true)
  }

  /** The step builds entry `e` for a request with this finalised descriptor. */
  ghost predicate BuildsFrom(s: Engine, a: Action, e: nat, d: Descriptor) {
    && a.BuildEntry? && a.t < |s.threads| && s.threads[a.t].Flying? && s.threads[a.t].work.Numbered? && |s.reg.entries| == e
    && exists c :: s.threads[a.t].job == JobOf(c, s.threads[a.t].job.policy) && d == Finalized(c.descriptor)
  }

  ghost predicate BuiltFrom(run: Run, n: nat, e: nat, d: Descriptor)
    requires n <= |run.actions|
  {
    exists i: nat :: i < n && IsRun(run, i) && Enabled(At(run, i), run.actions[i]) && BuildsFrom(At(run, i), run.actions[i], e, d)
  }

  /** The descriptor that entry `e` holds, and that its executable is captured from. */
  ghost predicate KeepsDescriptor(run: Run, files: seq<seq<byte>>, n: nat, e: nat, d: Descriptor)
    requires n <= |run.actions|
  {
    if e < |run.reg.entries| then LoadedFrom(files, run.reg.entries[e], d) else BuiltFrom(run, n, e, d)
  }

  // ----- entries keep their facts -----

  lemma StepKeepsFacts(s: Engine, a: Action, e: nat)
    requires Inv(s) && Enabled(s, a) && e < |s.reg.entries|
    ensures e < |Apply(s, a).reg.entries| && Apply(s, a).reg.entries[e].facts == s.reg.entries[e].facts
  {
    hide Inv, Enabled, Apply, R.Apply, R.Enabled, RegistryMove;
    RegistryStep(s, a);
    if RegistryMove(s, a).Some? {
      R.StepKeeps(s.reg, RegistryMove(s, a).value);
    }
  }

  lemma {:induction false} RunKeepsFacts(run: Run, i: nat, n: nat, e: nat)
    requires i <= n <= |run.actions| && IsRun(run, n) && IsRun(run, i) && e < |At(run, i).reg.entries|
    ensures e < |At(run, n).reg.entries| && At(run, n).reg.entries[e].facts == At(run, i).reg.entries[e].facts
  {
    hide Inv, Enabled, Apply;
    if i < n {
      RunKeepsFacts(run, i, n - 1, e);
      RunInv(run, n - 1);
      StepKeepsFacts(At(run, n - 1), run.actions[n - 1], e);
    }
  }

  // ----- only valid topologies are built -----

  predicate PastValidation(th: Thread) {
    th.Flying? && (th.work.Numbered? || th.work.Built? || th.work.Checked?)
  }

  predicate AllValidated(s: Engine) {
    forall t | 0 <= t < |s.threads| && PastValidation(s.threads[t]) :: s.threads[t].job.valid
  }

  lemma ValidatedKept(s: Engine, a: Action)
    requires Enabled(s, a) && AllValidated(s)
    ensures AllValidated(Apply(s, a))
  {
    hide RegistryMove, FlightMove, LedgerMove, R.Apply, R.Enabled, F.Apply, F.Enabled, L.Apply, L.Enabled, Search, Invalidates;
  }

  lemma {:induction false} RunValidates(run: Run, n: nat)
    requires n <= |run.actions| && IsRun(run, n)
    ensures AllValidated(At(run, n))
  {
    hide Enabled, Apply;
    if n > 0 {
      RunValidates(run, n - 1);
      ValidatedKept(At(run, n - 1), run.actions[n - 1]);
    }
  }

  lemma BuiltFacts(s: Engine, a: Action, e: nat, d: Descriptor)
    requires Enabled(s, a) && BuildsFrom(s, a, e, d) && AllValidated(s)
    ensures e < |Apply(s, a).reg.entries| && Apply(s, a).reg.entries[e].facts.topology == CanonicalTopology(d.nodes, d.edges)
  {
    hide FlightMove, LedgerMove, ThreadAfter, F.Apply, F.Enabled, L.Apply, L.Enabled, R.Captured, Search, Invalidates, CanonicalTopology, EntryFor,
         Finalized, ValidTopology;
    var job := s.threads[a.t].job;
    var c :| job == JobOf(c, job.policy) && d == Finalized(c.descriptor);
    assert PastValidation(s.threads[a.t]);
    FinalizedTopology(c.descriptor);
    JobTopology(c);
  }

  lemma JobTopology(c: Request)
    ensures EntryFor(c).facts == FactsOfRequest(c)
    ensures EntryFor(c).facts.topology == CanonicalTopology(c.descriptor.nodes, c.descriptor.edges)
  {
    hide CanonicalTopology, TensorsOf, Finalized, GraphIdOf, KeyOf;
  }

  lemma LoadedTopology(files: seq<seq<byte>>, e: Entry, d: Descriptor)
    requires LoadedFrom(files, e, d)
    ensures e.facts.topology == CanonicalTopology(d.nodes, d.edges)
  {
    hide CanonicalTopology, TensorsOf, GraphIdOf, KeyOf, Recovery.LoadEntry;
  }

  lemma BuiltTopology(run: Run, n: nat, e: nat, d: Descriptor)
    requires n <= |run.actions| && IsRun(run, n) && BuiltFrom(run, n, e, d)
    ensures e < |At(run, n).reg.entries| && At(run, n).reg.entries[e].facts.topology == CanonicalTopology(d.nodes, d.edges)
  {
    hide CanonicalTopology, BuildsFrom, Enabled, Apply;
    var i: nat :| i < n && IsRun(run, i) && Enabled(At(run, i), run.actions[i]) && BuildsFrom(At(run, i), run.actions[i], e, d);
    RunValidates(run, i);
    BuiltFacts(At(run, i), run.actions[i], e, d);
    RunKeepsFacts(run, i + 1, n, e);
  }

  /** The facts of an entry carry the canonical bytes of the descriptor it holds. */
  lemma KeptTopology(run: Run, files: seq<seq<byte>>, n: nat, e: nat, d: Descriptor)
    requires n <= |run.actions| && IsRun(run, n) && KeepsDescriptor(run, files, n, e, d)
    ensures e < |At(run, n).reg.entries| && At(run, n).reg.entries[e].facts.topology == CanonicalTopology(d.nodes, d.edges)
  {
    hide CanonicalTopology, BuiltFrom, LoadedFrom, Enabled, Apply;
    if e < |run.reg.entries| {
      PrefixIsRun(run, 0, n);
      LoadedTopology(files, run.reg.entries[e], d);
      RunKeepsFacts(run, 0, n, e);
    } else {
      BuiltTopology(run, n, e, d);
    }
  }

  // ----- every job is a request's, and every entry holds a descriptor -----

  ghost predicate JobsAreRequests(s: Engine) {
    forall t | 0 <= t < |s.threads| && HasJob(s.threads[t]) :: IsRequestJob(s.threads[t].job)
  }

  lemma JobsKept(s: Engine, a: Action)
    requires Enabled(s, a) && JobsAreRequests(s) && (a.Begin? ==> IsRequestJob(a.job))
    ensures JobsAreRequests(Apply(s, a))
  {
    hide RegistryMove, FlightMove, LedgerMove, R.Apply, R.Enabled, F.Apply, F.Enabled, L.Apply, L.Enabled, Search, Invalidates, IsRequestJob;
  }

  lemma {:induction false} RunJobs(run: Run, n: nat)
    requires n <= |run.actions| && IsRun(run, n) && FromRequests(run)
    ensures JobsAreRequests(At(run, n))
  {
    hide Enabled, Apply, IsRequestJob;
    if n > 0 {
      RunJobs(run, n - 1);
      JobsKept(At(run, n - 1), run.actions[n - 1]);
    }
  }

  lemma NewEntryIsBuilt(s: Engine, a: Action, e: nat) returns (d: Descriptor)
    requires Enabled(s, a) && JobsAreRequests(s) && |s.reg.entries| <= e < |Apply(s, a).reg.entries|
    ensures BuildsFrom(s, a, e, d)
  {
    hide FlightMove, LedgerMove, ThreadAfter, F.Apply, F.Enabled, L.Apply, L.Enabled, R.Captured, Search, Invalidates, JobOf, Finalized,
         WorkloadKey, R.Add;
    assert HasJob(s.threads[a.t]);
    var c :| s.threads[a.t].job == JobOf(c, s.threads[a.t].job.policy);
    d := Finalized(c.descriptor);
  }

  lemma {:induction false} LoadedHaveFiles(files: seq<seq<byte>>, e: nat) returns (i: nat, d: Descriptor, m: StoredCodec.Metadata)
    requires e < |LoadAll(files)|
    ensures i < |files| && Recovery.LoadEntry(files[i]) == Some((d, m)) && LoadAll(files)[e] == EntryOf(d, m)
    decreases |files|
  {
    hide Recovery.LoadEntry, EntryOf;
    var last := |files| - 1;
    if e < |LoadAll(files[..last])| {
      i, d, m := LoadedHaveFiles(files[..last], e);
    } else {
      i := last;
      d, m := Recovery.LoadEntry(files[last]).value.0, Recovery.LoadEntry(files[last]).value.1;
    }
  }

  lemma KeepsLonger(run: Run, files: seq<seq<byte>>, i: nat, n: nat, e: nat, d: Descriptor)
    requires i <= n <= |run.actions| && KeepsDescriptor(run, files, i, e, d)
    ensures KeepsDescriptor(run, files, n, e, d)
  {
    hide LoadedFrom, BuildsFrom, Enabled, IsRun, At;
  }

  lemma KeepsFromNow(run: Run, files: seq<seq<byte>>, i: nat, e: nat, d: Descriptor)
    requires i < |run.actions| && IsRun(run, i) && Enabled(At(run, i), run.actions[i]) && BuildsFrom(At(run, i), run.actions[i], e, d)
    requires |run.reg.entries| <= e
    ensures KeepsDescriptor(run, files, i + 1, e, d)
  {
    hide LoadedFrom, BuildsFrom, Enabled, IsRun, At;
  }

  /** Whatever is in the cache at any point of a run holds a descriptor that was captured for a request or loaded from a file. */
  lemma {:induction false} EveryEntryKeepsOne(run: Run, files: seq<seq<byte>>, n: nat, e: nat) returns (d: Descriptor)
    requires n <= |run.actions| && IsRun(run, n) && FromRequests(run) && run.reg == Recovered(LoadAll(files))
    requires e < |At(run, n).reg.entries|
    ensures KeepsDescriptor(run, files, n, e, d)
  {
    hide Enabled, Apply, Recovered, LoadedFrom, FromRequests, BuildsFrom, BuiltFrom, JobsAreRequests, R.Inv, LoadAll;
    if e < |run.reg.entries| {
      d := RecoveredIsLoaded(files, e);
    } else if e < |At(run, n - 1).reg.entries| {
      hide KeepsDescriptor;
      d := EveryEntryKeepsOne(run, files, n - 1, e);
      KeepsLonger(run, files, n - 1, n, e, d);
    } else {
      hide KeepsDescriptor;
      RunJobs(run, n - 1);
      d := NewEntryIsBuilt(At(run, n - 1), run.actions[n - 1], e);
      KeepsFromNow(run, files, n - 1, e, d);
    }
  }

  lemma RecoveredIsLoaded(files: seq<seq<byte>>, e: nat) returns (d: Descriptor)
    requires e < |Recovered(LoadAll(files)).entries|
    ensures LoadedFrom(files, Recovered(LoadAll(files)).entries[e], d)
  {
    hide LoadAll, RecoverAll, GreatestGeneration, GreatestCacheGeneration, Recovery.LoadEntry, EntryOf;
    RecoverAllEntries(LoadAll(files));
    var i, loaded, m := LoadedHaveFiles(files, e);
    d := loaded;
  }

  /** Every store starts a run, in whatever order its files are listed: all it takes is one file per artifact. */
  lemma EveryStoreStarts(run: Run, files: seq<seq<byte>>)
    requires run.reg == Recovered(LoadAll(files)) && OnePerArtifact(LoadAll(files))
    ensures IsRun(run, 0)
  {
    hide LoadAll, Recovered, R.Inv, OnePerArtifact, Loaded;
    forall i | 0 <= i < |LoadAll(files)|
      ensures Loaded(LoadAll(files)[i])
    {
      var _, d, m := LoadedHaveFiles(files, i);
      EntryIsLoaded(d, m);
    }
    RecoveredInv(LoadAll(files));
  }

  lemma EntryIsLoaded(d: Descriptor, m: StoredCodec.Metadata)
    ensures Loaded(EntryOf(d, m))
  {
    hide KeyOf, GraphIdOf, FactsOfStored;
  }

  // ----- main result -----

  /** What step `n` grants: a lease on the entry its thread has chosen, with an executable. */
  lemma GrantedLease(s: Engine, t: nat)
    requires Inv(s) && Enabled(s, OpenLease(t))
    ensures t < |s.threads| && s.threads[t].Cleared?
    ensures var x := Apply(s, OpenLease(t));
            && x.ledger.leases == s.ledger.leases + [L.Lease(s.threads[t].n, L.Opening)]
            && |x.executables| == |x.ledger.leases| && x.executables[|s.executables|]
    ensures var job := s.threads[t].job;
            s.threads[t].n < |s.reg.entries| && Decided(job.entry.facts, s.reg.entries[s.threads[t].n].facts, job.policy).Compatible()
  {
    hide R.Inv, R.Apply, F.Inv, F.Apply, L.Inv, PlaceOk, GrantOk, WorkOk, Decided, Search, Invalidates, RegistryMove, FlightMove;
    assert ThreadOk(s, t);
  }

  /** Step `n` opens a lease for this request, which asked for exact topology, on entry `e`. */
  ghost predicate OpensLease(run: Run, n: nat, q: Request, e: nat) {
    && n < |run.actions| && IsRun(run, n) && Enabled(At(run, n), run.actions[n]) && run.actions[n].OpenLease?
    && var th := At(run, n).threads[run.actions[n].t];
       th.Cleared? && th.n == e && th.job == JobOf(q, th.job.policy) && th.job.policy.exactTopology
  }

  /**
    In every run, from an empty cache or from any store, a request that asked
    for exact topology and opens a lease gets an executable captured from a
    graph that can stand in for its own.
   */
  lemma LeaseReplaysOwnRequest(run: Run, files: seq<seq<byte>>, n: nat, q: Request, e: nat, d: Descriptor)
    requires OpensLease(run, n, q, e) && KeepsDescriptor(run, files, n, e, d)
    requires TopologyFits(q.descriptor.nodes, q.descriptor.edges) && TopologyFits(d.nodes, d.edges)
    ensures ReplaysLike(q.descriptor, d)
  {
    hide Inv, Enabled, Apply, IsRun, At, KeepsDescriptor, ReplaysLike, TopologyFits, CanonicalTopology, Decided, EntryFor, ValidTopology, FactsOfRequest;
    var s, t := At(run, n), run.actions[n].t;
    RunInv(run, n);
    GrantedLease(s, t);
    KeptTopology(run, files, n, e, d);
    JobTopology(q);
    HitSoundness.HitSoundness(q, s.reg.entries[e].facts, d, s.threads[t].job.policy);
  }

  /** And every lease is of that kind, as far as its holder asked for exact topology. */
  lemma EveryLeaseHasSource(run: Run, files: seq<seq<byte>>, n: nat, t: nat) returns (q: Request, e: nat, d: Descriptor)
    requires n < |run.actions| && IsRun(run, n) && Enabled(At(run, n), run.actions[n]) && run.actions[n] == OpenLease(t)
    requires FromRequests(run) && run.reg == Recovered(LoadAll(files))
    ensures At(run, n).threads[t].Cleared? && At(run, n).threads[t].n == e
    ensures At(run, n).threads[t].job.policy.exactTopology ==> OpensLease(run, n, q, e)
    ensures KeepsDescriptor(run, files, n, e, d)
  {
    hide Inv, Enabled, Apply, IsRun, At, KeepsDescriptor, Decided, Recovered, FromRequests, JobOf;
    RunInv(run, n);
    GrantedLease(At(run, n), t);
    RunJobs(run, n);
    var job := At(run, n).threads[t].job;
    e := At(run, n).threads[t].n;
    assert IsRequestJob(job);
    q :| job == JobOf(q, job.policy);
    d := EveryEntryKeepsOne(run, files, n, e);
  }
}
