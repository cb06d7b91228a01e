/**
  `invalidate_all` collects its targets from the artifact index. One graph
  captured for two workloads is one artifact under two keys, so the entry that
  was captured first has lost its slot there: a run from an empty cache in
  which everything is invalidated and that entry stays selectable.
 */
module EngineShared {
  import opened Bytes
  import opened Topology
  import opened Facts
  import opened Decide
  import opened FactsCodec
  import opened CacheRegistry
  import opened CacheInvalidation
  import opened CacheEngine
  import opened EngineRuns
  import opened EnginePaths
  import opened EngineTraces
  import opened EngineJobs
  import R = CacheMoves
  import Sha256

  /** Two captures, one after the other, and then an invalidation of everything. */
  function Shared(a: Job, b: Job): Run {
    Run(3, EMPTY, (CaptureActions(0, a) + [PublishEntry(0)]) + (CaptureActions(1, b) + [PublishEntry(1)])
                  + [BeginInvalidate(2, ByAll), Collect(2, [1]), MarkNext(2), MarkNext(2)])
  }

  lemma SecondMisses(a: Job, b: Job)
    requires R.Captured(a.entry) && WorkloadKey(a.entry.facts.workload) != WorkloadKey(b.entry.facts.workload)
    ensures Search(WithCapture(EMPTY, a), b.entry.facts, b.policy) == MissCaptureRequired
  {
    hide Decided, Fresh, WorkloadKey;
    assert Bucket(WithCapture(EMPTY, a).byWorkload, WorkloadKey(b.entry.facts.workload)) == [];
  }

  /** The one slot of the shared artifact points at the second entry. */
  lemma OnlySecondTargeted(a: Job, b: Job)
    requires R.Captured(a.entry) && R.Captured(b.entry) && a.entry.artifact == b.entry.artifact
    ensures Published(Both(a, b), 1) && Invalidates(R.Apply(Both(a, b), R.BumpCache), ByAll, [1])
  {
    hide Both;
    BothPublished(a, b);
    var r := R.Apply(Both(a, b), R.BumpCache);
    forall n: nat
      ensures n in [1] <==> IsTarget(r, ByAll, n)
    {
      if n == 1 {
        assert a.entry.artifact in r.byArtifact && r.byArtifact[a.entry.artifact] == 1;
      }
    }
  }

  function Afterwards(a: Job, b: Job): Registry
    requires R.Captured(a.entry) && R.Captured(b.entry) && Published(Both(a, b), 1)
  {
    R.Apply(R.Apply(Both(a, b), R.BumpCache), R.Mark(1))
  }

  lemma FirstSurvives(a: Job, b: Job)
    requires R.Captured(a.entry) && R.Captured(b.entry) && a.entry.artifact == b.entry.artifact && a.entry.key != b.entry.key
    ensures Published(Both(a, b), 1) && Selectable(Afterwards(a, b), 0)
    ensures |Afterwards(a, b).entries| == 2
    ensures Afterwards(a, b).entries[0] == NewEntry(a, 1, 1).(published := true) && Afterwards(a, b).entries[1].invalidated
  {
    hide Both;
    BothPublished(a, b);
  }

  lemma SharedLeads(a: Job, b: Job) returns (x: Engine)
    requires R.Captured(a.entry) && R.Captured(b.entry) && a.valid && b.valid
    requires a.entry.artifact == b.entry.artifact && a.entry.key != b.entry.key
    requires WorkloadKey(a.entry.facts.workload) != WorkloadKey(b.entry.facts.workload)
    ensures Leads(Start(3, EMPTY), Shared(a, b).actions, x)
    ensures |x.threads| == 3 && x.threads[2] == Idle && Published(Both(a, b), 1) && x.reg == Afterwards(a, b)
  {
    hide Leads, Search, CaptureActions, Invalidates, WithCapture, R.Apply, WorkloadKey;
    var s := Start(3, EMPTY);
    NothingFound(a.entry.facts, a.policy);
    CapturesAndPublishes(s, 0, a);
    var y := AfterCapture(s, 0, a);
    SecondMisses(a, b);
    CapturesAndPublishes(y, 1, b);
    var z := AfterCapture(y, 1, b);
    OnlySecondTargeted(a, b);
    InvalidatesOne(z, 2, 1);
    var first, second := CaptureActions(0, a) + [PublishEntry(0)], CaptureActions(1, b) + [PublishEntry(1)];
    LeadsAppend(s, first, y, second, z);
    x := z.(reg := R.Apply(R.Apply(z.reg, R.BumpCache), R.Mark(1)));
    LeadsAppend(s, first + second, z, [BeginInvalidate(2, ByAll), Collect(2, [1]), MarkNext(2), MarkNext(2)], x);
  }

  /** Both captures are published, everything is invalidated from beginning to end, and the first entry is as selectable as before. */
  ghost predicate FirstOutlives(a: Job, b: Job) {
    var run := Shared(a, b);
    && run.actions[7] == PublishEntry(0) && run.actions[15] == PublishEntry(1)
    && run.actions[16] == BeginInvalidate(2, ByAll) && run.actions[19] == MarkNext(2) && |run.actions| == 20
    && IsRun(run, 20)
    && var x := At(run, 20);
       && |x.threads| == 3 && x.threads[2] == Idle && |x.reg.entries| == 2
       && Selectable(x.reg, 0) && x.reg.entries[0] == NewEntry(a, 1, 1).(published := true) && x.reg.entries[1].invalidated
  }

  lemma SharedRun(a: Job, b: Job)
    requires R.Captured(a.entry) && R.Captured(b.entry) && a.valid && b.valid
    requires a.entry.artifact == b.entry.artifact && a.entry.key != b.entry.key
    requires WorkloadKey(a.entry.facts.workload) != WorkloadKey(b.entry.facts.workload)
    ensures FirstOutlives(a, b)
  {
    hide Selectable, IsRun, At, Leads, R.Inv, R.Captured, Afterwards, Both, WorkloadKey;
    var x := SharedLeads(a, b);
    R.EmptyInv();
    LeadsIsRun(Shared(a, b), x);
    FirstSurvives(a, b);
  }

  /**
    So it is for two lookups of any one descriptor, under workloads with
    different joined keys, whose facts do not collide under SHA-256.
   */
  lemma SharedArtifactSurvives(r: Request, q: Request, p: Policy)
    requires ValidTopology(r.descriptor.nodes, r.descriptor.edges) && q.descriptor == r.descriptor
    requires WorkloadKey(r.workload) != WorkloadKey(q.workload) && |EncodeFacts(FactsOfRequest(r))| < TWO_32
    requires Sha256.Digest(EncodeFacts(FactsOfRequest(r))) != Sha256.Digest(EncodeFacts(FactsOfRequest(q)))
    ensures FirstOutlives(JobOf(r, p), JobOf(q, p))
  {
    hide FirstOutlives, ValidTopology, EncodeFacts, Sha256.Digest, EntryFor, WorkloadKey, FactsOfRequest;
    OneArtifactTwoKeys(r, q);
    WorkloadOfJob(r);
    WorkloadOfJob(q);
    SharedRun(JobOf(r, p), JobOf(q, p));
  }

  lemma WorkloadOfJob(r: Request)
    ensures EntryFor(r).facts.workload == r.workload
  {
  }
}
