/**
  The stale-capture check and the publication are two critical sections of
  `capture_graph`, so an invalidation that falls between them is missed: a run
  in which everything is invalidated after the check, and the captured entry
  is published and selectable nevertheless.
 */
module EngineRace {
  import opened CacheRegistry
  import opened CacheInvalidation
  import opened CacheEngine
  import opened EngineRuns
  import opened EnginePaths
  import R = CacheMoves
  import F = SingleFlight

  function Race(job: Job): Run {
    Run(2, EMPTY, CaptureActions(0, job) + [BeginInvalidate(1, ByAll), Collect(1, []), MarkNext(1)] + [PublishEntry(0)])
  }

  /** What is not published yet is not among the targets. */
  lemma NoTargets(job: Job)
    requires R.Captured(job.entry)
    ensures Invalidates(R.Apply(WithEntry(EMPTY, job), R.BumpCache), ByAll, [])
  {
  }

  function Afterwards(job: Job): Registry
    requires R.Captured(job.entry)
  {
    R.Apply(R.Apply(WithEntry(EMPTY, job), R.BumpCache), R.Publish(0))
  }

  lemma StillSelectable(job: Job)
    requires R.Captured(job.entry)
    ensures Selectable(Afterwards(job), 0) && Afterwards(job).entries[0].cacheGeneration < Afterwards(job).cacheGen
  {
  }

  lemma RaceLeads(job: Job) returns (x: Engine)
    requires R.Captured(job.entry) && job.valid
    ensures Leads(Start(2, EMPTY), Race(job).actions, x)
    ensures |x.threads| == 2 && x.threads[1] == Idle && x.reg == Afterwards(job)
  {
    hide Leads, Search, CaptureActions, Invalidates;
    var s := Start(2, EMPTY);
    NothingFound(job.entry.facts, job.policy);
    CapturesToCheck(s, 0, job);
    var y := AfterCheck(s, 0, job);
    NoTargets(job);
    InvalidatesNothing(y, 1);
    var z := y.(reg := R.Apply(y.reg, R.BumpCache));
    var middle := [BeginInvalidate(1, ByAll), Collect(1, []), MarkNext(1)];
    LeadsAppend(s, CaptureActions(0, job), y, middle, z);
    PublishIt(z, 0, job, 1, 0);
    x := With(z, 0, Flying(job, Ended(F.Success(z.reg.entries[0].artifact)))).(reg := R.Apply(z.reg, R.Publish(0)));
    Then(s, CaptureActions(0, job) + middle, z, PublishEntry(0), x);
  }

  /** The invalidation begins and ends after the check, and before the publication it should have prevented. */
  lemma LateInvalidationIsMissed(job: Job)
    requires R.Captured(job.entry) && job.valid
    ensures var run := Race(job);
            && IsRun(run, 11) && run.actions[6] == CheckGeneration(0) && run.actions[7] == BeginInvalidate(1, ByAll)
            && run.actions[9] == MarkNext(1) && run.actions[10] == PublishEntry(0)
            && |At(run, 11).threads| == 2 && At(run, 11).threads[1] == Idle
            && Selectable(At(run, 11).reg, 0) && At(run, 11).reg.entries[0].cacheGeneration < At(run, 11).reg.cacheGen
  {
    hide R.Captured, Selectable, IsRun, At, Leads, R.Inv, Afterwards;
    var x := RaceLeads(job);
    R.EmptyInv();
    LeadsIsRun(Race(job), x);
    StillSelectable(job);
  }
}
