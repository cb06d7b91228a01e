/**
  Runs from an empty cache that several results use: two captures one after the
  other, and a capture that is invalidated.
 */
module EngineTraces {
  import opened CacheRegistry
  import opened CacheInvalidation
  import opened CacheEngine
  import opened EngineRuns
  import opened EnginePaths
  import R = CacheMoves
  import F = SingleFlight

  // ----- two captures -----

  /** The registry after two captures. */
  function Both(a: Job, b: Job): Registry
    requires R.Captured(a.entry) && R.Captured(b.entry)
  {
    WithCapture(WithCapture(EMPTY, a), b)
  }

  lemma BothPublished(a: Job, b: Job)
    requires R.Captured(a.entry) && R.Captured(b.entry)
    ensures Both(a, b).entries == [NewEntry(a, 1, 1).(published := true), NewEntry(b, 2, 1).(published := true)]
    ensures Both(a, b).byArtifact == map[a.entry.artifact := 0][b.entry.artifact := 1]
    ensures Both(a, b).current == map[a.entry.key := 1][b.entry.key := 2]
  {
    hide R.Add, WorkloadKey;
    var r := WithCapture(EMPTY, a);
    assert r.entries == [NewEntry(a, 1, 1).(published := true)];
    assert r.byArtifact == map[a.entry.artifact := 0] && r.current == map[a.entry.key := 1];
  }

  /** Both searches miss before either thread captures, and the captures follow one after the other. */
  function Twice(a: Job, b: Job): Run {
    Run(2, EMPTY, [Begin(0, a), Seek(0, true)] + [Begin(1, b), Seek(1, true)] + (FlightActions(0) + [PublishEntry(0)])
                  + [RecordResult(0), EraseFlight(0)] + (FlightActions(1) + [PublishEntry(1)]))
  }

  lemma BothMiss(a: Job, b: Job) returns (x: Engine)
    requires R.Captured(a.entry) && R.Captured(b.entry)
    ensures Leads(Start(2, EMPTY), [Begin(0, a), Seek(0, true)] + [Begin(1, b), Seek(1, true)], x)
    ensures x == Start(2, EMPTY).(threads := [Flying(a, NoWork), Flying(b, NoWork)])
  {
    hide Leads, Search, R.Captured;
    var s := Start(2, EMPTY);
    NothingFound(a.entry.facts, a.policy);
    NothingFound(b.entry.facts, b.policy);
    Misses(s, 0, a);
    var y := With(s, 0, Flying(a, NoWork));
    Misses(y, 1, b);
    x := With(y, 1, Flying(b, NoWork));
    LeadsAppend(s, [Begin(0, a), Seek(0, true)], y, [Begin(1, b), Seek(1, true)], x);
    assert x.threads == [Flying(a, NoWork), Flying(b, NoWork)];
  }

  lemma FirstCaptures(s: Engine, a: Job, b: Job) returns (x: Engine)
    requires R.Captured(a.entry) && a.valid && s == Start(2, EMPTY).(threads := [Flying(a, NoWork), Flying(b, NoWork)])
    ensures Leads(s, FlightActions(0) + [PublishEntry(0)] + [RecordResult(0), EraseFlight(0)], x)
    ensures x.reg == WithCapture(EMPTY, a) && |x.threads| == 2 && |x.flights.phases| == 2 && x.threads[1] == Flying(b, NoWork)
    ensures x.flights.phases[1] == F.Out && x.flights.inflight == map[]
  {
    hide Leads, FlightActions, R.Captured, WithCapture;
    FliesAndPublishes(s, 0, a);
    var y := AfterCapture(s, 0, a);
    FlightEnds(y, 0);
    x := AfterFlight(y, 0);
    LeadsAppend(s, FlightActions(0) + [PublishEntry(0)], y, [RecordResult(0), EraseFlight(0)], x);
  }

  lemma TwiceLeads(a: Job, b: Job) returns (x: Engine)
    requires R.Captured(a.entry) && R.Captured(b.entry) && a.valid && b.valid
    ensures Leads(Start(2, EMPTY), Twice(a, b).actions, x) && x.reg == Both(a, b)
  {
    hide Leads, FlightActions, R.Captured, WithCapture;
    var s := Start(2, EMPTY);
    var y := BothMiss(a, b);
    var z := FirstCaptures(y, a, b);
    FliesAndPublishes(z, 1, b);
    x := AfterCapture(z, 1, b);
    var first, second := [Begin(0, a), Seek(0, true)] + [Begin(1, b), Seek(1, true)], FlightActions(0) + [PublishEntry(0)];
    var third, fourth := [RecordResult(0), EraseFlight(0)], FlightActions(1) + [PublishEntry(1)];
    LeadsAppend(s, first, y, second + third, z);
    assert first + (second + third) == first + second + third;
    LeadsAppend(s, first + second + third, z, fourth, x);
  }

  lemma TwiceRuns(a: Job, b: Job)
    requires R.Captured(a.entry) && R.Captured(b.entry) && a.valid && b.valid
    ensures |Twice(a, b).actions| == 18 && IsRun(Twice(a, b), 18)
    ensures At(Twice(a, b), 18).reg.entries == [NewEntry(a, 1, 1).(published := true), NewEntry(b, 2, 1).(published := true)]
    ensures At(Twice(a, b), 18).reg.current == map[a.entry.key := 1][b.entry.key := 2]
  {
    hide IsRun, At, Leads, R.Inv, R.Captured, Both;
    var x := TwiceLeads(a, b);
    R.EmptyInv();
    LeadsIsRun(Twice(a, b), x);
    BothPublished(a, b);
  }

  // ----- a capture that is invalidated -----

  /** A capture, then an invalidation of everything from beginning to end. */
  function Invalidation(a: Job): Run {
    Run(2, EMPTY, (CaptureActions(0, a) + [PublishEntry(0)]) + [BeginInvalidate(1, ByAll), Collect(1, [0]), MarkNext(1), MarkNext(1)])
  }

  lemma OnlyTarget(a: Job)
    requires R.Captured(a.entry)
    ensures var r := WithCapture(EMPTY, a);
            r.entries == [NewEntry(a, 1, 1).(published := true)] && Invalidates(R.Apply(r, R.BumpCache), ByAll, [0])
  {
    hide R.Add, WorkloadKey;
    var r := WithCapture(EMPTY, a);
    assert r.entries == [NewEntry(a, 1, 1).(published := true)] && r.byArtifact == map[a.entry.artifact := 0];
    var b := R.Apply(r, R.BumpCache);
    assert a.entry.artifact in b.byArtifact;
  }

  lemma MarkedEntry(r: Registry)
    requires |r.entries| == 1 && Published(r, 0)
    ensures var b := R.Apply(r, R.BumpCache);
            Published(b, 0) && |R.Apply(b, R.Mark(0)).entries| == 1 && R.Apply(b, R.Mark(0)).entries[0].invalidated
  {
  }

  lemma InvalidationLeads(a: Job) returns (y: Engine, x: Engine)
    requires R.Captured(a.entry) && a.valid
    ensures Leads(Start(2, EMPTY), CaptureActions(0, a) + [PublishEntry(0)], y)
    ensures y.reg.entries == [NewEntry(a, 1, 1).(published := true)]
    ensures Leads(y, [BeginInvalidate(1, ByAll), Collect(1, [0]), MarkNext(1), MarkNext(1)], x)
    ensures |x.threads| == 2 && x.threads[1] == Idle && |x.reg.entries| == 1 && x.reg.entries[0].invalidated
  {
    hide Leads, Search, CaptureActions, Invalidates, WithCapture, R.Apply;
    var s := Start(2, EMPTY);
    NothingFound(a.entry.facts, a.policy);
    CapturesAndPublishes(s, 0, a);
    y := AfterCapture(s, 0, a);
    OnlyTarget(a);
    InvalidatesOne(y, 1, 0);
    MarkedEntry(y.reg);
    x := y.(reg := R.Apply(R.Apply(y.reg, R.BumpCache), R.Mark(0)));
  }

  lemma InvalidationRuns(a: Job)
    requires R.Captured(a.entry) && a.valid
    ensures var run := Invalidation(a);
            && |run.actions| == 12 && IsRun(run, 8) && At(run, 8).reg.entries == [NewEntry(a, 1, 1).(published := true)]
            && IsRun(run, 12) && |At(run, 12).threads| == 2 && At(run, 12).threads[1] == Idle
            && |At(run, 12).reg.entries| == 1 && At(run, 12).reg.entries[0].invalidated
    ensures !NewEntry(a, 1, 1).invalidated
  {
    hide IsRun, At, Leads, R.Inv;
    var y, x := InvalidationLeads(a);
    R.EmptyInv();
    LeadsThrough(Invalidation(a), CaptureActions(0, a) + [PublishEntry(0)], y,
                 [BeginInvalidate(1, ByAll), Collect(1, [0]), MarkNext(1), MarkNext(1)], x);
  }
}
