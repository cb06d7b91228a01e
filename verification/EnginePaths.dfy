/**
  Runs put together from pieces: a sequence of actions that leads from one
  state of the engine to another, and the piece in which one thread captures.
 */
module EnginePaths {
  import opened Bytes
  import opened Facts
  import opened Decide
  import opened CacheRegistry
  import opened CacheInvalidation
  import opened CacheEngine
  import opened EngineRuns
  import R = CacheMoves
  import F = SingleFlight

  ghost predicate Leads(s: Engine, actions: seq<Action>, x: Engine)
    decreases |actions|
  {
    if actions == [] then s == x
    else Enabled(s, actions[0]) && Leads(Apply(s, actions[0]), actions[1..], x)
  }

  lemma {:induction false} LeadsAppend(s: Engine, before: seq<Action>, y: Engine, after: seq<Action>, x: Engine)
    requires Leads(s, before, y) && Leads(y, after, x)
    ensures Leads(s, before + after, x)
    decreases |before|
  {
    hide Enabled, Apply;
    if before == [] {
      assert before + after == after;
    } else {
      LeadsAppend(Apply(s, before[0]), before[1..], y, after, x);
      assert (before + after)[0] == before[0] && (before + after)[1..] == before[1..] + after;
    }
  }

  /** One action. */
  ghost predicate Goes(s: Engine, a: Action, x: Engine) {
    Enabled(s, a) && Apply(s, a) == x
  }

  lemma Then(s: Engine, before: seq<Action>, y: Engine, a: Action, x: Engine)
    requires Leads(s, before, y) && Goes(y, a, x)
    ensures Leads(s, before + [a], x)
  {
    hide Enabled, Apply;
    assert [a][1..] == [];
    assert Leads(y, [a], x);
    LeadsAppend(s, before, y, [a], x);
  }

  lemma {:induction false} LeadsFrom(run: Run, k: nat, m: nat, x: Engine)
    requires k <= m <= |run.actions| && IsRun(run, k) && Leads(At(run, k), run.actions[k..m], x)
    ensures IsRun(run, m) && At(run, m) == x
    decreases m - k
  {
    hide Enabled, Apply;
    if k < m {
      assert run.actions[k..m][0] == run.actions[k] && run.actions[k..m][1..] == run.actions[k + 1..m];
      LeadsFrom(run, k + 1, m, x);
    }
  }

  /** What leads on from the start is a run. */
  lemma LeadsIsRun(run: Run, x: Engine)
    requires R.Inv(run.reg) && Leads(Start(run.threads, run.reg), run.actions, x)
    ensures IsRun(run, |run.actions|) && At(run, |run.actions|) == x
  {
    hide R.Inv, Leads, Enabled, Apply;
    assert run.actions[0..|run.actions|] == run.actions;
    LeadsFrom(run, 0, |run.actions|, x);
  }

  /** And so is what leads on through a state in between. */
  lemma LeadsThrough(run: Run, before: seq<Action>, y: Engine, after: seq<Action>, x: Engine)
    requires R.Inv(run.reg) && run.actions == before + after && Leads(Start(run.threads, run.reg), before, y) && Leads(y, after, x)
    ensures IsRun(run, |before|) && At(run, |before|) == y && IsRun(run, |run.actions|) && At(run, |run.actions|) == x
  {
    hide R.Inv, Leads, Enabled, Apply;
    assert run.actions[0..|before|] == before && run.actions[|before|..|run.actions|] == after;
    LeadsFrom(run, 0, |before|, y);
    LeadsFrom(run, |before|, |run.actions|, x);
  }

  // ----- the steps of a capture -----

  function With(s: Engine, t: nat, th: Thread): Engine
    requires t < |s.threads|
  {
    s.(threads := s.threads[t := th])
  }

  predicate Free(s: Engine, t: nat) {
    t < |s.threads| && |s.threads| == |s.flights.phases| && s.threads[t] == Idle && s.flights.phases[t].Out?
  }

  /** The thread's search has missed, and nobody is capturing its key. */
  predicate Missed(s: Engine, t: nat, job: Job) {
    && t < |s.threads| && |s.threads| == |s.flights.phases| && s.flights.phases[t].Out? && s.threads[t] == Flying(job, NoWork)
    && job.entry.key !in s.flights.inflight
  }

  function Owned(f: F.Flights, t: nat, key: Text): F.Flights
    requires t < |f.phases|
  {
    F.Flights(f.phases[t := F.Owner(key, |f.attempts|)], f.inflight[key := |f.attempts|],
              f.attempts + [F.Attempt(key, t, false, F.Failure)])
  }

  lemma BeginAndMiss(s: Engine, t: nat, job: Job)
    requires Free(s, t) && R.Captured(job.entry) && Search(s.reg, job.entry.facts, job.policy) == MissCaptureRequired
    ensures Goes(s, Begin(t, job), With(s, t, Seeking(job, false)))
    ensures Goes(With(s, t, Seeking(job, false)), Seek(t, true), With(s, t, Flying(job, NoWork)))
  {
    hide Search, R.Captured;
    var th := s.threads[t := Seeking(job, false)];
    assert th[t := Flying(job, NoWork)] == s.threads[t := Flying(job, NoWork)];
  }

  lemma EnterAndStart(s: Engine, t: nat, job: Job)
    requires Missed(s, t, job)
    ensures var y := s.(flights := Owned(s.flights, t, job.entry.key));
            && Goes(s, EnterFlight(t), y) && Goes(y, StartCapture(t), With(y, t, Flying(job, Started(s.reg.cacheGen))))
  {
    hide Search, R.Captured;
    assert s.threads[t := s.threads[t]] == s.threads;
  }

  function Numbering(s: Engine): Registry {
    s.reg.(graphGen := s.reg.graphGen + 1)
  }

  lemma NumberIt(s: Engine, t: nat, job: Job)
    requires t < |s.threads| && |s.threads| == |s.flights.phases| && job.valid && s.threads[t] == Flying(job, Started(s.reg.cacheGen))
    ensures Goes(s, NumberCapture(t), With(s, t, Flying(job, Numbered(s.reg.cacheGen, s.reg.graphGen))).(reg := Numbering(s)))
  {
    hide Search, R.Captured;
  }

  lemma BuildIt(s: Engine, t: nat, job: Job, g: nat)
    requires t < |s.threads| && |s.threads| == |s.flights.phases| && R.Captured(job.entry) && s.threads[t] == Flying(job, Numbered(s.reg.cacheGen, g))
    ensures var y := With(s, t, Flying(job, Built(s.reg.cacheGen, |s.reg.entries|))).(
                       reg := s.reg.(entries := s.reg.entries + [NewEntry(job, g, s.reg.cacheGen)]),
                       ledger := s.ledger.(counts := s.ledger.counts + [0]));
            Goes(s, BuildEntry(t), y)
  {
    hide Search;
  }

  lemma CheckIt(s: Engine, t: nat, job: Job, n: nat)
    requires t < |s.threads| && |s.threads| == |s.flights.phases| && s.threads[t] == Flying(job, Built(s.reg.cacheGen, n))
    ensures Goes(s, CheckGeneration(t), With(s, t, Flying(job, Checked(s.reg.cacheGen, n))))
  {
    hide Search, R.Captured;
  }

  lemma PublishIt(s: Engine, t: nat, job: Job, g0: nat, n: nat)
    requires t < |s.threads| && |s.threads| == |s.flights.phases| && s.threads[t] == Flying(job, Checked(g0, n))
    requires n < |s.reg.entries| && !s.reg.entries[n].published
    ensures Goes(s, PublishEntry(t),
                 With(s, t, Flying(job, Ended(F.Success(s.reg.entries[n].artifact)))).(reg := R.Apply(s.reg, R.Publish(n))))
  {
    hide Search, R.Captured, R.Apply;
  }

  // ----- a capture up to its check -----

  function CaptureActions(t: nat, job: Job): seq<Action> {
    [Begin(t, job), Seek(t, true), EnterFlight(t), StartCapture(t), NumberCapture(t), BuildEntry(t), CheckGeneration(t)]
  }

  function WithEntry(r: Registry, job: Job): Registry {
    r.(graphGen := r.graphGen + 1, entries := r.entries + [NewEntry(job, r.graphGen, r.cacheGen)])
  }

  function AfterCheck(s: Engine, t: nat, job: Job): Engine
    requires t < |s.threads| && t < |s.flights.phases|
  {
    Engine(WithEntry(s.reg, job), Owned(s.flights, t, job.entry.key), s.ledger.(counts := s.ledger.counts + [0]), s.executables,
           s.threads[t := Flying(job, Checked(s.reg.cacheGen, |s.reg.entries|))])
  }

  lemma Misses(s: Engine, t: nat, job: Job)
    requires Free(s, t) && R.Captured(job.entry) && Search(s.reg, job.entry.facts, job.policy) == MissCaptureRequired
    ensures Leads(s, [Begin(t, job), Seek(t, true)], With(s, t, Flying(job, NoWork)))
  {
    hide Goes, Leads, R.Captured, Search;
    BeginAndMiss(s, t, job);
    Nowhere(s);
    Then(s, [], s, Begin(t, job), With(s, t, Seeking(job, false)));
    assert [] + [Begin(t, job)] == [Begin(t, job)];
    Then(s, [Begin(t, job)], With(s, t, Seeking(job, false)), Seek(t, true), With(s, t, Flying(job, NoWork)));
    assert [Begin(t, job)] + [Seek(t, true)] == [Begin(t, job), Seek(t, true)];
  }

  lemma Nowhere(s: Engine)
    ensures Leads(s, [], s)
  {
  }

  lemma BuildsAndChecks(s: Engine, t: nat, job: Job)
    requires t < |s.threads| && |s.threads| == |s.flights.phases| && R.Captured(job.entry) && job.valid
    requires s.threads[t] == Flying(job, Started(s.reg.cacheGen))
    ensures var x := Engine(WithEntry(s.reg, job), s.flights, s.ledger.(counts := s.ledger.counts + [0]), s.executables,
                            s.threads[t := Flying(job, Checked(s.reg.cacheGen, |s.reg.entries|))]);
            Leads(s, [NumberCapture(t), BuildEntry(t), CheckGeneration(t)], x)
  {
    hide Goes, Leads, R.Captured;
    var g0, g, n := s.reg.cacheGen, s.reg.graphGen, |s.reg.entries|;
    var a := With(s, t, Flying(job, Numbered(g0, g))).(reg := Numbering(s));
    var b := With(a, t, Flying(job, Built(g0, n))).(reg := a.reg.(entries := a.reg.entries + [NewEntry(job, g, g0)]),
                                                   ledger := a.ledger.(counts := a.ledger.counts + [0]));
    var c := With(b, t, Flying(job, Checked(g0, n)));
    NumberIt(s, t, job);
    BuildIt(a, t, job, g);
    CheckIt(b, t, job, n);
    Nowhere(s);
    Then(s, [], s, NumberCapture(t), a);
    assert [] + [NumberCapture(t)] == [NumberCapture(t)];
    Then(s, [NumberCapture(t)], a, BuildEntry(t), b);
    Then(s, [NumberCapture(t)] + [BuildEntry(t)], b, CheckGeneration(t), c);
    assert c.threads == s.threads[t := Flying(job, Checked(g0, n))];
    assert c.reg == WithEntry(s.reg, job);
    assert [NumberCapture(t)] + [BuildEntry(t)] + [CheckGeneration(t)] == [NumberCapture(t), BuildEntry(t), CheckGeneration(t)];
  }

  function FlightActions(t: nat): seq<Action> {
    [EnterFlight(t), StartCapture(t), NumberCapture(t), BuildEntry(t), CheckGeneration(t)]
  }

  /** A thread whose search has missed captures its job up to the check, and nothing else changes. */
  lemma FliesToCheck(s: Engine, t: nat, job: Job)
    requires Missed(s, t, job) && R.Captured(job.entry) && job.valid
    ensures Leads(s, FlightActions(t), AfterCheck(s, t, job))
  {
    hide Goes, Leads, R.Captured;
    var y := s.(flights := Owned(s.flights, t, job.entry.key));
    var z := With(y, t, Flying(job, Started(s.reg.cacheGen)));
    EnterAndStart(s, t, job);
    Nowhere(s);
    Then(s, [], s, EnterFlight(t), y);
    assert [] + [EnterFlight(t)] == [EnterFlight(t)];
    Then(s, [EnterFlight(t)], y, StartCapture(t), z);
    BuildsAndChecks(z, t, job);
    assert z.threads[t := Flying(job, Checked(s.reg.cacheGen, |s.reg.entries|))] == AfterCheck(s, t, job).threads;
    var first, second := [EnterFlight(t)] + [StartCapture(t)], [NumberCapture(t), BuildEntry(t), CheckGeneration(t)];
    LeadsAppend(s, first, z, second, AfterCheck(s, t, job));
    assert first + second == FlightActions(t);
  }

  predicate CanCapture(s: Engine, t: nat, job: Job) {
    Free(s, t) && R.Captured(job.entry) && job.valid && job.entry.key !in s.flights.inflight
  }

  /** So does a free thread whose search misses. */
  lemma CapturesToCheck(s: Engine, t: nat, job: Job)
    requires CanCapture(s, t, job) && Search(s.reg, job.entry.facts, job.policy) == MissCaptureRequired
    ensures Leads(s, CaptureActions(t, job), AfterCheck(s, t, job))
  {
    hide Leads, R.Captured, Search;
    var y := With(s, t, Flying(job, NoWork));
    Misses(s, t, job);
    FliesToCheck(y, t, job);
    assert AfterCheck(y, t, job).threads == AfterCheck(s, t, job).threads;
    LeadsAppend(s, [Begin(t, job), Seek(t, true)], y, FlightActions(t), AfterCheck(s, t, job));
    assert [Begin(t, job), Seek(t, true)] + FlightActions(t) == CaptureActions(t, job);
  }

  /** The registry with the captured entry published. */
  function WithCapture(r: Registry, job: Job): Registry
    requires R.Captured(job.entry)
  {
    R.Apply(WithEntry(r, job), R.Publish(|r.entries|))
  }

  function AfterCapture(s: Engine, t: nat, job: Job): Engine
    requires t < |s.threads| && t < |s.flights.phases| && R.Captured(job.entry)
  {
    AfterCheck(s, t, job).(reg := WithCapture(s.reg, job), threads := s.threads[t := Flying(job, Ended(F.Success(job.entry.artifact)))])
  }

  /** And on through its publication. */
  lemma CapturesAndPublishes(s: Engine, t: nat, job: Job)
    requires CanCapture(s, t, job) && Search(s.reg, job.entry.facts, job.policy) == MissCaptureRequired
    ensures Leads(s, CaptureActions(t, job) + [PublishEntry(t)], AfterCapture(s, t, job))
  {
    hide Leads, Search, CaptureActions, R.Apply;
    CapturesToCheck(s, t, job);
    PublishesChecked(s, t, job);
    Then(s, CaptureActions(t, job), AfterCheck(s, t, job), PublishEntry(t), AfterCapture(s, t, job));
  }

  lemma FliesAndPublishes(s: Engine, t: nat, job: Job)
    requires Missed(s, t, job) && R.Captured(job.entry) && job.valid
    ensures Leads(s, FlightActions(t) + [PublishEntry(t)], AfterCapture(s, t, job))
  {
    hide Leads, FlightActions, R.Apply;
    FliesToCheck(s, t, job);
    PublishesChecked(s, t, job);
    Then(s, FlightActions(t), AfterCheck(s, t, job), PublishEntry(t), AfterCapture(s, t, job));
  }

  lemma PublishesChecked(s: Engine, t: nat, job: Job)
    requires t < |s.threads| && |s.threads| == |s.flights.phases| && R.Captured(job.entry)
    ensures Goes(AfterCheck(s, t, job), PublishEntry(t), AfterCapture(s, t, job))
  {
    hide Goes, R.Apply;
    var y := AfterCheck(s, t, job);
    PublishIt(y, t, job, s.reg.cacheGen, |s.reg.entries|);
    assert y.threads[t := Flying(job, Ended(F.Success(job.entry.artifact)))] == AfterCapture(s, t, job).threads;
  }

  /** The flight is over: its result is recorded and the next capture of the key may begin. */
  function AfterFlight(s: Engine, t: nat): Engine
    requires t < |s.flights.phases| && s.flights.phases[t].Owner? && s.flights.phases[t].attempt < |s.flights.attempts|
    requires t < |s.threads| && s.threads[t].Flying? && s.threads[t].work.Ended?
  {
    var p, r := s.flights.phases[t], s.threads[t].work.result;
    s.(flights := F.Flights(s.flights.phases[t := F.Returned(p.attempt, r, true)], s.flights.inflight - {p.key},
                            s.flights.attempts[p.attempt := s.flights.attempts[p.attempt].(done := true, result := r)]))
  }

  lemma FlightEnds(s: Engine, t: nat)
    requires t < |s.flights.phases| && s.flights.phases[t].Owner? && s.flights.phases[t].attempt < |s.flights.attempts|
    requires |s.threads| == |s.flights.phases| && s.threads[t].Flying? && s.threads[t].work.Ended?
    ensures Leads(s, [RecordResult(t), EraseFlight(t)], AfterFlight(s, t))
  {
    hide Leads, Goes;
    var r := s.threads[t].work.result;
    var y := s.(flights := F.Apply(s.flights, F.Record(t, r)));
    RecordAndErase(s, t);
    Nowhere(s);
    Then(s, [], s, RecordResult(t), y);
    assert [] + [RecordResult(t)] == [RecordResult(t)];
    Then(s, [RecordResult(t)], y, EraseFlight(t), AfterFlight(s, t));
    assert [RecordResult(t)] + [EraseFlight(t)] == [RecordResult(t), EraseFlight(t)];
  }

  lemma RecordAndErase(s: Engine, t: nat)
    requires t < |s.flights.phases| && s.flights.phases[t].Owner? && s.flights.phases[t].attempt < |s.flights.attempts|
    requires |s.threads| == |s.flights.phases| && s.threads[t].Flying? && s.threads[t].work.Ended?
    ensures var y := s.(flights := F.Apply(s.flights, F.Record(t, s.threads[t].work.result)));
            Goes(s, RecordResult(t), y) && Goes(y, EraseFlight(t), AfterFlight(s, t))
  {
    hide Search, R.Captured;
    assert s.threads[t := s.threads[t]] == s.threads;
    var p := s.flights.phases[t];
    assert s.flights.phases[t := F.Recorded(p.key, p.attempt)][t := F.Returned(p.attempt, s.threads[t].work.result, true)]
        == s.flights.phases[t := F.Returned(p.attempt, s.threads[t].work.result, true)];
  }

  lemma NothingFound(q: Facts, p: Policy)
    ensures Search(EMPTY, q, p) == MissCaptureRequired
  {
    hide Decided, Fresh;
    assert Bucket(EMPTY.byWorkload, WorkloadKey(q.workload)) == [];
  }

  // ----- an invalidation -----

  /** Collecting and marking nothing. */
  lemma InvalidatesNothing(s: Engine, t: nat)
    requires Free(s, t) && Invalidates(R.Apply(s.reg, R.BumpCache), ByAll, [])
    ensures Leads(s, [BeginInvalidate(t, ByAll), Collect(t, []), MarkNext(t)], s.(reg := R.Apply(s.reg, R.BumpCache)))
  {
    hide Leads, R.Apply, Invalidates;
    var a := With(s, t, Collecting(ByAll)).(reg := R.Apply(s.reg, R.BumpCache));
    var b := With(a, t, Marking([]));
    var c := With(b, t, Idle);
    InvalidationSteps(s, t, []);
    Nowhere(s);
    Then(s, [], s, BeginInvalidate(t, ByAll), a);
    assert [] + [BeginInvalidate(t, ByAll)] == [BeginInvalidate(t, ByAll)];
    Then(s, [BeginInvalidate(t, ByAll)], a, Collect(t, []), b);
    MarkingEnds(b, t);
    Then(s, [BeginInvalidate(t, ByAll)] + [Collect(t, [])], b, MarkNext(t), c);
    assert c.threads == s.threads;
    assert [BeginInvalidate(t, ByAll)] + [Collect(t, [])] + [MarkNext(t)] == [BeginInvalidate(t, ByAll), Collect(t, []), MarkNext(t)];
  }

  lemma InvalidationSteps(s: Engine, t: nat, ns: seq<nat>)
    requires Free(s, t) && Invalidates(R.Apply(s.reg, R.BumpCache), ByAll, ns)
    ensures var a := With(s, t, Collecting(ByAll)).(reg := R.Apply(s.reg, R.BumpCache));
            Goes(s, BeginInvalidate(t, ByAll), a) && Goes(a, Collect(t, ns), With(a, t, Marking(ns)))
  {
    hide Search, Invalidates, R.Apply, R.Captured;
  }

  lemma MarkingEnds(s: Engine, t: nat)
    requires t < |s.threads| && |s.threads| == |s.flights.phases| && s.threads[t] == Marking([])
    ensures Goes(s, MarkNext(t), With(s, t, Idle))
  {
    hide Search, R.Captured;
  }

  lemma MarksOne(s: Engine, t: nat, n: nat)
    requires t < |s.threads| && |s.threads| == |s.flights.phases| && s.threads[t] == Marking([n]) && Published(s.reg, n)
    ensures Goes(s, MarkNext(t), With(s, t, Marking([])).(reg := R.Apply(s.reg, R.Mark(n))))
  {
    hide Search, R.Captured, R.Apply;
    assert [n][1..] == [];
  }

  /** Collecting and marking one entry. */
  lemma InvalidatesOne(s: Engine, t: nat, n: nat)
    requires Free(s, t) && Published(s.reg, n) && Invalidates(R.Apply(s.reg, R.BumpCache), ByAll, [n])
    ensures Published(R.Apply(s.reg, R.BumpCache), n)
    ensures Leads(s, [BeginInvalidate(t, ByAll), Collect(t, [n]), MarkNext(t), MarkNext(t)],
                  s.(reg := R.Apply(R.Apply(s.reg, R.BumpCache), R.Mark(n))))
  {
    hide Leads, R.Apply, Invalidates;
    R.StepKeeps(s.reg, R.BumpCache);
    var a := With(s, t, Collecting(ByAll)).(reg := R.Apply(s.reg, R.BumpCache));
    var b := With(a, t, Marking([n]));
    var c := With(b, t, Marking([])).(reg := R.Apply(b.reg, R.Mark(n)));
    var d := With(c, t, Idle);
    InvalidationSteps(s, t, [n]);
    MarksOne(b, t, n);
    MarkingEnds(c, t);
    Nowhere(s);
    Then(s, [], s, BeginInvalidate(t, ByAll), a);
    assert [] + [BeginInvalidate(t, ByAll)] == [BeginInvalidate(t, ByAll)];
    Then(s, [BeginInvalidate(t, ByAll)], a, Collect(t, [n]), b);
    Then(s, [BeginInvalidate(t, ByAll)] + [Collect(t, [n])], b, MarkNext(t), c);
    Then(s, [BeginInvalidate(t, ByAll)] + [Collect(t, [n])] + [MarkNext(t)], c, MarkNext(t), d);
    assert d.threads == s.threads;
    assert [BeginInvalidate(t, ByAll)] + [Collect(t, [n])] + [MarkNext(t)] + [MarkNext(t)]
        == [BeginInvalidate(t, ByAll), Collect(t, [n]), MarkNext(t), MarkNext(t)];
  }
}
