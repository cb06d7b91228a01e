/**
  An invalidation does not prevent every new lease: the recheck before a lease
  and the lease itself are two steps of `search_candidates`, and what is marked
  in between is leased all the same.
 */
module EngineLease {
  import opened CacheRegistry
  import opened CacheInvalidation
  import opened CacheEngine
  import opened EngineInvariant
  import opened EngineRuns
  import opened EnginePaths
  import opened EngineTraces
  import Decide
  import R = CacheMoves
  import F = SingleFlight
  import L = Leases

  // ----- when a lease is opened on an invalidated entry -----

  /** The step marks entry `e` as a target of an invalidation. */
  predicate Marks(s: Engine, a: Action, e: nat) {
    a.MarkNext? && a.t < |s.threads| && s.threads[a.t].Marking? && s.threads[a.t].targets != [] && s.threads[a.t].targets[0] == e
  }

  predicate IsCleared(s: Engine, t: nat, e: nat) {
    t < |s.threads| && s.threads[t].Cleared? && s.threads[t].n == e
  }

  predicate IsLive(s: Engine, e: nat) {
    e < |s.reg.entries| && !s.reg.entries[e].invalidated
  }

  lemma ClearedBefore(s: Engine, a: Action, t: nat, e: nat)
    requires Enabled(s, a) && IsCleared(Apply(s, a), t, e)
    ensures IsCleared(s, t, e) || (a == Recheck(t) && IsLive(s, e))
  {
    hide RegistryMove, FlightMove, LedgerMove, R.Apply, R.Enabled, F.Apply, F.Enabled, L.Apply, L.Enabled, Search, Invalidates;
  }

  lemma LiveBefore(s: Engine, a: Action, e: nat)
    requires Inv(s) && Enabled(s, a) && e < |s.reg.entries|
    ensures e < |Apply(s, a).reg.entries| && (IsLive(Apply(s, a), e) <==> IsLive(s, e) && !Marks(s, a, e))
  {
    hide Inv, Enabled, Apply, R.Apply, R.Enabled;
    RegistryStep(s, a);
    if RegistryMove(s, a).Some? {
      R.StepKeeps(s.reg, RegistryMove(s, a).value);
    }
  }

  ghost predicate NoMark(run: Run, i: nat, n: nat, e: nat)
    requires n <= |run.actions|
  {
    forall m: nat | i <= m < n && IsRun(run, m) :: !Marks(At(run, m), run.actions[m], e)
  }

  lemma {:induction false} LiveExactly(run: Run, i: nat, n: nat, e: nat)
    requires i <= n <= |run.actions| && IsRun(run, i) && IsRun(run, n) && IsLive(At(run, i), e)
    ensures e < |At(run, n).reg.entries| && (IsLive(At(run, n), e) <==> NoMark(run, i, n, e))
  {
    hide Inv, Enabled, Apply, Marks, IsLive;
    if i < n {
      LiveExactly(run, i, n - 1, e);
      RunInv(run, n - 1);
      LiveBefore(At(run, n - 1), run.actions[n - 1], e);
      assert NoMark(run, i, n, e) <==> NoMark(run, i, n - 1, e) && !Marks(At(run, n - 1), run.actions[n - 1], e);
    } else {
      LiveIsInside(At(run, i), e);
    }
  }

  lemma LiveIsInside(s: Engine, e: nat)
    requires IsLive(s, e)
    ensures e < |s.reg.entries|
  {
  }

  /** Step `i` is the recheck that the thread has stood behind ever since. */
  ghost predicate RecheckedAt(run: Run, i: nat, n: nat, t: nat, e: nat)
    requires i < n <= |run.actions| && IsRun(run, i)
  {
    && run.actions[i] == Recheck(t) && IsLive(At(run, i), e)
    && (forall m: nat | i < m <= n && IsRun(run, m) :: IsCleared(At(run, m), t, e))
  }

  lemma {:induction false} Rechecked(run: Run, n: nat, t: nat, e: nat)
    requires n <= |run.actions| && IsRun(run, n) && IsCleared(At(run, n), t, e)
    ensures exists i: nat :: i < n && IsRun(run, i) && RecheckedAt(run, i, n, t, e)
  {
    hide Inv, Enabled, Apply, IsCleared, IsLive;
    if n == 0 {
      NobodyCleared(run.threads, run.reg, t, e);
    } else {
      ClearedBefore(At(run, n - 1), run.actions[n - 1], t, e);
      if IsCleared(At(run, n - 1), t, e) {
        Rechecked(run, n - 1, t, e);
        var i: nat :| i < n - 1 && IsRun(run, i) && RecheckedAt(run, i, n - 1, t, e);
        assert RecheckedAt(run, i, n, t, e);
      } else {
        assert RecheckedAt(run, n - 1, n, t, e);
      }
    }
  }

  lemma NobodyCleared(threads: nat, reg: Registry, t: nat, e: nat)
    ensures !IsCleared(Start(threads, reg), t, e)
  {
  }

  /**
    Every lease follows a recheck of its own that found the entry live, and it
    is opened on a live entry exactly when no invalidation marked it in between.
   */
  lemma LeaseIsLiveExactly(run: Run, n: nat, t: nat) returns (i: nat)
    requires n < |run.actions| && IsRun(run, n) && Enabled(At(run, n), run.actions[n]) && run.actions[n] == OpenLease(t)
    ensures t < |At(run, n).threads| && At(run, n).threads[t].Cleared?
    ensures i < n && IsRun(run, i) && RecheckedAt(run, i, n, t, At(run, n).threads[t].n)
    ensures IsLive(At(run, n), At(run, n).threads[t].n) <==> NoMark(run, i, n, At(run, n).threads[t].n)
  {
    hide Apply, IsRun, At, NoMark, IsLive, RegistryMove, FlightMove, LedgerMove;
    var e := At(run, n).threads[t].n;
    Rechecked(run, n, t, e);
    i :| i < n && IsRun(run, i) && RecheckedAt(run, i, n, t, e);
    LiveExactly(run, i, n, e);
  }

  // ----- and a run in which it is not -----

  lemma LeavesAndSeeks(s: Engine, t: nat, job: Job, k: nat, r: F.Result)
    requires t < |s.threads| && |s.threads| == |s.flights.phases| && s.threads[t] == Flying(job, Ended(r)) && r.Success?
    requires s.flights.phases[t] == F.Returned(k, r, true)
    ensures Goes(s, LeaveFlight(t), With(s, t, Seeking(job, true)).(flights := s.flights.(phases := s.flights.phases[t := F.Out])))
  {
    hide Search, R.Captured;
  }

  lemma SeeksAndHits(s: Engine, t: nat, job: Job)
    requires t < |s.threads| && |s.threads| == |s.flights.phases| && s.threads[t] == Seeking(job, true)
    requires Search(s.reg, job.entry.facts, job.policy).Hit?
    ensures Goes(s, Seek(t, true), With(s, t, Chosen(job, Search(s.reg, job.entry.facts, job.policy).found.n, true)))
  {
    hide Search, R.Captured;
  }

  lemma ReadiesAndClears(s: Engine, t: nat, job: Job, n: nat)
    requires t < |s.threads| && |s.threads| == |s.flights.phases| && s.threads[t] == Chosen(job, n, true)
    requires Published(s.reg, n) && s.reg.entries[n].exec && !s.reg.entries[n].invalidated && ReplayEligible(s.reg.entries[n].lifecycle)
    ensures Goes(s, Materialize(t, true, true), With(s, t, Ready(job, n)))
    ensures Goes(With(s, t, Ready(job, n)), Recheck(t), With(s, t, Cleared(job, n)))
  {
    hide Search, R.Captured;
    assert s.threads[t := Ready(job, n)][t := Cleared(job, n)] == s.threads[t := Cleared(job, n)];
  }

  lemma FindsOwn(job: Job)
    requires R.Captured(job.entry)
    requires Decide.Decided(job.entry.facts, job.entry.facts, job.policy).Compatible()
    requires Fresh(job.entry.facts.dependencies, job.entry.facts.dependencies)
    ensures var o := Search(WithCapture(EMPTY, job), job.entry.facts, job.policy); o.Hit? && o.found.n == 0
  {
    hide Decide.Decided, Fresh, WorkloadKey, Search;
    var r, f := WithCapture(EMPTY, job), job.entry.facts;
    assert r.entries == [NewEntry(job, 1, 1).(published := true)];
    assert WorkloadIndexed(r);
    assert Matches(r, f, job.policy, 0);
    SearchIsFullScan(r, f, job.policy);
  }

  function ToLease(job: Job): seq<Action> {
    [RecordResult(0), EraseFlight(0)] + [LeaveFlight(0)] + [Seek(0, true)] + [Materialize(0, true, true)] + [Recheck(0)]
  }

  function LateMark(job: Job): Run {
    Run(2, EMPTY, (CaptureActions(0, job) + [PublishEntry(0)]) + ToLease(job)
                  + [BeginInvalidate(1, ByAll), Collect(1, [0]), MarkNext(1), MarkNext(1)])
  }

  lemma ClearsOwn(s: Engine, job: Job, a: nat) returns (x: Engine)
    requires R.Captured(job.entry) && |s.threads| == 2 && |s.flights.phases| == 2 && s.threads[1] == Idle && s.flights.phases[1] == F.Out
    requires s.threads[0] == Flying(job, Ended(F.Success(job.entry.artifact))) && s.flights.phases[0] == F.Owner(job.entry.key, a)
    requires a < |s.flights.attempts| && s.reg == WithCapture(EMPTY, job)
    requires var o := Search(s.reg, job.entry.facts, job.policy); o.Hit? && o.found.n == 0
    ensures Leads(s, ToLease(job), x) && x.reg == s.reg && |x.threads| == 2 && x.threads[0] == Cleared(job, 0) && Free(x, 1)
    ensures x.ledger == s.ledger
  {
    hide Leads, Goes, Search, WithCapture;
    OnlyTarget(job);
    FlightEnds(s, 0);
    var b := AfterFlight(s, 0);
    LeavesAndSeeks(b, 0, job, a, F.Success(job.entry.artifact));
    var c := With(b, 0, Seeking(job, true)).(flights := b.flights.(phases := b.flights.phases[0 := F.Out]));
    SeeksAndHits(c, 0, job);
    var d := With(c, 0, Chosen(job, 0, true));
    ReadiesAndClears(d, 0, job, 0);
    x := With(d, 0, Cleared(job, 0));
    var first := [RecordResult(0), EraseFlight(0)];
    Then(s, first, b, LeaveFlight(0), c);
    Then(s, first + [LeaveFlight(0)], c, Seek(0, true), d);
    Then(s, first + [LeaveFlight(0)] + [Seek(0, true)], d, Materialize(0, true, true), With(d, 0, Ready(job, 0)));
    Then(s, first + [LeaveFlight(0)] + [Seek(0, true)] + [Materialize(0, true, true)], With(d, 0, Ready(job, 0)), Recheck(0), x);
  }

  lemma LateMarkLeads(job: Job) returns (x: Engine)
    requires R.Captured(job.entry) && job.valid
    requires var o := Search(WithCapture(EMPTY, job), job.entry.facts, job.policy); o.Hit? && o.found.n == 0
    ensures Leads(Start(2, EMPTY), LateMark(job).actions, x)
    ensures |x.threads| == 2 && x.threads[0] == Cleared(job, 0) && x.threads[1] == Idle && |x.reg.entries| == 1 && x.reg.entries[0].invalidated
    ensures |x.flights.phases| == 2 && x.ledger == L.Ledger([0], 0, [])
  {
    hide Leads, Search, CaptureActions, ToLease, Invalidates, WithCapture, R.Apply;
    var s := Start(2, EMPTY);
    NothingFound(job.entry.facts, job.policy);
    CapturesAndPublishes(s, 0, job);
    var y := AfterCapture(s, 0, job);
    var z := ClearsOwn(y, job, 0);
    OnlyTarget(job);
    InvalidatesOne(z, 1, 0);
    MarkedEntry(z.reg);
    x := z.(reg := R.Apply(R.Apply(z.reg, R.BumpCache), R.Mark(0)));
    LeadsAppend(s, CaptureActions(0, job) + [PublishEntry(0)], y, ToLease(job), z);
    LeadsAppend(s, CaptureActions(0, job) + [PublishEntry(0)] + ToLease(job), z,
                [BeginInvalidate(1, ByAll), Collect(1, [0]), MarkNext(1), MarkNext(1)], x);
  }

  /** The recheck passes, everything is invalidated from beginning to end, and the lease can still be opened. */
  lemma InvalidatedIsLeased(job: Job)
    requires R.Captured(job.entry) && job.valid
    requires Decide.Decided(job.entry.facts, job.entry.facts, job.policy).Compatible()
    requires Fresh(job.entry.facts.dependencies, job.entry.facts.dependencies)
    ensures var run := LateMark(job);
            && |run.actions| == 18 && run.actions[13] == Recheck(0) && run.actions[14] == BeginInvalidate(1, ByAll) && run.actions[17] == MarkNext(1)
            && IsRun(run, 18) && |At(run, 18).threads| == 2 && At(run, 18).threads[1] == Idle
            && |At(run, 18).reg.entries| == 1 && At(run, 18).reg.entries[0].invalidated
            && Enabled(At(run, 18), OpenLease(0)) && At(run, 18).threads[0] == Cleared(job, 0)
  {
    hide IsRun, At, Leads, R.Inv, Search, Decide.Decided, Fresh, WithCapture;
    FindsOwn(job);
    var x := LateMarkLeads(job);
    R.EmptyInv();
    LeadsIsRun(LateMark(job), x);
    CanOpen(x, job);
  }

  lemma CanOpen(x: Engine, job: Job)
    requires |x.threads| == 2 && |x.flights.phases| == 2 && x.threads[0] == Cleared(job, 0) && x.ledger == L.Ledger([0], 0, [])
    ensures Enabled(x, OpenLease(0))
  {
    hide Search, R.Captured;
  }
}
