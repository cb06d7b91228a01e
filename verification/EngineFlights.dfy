/**
  What a lookup that waits for another one's capture is given, in every run of
  the engine: what that capture came to, and on success its own key's newly
  published entry.
 */
module EngineFlights {
  import opened Bytes
  import opened Descriptors
  import opened CacheRegistry
  import opened CacheInvalidation
  import opened CacheEngine
  import opened EngineInvariant
  import opened EngineRuns
  import R = CacheMoves
  import F = SingleFlight
  import L = Leases

  /** The thread's capture of the key has come to this. */
  predicate CameTo(s: Engine, o: nat, key: Text, r: F.Result) {
    o < |s.threads| && s.threads[o].Flying? && s.threads[o].job.entry.key == key && s.threads[o].work == Ended(r)
  }

  /** The step publishes an entry of this key under this artifact identity. */
  ghost predicate Publishes(s: Engine, a: Action, o: nat, key: Text, x: Id) {
    && a == PublishEntry(o) && o < |s.threads| && s.threads[o].Flying? && s.threads[o].work.Checked?
    && s.threads[o].work.n < |s.reg.entries|
    && var e := s.reg.entries[s.threads[o].work.n]; e.key == key && e.artifact == x && !e.published
  }

  lemma SuccessBefore(s: Engine, a: Action, o: nat, key: Text, x: Id)
    requires Inv(s) && Enabled(s, a) && CameTo(Apply(s, a), o, key, F.Success(x))
    ensures CameTo(s, o, key, F.Success(x)) || Publishes(s, a, o, key, x)
  {
    hide R.Inv, F.Inv, L.Inv, Grants, PlaceOk, RefsOk, GrantOk, Ahead, RegistryMove, FlightMove, LedgerMove, R.Apply, R.Enabled, F.Apply, F.Enabled,
         L.Apply, L.Enabled, Search, Invalidates;
    if o < |s.threads| {
      assert ThreadOk(s, o);
    }
  }

  lemma NothingCameYet(threads: nat, reg: Registry, o: nat, key: Text, r: F.Result)
    ensures !CameTo(Start(threads, reg), o, key, r)
  {
  }

  /** Step `j` published, and that is what the thread's capture has come to ever since. */
  ghost predicate PublishedAt(run: Run, j: nat, n: nat, o: nat, key: Text, x: Id)
    requires j < n <= |run.actions| && IsRun(run, j)
  {
    && Publishes(At(run, j), run.actions[j], o, key, x)
    && (forall m: nat | j < m <= n && IsRun(run, m) :: CameTo(At(run, m), o, key, F.Success(x)))
  }

  /** A capture that succeeded has published. */
  lemma {:induction false} SuccessPublished(run: Run, n: nat, o: nat, key: Text, x: Id)
    requires n <= |run.actions| && IsRun(run, n) && CameTo(At(run, n), o, key, F.Success(x))
    ensures exists j: nat :: j < n && IsRun(run, j) && PublishedAt(run, j, n, o, key, x)
  {
    hide Inv, Enabled, Apply, CameTo, Publishes;
    if n == 0 {
      NothingCameYet(run.threads, run.reg, o, key, F.Success(x));
    } else {
      RunInv(run, n - 1);
      SuccessBefore(At(run, n - 1), run.actions[n - 1], o, key, x);
      if CameTo(At(run, n - 1), o, key, F.Success(x)) {
        SuccessPublished(run, n - 1, o, key, x);
        var j: nat :| j < n - 1 && IsRun(run, j) && PublishedAt(run, j, n - 1, o, key, x);
        assert PublishedAt(run, j, n, o, key, x);
      } else {
        assert PublishedAt(run, n - 1, n, o, key, x);
      }
    }
  }

  predicate Done(s: Engine, a: nat) {
    a < |s.flights.attempts| && s.flights.attempts[a].done
  }

  /** The step records, for the attempt of this number, what its owner's capture came to. */
  predicate Records(s: Engine, a: Action, k: nat, at: F.Attempt) {
    && a == RecordResult(at.owner) && CameTo(s, at.owner, at.key, at.result)
    && at.owner < |s.flights.phases| && s.flights.phases[at.owner] == F.Owner(at.key, k)
  }

  lemma DoneBefore(s: Engine, a: Action, k: nat)
    requires Inv(s) && Enabled(s, a) && Done(Apply(s, a), k)
    ensures if Done(s, k) then Apply(s, a).flights.attempts[k] == s.flights.attempts[k]
            else Records(s, a, k, Apply(s, a).flights.attempts[k])
  {
    hide R.Inv, R.Apply, R.Enabled, F.Inv, F.Apply, F.Enabled, L.Inv, L.Apply, L.Enabled, Grants, RefsOk, GrantOk, WorkOk, RegistryMove, LedgerMove,
         ThreadAfter, Search, Invalidates;
    if FlightMove(s, a).Some? {
      var m := FlightMove(s, a).value;
      F.StepKeeps(s.flights, m);
      if !Done(s, k) {
        F.RecordedNow(s.flights, m, k);
        assert ThreadOk(s, a.t);
        RecordsOwnKey(s.flights, m, k);
      }
    }
  }

  lemma RecordsOwnKey(f: F.Flights, m: F.Move, k: nat)
    requires F.Inv(f) && F.Enabled(f, m) && m.Record? && k < |F.Apply(f, m).attempts| && F.Apply(f, m).attempts[k].done
    requires k < |f.attempts| ==> !f.attempts[k].done
    ensures f.phases[m.t] == F.Owner(F.Apply(f, m).attempts[k].key, k)
  {
    assert F.OwnsFlight(f, m.t);
  }

  /** What is done was recorded by its owner, at the end of a capture of the attempt's key. */
  lemma {:induction false} DoneWasRecorded(run: Run, n: nat, k: nat)
    requires n <= |run.actions| && IsRun(run, n) && Done(At(run, n), k)
    ensures exists i: nat :: i < n && IsRun(run, i) && Records(At(run, i), run.actions[i], k, At(run, n).flights.attempts[k])
  {
    hide Inv, Enabled, Apply, Records;
    if n > 0 {
      RunInv(run, n - 1);
      DoneBefore(At(run, n - 1), run.actions[n - 1], k);
      if Done(At(run, n - 1), k) {
        DoneWasRecorded(run, n - 1, k);
      }
    }
  }

  /** What step `n` gives the waiter: the attempt it waits for is done, and was recorded and published by its owner. */
  ghost predicate GivenOwnersResult(run: Run, n: nat, t: nat)
    requires n <= |run.actions| && IsRun(run, n)
  {
    var s := At(run, n);
    && t < |s.flights.phases| && t < |s.threads| && s.threads[t].Flying? && s.flights.phases[t].Waiter?
    && var k := s.flights.phases[t].attempt;
       && Done(s, k)
       && var at := s.flights.attempts[k];
          && at.key == s.threads[t].job.entry.key
          && (exists i: nat :: i < n && IsRun(run, i) && Records(At(run, i), run.actions[i], k, at)
               && (at.result.Success? ==>
                     exists j: nat :: j < i && IsRun(run, j) && PublishedAt(run, j, i, at.owner, at.key, at.result.artifact)))
  }

  /**
    In every run, a waiting lookup returns what the capture of its owner came
    to, on its own key; and if that was a success, its owner had published it.
   */
  lemma WaiterGetsOwnersCapture(run: Run, n: nat, t: nat)
    requires n < |run.actions| && IsRun(run, n) && Enabled(At(run, n), run.actions[n]) && run.actions[n] == WakeUp(t)
    ensures GivenOwnersResult(run, n, t)
    ensures var s := At(run, n);
            var k := s.flights.phases[t].attempt;
            && Apply(s, WakeUp(t)).flights.phases[t] == F.Returned(k, s.flights.attempts[k].result, false)
  {
    hide Inv, Apply, IsRun, At, Records, PublishedAt, R.Apply, R.Enabled, L.Apply, L.Enabled;
    var s := At(run, n);
    RunInv(run, n);
    WaiterKey(s, t);
    var k := s.flights.phases[t].attempt;
    DoneWasRecorded(run, n, k);
    var i: nat :| i < n && IsRun(run, i) && Records(At(run, i), run.actions[i], k, s.flights.attempts[k]);
    var at := s.flights.attempts[k];
    if at.result.Success? {
      RecordsCame(At(run, i), run.actions[i], k, at);
      SuccessPublished(run, i, at.owner, at.key, at.result.artifact);
    }
    WokenUp(s, t);
  }

  lemma RecordsCame(s: Engine, a: Action, k: nat, at: F.Attempt)
    requires Records(s, a, k, at)
    ensures CameTo(s, at.owner, at.key, at.result)
  {
  }

  lemma WokenUp(s: Engine, t: nat)
    requires Enabled(s, WakeUp(t))
    ensures t < |s.flights.phases| && s.flights.phases[t].Waiter? && s.flights.phases[t].attempt < |s.flights.attempts|
    ensures t < |Apply(s, WakeUp(t)).flights.phases|
            && Apply(s, WakeUp(t)).flights.phases[t]
               == F.Returned(s.flights.phases[t].attempt, s.flights.attempts[s.flights.phases[t].attempt].result, false)
  {
    hide R.Apply, R.Enabled, L.Apply, L.Enabled, Search, Invalidates;
  }

  lemma WaiterKey(s: Engine, t: nat)
    requires Inv(s) && Enabled(s, WakeUp(t))
    ensures t < |s.flights.phases| && t < |s.threads| && s.threads[t].Flying? && s.flights.phases[t].Waiter?
    ensures Done(s, s.flights.phases[t].attempt)
    ensures s.flights.attempts[s.flights.phases[t].attempt].key == s.threads[t].job.entry.key
  {
    hide R.Inv, F.Inv, L.Inv, Grants, RefsOk, GrantOk, WorkOk, R.Apply, R.Enabled, L.Apply, L.Enabled, Search, Invalidates;
    assert ThreadOk(s, t);
    F.Knows(s.flights, t);
  }
}
