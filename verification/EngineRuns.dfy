/**
  What holds in every run of the engine, from an empty registry or from one
  that was recovered, for any number of threads.
 */
module EngineRuns {
  import opened Bytes
  import opened Facts
  import opened Decide
  import opened CacheRegistry
  import opened CacheInvalidation
  import opened CacheEngine
  import opened EngineInvariant
  import R = CacheMoves
  import F = SingleFlight
  import L = Leases

  datatype Run = Run(threads: nat, reg: Registry, actions: seq<Action>)

  ghost predicate IsRun(run: Run, n: nat)
    requires n <= |run.actions|
    decreases n, 0
  {
    if n == 0 then R.Inv(run.reg) else IsRun(run, n - 1) && Enabled(At(run, n - 1), run.actions[n - 1])
  }

  ghost function At(run: Run, n: nat): Engine
    requires n <= |run.actions| && IsRun(run, n)
    decreases n, 1
  {
    if n == 0 then Start(run.threads, run.reg) else Apply(At(run, n - 1), run.actions[n - 1])
  }

  lemma StartInv(threads: nat, reg: Registry)
    requires R.Inv(reg)
    ensures Inv(Start(threads, reg))
  {
    hide R.Inv;
    F.StartInv(threads);
  }

  lemma {:induction false} RunInv(run: Run, n: nat)
    requires n <= |run.actions| && IsRun(run, n)
    ensures Inv(At(run, n))
  {
    hide Inv, Enabled, Apply;
    if n == 0 {
      StartInv(run.threads, run.reg);
    } else {
      RunInv(run, n - 1);
      StepInv(At(run, n - 1), run.actions[n - 1]);
    }
  }

  lemma {:induction false} PrefixIsRun(run: Run, i: nat, n: nat)
    requires i <= n <= |run.actions| && IsRun(run, n)
    ensures IsRun(run, i)
  {
    hide Enabled, Apply, R.Inv;
    if i < n {
      PrefixIsRun(run, i, n - 1);
    }
  }

  // ----- generations -----

  lemma RegistryStep(s: Engine, a: Action)
    requires Inv(s) && Enabled(s, a)
    ensures if RegistryMove(s, a).Some?
            then R.Enabled(s.reg, RegistryMove(s, a).value) && Apply(s, a).reg == R.Apply(s.reg, RegistryMove(s, a).value)
                 && (RegistryMove(s, a).value.Publish? ==> R.Newest(s.reg, RegistryMove(s, a).value.n))
            else Apply(s, a).reg == s.reg
  {
    hide Inv, RegistryMove, FlightMove, LedgerMove, ThreadAfter, Runs, R.Apply, R.Enabled, R.Newest, F.Apply, L.Apply;
    if RegistryMove(s, a).Some? && RegistryMove(s, a).value.Publish? {
      PublisherIsNewest(s, a);
    }
  }

  /** Each key's current generation only increases. */
  lemma {:induction false} CurrentNeverDecreases(run: Run, i: nat, n: nat, k: Text)
    requires i <= n <= |run.actions| && IsRun(run, n) && IsRun(run, i) && k in At(run, i).reg.current
    ensures k in At(run, n).reg.current && At(run, i).reg.current[k] <= At(run, n).reg.current[k]
  {
    hide Inv, Enabled, Apply, R.Apply, R.Enabled, RegistryMove;
    if i < n {
      var s, a := At(run, n - 1), run.actions[n - 1];
      CurrentNeverDecreases(run, i, n - 1, k);
      RunInv(run, n - 1);
      RegistryStep(s, a);
      if RegistryMove(s, a).Some? {
        R.CurrentGrows(s.reg, RegistryMove(s, a).value, k);
      }
    }
  }

  /** From a registry in order, every state of a run is in order. */
  lemma {:induction false} RunInOrder(run: Run, n: nat)
    requires n <= |run.actions| && IsRun(run, n) && R.InOrder(run.reg)
    ensures R.InOrder(At(run, n).reg)
  {
    hide Inv, Enabled, Apply, R.Apply, R.Enabled, R.InOrder, RegistryMove;
    if n > 0 {
      var s, a := At(run, n - 1), run.actions[n - 1];
      RunInOrder(run, n - 1);
      RunInv(run, n - 1);
      RegistryStep(s, a);
      if RegistryMove(s, a).Some? {
        R.OrderKept(s.reg, RegistryMove(s, a).value);
      }
    }
  }

  /** Then at every point the selectable entry of a key is the one with the greatest generation, and there is no second one. */
  lemma SelectableIsNewest(run: Run, n: nat, x: nat, y: nat)
    requires n <= |run.actions| && IsRun(run, n) && R.InOrder(run.reg)
    requires Selectable(At(run, n).reg, x) && Published(At(run, n).reg, y)
    requires At(run, n).reg.entries[x].key == At(run, n).reg.entries[y].key
    ensures At(run, n).reg.entries[y].generation <= At(run, n).reg.entries[x].generation
    ensures Selectable(At(run, n).reg, y) ==> x == y
  {
    hide R.Inv, F.Inv, L.Inv, R.InOrder, Enabled, Apply;
    RunInOrder(run, n);
    R.SelectableIsNewest(At(run, n).reg, x, y);
    if Selectable(At(run, n).reg, y) {
      R.SelectableIsNewest(At(run, n).reg, y, x);
    }
  }

  // ----- invalidation -----

  /** A published entry that is invalidated or superseded is never selectable again. */
  lemma {:induction false} NeverSelectableAgain(run: Run, i: nat, n: nat, e: nat)
    requires i <= n <= |run.actions| && IsRun(run, n) && IsRun(run, i)
    requires Published(At(run, i).reg, e) && !Selectable(At(run, i).reg, e)
    ensures Published(At(run, n).reg, e) && !Selectable(At(run, n).reg, e)
  {
    hide R.Inv, F.Inv, L.Inv, ThreadOk, Grants, Enabled, Apply, R.Apply, R.Enabled, RegistryMove, Selectable;
    if i < n {
      var s, a := At(run, n - 1), run.actions[n - 1];
      NeverSelectableAgain(run, i, n - 1, e);
      RunInv(run, n - 1);
      RegistryStep(s, a);
      if RegistryMove(s, a).Some? {
        R.NeverSelectableAgain(s.reg, RegistryMove(s, a).value, e);
        R.StepKeeps(s.reg, RegistryMove(s, a).value);
      }
    }
  }

  /** Invalidation is permanent: no later search, for any request under any policy, returns the entry. */
  lemma NeverFoundAgain(run: Run, i: nat, n: nat, e: nat, q: Facts, p: Policy)
    requires i <= n <= |run.actions| && IsRun(run, n) && IsRun(run, i)
    requires Published(At(run, i).reg, e) && At(run, i).reg.entries[e].invalidated
    ensures Search(At(run, n).reg, q, p).Hit? ==> Search(At(run, n).reg, q, p).found.n != e
  {
    hide Search, IsRun, At;
    NeverSelectableAgain(run, i, n, e);
    SearchSelects(At(run, n).reg, q, p);
  }

  /** In every run, nothing is selectable right after everything was invalidated in one step, provided equal artifact identities imply equal keys. */
  lemma InvalidateAllInRun(run: Run, n: nat, ns: seq<nat>)
    requires n <= |run.actions| && IsRun(run, n) && R.InOrder(run.reg) && R.OneKeyPerArtifact(At(run, n).reg) && Invalidates(At(run, n).reg, ByAll, ns)
    ensures NoneSelectable(MarkAll(R.Apply(At(run, n).reg, R.BumpCache), ns))
  {
    hide R.Inv, R.Apply, F.Inv, L.Inv, ThreadOk, Grants, Enabled, Apply, Invalidates, MarkAll, NoneSelectable, R.OneKeyPerArtifact, R.InOrder;
    RunInv(run, n);
    RunInOrder(run, n);
    InvalidateAllIsComplete(At(run, n).reg, ns);
  }

  lemma {:induction false} CacheGenGrows(run: Run, i: nat, n: nat)
    requires i <= n <= |run.actions| && IsRun(run, n) && IsRun(run, i)
    ensures At(run, i).reg.cacheGen <= At(run, n).reg.cacheGen
  {
    hide Inv, Enabled, Apply, R.Apply, R.Enabled, RegistryMove;
    if i < n {
      var s, a := At(run, n - 1), run.actions[n - 1];
      CacheGenGrows(run, i, n - 1);
      RunInv(run, n - 1);
      RegistryStep(s, a);
      if RegistryMove(s, a).Some? {
        R.StepKeeps(s.reg, RegistryMove(s, a).value);
      }
    }
  }

  predicate Capturing(s: Engine, t: nat, g0: nat) {
    t < |s.threads| && s.threads[t].Flying? && Working(s.threads[t].work) && s.threads[t].work.g0 == g0
  }

  /** Step `i` began the capture that the thread is still in at step `n`. */
  ghost predicate BeganAt(run: Run, i: nat, n: nat, t: nat, g0: nat)
    requires i < n <= |run.actions| && IsRun(run, n) && IsRun(run, i)
  {
    && run.actions[i] == StartCapture(t) && At(run, i).reg.cacheGen == g0
    && (forall k: nat | i < k < n && IsRun(run, k) :: Capturing(At(run, k), t, g0))
  }

  /** A thread's own capture state changes only by its own actions. */
  lemma CapturingBefore(s: Engine, a: Action, t: nat, g0: nat)
    requires Inv(s) && Enabled(s, a) && Capturing(Apply(s, a), t, g0)
    ensures Capturing(s, t, g0) || (a == StartCapture(t) && s.reg.cacheGen == g0)
  {
    hide Inv, RegistryMove, FlightMove, LedgerMove, R.Apply, R.Enabled, F.Apply, F.Enabled, L.Apply, L.Enabled, Search, Invalidates;
  }

  lemma {:induction false} CaptureBegan(run: Run, n: nat, t: nat, g0: nat)
    requires n <= |run.actions| && IsRun(run, n) && Capturing(At(run, n), t, g0)
    ensures exists i: nat :: i < n && IsRun(run, i) && BeganAt(run, i, n, t, g0)
  {
    hide Inv, Enabled, Apply, Capturing;
    if n == 0 {
      NobodyCaptures(run.threads, run.reg, t, g0);
    } else {
      RunInv(run, n - 1);
      CapturingBefore(At(run, n - 1), run.actions[n - 1], t, g0);
      if run.actions[n - 1] == StartCapture(t) && At(run, n - 1).reg.cacheGen == g0 {
        assert BeganAt(run, n - 1, n, t, g0);
      } else {
        CaptureBegan(run, n - 1, t, g0);
        var i: nat :| i < n - 1 && IsRun(run, i) && BeganAt(run, i, n - 1, t, g0);
        assert BeganAt(run, i, n, t, g0);
      }
    }
  }

  lemma NobodyCaptures(threads: nat, reg: Registry, t: nat, g0: nat)
    ensures !Capturing(Start(threads, reg), t, g0)
  {
  }

  predicate HasChecked(s: Engine, t: nat, g0: nat) {
    Capturing(s, t, g0) && s.threads[t].work.Checked?
  }

  lemma CheckedBefore(s: Engine, a: Action, t: nat, g0: nat)
    requires Inv(s) && Enabled(s, a) && HasChecked(Apply(s, a), t, g0)
    ensures HasChecked(s, t, g0) || (a == CheckGeneration(t) && s.reg.cacheGen == g0 && Capturing(s, t, g0))
  {
    hide Inv, RegistryMove, FlightMove, LedgerMove, R.Apply, R.Enabled, F.Apply, F.Enabled, L.Apply, L.Enabled, Search, Invalidates;
  }

  lemma {:induction false} CheckPassed(run: Run, n: nat, t: nat, g0: nat)
    requires n <= |run.actions| && IsRun(run, n) && HasChecked(At(run, n), t, g0)
    ensures exists j: nat :: j < n && IsRun(run, j) && PassedAt(run, j, t, g0)
  {
    hide Inv, Enabled, Apply, Capturing;
    if n == 0 {
      NobodyCaptures(run.threads, run.reg, t, g0);
    } else {
      RunInv(run, n - 1);
      CheckedBefore(At(run, n - 1), run.actions[n - 1], t, g0);
      if HasChecked(At(run, n - 1), t, g0) {
        CheckPassed(run, n - 1, t, g0);
      } else {
        assert PassedAt(run, n - 1, t, g0);
      }
    }
  }

  ghost predicate PassedAt(run: Run, j: nat, t: nat, g0: nat)
    requires j < |run.actions| && IsRun(run, j)
  {
    run.actions[j] == CheckGeneration(t) && At(run, j).reg.cacheGen == g0 && Capturing(At(run, j), t, g0)
  }

  /** From step `i` to step `j` nobody invalidated anything: the cache generation stood still. */
  ghost predicate NoBump(run: Run, i: nat, j: nat)
    requires i <= j <= |run.actions| && IsRun(run, i)
  {
    forall k: nat | i <= k <= j && IsRun(run, k) :: At(run, k).reg.cacheGen == At(run, i).reg.cacheGen
  }

  /** The entry this step publishes carries the cache generation that is current right then. */
  ghost predicate PublishesCurrent(run: Run, n: nat)
    requires n < |run.actions| && IsRun(run, n) && run.actions[n].PublishEntry?
  {
    var s, t := At(run, n), run.actions[n].t;
    && t < |s.threads| && s.threads[t].Flying? && s.threads[t].work.Checked?
    && s.threads[t].work.n < |s.reg.entries| && s.reg.entries[s.threads[t].work.n].cacheGeneration == s.reg.cacheGen
  }

  /** Steps `i` and `j` are the start and the check of the capture that step `n` publishes. */
  ghost predicate Undisturbed(run: Run, i: nat, j: nat, n: nat)
    requires i < j < n < |run.actions| && IsRun(run, i) && IsRun(run, j) && IsRun(run, n) && run.actions[n].PublishEntry?
  {
    && run.actions[i] == StartCapture(run.actions[n].t) && run.actions[j] == CheckGeneration(run.actions[n].t)
    && NoBump(run, i, j) && (PublishesCurrent(run, n) <==> NoBump(run, j, n))
  }

  /**
    A capture that publishes saw no generation bump between its start and its
    check. It publishes under the current generation exactly when there was
    none between its check and its publication either, which nothing ensures.
   */
  lemma PublisherSawNoBump(run: Run, n: nat)
    requires n < |run.actions| && IsRun(run, n) && Enabled(At(run, n), run.actions[n]) && run.actions[n].PublishEntry?
    ensures exists i: nat, j: nat :: i < j < n && IsRun(run, i) && IsRun(run, j) && Undisturbed(run, i, j, n)
  {
    hide Apply, Enabled, At, Capturing, NoBump, PublishesCurrent, HasChecked;
    var t := run.actions[n].t;
    var g0 := AtPublication(run, n);
    CheckPassed(run, n, t, g0);
    var j: nat :| j < n && IsRun(run, j) && PassedAt(run, j, t, g0);
    CaptureBegan(run, j, t, g0);
    var i: nat :| i < j && IsRun(run, i) && BeganAt(run, i, j, t, g0);
    StandsStill(run, i, j);
    StandsStill(run, j, n);
    assert Undisturbed(run, i, j, n);
  }

  /** The generation stood still exactly when it is the same at both ends. */
  lemma StandsStill(run: Run, i: nat, j: nat)
    requires i <= j <= |run.actions| && IsRun(run, i) && IsRun(run, j)
    ensures NoBump(run, i, j) <==> At(run, i).reg.cacheGen == At(run, j).reg.cacheGen
  {
    hide Apply, Enabled, At, IsRun;
    forall k: nat | i <= k <= j && IsRun(run, k)
      ensures At(run, i).reg.cacheGen <= At(run, k).reg.cacheGen <= At(run, j).reg.cacheGen
    {
      CacheGenGrows(run, i, k);
      CacheGenGrows(run, k, j);
    }
  }

  lemma AtPublication(run: Run, n: nat) returns (g0: nat)
    requires n < |run.actions| && IsRun(run, n) && Enabled(At(run, n), run.actions[n]) && run.actions[n].PublishEntry?
    ensures HasChecked(At(run, n), run.actions[n].t, g0)
    ensures PublishesCurrent(run, n) <==> At(run, n).reg.cacheGen == g0
  {
    hide Apply, R.Inv, F.Inv, L.Inv, Grants, PlaceOk, RefsOk, GrantOk, Ahead, RegistryMove, FlightMove, LedgerMove, R.Enabled, F.Enabled, L.Enabled;
    var t := run.actions[n].t;
    g0 := At(run, n).threads[t].work.g0;
    RunInv(run, n);
    assert ThreadOk(At(run, n), t);
  }

  // ----- workloads in each other's way -----

  /** In every run, while an entry of a colliding workload is selectable, a search for this one never leads into a capture. */
  lemma CollidingWorkloadIsNotCaptured(run: Run, n: nat, e: nat)
    requires n < |run.actions| && IsRun(run, n) && Enabled(At(run, n), run.actions[n]) && run.actions[n].Seek?
    requires Selectable(At(run, n).reg, e)
    requires Collide(At(run, n).reg.entries[e].facts.workload, At(run, n).threads[run.actions[n].t].job.entry.facts.workload)
    ensures !Apply(At(run, n), run.actions[n]).threads[run.actions[n].t].Flying?
    ensures NoneNamed(At(run, n).reg, At(run, n).threads[run.actions[n].t].job.entry.facts.workload.name) ==>
              Apply(At(run, n), run.actions[n]).threads[run.actions[n].t] == Idle
  {
    hide R.Inv, R.Apply, F.Inv, F.Apply, L.Inv, L.Apply, ThreadOk, Grants, Selectable, Search, IsRun, At, RegistryMove, FlightMove, LedgerMove;
    var s, t := At(run, n), run.actions[n].t;
    var job := s.threads[t].job;
    RunInv(run, n);
    RegistryIndexed(s.reg);
    CaptureRequiredExactly(s.reg, job.entry.facts, job.policy);
    if NoneNamed(s.reg, job.entry.facts.workload.name) {
      CollisionBlocksCapture(s.reg, job.entry.facts, job.policy, e);
    }
  }

  lemma RegistryIndexed(r: Registry)
    requires R.Inv(r)
    ensures WorkloadIndexed(r)
  {
  }

  // ----- leases -----

  /** Every lease that was ever granted holds an executable. */
  lemma LeasesHoldExecutables(run: Run, n: nat, l: nat)
    requires n <= |run.actions| && IsRun(run, n) && l < |At(run, n).ledger.leases|
    ensures l < |At(run, n).executables| && At(run, n).executables[l]
  {
    hide R.Inv, F.Inv, L.Inv, ThreadOk, Enabled, Apply;
    RunInv(run, n);
  }

  /** An entry has an executable exactly when it is host resident, and nothing is ever resident in the backend. */
  lemma ExecutableIffResident(run: Run, n: nat, e: nat)
    requires n <= |run.actions| && IsRun(run, n) && e < |At(run, n).reg.entries|
    ensures At(run, n).reg.entries[e].exec <==> At(run, n).reg.entries[e].residency == HostResident
    ensures At(run, n).reg.entries[e].residency != BackendResident
  {
    hide F.Inv, L.Inv, ThreadOk, Grants, Enabled, Apply, WorkloadIndexed, KeyIndexed, ArtifactIndexed, R.Generations, R.NewestInSlot, R.OneKeyPerArtifact;
    RunInv(run, n);
    assert R.Resident(At(run, n).reg.entries[e]);
  }

  /** Whenever no grant and no release is under way, the counters are the numbers of unreleased leases. */
  lemma LeaseConservation(run: Run, n: nat, e: nat)
    requires n <= |run.actions| && IsRun(run, n) && L.Settled(At(run, n).ledger.leases) && e < |At(run, n).reg.entries|
    ensures e < |At(run, n).ledger.counts|
    ensures At(run, n).ledger.counts[e] == L.HeldOn(At(run, n).ledger.leases, e)
    ensures At(run, n).ledger.total == L.HeldInAll(At(run, n).ledger.leases)
  {
    hide R.Inv, F.Inv, ThreadOk, Grants, Enabled, Apply;
    RunInv(run, n);
    L.SettledCounts(At(run, n).ledger.leases, e);
  }

  // ----- single flight -----

  /** At most one thread captures a key at a time. */
  lemma OneCapturePerKey(run: Run, n: nat, t: nat, u: nat)
    requires n <= |run.actions| && IsRun(run, n)
    requires t < |At(run, n).flights.phases| && u < |At(run, n).flights.phases|
    requires F.Running(At(run, n).flights.phases[t]) && F.Running(At(run, n).flights.phases[u])
    requires At(run, n).flights.phases[t].key == At(run, n).flights.phases[u].key
    ensures t == u
  {
    hide R.Inv, F.Inv, L.Inv, ThreadOk, Grants, Enabled, Apply;
    RunInv(run, n);
    F.OneCapturePerKey(At(run, n).flights, t, u);
  }

  /** The next step of an owner's capture. */
  function NextStep(t: nat, valid: bool, w: Work): Action {
    match w
    case NoWork => StartCapture(t)
    case Started(_) => if valid then NumberCapture(t) else FailCapture(t)
    case Numbered(_, _) => BuildEntry(t)
    case Built(_, _) => CheckGeneration(t)
    case Checked(_, _) => PublishEntry(t)
    case Ended(_) => RecordResult(t)
  }

  function Rank(w: Work): nat {
    match w
    case NoWork => 0
    case Started(_) => 1
    case Numbered(_, _) => 2
    case Built(_, _) => 3
    case Checked(_, _) => 4
    case Ended(_) => 5
  }

  /** An owner is never blocked: its next step is always possible and brings its attempt closer to being done. */
  lemma OwnerAdvances(s: Engine, t: nat)
    requires Inv(s) && t < |s.threads| && s.flights.phases[t].Owner?
    ensures s.threads[t].Flying? && Enabled(s, NextStep(t, s.threads[t].job.valid, s.threads[t].work))
    ensures var x := Apply(s, NextStep(t, s.threads[t].job.valid, s.threads[t].work));
            t < |x.flights.phases| && t < |x.threads|
            && (x.flights.phases[t].Recorded?
                || (x.flights.phases[t].Owner? && x.threads[t].Flying? && Rank(s.threads[t].work) < Rank(x.threads[t].work)))
  {
    hide R.Inv, R.Apply, L.Inv, L.Apply, Grants, RefsOk, GrantOk, Search, Invalidates, Ahead;
    assert ThreadOk(s, t);
    assert F.OwnsFlight(s.flights, t);
    assert R.Captured(s.threads[t].job.entry) by {
      JobIsCaptured(s, t);
    }
  }

  lemma JobIsCaptured(s: Engine, t: nat)
    requires Inv(s) && t < |s.threads| && s.threads[t].Flying?
    ensures R.Captured(s.threads[t].job.entry)
  {
    hide R.Inv, F.Inv, L.Inv, Grants, PlaceOk, GrantOk, WorkOk;
    assert ThreadOk(s, t);
  }

  /** So no waiter is left blocked: it can wake up, or the owner it waits for can take its next step. */
  lemma NoWaiterIsStuck(run: Run, n: nat, t: nat)
    requires n <= |run.actions| && IsRun(run, n) && t < |At(run, n).flights.phases| && At(run, n).flights.phases[t].Waiter?
    ensures var s := At(run, n);
            var a := s.flights.phases[t].attempt;
            && a < |s.flights.attempts|
            && (Enabled(s, WakeUp(t))
                || (var o := s.flights.attempts[a].owner;
                    o < |s.threads| && o < |s.flights.phases| && s.flights.phases[o].Owner? && s.threads[o].Flying? && Enabled(s, NextStep(o, s.threads[o].job.valid, s.threads[o].work))))
  {
    hide R.Inv, L.Inv, Grants, RefsOk, GrantOk, WorkOk, Apply, Search, Invalidates;
    var s := At(run, n);
    RunInv(run, n);
    assert ThreadOk(s, t);
    assert F.KnowsAttempt(s.flights, t);
    var a := s.flights.phases[t].attempt;
    if !s.flights.attempts[a].done {
      assert F.HasOwner(s.flights, a);
      assert F.OwnsFlight(s.flights, s.flights.attempts[a].owner);
      OwnerAdvances(s, s.flights.attempts[a].owner);
    }
  }
}
