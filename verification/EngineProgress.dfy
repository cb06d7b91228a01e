/**
  What a thread of the engine has done when it is through: an invalidation has
  marked every target that it collected, and a lookup has taken part in at most
  one capture.
 */
module EngineProgress {
  import opened CacheRegistry
  import opened CacheInvalidation
  import opened CacheEngine
  import opened EngineRuns
  import R = CacheMoves
  import F = SingleFlight
  import L = Leases

  // ----- one capture per lookup -----

  /** The thread has entered a flight and began no lookup since. */
  predicate Flown(s: Engine, t: nat) {
    && t < |s.threads| == |s.flights.phases|
    && var th := s.threads[t];
       && (th.Flying? ==> !s.flights.phases[t].Out?) && (th.Seeking? ==> th.again) && (th.Chosen? ==> th.again)
  }

  lemma FlownByOther(s: Engine, a: Action, t: nat)
    requires Flown(s, t) && Enabled(s, a) && (!IsThreadAction(a) || a.t != t)
    ensures Flown(Apply(s, a), t)
  {
    hide RegistryMove, LedgerMove, ThreadAfter, R.Apply, R.Enabled, L.Apply, L.Enabled, Search;
  }

  lemma FlownBySelf(s: Engine, a: Action, t: nat)
    requires Flown(s, t) && Enabled(s, a) && IsThreadAction(a) && a.t == t && !a.Begin?
    ensures Flown(Apply(s, a), t)
  {
    hide RegistryMove, LedgerMove, R.Apply, R.Enabled, L.Apply, L.Enabled, Search;
  }

  lemma {:induction false} FlownStays(run: Run, i: nat, n: nat, t: nat)
    requires i <= n <= |run.actions| && IsRun(run, n) && IsRun(run, i) && Flown(At(run, i), t)
    requires forall m: nat | i <= m < n :: !(run.actions[m].Begin? && run.actions[m].t == t)
    ensures Flown(At(run, n), t)
  {
    hide Flown, Enabled, Apply;
    if i < n {
      FlownStays(run, i, n - 1, t);
      var s, a := At(run, n - 1), run.actions[n - 1];
      if IsThreadAction(a) && a.t == t {
        FlownBySelf(s, a, t);
      } else {
        FlownByOther(s, a, t);
      }
    }
  }

  lemma EntersFlown(s: Engine, t: nat)
    requires Enabled(s, EnterFlight(t))
    ensures t < |s.threads| && !Flown(s, t) && Flown(Apply(s, EnterFlight(t)), t)
  {
    hide RegistryMove, LedgerMove, R.Apply, R.Enabled, L.Apply, L.Enabled;
  }

  /** A lookup enters a flight at most once: if its thread enters another, it began another lookup in between. */
  lemma LookupFliesOnce(run: Run, i: nat, j: nat, t: nat)
    requires i < j < |run.actions| && IsRun(run, j + 1) && run.actions[i] == EnterFlight(t) && run.actions[j] == EnterFlight(t)
    ensures exists m: nat :: i < m < j && run.actions[m].Begin? && run.actions[m].t == t
  {
    hide Flown, Enabled, Apply;
    PrefixIsRun(run, i + 1, j + 1);
    PrefixIsRun(run, j, j + 1);
    EntersFlown(At(run, i), t);
    EntersFlown(At(run, j), t);
    if forall m: nat | i < m < j :: !(run.actions[m].Begin? && run.actions[m].t == t) {
      FlownStays(run, i + 1, j, t);
    }
  }

  /** And a flight that succeeds is followed by a second search, for the same request. */
  lemma SuccessSeeksAgain(s: Engine, t: nat)
    requires Enabled(s, LeaveFlight(t))
    ensures var th, after := s.threads[t], Apply(s, LeaveFlight(t)).threads[t];
            after == if s.flights.phases[t].result.Success? then Seeking(th.job, true) else Idle
  {
    hide RegistryMove, LedgerMove, FlightMove, R.Apply, R.Enabled, L.Apply, L.Enabled, F.Apply;
  }

  // ----- every target is marked -----

  /** A thread that is marking has marked what it has passed of these targets. */
  ghost predicate Marks(s: Engine, t: nat, ns: seq<nat>) {
    && t < |s.threads|
    && (s.threads[t].Marking? ==> exists k: nat :: MarkedUpTo(s.reg, s.threads[t].targets, ns, k))
  }

  ghost predicate MarkedUpTo(r: Registry, left: seq<nat>, ns: seq<nat>, k: nat) {
    k <= |ns| && left == ns[k..] && forall i | 0 <= i < k :: Invalid(r, ns[i])
  }

  predicate Invalid(r: Registry, n: nat) {
    n < |r.entries| && r.entries[n].invalidated
  }

  lemma InvalidStays(s: Engine, a: Action, n: nat)
    requires Enabled(s, a) && Invalid(s.reg, n)
    ensures Invalid(Apply(s, a).reg, n)
  {
    hide RegistryMove, LedgerMove, FlightMove, ThreadAfter, L.Apply, L.Enabled, F.Apply, F.Enabled, Runs;
    if RegistryMove(s, a).Some? {
      MoveKeepsInvalid(s.reg, RegistryMove(s, a).value, n);
    }
  }

  lemma MoveKeepsInvalid(r: Registry, m: R.Move, n: nat)
    requires R.Enabled(r, m) && Invalid(r, n)
    ensures Invalid(R.Apply(r, m), n)
  {
  }

  lemma MarkedLonger(s: Engine, a: Action, left: seq<nat>, ns: seq<nat>, k: nat)
    requires Enabled(s, a) && MarkedUpTo(s.reg, left, ns, k)
    ensures MarkedUpTo(Apply(s, a).reg, left, ns, k)
  {
    hide Enabled, Apply, Invalid;
    forall i | 0 <= i < k
      ensures Invalid(Apply(s, a).reg, ns[i])
    {
      InvalidStays(s, a, ns[i]);
    }
  }

  lemma NextMarked(s: Engine, t: nat)
    requires Enabled(s, MarkNext(t)) && s.threads[t].Marking? && s.threads[t].targets != []
    ensures Apply(s, MarkNext(t)).threads[t] == Marking(s.threads[t].targets[1..])
    ensures Invalid(Apply(s, MarkNext(t)).reg, s.threads[t].targets[0])
  {
    hide LedgerMove, FlightMove, L.Apply, L.Enabled, F.Apply, F.Enabled;
  }

  lemma NotMarking(s: Engine, a: Action, t: nat)
    requires Enabled(s, a) && t < |s.threads| && a != MarkNext(t) && !(a.Collect? && a.t == t)
    ensures t < |Apply(s, a).threads|
    ensures Apply(s, a).threads[t].Marking? ==> s.threads[t] == Apply(s, a).threads[t]
  {
    hide RegistryMove, LedgerMove, FlightMove, R.Apply, R.Enabled, L.Apply, L.Enabled, F.Apply, F.Enabled, Search;
  }

  lemma DoneMarking(s: Engine, t: nat)
    requires Enabled(s, MarkNext(t)) && s.threads[t].targets == []
    ensures Apply(s, MarkNext(t)).threads[t] == Idle
  {
    hide RegistryMove, LedgerMove, FlightMove, R.Apply, R.Enabled, L.Apply, L.Enabled, F.Apply, F.Enabled;
  }

  lemma MarksStep(s: Engine, a: Action, t: nat, ns: seq<nat>)
    requires Enabled(s, a) && Marks(s, t, ns) && !(a.Collect? && a.t == t)
    ensures Marks(Apply(s, a), t, ns)
  {
    var th := s.threads[t];
    if a == MarkNext(t) {
      var k: nat :| MarkedUpTo(s.reg, th.targets, ns, k);
      if th.targets == [] {
        DoneMarking(s, t);
      } else {
        hide Apply, Enabled, Invalid;
        MarkedLonger(s, a, th.targets, ns, k);
        NextMarked(s, t);
        assert th.targets[0] == ns[k] && th.targets[1..] == ns[k + 1..];
        assert MarkedUpTo(Apply(s, a).reg, th.targets[1..], ns, k + 1);
      }
    } else {
      hide Apply, Enabled, MarkedUpTo;
      NotMarking(s, a, t);
      if Apply(s, a).threads[t].Marking? {
        var k: nat :| MarkedUpTo(s.reg, th.targets, ns, k);
        MarkedLonger(s, a, th.targets, ns, k);
      }
    }
  }

  lemma {:induction false} MarksInRun(run: Run, c: nat, n: nat, t: nat, ns: seq<nat>)
    requires c <= n <= |run.actions| && IsRun(run, n) && IsRun(run, c) && Marks(At(run, c), t, ns)
    requires forall m: nat | c <= m < n :: !(run.actions[m].Collect? && run.actions[m].t == t)
    ensures Marks(At(run, n), t, ns)
  {
    hide Marks, Enabled, Apply;
    if c < n {
      MarksInRun(run, c, n - 1, t, ns);
      MarksStep(At(run, n - 1), run.actions[n - 1], t, ns);
    }
  }

  lemma CollectMarks(s: Engine, t: nat, ns: seq<nat>)
    requires Enabled(s, Collect(t, ns))
    ensures Marks(Apply(s, Collect(t, ns)), t, ns)
  {
    hide RegistryMove, LedgerMove, FlightMove, R.Apply, R.Enabled, L.Apply, L.Enabled, F.Apply, F.Enabled, Invalidates;
    assert MarkedUpTo(Apply(s, Collect(t, ns)).reg, ns, ns, 0);
  }

  /** When an invalidation is through with its targets, every one of them is invalidated. */
  lemma InvalidationMarksAll(run: Run, c: nat, n: nat, t: nat, ns: seq<nat>, x: nat)
    requires c < n <= |run.actions| && IsRun(run, n) && run.actions[c] == Collect(t, ns) && x in ns
    requires forall m: nat | c < m < n :: !(run.actions[m].Collect? && run.actions[m].t == t)
    requires t < |At(run, n).threads| && At(run, n).threads[t] == Marking([])
    ensures Invalid(At(run, n).reg, x)
  {
    hide Enabled, Apply, Invalid;
    PrefixIsRun(run, c + 1, n);
    CollectMarks(At(run, c), t, ns);
    MarksInRun(run, c + 1, n, t, ns);
    var k: nat :| MarkedUpTo(At(run, n).reg, [], ns, k);
    assert k == |ns|;
    var i :| 0 <= i < |ns| && ns[i] == x;
  }
}
