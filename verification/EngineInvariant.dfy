/**
  The invariant of the engine: the invariants of its three parts, and what
  each thread may rely on at the point it has reached.
 */
module EngineInvariant {
  import opened Bytes
  import opened Facts
  import opened Decide
  import opened CacheRegistry
  import opened CacheInvalidation
  import opened CacheEngine
  import R = CacheMoves
  import F = SingleFlight
  import L = Leases

  /** A generation that is newer than everything published for a key. */
  ghost predicate Ahead(r: Registry, k: Text, g: nat) {
    && g < r.graphGen && (k in r.current ==> r.current[k] < g)
    && (forall m: nat | Published(r, m) && r.entries[m].key == k :: r.entries[m].generation < g)
  }

  /** What holds while an owner is in `capture_graph`: its generation stays ahead of all others of its key. */
  ghost predicate WorkOk(r: Registry, key: Text, w: Work) {
    match w
    case NoWork => true
    case Started(g0) => g0 <= r.cacheGen
    case Numbered(g0, g) => g0 <= r.cacheGen && Ahead(r, key, g)
    case Built(g0, n) => HoldsEntry(r, key, n) && g0 <= r.entries[n].cacheGeneration <= r.cacheGen
    case Checked(g0, n) => HoldsEntry(r, key, n) && g0 == r.entries[n].cacheGeneration <= r.cacheGen
    case Ended(_) => true
  }

  ghost predicate HoldsEntry(r: Registry, key: Text, n: nat) {
    && n < |r.entries| && !r.entries[n].published && r.entries[n].key == key && Ahead(r, key, r.entries[n].generation)
  }

  predicate Working(w: Work) {
    w.Started? || w.Numbered? || w.Built? || w.Checked?
  }

  /** A thread's place in `run_single_flight` agrees with its place in `lookup`. */
  predicate PlaceOk(th: Thread, ph: F.Phase) {
    if !th.Flying? then ph.Out?
    else
      && (F.Running(ph) || ph.Waiter? ==> ph.key == th.job.entry.key)
      && (Working(th.work) ==> ph.Owner?)
      && (th.work.Ended? ==> F.Running(ph) || ph.Returned?)
      && (th.work.NoWork? ==> !ph.Recorded?)
  }

  predicate HasJob(th: Thread) {
    th.Seeking? || th.Chosen? || th.Ready? || th.Cleared? || th.Granting? || th.Flying?
  }

  ghost predicate RefsOk(r: Registry, th: Thread) {
    && (HasJob(th) ==> R.Captured(th.job.entry))
    && (th.Chosen? || th.Ready? || th.Cleared? ==> Published(r, th.n))
    && (th.Chosen? || th.Ready? || th.Cleared? ==> Decided(th.job.entry.facts, r.entries[th.n].facts, th.job.policy).Compatible())
    && (th.Ready? || th.Cleared? ==> r.entries[th.n].exec)
    && (th.Marking? ==> forall i | 0 <= i < |th.targets| :: Published(r, th.targets[i]))
  }

  predicate GrantOk(g: L.Ledger, th: Thread) {
    th.Granting? ==> th.l < |g.leases| && g.leases[th.l].stage == L.Opening
  }

  ghost predicate ThreadOk(s: Engine, t: nat)
    requires t < |s.threads| && t < |s.flights.phases|
  {
    var th := s.threads[t];
    && PlaceOk(th, s.flights.phases[t]) && RefsOk(s.reg, th) && GrantOk(s.ledger, th)
    && (th.Flying? ==> WorkOk(s.reg, th.job.entry.key, th.work))
  }

  ghost predicate Grants(s: Engine) {
    && |s.executables| == |s.ledger.leases| && (forall l | 0 <= l < |s.executables| :: s.executables[l])
    && (forall t, u | 0 <= t < u < |s.threads| && s.threads[t].Granting? && s.threads[u].Granting? :: s.threads[t].l != s.threads[u].l)
  }

  ghost predicate Inv(s: Engine) {
    && R.Inv(s.reg) && F.Inv(s.flights) && L.Inv(s.ledger)
    && |s.threads| == |s.flights.phases| && |s.ledger.counts| == |s.reg.entries|
    && (forall t | 0 <= t < |s.threads| :: ThreadOk(s, t))
    && Grants(s)
  }

  // ----- what other threads do not disturb -----

  /** The only move that could overtake a generation is a publication of the same key. */
  lemma AheadKept(r: Registry, m: R.Move, k: Text, g: nat)
    requires R.Enabled(r, m) && Ahead(r, k, g) && (m.Publish? ==> r.entries[m.n].key != k)
    ensures Ahead(R.Apply(r, m), k, g)
  {
    hide R.Apply;
    R.StepKeeps(r, m);
    R.TablesKept(r, m);
  }

  lemma WorkKept(r: Registry, m: R.Move, k: Text, w: Work)
    requires R.Enabled(r, m) && WorkOk(r, k, w) && (m.Publish? && Working(w) ==> r.entries[m.n].key != k)
    ensures WorkOk(R.Apply(r, m), k, w)
  {
    hide R.Apply, Ahead;
    R.StepKeeps(r, m);
    if w.Built? || w.Checked? {
      AheadKept(r, m, k, r.entries[w.n].generation);
      assert !Published(r, w.n) && !Published(R.Apply(r, m), w.n);
    } else if w.Numbered? {
      AheadKept(r, m, k, w.generation);
    }
  }

  lemma RefsKept(r: Registry, m: R.Move, th: Thread)
    requires R.Enabled(r, m) && RefsOk(r, th)
    ensures RefsOk(R.Apply(r, m), th)
  {
    hide R.Apply, R.Captured, Decided;
    R.StepKeeps(r, m);
  }

  lemma GrantKept(g: L.Ledger, m: L.Move, th: Thread)
    requires L.Enabled(g, m) && GrantOk(g, th) && (m.Activate? && th.Granting? ==> m.l != th.l)
    ensures GrantOk(L.Apply(g, m), th)
  {
  }

  /** A publishing thread and any other working thread have different keys: single flight. */
  lemma DifferentKeys(s: Engine, t: nat, u: nat)
    requires Inv(s) && t < |s.threads| && u < |s.threads| && t != u
    requires s.threads[t].Flying? && Working(s.threads[t].work) && s.threads[u].Flying? && Working(s.threads[u].work)
    ensures s.threads[t].job.entry.key != s.threads[u].job.entry.key
  {
    hide R.Inv, F.Inv, L.Inv, RefsOk, GrantOk, WorkOk, Grants;
    assert ThreadOk(s, t) && ThreadOk(s, u);
    if s.threads[t].job.entry.key == s.threads[u].job.entry.key {
      F.OneCapturePerKey(s.flights, t, u);
    }
  }

  // ----- each part keeps its invariant -----

  /** What the moves of an action are, by the place its thread has reached. */
  lemma PublisherIsNewest(s: Engine, a: Action)
    requires Inv(s) && Enabled(s, a) && RegistryMove(s, a).Some? && RegistryMove(s, a).value.Publish?
    ensures R.Newest(s.reg, RegistryMove(s, a).value.n)
    ensures a.PublishEntry? && a.t < |s.threads| && s.threads[a.t].Flying? && Working(s.threads[a.t].work)
    ensures s.reg.entries[RegistryMove(s, a).value.n].key == s.threads[a.t].job.entry.key
  {
    hide R.Inv, F.Inv, L.Inv, Grants, PlaceOk, RefsOk, GrantOk;
    assert ThreadOk(s, a.t);
  }

  lemma RegistryKept(s: Engine, a: Action)
    requires Inv(s) && Enabled(s, a)
    ensures R.Inv(Apply(s, a).reg)
  {
    hide R.Inv, R.Apply, R.Enabled, F.Inv, F.Apply, L.Inv, L.Apply, ThreadOk, ThreadAfter, RegistryMove, FlightMove, LedgerMove, Runs, Grants;
    if RegistryMove(s, a).Some? {
      var m := RegistryMove(s, a).value;
      if m.Publish? {
        PublisherIsNewest(s, a);
      }
      R.StepInv(s.reg, m);
    }
  }

  lemma InRange(s: Engine, a: Action)
    requires Enabled(s, a)
    ensures IsThreadAction(a) ==> a.t < |s.threads|
  {
  }

  lemma FlightsKept(s: Engine, a: Action)
    requires Inv(s) && Enabled(s, a)
    ensures F.Inv(Apply(s, a).flights) && |Apply(s, a).flights.phases| == |s.flights.phases|
    ensures |Apply(s, a).threads| == |s.threads|
  {
    hide R.Inv, R.Apply, F.Inv, F.Apply, F.Enabled, L.Inv, L.Apply, ThreadOk, ThreadAfter, RegistryMove, FlightMove, LedgerMove, Runs, Grants;
    InRange(s, a);
    if FlightMove(s, a).Some? {
      F.StepInv(s.flights, FlightMove(s, a).value);
      F.StepKeeps(s.flights, FlightMove(s, a).value);
    }
  }

  lemma LedgerKept(s: Engine, a: Action)
    requires Inv(s) && Enabled(s, a)
    ensures L.Inv(Apply(s, a).ledger)
  {
    hide R.Inv, R.Apply, F.Inv, F.Apply, L.Inv, L.Apply, L.Enabled, ThreadOk, ThreadAfter, RegistryMove, FlightMove, LedgerMove, Runs, Grants;
    if LedgerMove(s, a).Some? {
      L.StepInv(s.ledger, LedgerMove(s, a).value);
    }
  }

  lemma CountsKept(s: Engine, a: Action)
    requires Inv(s) && Enabled(s, a)
    ensures |Apply(s, a).ledger.counts| == |Apply(s, a).reg.entries|
  {
    hide R.Inv, F.Inv, F.Apply, F.Enabled, L.Inv, ThreadOk, ThreadAfter, FlightMove, Grants, CacheRegistry.WorkloadKey, R.Add;
  }

  // ----- threads that do not act -----

  lemma PhaseKept(s: Engine, a: Action, u: nat)
    requires Inv(s) && Enabled(s, a) && u < |s.threads| && (IsThreadAction(a) ==> a.t != u)
    ensures u < |Apply(s, a).flights.phases| && Apply(s, a).flights.phases[u] == s.flights.phases[u]
    ensures u < |Apply(s, a).threads| && Apply(s, a).threads[u] == s.threads[u]
  {
    hide R.Inv, R.Apply, R.Enabled, F.Inv, F.Apply, F.Enabled, L.Inv, L.Apply, L.Enabled, ThreadOk, ThreadAfter, RegistryMove, LedgerMove, Grants;
    if FlightMove(s, a).Some? {
      F.StepKeeps(s.flights, FlightMove(s, a).value);
      assert FlightMove(s, a).value.t == a.t;
    }
  }

  lemma OtherThreadOk(s: Engine, a: Action, u: nat)
    requires Inv(s) && Enabled(s, a) && u < |s.threads| && (IsThreadAction(a) ==> a.t != u)
    requires u < |Apply(s, a).threads| && u < |Apply(s, a).flights.phases|
    ensures ThreadOk(Apply(s, a), u)
  {
    hide R.Inv, R.Apply, R.Enabled, F.Inv, F.Apply, L.Inv, L.Apply, L.Enabled, ThreadAfter, PlaceOk, RefsOk, GrantOk, WorkOk, FlightMove, Runs;
    var th := s.threads[u];
    assert ThreadOk(s, u);
    PhaseKept(s, a, u);
    OtherRegistry(s, a, u);
    OtherLedger(s, a, u);
  }

  lemma OtherRegistry(s: Engine, a: Action, u: nat)
    requires Inv(s) && Enabled(s, a) && u < |s.threads| && (IsThreadAction(a) ==> a.t != u)
    ensures RefsOk(Apply(s, a).reg, s.threads[u])
    ensures s.threads[u].Flying? ==> WorkOk(Apply(s, a).reg, s.threads[u].job.entry.key, s.threads[u].work)
  {
    hide R.Inv, R.Apply, R.Enabled, F.Inv, F.Apply, L.Inv, L.Apply, ThreadAfter, PlaceOk, RefsOk, GrantOk, WorkOk, FlightMove, LedgerMove, RegistryMove, Runs, Grants;
    var th := s.threads[u];
    assert ThreadOk(s, u);
    if RegistryMove(s, a).Some? {
      var m := RegistryMove(s, a).value;
      RefsKept(s.reg, m, th);
      if th.Flying? {
        if m.Publish? {
          PublisherIsNewest(s, a);
          if Working(th.work) {
            DifferentKeys(s, a.t, u);
          }
        }
        WorkKept(s.reg, m, th.job.entry.key, th.work);
      }
    }
  }

  lemma OtherLedger(s: Engine, a: Action, u: nat)
    requires Inv(s) && Enabled(s, a) && u < |s.threads| && (IsThreadAction(a) ==> a.t != u)
    ensures GrantOk(Apply(s, a).ledger, s.threads[u])
  {
    hide R.Inv, R.Apply, R.Enabled, F.Inv, F.Apply, L.Inv, L.Apply, L.Enabled, ThreadAfter, PlaceOk, RefsOk, WorkOk, FlightMove, RegistryMove;
    assert ThreadOk(s, u);
    if LedgerMove(s, a).Some? {
      GrantKept(s.ledger, LedgerMove(s, a).value, s.threads[u]);
    }
  }

  // ----- the thread that acts -----

  lemma OwnPlaceOk(s: Engine, a: Action)
    requires Inv(s) && Enabled(s, a) && IsThreadAction(a)
    ensures a.t < |Apply(s, a).flights.phases| && PlaceOk(ThreadAfter(s, a), Apply(s, a).flights.phases[a.t])
  {
    hide R.Inv, R.Apply, R.Enabled, F.Inv, L.Inv, L.Apply, L.Enabled, RefsOk, GrantOk, WorkOk, RegistryMove, LedgerMove, Search, Invalidates;
    assert ThreadOk(s, a.t);
  }

  lemma SearchSelects(r: Registry, q: Facts, p: Policy)
    ensures Search(r, q, p).Hit? ==>
              var n := Search(r, q, p).found.n;
              Selectable(r, n) && Decided(q, r.entries[n].facts, p).Compatible()
  {
    hide Decided, Fresh, Selectable, ScanAll;
    ScanSummarizes(r, q, p, Bucket(r.byWorkload, WorkloadKey(q.workload)));
  }

  lemma OwnRefsOk(s: Engine, a: Action)
    requires Inv(s) && Enabled(s, a) && IsThreadAction(a)
    ensures RefsOk(Apply(s, a).reg, ThreadAfter(s, a))
  {
    hide R.Inv, R.Apply, F.Inv, F.Apply, F.Enabled, L.Inv, L.Apply, L.Enabled, PlaceOk, GrantOk, WorkOk, LedgerMove, FlightMove, Search, R.Captured, Decided;
    assert ThreadOk(s, a.t);
    if RegistryMove(s, a).Some? {
      R.StepKeeps(s.reg, RegistryMove(s, a).value);
      if a.Materialize? {
        R.EntryAfter(s.reg, RegistryMove(s, a).value, s.threads[a.t].n);
      }
    }
    if a.Seek? {
      var job := s.threads[a.t].job;
      SearchSelects(s.reg, job.entry.facts, job.policy);
    }
  }

  lemma NumberIsAhead(r: Registry, k: Text)
    requires R.Inv(r)
    ensures Ahead(R.Apply(r, R.Number), k, r.graphGen)
  {
    hide WorkloadIndexed, KeyIndexed, ArtifactIndexed, R.Residents, R.NewestInSlot, R.OneKeyPerArtifact;
    var s := R.Apply(r, R.Number);
    assert s == r.(graphGen := r.graphGen + 1);
    forall m: nat | Published(s, m)
      ensures s.entries[m].generation < r.graphGen
    {
      assert Published(r, m);
    }
  }

  lemma BuildHoldsEntry(r: Registry, job: Job, g0: nat, g: nat)
    requires R.Captured(job.entry) && g0 <= r.cacheGen && Ahead(r, job.entry.key, g)
    ensures WorkOk(R.Apply(r, R.Build(NewEntry(job, g, r.cacheGen))), job.entry.key, Built(g0, |r.entries|))
  {
    hide Ahead;
    AheadKept(r, R.Build(NewEntry(job, g, r.cacheGen)), job.entry.key, g);
  }

  lemma OwnWorkOk(s: Engine, a: Action)
    requires Inv(s) && Enabled(s, a) && IsThreadAction(a)
    ensures ThreadAfter(s, a).Flying? ==> WorkOk(Apply(s, a).reg, ThreadAfter(s, a).job.entry.key, ThreadAfter(s, a).work)
  {
    hide R.Inv, R.Apply, R.Enabled, R.Captured, F.Inv, F.Apply, F.Enabled, L.Inv, L.Apply, L.Enabled, PlaceOk, GrantOk, LedgerMove, FlightMove, Search, Invalidates, Ahead;
    assert ThreadOk(s, a.t);
    if a.NumberCapture? {
      NumberIsAhead(s.reg, s.threads[a.t].job.entry.key);
      R.StepKeeps(s.reg, R.Number);
    } else if a.BuildEntry? {
      var w := s.threads[a.t].work;
      BuildHoldsEntry(s.reg, s.threads[a.t].job, w.g0, w.generation);
    }
  }

  lemma OwnGrantOk(s: Engine, a: Action)
    requires Inv(s) && Enabled(s, a) && IsThreadAction(a)
    ensures GrantOk(Apply(s, a).ledger, ThreadAfter(s, a))
  {
    hide R.Inv, R.Apply, R.Enabled, F.Inv, F.Apply, F.Enabled, L.Inv, PlaceOk, RefsOk, WorkOk, RegistryMove, FlightMove, Search, Invalidates;
  }

  lemma GrantsKept(s: Engine, a: Action)
    requires Inv(s) && Enabled(s, a)
    ensures Grants(Apply(s, a))
  {
    hide R.Inv, R.Apply, R.Enabled, F.Inv, F.Apply, F.Enabled, L.Inv, L.Apply, L.Enabled, PlaceOk, WorkOk, RegistryMove, FlightMove, LedgerMove, Search, Invalidates;
    var x := Apply(s, a);
    LeaseCount(s, a);
    if a.OpenLease? {
      assert ThreadOk(s, a.t);
      forall u | 0 <= u < |s.threads|
        ensures s.threads[u].Granting? ==> s.threads[u].l < |s.ledger.leases|
      {
        assert ThreadOk(s, u);
      }
    }
  }

  lemma LeaseCount(s: Engine, a: Action)
    requires Inv(s) && Enabled(s, a)
    ensures |Apply(s, a).ledger.leases| == |s.ledger.leases| + if a.OpenLease? then 1 else 0
  {
    hide R.Inv, R.Apply, R.Enabled, F.Inv, F.Apply, F.Enabled, L.Inv, PlaceOk, RefsOk, WorkOk, RegistryMove, FlightMove, Search, Invalidates, ThreadAfter;
  }

  // ----- every step, every run -----

  lemma ThreadsKept(s: Engine, a: Action, u: nat)
    requires Inv(s) && Enabled(s, a) && u < |s.threads|
    requires u < |Apply(s, a).threads| && u < |Apply(s, a).flights.phases|
    ensures ThreadOk(Apply(s, a), u)
  {
    if IsThreadAction(a) && a.t == u {
      hide Inv, Enabled, ThreadAfter, PlaceOk, RefsOk, GrantOk, WorkOk, RegistryMove, FlightMove, LedgerMove, R.Apply, F.Apply, L.Apply;
      OwnPlaceOk(s, a);
      OwnRefsOk(s, a);
      OwnWorkOk(s, a);
      OwnGrantOk(s, a);
    } else {
      hide Inv, Enabled, Apply, ThreadOk;
      OtherThreadOk(s, a, u);
    }
  }

  lemma StepInv(s: Engine, a: Action)
    requires Inv(s) && Enabled(s, a)
    ensures Inv(Apply(s, a))
  {
    hide Enabled, Apply, ThreadOk, Grants, R.Inv, F.Inv, L.Inv;
    RegistryKept(s, a);
    FlightsKept(s, a);
    LedgerKept(s, a);
    CountsKept(s, a);
    GrantsKept(s, a);
    forall u | 0 <= u < |s.threads|
      ensures ThreadOk(Apply(s, a), u)
    {
      ThreadsKept(s, a, u);
    }
  }
}
