/**
  The engine of src/cache.cpp with any number of threads: `lookup` with its
  searches, single-flight capture and lease, `invalidate`, lease release and
  eviction. Each action is one critical section or one atomic access, except
  that marking an entry joins three unlocked writes, of its flag, its lifecycle
  and the generation counter. The threads interleave freely. An action moves at
  most one thread and makes at most one move in each of the registry, the
  flights and the lease ledger.
 */
module CacheEngine {
  import opened Bytes
  import opened Decide
  import opened CacheRegistry
  import opened CacheInvalidation
  import R = CacheMoves
  import F = SingleFlight
  import L = Leases

  /**
    A lookup request: the entry a capture of it makes, up to its generations,
    the policy to search with, and whether its topology passes validation.
   */
  datatype Job = Job(entry: Entry, policy: Policy, valid: bool)

  /** How far the owner of an attempt is in `capture_graph`; `g0` is the cache generation it started under. */
  datatype Work =
    | NoWork
    | Started(g0: nat)
    | Numbered(g0: nat, generation: nat)
    | Built(g0: nat, n: nat)
    | Checked(g0: nat, n: nat)
    | Ended(result: F.Result)

  datatype Thread =
    | Idle
    | Seeking(job: Job, again: bool)
    | Chosen(job: Job, n: nat, again: bool)
    | Ready(job: Job, n: nat)
    | Cleared(job: Job, n: nat)
    | Granting(job: Job, l: nat)
    | Flying(job: Job, work: Work)
    | Collecting(scope: Scope)
    | Marking(targets: seq<nat>)

  datatype Engine = Engine(reg: Registry, flights: F.Flights, ledger: L.Ledger, executables: seq<bool>, threads: seq<Thread>)

  datatype Action =
    | Begin(t: nat, job: Job)
    | Seek(t: nat, mayCapture: bool)
    | Materialize(t: nat, captured: bool, mayCapture: bool)
    | Recheck(t: nat)
    | OpenLease(t: nat)
    | ActivateLease(t: nat)
    | EnterFlight(t: nat)
    | StartCapture(t: nat)
    | FailCapture(t: nat)
    | NumberCapture(t: nat)
    | BuildEntry(t: nat)
    | CheckGeneration(t: nat)
    | PublishEntry(t: nat)
    | RecordResult(t: nat)
    | EraseFlight(t: nat)
    | WakeUp(t: nat)
    | LeaveFlight(t: nat)
    | BeginInvalidate(t: nat, scope: Scope)
    | Collect(t: nat, targets: seq<nat>)
    | MarkNext(t: nat)
    | Release(move: L.Move)
    | Evict(n: nat)

  function Start(threads: nat, reg: Registry): Engine {
    Engine(reg, F.Start(threads), L.Ledger(seq(|reg.entries|, _ => 0), 0, []), [], seq(threads, _ => Idle))
  }

  // ----- what an action does to each part -----

  function NewEntry(job: Job, generation: nat, cacheGen: nat): Entry {
    job.entry.(generation := generation, cacheGeneration := cacheGen)
  }

  function RegistryMove(s: Engine, a: Action): Option<R.Move> {
    match a
    case Materialize(t, ok, _) => if t < |s.threads| && s.threads[t].Chosen? then Some(R.Materialize(s.threads[t].n, ok)) else None
    case NumberCapture(_) => Some(R.Number)
    case BuildEntry(t) =>
      if t < |s.threads| && s.threads[t].Flying? && s.threads[t].work.Numbered?
      then Some(R.Build(NewEntry(s.threads[t].job, s.threads[t].work.generation, s.reg.cacheGen))) else None
    case PublishEntry(t) =>
      if t < |s.threads| && s.threads[t].Flying? && s.threads[t].work.Checked? then Some(R.Publish(s.threads[t].work.n)) else None
    case BeginInvalidate(_, _) => Some(R.BumpCache)
    case MarkNext(t) =>
      if t < |s.threads| && s.threads[t].Marking? && s.threads[t].targets != [] then Some(R.Mark(s.threads[t].targets[0])) else None
    case Evict(n) => Some(R.Unload(n))
    case _ => None
  }

  function FlightMove(s: Engine, a: Action): Option<F.Move> {
    match a
    case EnterFlight(t) => if t < |s.threads| && s.threads[t].Flying? then Some(F.Enter(t, s.threads[t].job.entry.key)) else None
    case RecordResult(t) =>
      if t < |s.threads| && s.threads[t].Flying? && s.threads[t].work.Ended? then Some(F.Record(t, s.threads[t].work.result)) else None
    case EraseFlight(t) => Some(F.Erase(t))
    case WakeUp(t) => Some(F.Wake(t))
    case LeaveFlight(t) => Some(F.Leave(t))
    case _ => None
  }

  function LedgerMove(s: Engine, a: Action): Option<L.Move> {
    match a
    case OpenLease(t) => if t < |s.threads| && s.threads[t].Cleared? then Some(L.Open(s.threads[t].n)) else None
    case ActivateLease(t) => if t < |s.threads| && s.threads[t].Granting? then Some(L.Activate(s.threads[t].l)) else None
    case BuildEntry(_) => Some(L.AddEntry)
    case Release(m) => Some(m)
    case _ => None
  }

  /** Where the acting thread goes. */
  ghost function ThreadAfter(s: Engine, a: Action): Thread
    requires Runs(s, a)
  {
    match a
    case Begin(_, job) => Seeking(job, false)
    case Seek(t, mayCapture) =>
      var job := s.threads[t].job;
      (match Search(s.reg, job.entry.facts, job.policy)
       case Hit(f) => Chosen(job, f.n, s.threads[t].again)
       case MissCaptureRequired => if mayCapture && !s.threads[t].again then Flying(job, NoWork) else Idle
       case _ => Idle)
    case Materialize(t, ok, mayCapture) =>
      var th := s.threads[t];
      if s.reg.entries[th.n].exec || ok then Ready(th.job, th.n)
      else if mayCapture && !th.again then Flying(th.job, NoWork)
      else Idle
    case Recheck(t) =>
      var e := s.reg.entries[s.threads[t].n];
      if e.invalidated || !ReplayEligible(e.lifecycle) then Idle else Cleared(s.threads[t].job, s.threads[t].n)
    case OpenLease(t) => Granting(s.threads[t].job, |s.ledger.leases|)
    case ActivateLease(_) => Idle
    case EnterFlight(t) => s.threads[t]
    case StartCapture(t) => s.threads[t].(work := Started(s.reg.cacheGen))
    case FailCapture(t) => s.threads[t].(work := Ended(F.Failure))
    case NumberCapture(t) => s.threads[t].(work := Numbered(s.threads[t].work.g0, s.reg.graphGen))
    case BuildEntry(t) => s.threads[t].(work := Built(s.threads[t].work.g0, |s.reg.entries|))
    case CheckGeneration(t) =>
      var w := s.threads[t].work;
      s.threads[t].(work := if s.reg.cacheGen == w.g0 then Checked(w.g0, w.n) else Ended(F.Failure))
    case PublishEntry(t) => s.threads[t].(work := Ended(F.Success(s.reg.entries[s.threads[t].work.n].artifact)))
    case RecordResult(t) => s.threads[t]
    case EraseFlight(t) => s.threads[t]
    case WakeUp(t) => s.threads[t]
    case LeaveFlight(t) => if s.flights.phases[t].result.Success? then Seeking(s.threads[t].job, true) else Idle
    case BeginInvalidate(_, scope) => Collecting(scope)
    case Collect(_, targets) => Marking(targets)
    case MarkNext(t) => if s.threads[t].targets == [] then Idle else Marking(s.threads[t].targets[1..])
  }

  predicate IsThreadAction(a: Action) {
    !a.Release? && !a.Evict?
  }

  /** The acting thread is where this action starts from. */
  ghost predicate Runs(s: Engine, a: Action) {
    && IsThreadAction(a) && a.t < |s.threads| && |s.threads| == |s.flights.phases|
    && var th, ph := s.threads[a.t], s.flights.phases[a.t];
       match a
       case Begin(_, job) => th.Idle? && R.Captured(job.entry)
       case Seek(_, _) => th.Seeking?
       case Materialize(_, _, _) => th.Chosen? && Published(s.reg, th.n)
       case Recheck(_) => th.Ready? && Published(s.reg, th.n)
       case OpenLease(_) => th.Cleared?
       case ActivateLease(_) => th.Granting?
       case EnterFlight(_) => th.Flying? && th.work.NoWork?
       case StartCapture(_) => th.Flying? && th.work.NoWork? && ph.Owner?
       case FailCapture(_) => th.Flying? && th.work.Started?
       case NumberCapture(_) => th.Flying? && th.work.Started? && th.job.valid
       case BuildEntry(_) => th.Flying? && th.work.Numbered?
       case CheckGeneration(_) => th.Flying? && th.work.Built?
       case PublishEntry(_) => th.Flying? && th.work.Checked? && th.work.n < |s.reg.entries|
       case RecordResult(_) => th.Flying? && th.work.Ended?
       case EraseFlight(_) => th.Flying? && ph.Recorded?
       case WakeUp(_) => th.Flying? && ph.Waiter?
       case LeaveFlight(_) => th.Flying? && ph.Returned?
       case BeginInvalidate(_, _) => th.Idle?
       case Collect(_, targets) => th.Collecting? && Invalidates(s.reg, th.scope, targets)
       case MarkNext(_) => th.Marking?
  }

  ghost predicate Enabled(s: Engine, a: Action) {
    && (IsThreadAction(a) ==> Runs(s, a))
    && (a.Release? ==> a.move.Claim? || a.move.SeeEntry? || a.move.DropEntry? || a.move.SeeTotal? || a.move.DropTotal?)
    && (RegistryMove(s, a).Some? ==> R.Enabled(s.reg, RegistryMove(s, a).value))
    && (FlightMove(s, a).Some? ==> F.Enabled(s.flights, FlightMove(s, a).value))
    && (LedgerMove(s, a).Some? ==> L.Enabled(s.ledger, LedgerMove(s, a).value))
  }

  ghost function Apply(s: Engine, a: Action): Engine
    requires Enabled(s, a)
  {
    Engine(
      if RegistryMove(s, a).Some? then R.Apply(s.reg, RegistryMove(s, a).value) else s.reg,
      if FlightMove(s, a).Some? then F.Apply(s.flights, FlightMove(s, a).value) else s.flights,
      if LedgerMove(s, a).Some? then L.Apply(s.ledger, LedgerMove(s, a).value) else s.ledger,
      if a.OpenLease? then s.executables + [Published(s.reg, s.threads[a.t].n) && s.reg.entries[s.threads[a.t].n].exec] else s.executables,
      if IsThreadAction(a) then s.threads[a.t := ThreadAfter(s, a)] else s.threads)
  }
}
