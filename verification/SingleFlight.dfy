/**
  `run_single_flight` of src/cache.cpp for any number of threads and every
  interleaving of their critical sections: enter under `capture_mutex`, record
  the result under the attempt's own mutex, erase under `capture_mutex`, and
  wake up once the attempt is done.
 */
module SingleFlight {
  import opened Bytes
  import opened Descriptors

  /** What a capture comes to: the artifact it published, or an error. */
  datatype Result = Success(artifact: Id) | Failure

  /** Where a thread is. A thread that returned keeps what it was given until it leaves. */
  datatype Phase =
    | Out
    | Owner(key: Text, attempt: nat)
    | Recorded(key: Text, attempt: nat)
    | Waiter(key: Text, attempt: nat)
    | Returned(attempt: nat, result: Result, owned: bool)

  datatype Attempt = Attempt(key: Text, owner: nat, done: bool, result: Result)

  datatype Flights = Flights(phases: seq<Phase>, inflight: map<Text, nat>, attempts: seq<Attempt>)

  datatype Move = Enter(t: nat, key: Text) | Record(t: nat, result: Result) | Erase(t: nat) | Wake(t: nat) | Leave(t: nat)

  function Start(threads: nat): Flights {
    Flights(seq(threads, _ => Out), map[], [])
  }

  predicate Enabled(f: Flights, m: Move) {
    && m.t < |f.phases|
    && match m
       case Enter(t, _) => f.phases[t].Out?
       case Record(t, _) => f.phases[t].Owner? && f.phases[t].attempt < |f.attempts|
       case Erase(t) => f.phases[t].Recorded? && f.phases[t].attempt < |f.attempts|
       case Wake(t) => f.phases[t].Waiter? && f.phases[t].attempt < |f.attempts| && f.attempts[f.phases[t].attempt].done
       case Leave(t) => f.phases[t].Returned?
  }

  function Apply(f: Flights, m: Move): Flights
    requires Enabled(f, m)
  {
    var p := f.phases[m.t];
    match m
    case Enter(t, k) =>
      if k in f.inflight then f.(phases := f.phases[t := Waiter(k, f.inflight[k])])
      else
        var a := |f.attempts|;
        Flights(f.phases[t := Owner(k, a)], f.inflight[k := a], f.attempts + [Attempt(k, t, false, Failure)])
    case Record(t, r) =>
      f.(phases := f.phases[t := Recorded(p.key, p.attempt)],
         attempts := f.attempts[p.attempt := f.attempts[p.attempt].(done := true, result := r)])
    case Erase(t) =>
      f.(phases := f.phases[t := Returned(p.attempt, f.attempts[p.attempt].result, true)], inflight := f.inflight - {p.key})
    case Wake(t) => f.(phases := f.phases[t := Returned(p.attempt, f.attempts[p.attempt].result, false)])
    case Leave(t) => f.(phases := f.phases[t := Out])
  }

  predicate Running(p: Phase) {
    p.Owner? || p.Recorded?
  }

  // ----- invariant -----

  /** A running thread owns the attempt that is in flight for its key. */
  predicate OwnsFlight(f: Flights, t: nat)
    requires t < |f.phases|
  {
    var p := f.phases[t];
    Running(p) ==>
      && p.attempt < |f.attempts| && f.attempts[p.attempt] == Attempt(p.key, t, p.Recorded?, f.attempts[p.attempt].result)
      && p.key in f.inflight && f.inflight[p.key] == p.attempt
  }

  /** A waiter waits for, and a thread that returned was given the result of, an attempt that exists. */
  predicate KnowsAttempt(f: Flights, t: nat)
    requires t < |f.phases|
  {
    var p := f.phases[t];
    && (p.Waiter? ==> p.attempt < |f.attempts| && f.attempts[p.attempt].key == p.key)
    && (p.Returned? ==> p.attempt < |f.attempts| && f.attempts[p.attempt].done && f.attempts[p.attempt].result == p.result)
  }

  /** An attempt in flight, and one that is not done, has its owner still running it. */
  predicate HasOwner(f: Flights, a: nat)
    requires a < |f.attempts|
  {
    var o := f.attempts[a].owner;
    o < |f.phases| && Running(f.phases[o]) && f.phases[o].attempt == a
  }

  ghost predicate Inv(f: Flights) {
    && (forall t | 0 <= t < |f.phases| :: OwnsFlight(f, t))
    && (forall t | 0 <= t < |f.phases| :: KnowsAttempt(f, t))
    && (forall k | k in f.inflight :: f.inflight[k] < |f.attempts| && f.attempts[f.inflight[k]].key == k && HasOwner(f, f.inflight[k]))
    && (forall a | 0 <= a < |f.attempts| && !f.attempts[a].done :: HasOwner(f, a))
  }

  lemma StartInv(threads: nat)
    ensures Inv(Start(threads))
  {
  }

  lemma ThreadKept(f: Flights, m: Move, u: nat)
    requires Inv(f) && Enabled(f, m) && u < |f.phases|
    ensures |Apply(f, m).phases| == |f.phases| && OwnsFlight(Apply(f, m), u) && KnowsAttempt(Apply(f, m), u)
  {
    assert OwnsFlight(f, m.t) && KnowsAttempt(f, m.t) && OwnsFlight(f, u) && KnowsAttempt(f, u);
    if m.Enter? && m.key in f.inflight {
      assert HasOwner(f, f.inflight[m.key]);
    }
  }

  lemma FlightKept(f: Flights, m: Move, k: Text)
    requires Inv(f) && Enabled(f, m) && k in Apply(f, m).inflight
    ensures var g := Apply(f, m);
            g.inflight[k] < |g.attempts| && g.attempts[g.inflight[k]].key == k && HasOwner(g, g.inflight[k])
  {
    assert OwnsFlight(f, m.t);
    assert k in f.inflight ==> HasOwner(f, f.inflight[k]);
  }

  lemma OwnerKept(f: Flights, m: Move, a: nat)
    requires Inv(f) && Enabled(f, m) && a < |Apply(f, m).attempts| && !Apply(f, m).attempts[a].done
    ensures HasOwner(Apply(f, m), a)
  {
    assert OwnsFlight(f, m.t);
    assert a < |f.attempts| ==> HasOwner(f, a);
  }

  lemma StepInv(f: Flights, m: Move)
    requires Inv(f) && Enabled(f, m)
    ensures Inv(Apply(f, m))
  {
    hide Apply, Enabled, OwnsFlight, KnowsAttempt, HasOwner;
    var g := Apply(f, m);
    StepKeeps(f, m);
    forall u | 0 <= u < |g.phases|
      ensures OwnsFlight(g, u) && KnowsAttempt(g, u)
    {
      ThreadKept(f, m, u);
    }
    forall k | k in g.inflight
      ensures g.inflight[k] < |g.attempts| && g.attempts[g.inflight[k]].key == k && HasOwner(g, g.inflight[k])
    {
      FlightKept(f, m, k);
    }
    forall a | 0 <= a < |g.attempts| && !g.attempts[a].done
      ensures HasOwner(g, a)
    {
      OwnerKept(f, m, a);
    }
  }

  /** Other threads stay where they are, and a result, once recorded, is final. */
  lemma StepKeeps(f: Flights, m: Move)
    requires Inv(f) && Enabled(f, m)
    ensures |Apply(f, m).phases| == |f.phases| && |f.attempts| <= |Apply(f, m).attempts|
    ensures forall u | 0 <= u < |f.phases| && u != m.t :: Apply(f, m).phases[u] == f.phases[u]
    ensures forall a | 0 <= a < |f.attempts| && f.attempts[a].done :: Apply(f, m).attempts[a] == f.attempts[a]
    ensures forall a | 0 <= a < |f.attempts| ::
              Apply(f, m).attempts[a].owner == f.attempts[a].owner && Apply(f, m).attempts[a].key == f.attempts[a].key
  {
    assert OwnsFlight(f, m.t);
  }

  // ----- what the invariant means -----

  /** At most one thread captures a key at a time. */
  lemma OneCapturePerKey(f: Flights, t: nat, u: nat)
    requires Inv(f) && t < |f.phases| && u < |f.phases|
    requires Running(f.phases[t]) && Running(f.phases[u]) && f.phases[t].key == f.phases[u].key
    ensures t == u
  {
    assert OwnsFlight(f, t) && OwnsFlight(f, u);
  }

  /** No waiter is left behind: it can wake up, or the owner it waits for is running and can record whatever came of its capture. */
  lemma NoWaiterIsLost(f: Flights, t: nat, r: Result)
    requires Inv(f) && t < |f.phases| && f.phases[t].Waiter?
    ensures Enabled(f, Wake(t))
            || (var a := f.phases[t].attempt;
                && a < |f.attempts| && Enabled(f, Record(f.attempts[a].owner, r))
                && Enabled(Apply(f, Record(f.attempts[a].owner, r)), Wake(t)))
  {
    assert KnowsAttempt(f, t);
    var a := f.phases[t].attempt;
    if !f.attempts[a].done {
      assert HasOwner(f, a);
      assert OwnsFlight(f, f.attempts[a].owner);
    }
  }

  // ----- results -----

  /** Only the owner of an attempt makes it done. */
  lemma RecordedNow(f: Flights, m: Move, a: nat)
    requires Inv(f) && Enabled(f, m) && a < |Apply(f, m).attempts| && Apply(f, m).attempts[a].done
    requires a < |f.attempts| ==> !f.attempts[a].done
    ensures m == Record(Apply(f, m).attempts[a].owner, Apply(f, m).attempts[a].result)
  {
    assert OwnsFlight(f, m.t);
  }

  /** What a waiter and a thread that returned know of their attempt. */
  lemma Knows(f: Flights, t: nat)
    requires Inv(f) && t < |f.phases|
    ensures KnowsAttempt(f, t)
  {
  }
}
