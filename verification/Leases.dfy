/**
  Lease accounting of src/cache.cpp: `make_lease` counts a lease on its entry
  and then in the engine's total, and `GraphLease::release` claims the lease
  once and takes both counts down again, each behind a guard that loads the
  counter first. Every load and every update is a step of its own.
 */
module Leases {
  import opened Bytes

  datatype Stage = Opening | Held | Claimed | EntrySeen | EntryDropped | TotalSeen | Released

  datatype Lease = Lease(entry: nat, stage: Stage)

  datatype Ledger = Ledger(counts: seq<nat>, total: nat, leases: seq<Lease>)

  datatype Move =
    | AddEntry
    | Open(entry: nat)       // lease_count.fetch_add(1)
    | Activate(l: nat)       // active_leases.fetch_add(1)
    | Claim(l: nat)          // released.compare_exchange_strong(false, true)
    | SeeEntry(l: nat)       // lease_count.load() > 0
    | DropEntry(l: nat)      // lease_count.fetch_sub(1)
    | SeeTotal(l: nat)       // active_leases.load() > 0
    | DropTotal(l: nat)      // active_leases.fetch_sub(1)

  function Decrement(v: nat): nat {
    if v > 0 then v - 1 else TWO_64 - 1
  }

  predicate Enabled(g: Ledger, m: Move) {
    match m
    case AddEntry => true
    case Open(e) => e < |g.counts|
    case Activate(l) => l < |g.leases| && g.leases[l].stage == Opening
    case Claim(l) => l < |g.leases| && g.leases[l].stage != Opening
    case SeeEntry(l) => l < |g.leases| && g.leases[l].stage == Claimed && g.leases[l].entry < |g.counts|
    case DropEntry(l) => l < |g.leases| && g.leases[l].stage == EntrySeen && g.leases[l].entry < |g.counts|
    case SeeTotal(l) => l < |g.leases| && g.leases[l].stage == EntryDropped
    case DropTotal(l) => l < |g.leases| && g.leases[l].stage == TotalSeen
  }

  function WithStage(g: Ledger, l: nat, stage: Stage): Ledger
    requires l < |g.leases|
  {
    g.(leases := g.leases[l := g.leases[l].(stage := stage)])
  }

  function Apply(g: Ledger, m: Move): Ledger
    requires Enabled(g, m)
  {
    match m
    case AddEntry => g.(counts := g.counts + [0])
    case Open(e) => g.(counts := g.counts[e := g.counts[e] + 1], leases := g.leases + [Lease(e, Opening)])
    case Activate(l) => WithStage(g, l, Held).(total := g.total + 1)
    case Claim(l) => if g.leases[l].stage == Held then WithStage(g, l, Claimed) else g
    case SeeEntry(l) => WithStage(g, l, if g.counts[g.leases[l].entry] > 0 then EntrySeen else EntryDropped)
    case DropEntry(l) =>
      var e := g.leases[l].entry;
      WithStage(g, l, EntryDropped).(counts := g.counts[e := Decrement(g.counts[e])])
    case SeeTotal(l) => WithStage(g, l, if g.total > 0 then TotalSeen else Released)
    case DropTotal(l) => WithStage(g, l, Released).(total := Decrement(g.total))
  }

  // ----- what the counters should be -----

  predicate OnEntry(s: Stage) {
    s == Opening || s == Held || s == Claimed || s == EntrySeen
  }

  predicate InTotal(s: Stage) {
    s != Opening && s != Released
  }

  function EntryCount(ls: seq<Lease>, e: nat): nat {
    if ls == [] then 0
    else EntryCount(ls[1..], e) + if ls[0].entry == e && OnEntry(ls[0].stage) then 1 else 0
  }

  function TotalCount(ls: seq<Lease>): nat {
    if ls == [] then 0 else TotalCount(ls[1..]) + if InTotal(ls[0].stage) then 1 else 0
  }

  lemma {:induction false} CountsAppend(ls: seq<Lease>, x: Lease, e: nat)
    ensures EntryCount(ls + [x], e) == EntryCount(ls, e) + if x.entry == e && OnEntry(x.stage) then 1 else 0
    ensures TotalCount(ls + [x]) == TotalCount(ls) + if InTotal(x.stage) then 1 else 0
  {
    if ls == [] {
      assert [x][1..] == [];
    } else {
      CountsAppend(ls[1..], x, e);
      assert (ls + [x])[1..] == ls[1..] + [x];
    }
  }

  lemma {:induction false} CountsUpdate(ls: seq<Lease>, l: nat, x: Lease, e: nat)
    requires l < |ls|
    ensures EntryCount(ls[l := x], e) + (if ls[l].entry == e && OnEntry(ls[l].stage) then 1 else 0)
            == EntryCount(ls, e) + if x.entry == e && OnEntry(x.stage) then 1 else 0
    ensures TotalCount(ls[l := x]) + (if InTotal(ls[l].stage) then 1 else 0) == TotalCount(ls) + if InTotal(x.stage) then 1 else 0
  {
    if l == 0 {
      assert ls[0 := x][1..] == ls[1..];
    } else {
      CountsUpdate(ls[1..], l - 1, x, e);
      assert ls[l := x][1..] == ls[1..][l - 1 := x];
    }
  }

  lemma {:induction false} CountsPositive(ls: seq<Lease>, l: nat)
    requires l < |ls|
    ensures OnEntry(ls[l].stage) ==> EntryCount(ls, ls[l].entry) > 0
    ensures InTotal(ls[l].stage) ==> TotalCount(ls) > 0
  {
    if l > 0 {
      CountsPositive(ls[1..], l - 1);
    }
  }

  lemma {:induction false} CountsNothing(ls: seq<Lease>, e: nat)
    requires forall l | 0 <= l < |ls| :: ls[l].entry < e
    ensures EntryCount(ls, e) == 0
  {
    if ls != [] {
      CountsNothing(ls[1..], e);
    }
  }

  // ----- conservation -----

  ghost predicate Inv(g: Ledger) {
    && (forall l | 0 <= l < |g.leases| :: g.leases[l].entry < |g.counts|)
    && (forall e | 0 <= e < |g.counts| :: g.counts[e] == EntryCount(g.leases, e))
    && g.total == TotalCount(g.leases)
  }

  lemma StepInv(g: Ledger, m: Move)
    requires Inv(g) && Enabled(g, m)
    ensures Inv(Apply(g, m))
  {
    hide EntryCount, TotalCount;
    var h := Apply(g, m);
    match m {
      case AddEntry =>
        CountsNothing(g.leases, |g.counts|);
      case Open(e) =>
        forall k | 0 <= k < |h.counts|
          ensures h.counts[k] == EntryCount(h.leases, k) && h.total == TotalCount(h.leases)
        {
          CountsAppend(g.leases, Lease(e, Opening), k);
        }
        CountsAppend(g.leases, Lease(e, Opening), e);
      case _ =>
        CountsPositive(g.leases, m.l);
        if h.leases != g.leases {
          var x := h.leases[m.l];
          assert h.leases == g.leases[m.l := x];
          forall k | 0 <= k < |h.counts|
            ensures h.counts[k] == EntryCount(h.leases, k)
          {
            CountsUpdate(g.leases, m.l, x, k);
          }
          CountsUpdate(g.leases, m.l, x, 0);
        }
    }
  }

  /** Neither guard ever finds its counter at zero, so no decrement is skipped and none wraps around. */
  lemma GuardsHold(g: Ledger, l: nat)
    requires Inv(g) && l < |g.leases|
    ensures OnEntry(g.leases[l].stage) ==> g.counts[g.leases[l].entry] > 0
    ensures InTotal(g.leases[l].stage) ==> g.total > 0
  {
    CountsPositive(g.leases, l);
  }

  // ----- when nothing is under way -----

  function HeldOn(ls: seq<Lease>, e: nat): nat {
    if ls == [] then 0 else HeldOn(ls[1..], e) + if ls[0] == Lease(e, Held) then 1 else 0
  }

  function HeldInAll(ls: seq<Lease>): nat {
    if ls == [] then 0 else HeldInAll(ls[1..]) + if ls[0].stage == Held then 1 else 0
  }

  ghost predicate Settled(ls: seq<Lease>) {
    forall l | 0 <= l < |ls| :: ls[l].stage == Held || ls[l].stage == Released
  }

  /** Then each entry's count is the number of its unreleased leases and the total is their number. */
  lemma {:induction false} SettledCounts(ls: seq<Lease>, e: nat)
    requires Settled(ls)
    ensures EntryCount(ls, e) == HeldOn(ls, e) && TotalCount(ls) == HeldInAll(ls)
  {
    if ls != [] {
      SettledCounts(ls[1..], e);
      assert ls[0].stage == Held || ls[0].stage == Released;
    }
  }
}
