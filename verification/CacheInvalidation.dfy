/**
  `invalidate` of src/cache.cpp: the cache generation goes up, the entries in
  scope are collected from the artifact index, and each of them is marked.
 */
module CacheInvalidation {
  import opened Bytes
  import opened Descriptors
  import opened CacheRegistry
  import opened CacheMoves

  datatype Scope =
    | ByAll
    | ByArtifactId(id: Id)
    | ByGraphId(id: Id)
    | ByNamespace(namespace: Text)
    | ByWorkload(name: Text, namespace: Text)
    | ByCompatibilityKey(name: Text)
    | ByTopology(name: Text)
    | ByModelRevision(revision: Text)
    | ByBackend(kind: u32, name: Text)
    | ByDependencyGeneration(generation: u64)

  /** Keys and topologies are matched by workload name, as the code has it. */
  predicate InScope(s: Scope, e: Entry) {
    match s
    case ByAll => true
    case ByArtifactId(id) => e.artifact == id
    case ByGraphId(id) => e.graphId == id
    case ByNamespace(ns) => e.facts.workload.namespace == ns
    case ByWorkload(name, ns) => e.facts.workload.name == name && (ns == [] || e.facts.workload.namespace == ns)
    case ByCompatibilityKey(name) => e.facts.workload.name == name
    case ByTopology(name) => e.facts.workload.name == name
    case ByModelRevision(rev) => e.facts.workload.modelRevision != [] && e.facts.workload.modelRevision == rev
    case ByBackend(kind, name) => e.backend.kind == kind && (name == [] || e.backend.name == name)
    case ByDependencyGeneration(g) => g != 0 && e.dependencyGeneration != g
  }

  /** Only what the artifact index points at is ever considered. */
  ghost predicate IsTarget(r: Registry, s: Scope, n: nat) {
    exists a | a in r.byArtifact :: r.byArtifact[a] == n && n < |r.entries| && InScope(s, r.entries[n])
  }

  function MarkAll(r: Registry, ns: seq<nat>): Registry {
    if ns == [] then r
    else
      var before := MarkAll(r, ns[..|ns| - 1]);
      if Published(before, ns[|ns| - 1]) then Apply(before, Mark(ns[|ns| - 1])) else before
  }

  ghost predicate MarkedExactly(r: Registry, s: Registry, ns: seq<nat>) {
    && |s.entries| == |r.entries| && s.current == r.current && s.byArtifact == r.byArtifact && s.byKey == r.byKey && s.byWorkload == r.byWorkload
    && s.cacheGen == r.cacheGen && r.graphGen <= s.graphGen
    && (forall n: nat | n < |r.entries| ::
          s.entries[n] == if n in ns && !r.entries[n].invalidated then r.entries[n].(invalidated := true, lifecycle := Invalidated) else r.entries[n])
  }

  lemma MarkOne(r: Registry, n: nat)
    requires Published(r, n)
    ensures MarkedExactly(r, Apply(r, Mark(n)), [n])
  {
  }

  lemma {:induction false} MarkAllKeeps(r: Registry, ns: seq<nat>)
    requires forall i | 0 <= i < |ns| :: Published(r, ns[i])
    ensures MarkedExactly(r, MarkAll(r, ns), ns)
  {
    hide Apply;
    if ns != [] {
      var last := |ns| - 1;
      MarkAllKeeps(r, ns[..last]);
      var before := MarkAll(r, ns[..last]);
      assert Published(before, ns[last]);
      MarkOne(before, ns[last]);
      assert forall n :: n in ns <==> n in ns[..last] || n == ns[last];
    }
  }

  /** A whole invalidation as one step: `ns` lists the targets in the order they are marked. */
  ghost predicate Invalidates(r: Registry, s: Scope, ns: seq<nat>) {
    && (forall i | 0 <= i < |ns| :: Published(r, ns[i]))
    && (forall n: nat :: n in ns <==> IsTarget(r, s, n))
  }

  /** Everything in scope that the artifact index points at is invalidated, and nothing else. */
  lemma InvalidatesExactly(r: Registry, s: Scope, ns: seq<nat>, n: nat)
    requires Invalidates(r, s, ns) && n < |r.entries|
    ensures var t := MarkAll(Apply(r, BumpCache), ns);
            n < |t.entries| && (t.entries[n].invalidated <==> r.entries[n].invalidated || IsTarget(r, s, n))
  {
    var b := Apply(r, BumpCache);
    assert forall i | 0 <= i < |ns| :: Published(b, ns[i]);
    MarkAllKeeps(b, ns);
  }

  /** A selectable entry survives `invalidate_all` exactly when it does not occupy its slot in the artifact index. */
  lemma SurvivesExactly(r: Registry, ns: seq<nat>, n: nat)
    requires Inv(r) && Invalidates(r, ByAll, ns)
    ensures Selectable(MarkAll(Apply(r, BumpCache), ns), n) <==> Selectable(r, n) && r.byArtifact[r.entries[n].artifact] != n
  {
    hide Apply, WorkloadIndexed, KeyIndexed, Generations, NewestInSlot, OneKeyPerArtifact;
    var b := Bumped(r);
    assert forall i | 0 <= i < |ns| :: Published(b, ns[i]);
    MarkAllKeeps(b, ns);
    if Published(r, n) {
      assert Resident(r.entries[n]);
      assert r.entries[n].artifact in r.byArtifact;
      assert r.byArtifact[r.entries[n].artifact] == n ==> IsTarget(r, ByAll, n);
      if IsTarget(r, ByAll, n) {
        var a :| a in r.byArtifact && r.byArtifact[a] == n;
        assert r.entries[n].artifact == a;
      }
    }
  }

  lemma Bumped(r: Registry) returns (b: Registry)
    ensures b == Apply(r, BumpCache) && b == r.(cacheGen := r.cacheGen + 1)
  {
    b := Apply(r, BumpCache);
  }

  ghost predicate NoneSelectable(r: Registry) {
    forall n: nat :: !Selectable(r, n)
  }

  ghost predicate AllInSlots(r: Registry) {
    forall n: nat | Selectable(r, n) :: InSlot(r, n)
  }

  /** `invalidate_all` is complete exactly when every selectable entry occupies its slot. */
  lemma InvalidateAllExactly(r: Registry, ns: seq<nat>)
    requires Inv(r) && Invalidates(r, ByAll, ns)
    ensures NoneSelectable(MarkAll(Apply(r, BumpCache), ns)) <==> AllInSlots(r)
  {
    hide Inv, MarkAll, Apply, Invalidates, Selectable, InSlot;
    var t := MarkAll(Apply(r, BumpCache), ns);
    if NoneSelectable(t) {
      forall n: nat | Selectable(r, n)
        ensures InSlot(r, n)
      {
        Survives(r, ns, n);
        assert !Selectable(t, n);
      }
    }
    if AllInSlots(r) {
      forall n: nat
        ensures !Selectable(t, n)
      {
        Survives(r, ns, n);
      }
    }
  }

  lemma Survives(r: Registry, ns: seq<nat>, n: nat)
    requires Inv(r) && Invalidates(r, ByAll, ns)
    ensures Selectable(MarkAll(Apply(r, BumpCache), ns), n) <==> Selectable(r, n) && !InSlot(r, n)
  {
    hide Apply, Inv, MarkAll, Selectable;
    SlotKnown(r, n);
    SurvivesExactly(r, ns, n);
  }

  predicate InSlot(r: Registry, n: nat) {
    n < |r.entries| && r.entries[n].artifact in r.byArtifact && r.byArtifact[r.entries[n].artifact] == n
  }

  lemma SlotKnown(r: Registry, n: nat)
    requires Inv(r)
    ensures Selectable(r, n) ==> n < |r.entries| && r.entries[n].artifact in r.byArtifact
  {
    hide WorkloadIndexed, KeyIndexed, Generations, NewestInSlot, OneKeyPerArtifact;
  }

  /** That is so whenever equal artifact identities imply equal keys. */
  lemma OneKeyFillsSlots(r: Registry, n: nat)
    requires Inv(r) && InOrder(r) && OneKeyPerArtifact(r) && Selectable(r, n)
    ensures InSlot(r, n)
  {
    hide WorkloadIndexed, KeyIndexed;
    var m := r.byArtifact[r.entries[n].artifact];
    assert Published(r, m) && r.entries[m].key == r.entries[n].key;
    SelectableIsNewest(r, n, m);
  }

  lemma InvalidateAllIsComplete(r: Registry, ns: seq<nat>)
    requires Inv(r) && InOrder(r) && OneKeyPerArtifact(r) && Invalidates(r, ByAll, ns)
    ensures NoneSelectable(MarkAll(Apply(r, BumpCache), ns))
  {
    hide Apply, Inv, InOrder, MarkAll, Selectable, Invalidates, OneKeyPerArtifact, InSlot;
    forall m: nat | Selectable(r, m)
      ensures InSlot(r, m)
    {
      OneKeyFillsSlots(r, m);
    }
    assert AllInSlots(r);
    InvalidateAllExactly(r, ns);
  }
}
