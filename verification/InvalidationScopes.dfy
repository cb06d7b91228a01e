/**
  What each scope of an invalidation marks, said on the fields of the entries:
  of what is published, only entries that occupy their slot in the artifact
  index are marked, and everything else is left as it was.
 */
module InvalidationScopes {
  import opened Bytes
  import opened CacheRegistry
  import opened CacheMoves
  import opened CacheInvalidation

  /** Exactly the entries in their slots that are to be hit are invalidated, and nothing else about any entry or index changes. */
  ghost predicate MarkedWhere(r: Registry, t: Registry, hit: Entry -> bool) {
    && |t.entries| == |r.entries| && t.cacheGen == r.cacheGen + 1
    && t.byArtifact == r.byArtifact && t.byKey == r.byKey && t.byWorkload == r.byWorkload && t.current == r.current
    && (forall n | 0 <= n < |r.entries| ::
          t.entries[n] == if hit(r.entries[n]) && InSlot(r, n) && !r.entries[n].invalidated
                          then r.entries[n].(invalidated := true, lifecycle := Invalidated) else r.entries[n])
    && (forall n: nat :: Selectable(t, n) <==> Selectable(r, n) && !(InSlot(r, n) && hit(r.entries[n])))
  }

  lemma TargetsInSlots(r: Registry, s: Scope, n: nat)
    requires ArtifactIndexed(r)
    ensures IsTarget(r, s, n) <==> InSlot(r, n) && InScope(s, r.entries[n])
  {
    hide InScope;
    if InSlot(r, n) && InScope(s, r.entries[n]) {
      assert r.entries[n].artifact in r.byArtifact;
    }
  }

  lemma MarkedInScope(r: Registry, s: Scope, ns: seq<nat>, hit: Entry -> bool)
    requires ArtifactIndexed(r) && Invalidates(r, s, ns) && forall e: Entry :: hit(e) <==> InScope(s, e)
    ensures MarkedWhere(r, MarkAll(Apply(r, BumpCache), ns), hit)
  {
    hide Apply, InScope, IsTarget, ArtifactIndexed, MarkAll;
    var b := Bumped(r);
    var t := MarkAll(b, ns);
    assert forall i | 0 <= i < |ns| :: Published(b, ns[i]);
    MarkAllKeeps(b, ns);
    forall n: nat
      ensures n in ns <==> InSlot(r, n) && hit(r.entries[n])
    {
      TargetsInSlots(r, s, n);
    }
  }

  /** The ten scopes. A topology or a compatibility key is asked for by the name of its workload. */
  lemma ScopesMean(r: Registry, s: Scope, ns: seq<nat>)
    requires ArtifactIndexed(r) && Invalidates(r, s, ns)
    ensures var t := MarkAll(Apply(r, BumpCache), ns);
            match s
            case ByAll => MarkedWhere(r, t, (e: Entry) => true)
            case ByArtifactId(id) => MarkedWhere(r, t, (e: Entry) => e.artifact == id)
            case ByGraphId(id) => MarkedWhere(r, t, (e: Entry) => e.graphId == id)
            case ByNamespace(namespace) => MarkedWhere(r, t, (e: Entry) => e.facts.workload.namespace == namespace)
            case ByWorkload(name, namespace) =>
              if namespace == [] then MarkedWhere(r, t, (e: Entry) => e.facts.workload.name == name)
              else MarkedWhere(r, t, (e: Entry) => e.facts.workload.name == name && e.facts.workload.namespace == namespace)
            case ByCompatibilityKey(name) => MarkedWhere(r, t, (e: Entry) => e.facts.workload.name == name)
            case ByTopology(name) => MarkedWhere(r, t, (e: Entry) => e.facts.workload.name == name)
            case ByModelRevision(revision) => MarkedWhere(r, t, (e: Entry) => revision != [] && e.facts.workload.modelRevision == revision)
            case ByBackend(kind, name) =>
              if name == [] then MarkedWhere(r, t, (e: Entry) => e.backend.kind == kind)
              else MarkedWhere(r, t, (e: Entry) => e.backend.kind == kind && e.backend.name == name)
            case ByDependencyGeneration(generation) =>
              MarkedWhere(r, t, (e: Entry) => generation != 0 && e.dependencyGeneration != generation)
  {
    hide MarkedWhere, ArtifactIndexed, Invalidates, Apply, MarkAll;
    match s
    case ByAll => MarkedInScope(r, s, ns, (e: Entry) => true);
    case ByArtifactId(id) => MarkedInScope(r, s, ns, (e: Entry) => e.artifact == id);
    case ByGraphId(id) => MarkedInScope(r, s, ns, (e: Entry) => e.graphId == id);
    case ByNamespace(namespace) => MarkedInScope(r, s, ns, (e: Entry) => e.facts.workload.namespace == namespace);
    case ByWorkload(name, namespace) =>
      if namespace == [] {
        MarkedInScope(r, s, ns, (e: Entry) => e.facts.workload.name == name);
      } else {
        MarkedInScope(r, s, ns, (e: Entry) => e.facts.workload.name == name && e.facts.workload.namespace == namespace);
      }
    case ByCompatibilityKey(name) => MarkedInScope(r, s, ns, (e: Entry) => e.facts.workload.name == name);
    case ByTopology(name) => MarkedInScope(r, s, ns, (e: Entry) => e.facts.workload.name == name);
    case ByModelRevision(revision) => MarkedInScope(r, s, ns, (e: Entry) => revision != [] && e.facts.workload.modelRevision == revision);
    case ByBackend(kind, name) =>
      if name == [] {
        MarkedInScope(r, s, ns, (e: Entry) => e.backend.kind == kind);
      } else {
        MarkedInScope(r, s, ns, (e: Entry) => e.backend.kind == kind && e.backend.name == name);
      }
    case ByDependencyGeneration(generation) =>
      MarkedInScope(r, s, ns, (e: Entry) => generation != 0 && e.dependencyGeneration != generation);
  }

  // ----- completeness -----

  ghost predicate NoneOfNamespace(r: Registry, namespace: Text) {
    forall n: nat | Selectable(r, n) :: r.entries[n].facts.workload.namespace != namespace
  }

  ghost predicate NamespaceInSlots(r: Registry, namespace: Text) {
    forall n: nat | Selectable(r, n) && r.entries[n].facts.workload.namespace == namespace :: InSlot(r, n)
  }

  /**
    Invalidating a namespace leaves nothing of it selectable exactly when every
    selectable entry of it occupies its slot; what belongs to another namespace
    is selectable as before, and unchanged.
   */
  lemma NamespaceExactly(r: Registry, namespace: Text, ns: seq<nat>)
    requires ArtifactIndexed(r) && Invalidates(r, ByNamespace(namespace), ns)
    ensures var t := MarkAll(Apply(r, BumpCache), ns);
            && (NoneOfNamespace(t, namespace) <==> NamespaceInSlots(r, namespace))
            && |t.entries| == |r.entries|
            && forall n: nat | n < |r.entries| && r.entries[n].facts.workload.namespace != namespace ::
                 t.entries[n] == r.entries[n] && (Selectable(t, n) <==> Selectable(r, n))
  {
    hide ArtifactIndexed, Invalidates, Apply, MarkAll, Selectable, InSlot;
    ScopesMean(r, ByNamespace(namespace), ns);
    var t := MarkAll(Apply(r, BumpCache), ns);
    forall n: nat | Selectable(r, n)
      ensures n < |r.entries| && t.entries[n].facts == r.entries[n].facts
    {
      SelectablePublished(r, n);
    }
  }

  /** So it is complete whenever equal artifact identities imply equal keys. */
  lemma NamespaceIsComplete(r: Registry, namespace: Text, ns: seq<nat>)
    requires Inv(r) && InOrder(r) && OneKeyPerArtifact(r) && Invalidates(r, ByNamespace(namespace), ns)
    ensures NoneOfNamespace(MarkAll(Apply(r, BumpCache), ns), namespace)
  {
    hide ArtifactIndexed, WorkloadIndexed, KeyIndexed, Generations, Residents, NewestInSlot, InOrder, OneKeyPerArtifact, Invalidates, Apply, MarkAll, Selectable, InSlot;
    forall n: nat | Selectable(r, n)
      ensures InSlot(r, n)
    {
      OneKeyFillsSlots(r, n);
    }
    NamespaceExactly(r, namespace, ns);
  }

  // ----- how many -----

  /** The positions of the targets that were not invalidated before. */
  function Newly(r: Registry, ns: seq<nat>): set<nat> {
    set i | 0 <= i < |ns| && ns[i] < |r.entries| && !r.entries[ns[i]].invalidated :: ns[i]
  }

  lemma NewlySnoc(r: Registry, ns: seq<nat>, n: nat)
    requires n < |r.entries|
    ensures |Newly(r, ns + [n])| == |Newly(r, ns)| + if n in ns || r.entries[n].invalidated then 0 else 1
  {
    var longer := ns + [n];
    assert forall i | 0 <= i < |ns| :: longer[i] == ns[i];
    assert longer[|ns|] == n;
    if n in ns || r.entries[n].invalidated {
      assert Newly(r, longer) == Newly(r, ns);
    } else {
      assert Newly(r, longer) == Newly(r, ns) + {n};
    }
  }

  /** Every target that is newly invalidated moves the graph generation on by one, however often it is listed. */
  lemma {:induction false} MarkedCount(r: Registry, ns: seq<nat>)
    requires forall i | 0 <= i < |ns| :: Published(r, ns[i])
    ensures MarkAll(r, ns).graphGen == r.graphGen + |Newly(r, ns)|
  {
    hide Newly;
    if ns == [] {
      assert Newly(r, ns) == {} by {
        NewlyNothing(r);
      }
    } else {
      var last := |ns| - 1;
      MarkedCount(r, ns[..last]);
      MarkAllKeeps(r, ns[..last]);
      NewlySnoc(r, ns[..last], ns[last]);
      assert ns[..last] + [ns[last]] == ns;
    }
  }

  lemma NewlyNothing(r: Registry)
    ensures Newly(r, []) == {}
  {
  }
}
