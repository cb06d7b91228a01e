/**
  The cache of src/cache.cpp as one object whose methods update its indices in
  place: search, publication, invalidation, materialisation and recovery, each
  proved against the registry function that the runs of the engine are made of.
 */
module GraphCache {
  import opened Bytes
  import opened Descriptors
  import opened Facts
  import opened Decide
  import opened FactsCodec
  import opened StoredCodec
  import opened HexIds
  import opened Topology
  import opened TopologyCodec
  import opened CacheRegistry
  import opened CacheMoves
  import opened CacheInvalidation
  import opened CacheRecovery
  import Envelope
  import Finalize
  import Recovery
  import Sha256

  // ----- entries -----

  function KeyOf(f: Facts): Text {
    HexBytes(Sha256.Digest(EncodeFacts(f)))
  }

  /** `derive_graph_id`. */
  function GraphIdOf(d: Descriptor, wl: Workload, key: Text): Id {
    Finalize.IdOf(Sha256.Digest(wl.name + [BAR] + IdToString(d.artifact) + [BAR] + key))
  }

  /** The entry that a stored descriptor and its metadata are decoded to. */
  function EntryOf(d: Descriptor, m: Metadata): Entry {
    var facts := FactsOfStored(d, m.workload);
    var key := KeyOf(facts);
    Entry(m.artifact, GraphIdOf(d, m.workload, key), key, facts, d.backend, m.generation, m.cacheGeneration, m.dependencyGeneration,
          false, m.invalidated, if m.invalidated then Invalidated else Valid, MetadataOnly, false)
  }

  /** A captured request, once persisted, loads as an entry with the same key and the same facts as far as they are ever read. */
  lemma PersistedEntryLoads(r: Request, m: Metadata)
    requires ValidTopology(r.descriptor.nodes, r.descriptor.edges) && TopologyFits(r.descriptor.nodes, r.descriptor.edges)
    requires Recovery.Agrees(r) && Recovery.OrderFree(r.descriptor) && m.workload == r.workload
    requires DescriptorWithinLimits(Finalize.Finalized(r.descriptor))
    requires |EncodePayload(Finalize.Finalized(r.descriptor), m)| <= Envelope.MAX_PAYLOAD
    ensures var d := NormalDescriptor(Finalize.Finalized(r.descriptor));
            && Recovery.LoadEntry(Recovery.Stored(Finalize.Finalized(r.descriptor), m)) == Some((d, m))
            && Loaded(EntryOf(d, m)) && EntryOf(d, m).facts == NormalFacts(FactsOfRequest(r)) && EntryOf(d, m).key == KeyOf(FactsOfRequest(r))
    ensures NormalQuant(FactsOfRequest(r).quant) == FactsOfRequest(r).quant
  {
    hide Recovery.Stored, Recovery.LoadEntry, EncodePayload, DescriptorWithinLimits, NormalDescriptor, Finalize.Finalized, EncodeFacts, NormalFacts,
         TopologyFits, Recovery.OrderFree, Acyclic, NormalQuant, GraphIdOf, CanonicalTopology, Sha256.Digest, HexBytes;
    Recovery.LoadStored(Finalize.Finalized(r.descriptor), m);
    Recovery.RecoveredFacts(r);
    EncodeNormal(FactsOfRequest(r));
    Recovery.TensorsNormalForm(r.descriptor.nodes);
  }

  /** The entries of the files that load, in the order the files are listed. */
  function LoadAll(files: seq<seq<byte>>): seq<Entry> {
    if files == [] then []
    else
      var before := LoadAll(files[..|files| - 1]);
      match Recovery.LoadEntry(files[|files| - 1])
      case None => before
      case Some((d, m)) => before + [EntryOf(d, m)]
  }

  /** The request was captured and its entry persisted with this metadata. */
  ghost predicate Persisted(r: Request, m: Metadata) {
    && ValidTopology(r.descriptor.nodes, r.descriptor.edges) && TopologyFits(r.descriptor.nodes, r.descriptor.edges)
    && Recovery.Agrees(r) && Recovery.OrderFree(r.descriptor) && m.workload == r.workload
    && DescriptorWithinLimits(Finalize.Finalized(r.descriptor))
    && |EncodePayload(Finalize.Finalized(r.descriptor), m)| <= Envelope.MAX_PAYLOAD
  }

  function FileOf(r: Request, m: Metadata): seq<byte> {
    Recovery.Stored(Finalize.Finalized(r.descriptor), m)
  }

  ghost predicate AllPersisted(rs: seq<Request>, ms: seq<Metadata>, files: seq<seq<byte>>) {
    && |rs| == |ms| == |files|
    && (forall i | 0 <= i < |files| :: Persisted(rs[i], ms[i]) && files[i] == FileOf(rs[i], ms[i]))
  }

  /** The entry a file of a persisted request loads as. */
  predicate LoadsAs(e: Entry, r: Request, m: Metadata) {
    && Loaded(e) && e.artifact == m.artifact && e.generation == m.generation && e.invalidated == m.invalidated
    && e.cacheGeneration == m.cacheGeneration && e.dependencyGeneration == m.dependencyGeneration && e.backend == r.descriptor.backend
    && e.graphId == GraphIdOf(Finalize.Finalized(r.descriptor), r.workload, e.key)
    && e.key == KeyOf(FactsOfRequest(r)) && e.facts == NormalFacts(FactsOfRequest(r)) && NormalQuant(FactsOfRequest(r).quant) == FactsOfRequest(r).quant
  }

  lemma IdentityKept(r: Request, key: Text)
    ensures var d := NormalDescriptor(Finalize.Finalized(r.descriptor));
            d.backend == r.descriptor.backend && GraphIdOf(d, r.workload, key) == GraphIdOf(Finalize.Finalized(r.descriptor), r.workload, key)
  {
    hide Sha256.Digest, Finalize.IdOf, IdToString, NormalNodes, NormalKernels, CanonicalTopology, Finalize.CanonicalSemantic;
  }

  lemma FileLoadsAs(r: Request, m: Metadata)
    requires Persisted(r, m)
    ensures Recovery.LoadEntry(FileOf(r, m)).Some?
    ensures var (d, n) := Recovery.LoadEntry(FileOf(r, m)).value; LoadsAs(EntryOf(d, n), r, m)
  {
    hide Recovery.Stored, Recovery.LoadEntry, EncodePayload, DescriptorWithinLimits, NormalDescriptor, Finalize.Finalized, NormalFacts, FactsOfRequest,
         FactsOfStored, TopologyFits, Recovery.OrderFree, ValidTopology, NormalQuant, GraphIdOf, KeyOf;
    PersistedEntryLoads(r, m);
    IdentityKept(r, KeyOf(FactsOfRequest(r)));
  }

  lemma {:induction false} AllLoad(rs: seq<Request>, ms: seq<Metadata>, files: seq<seq<byte>>)
    requires AllPersisted(rs, ms, files)
    ensures |LoadAll(files)| == |files|
    ensures forall i | 0 <= i < |files| :: LoadsAs(LoadAll(files)[i], rs[i], ms[i])
  {
    hide Persisted, FileOf, LoadsAs, Recovery.LoadEntry, EntryOf;
    if files != [] {
      var n := |files| - 1;
      AllLoad(rs[..n], ms[..n], files[..n]);
      FileLoadsAs(rs[n], ms[n]);
    }
  }

  /** Not invalidated, and not older than any other of its key that is not. */
  ghost predicate NewestOf(rs: seq<Request>, ms: seq<Metadata>, n: nat)
    requires |rs| == |ms|
  {
    && n < |rs| && !ms[n].invalidated
    && (forall m: nat | m < |rs| && KeyOf(FactsOfRequest(rs[m])) == KeyOf(FactsOfRequest(rs[n])) && !ms[m].invalidated ::
          ms[m].generation <= ms[n].generation)
  }

  /** A hit exactly when the newest entry of some key would have matched, and then with its decision. */
  ghost predicate AnswersAs(o: Outcome, rs: seq<Request>, ms: seq<Metadata>, q: Facts, p: Policy)
    requires |rs| == |ms|
  {
    && (o.Hit? <==> exists n: nat :: NewestOf(rs, ms, n) && WouldMatch(FactsOfRequest(rs[n]), q, p))
    && (o.Hit? ==>
          var n := o.found.n;
          NewestOf(rs, ms, n) && WouldMatch(FactsOfRequest(rs[n]), q, p) && o.found.decision == Decided(q, FactsOfRequest(rs[n]), p))
  }

  /**
    From the files of captured requests to the answers after a restart: with
    the newest file of each key listed last, every search of the recovered
    cache is answered as by the captured entries.
   */
  lemma RecoveredFilesAnswer(rs: seq<Request>, ms: seq<Metadata>, files: seq<seq<byte>>, q: Facts, p: Policy)
    requires AllPersisted(rs, ms, files) && LiveNewestLast(LoadAll(files))
    ensures AnswersAs(Search(Recovered(LoadAll(files)), q, p), rs, ms, q, p)
  {
    hide Persisted, FileOf, Search, Recovered, WouldMatch, LoadAll, KeyOf, FactsOfRequest, NormalFacts, NormalQuant, Loaded, Decided, LiveNewestLast,
         Current;
    var es := LoadAll(files);
    AllLoad(rs, ms, files);
    var fs := seq(|rs|, i requires 0 <= i < |rs| => FactsOfRequest(rs[i]));
    RecoveredAnswers(es, fs, q, p);
    forall n: nat
      ensures Current(es, n) <==> NewestOf(rs, ms, n)
    {
      CurrentIsNewest(es, n);
    }
  }

  method LoadFile(file: seq<byte>) returns (e: Option<Entry>)
    ensures e == match Recovery.LoadEntry(file)
                 case None => None
                 case Some((d, m)) => Some(EntryOf(d, m))
  {
    hide EntryOf, DecodePayload, Envelope.Parse;
    var envelope := Envelope.ParseEnvelope(Envelope.FORMAT_VERSION, file);
    if !envelope.Accepted? {
      return None;
    }
    var decoded := DecodePayload(envelope.payload);
    if decoded.None? {
      return None;
    }
    return Some(EntryOf(decoded.value.0, decoded.value.1));
  }

  method IsDependencyFresh(captured: seq<KernelRef>, wanted: seq<KernelRef>) returns (ok: bool)
    ensures ok <==> Fresh(captured, wanted)
  {
    for i := 0 to |wanted|
      invariant Fresh(captured, wanted[..i])
    {
      if wanted[i].contributes {
        for j := 0 to |captured|
          invariant Fresh(captured, wanted[..i]) && Fresh(captured[..j], [wanted[i]])
        {
          var c := captured[j];
          if c.name == wanted[i].name && c.contributes {
            if c.generation != wanted[i].generation || c.digest != wanted[i].digest || c.abi != wanted[i].abi {
              return false;
            }
          }
        }
        assert captured[..|captured|] == captured;
      }
      FreshSnoc(captured, wanted, i);
    }
    assert wanted[..|wanted|] == wanted;
    return true;
  }

  lemma FreshSnoc(captured: seq<KernelRef>, wanted: seq<KernelRef>, i: nat)
    requires i < |wanted| && Fresh(captured, wanted[..i]) && (wanted[i].contributes ==> Fresh(captured, [wanted[i]]))
    ensures Fresh(captured, wanted[..i + 1])
  {
    var w := wanted[..i + 1];
    forall k, j | 0 <= k < |w| && 0 <= j < |captured| && w[k].contributes && captured[j].contributes && captured[j].name == w[k].name
      ensures captured[j].generation == w[k].generation && captured[j].digest == w[k].digest && captured[j].abi == w[k].abi
    {
      if k < i {
        assert wanted[..i][k] == w[k];
      } else {
        assert [wanted[i]][0] == w[k];
      }
    }
  }

  class Cache {
    var entries: seq<Entry>
    var byArtifact: map<Id, nat>
    var byKey: map<Text, seq<nat>>
    var byWorkload: map<Text, seq<nat>>
    var current: map<Text, nat>
    var graphGen: nat
    var cacheGen: nat

    function Abs(): Registry
      reads this
    {
      Registry(entries, byArtifact, byKey, byWorkload, current, graphGen, cacheGen)
    }

    constructor ()
      ensures Abs() == EMPTY
    {
      entries, byArtifact, byKey, byWorkload, current, graphGen, cacheGen := [], map[], map[], map[], map[], 1, 1;
    }

    /** The loop over the candidates of the request's workload. */
    method SearchCandidates(q: Facts, p: Policy) returns (o: Outcome)
      ensures o == Search(Abs(), q, p)
    {
      hide Decided, Fresh;
      var found: Option<Found>, incompatible, stale := None, false, false;
      var w := WorkloadKey(q.workload);
      if w !in byWorkload {
        return MissCaptureRequired;
      }
      var ns := byWorkload[w];
      for i := 0 to |ns|
        invariant Scan(found, incompatible, stale) == ScanAll(Abs(), q, p, ns[..i])
      {
        var n := ns[i];
        assert ns[..i + 1][..i] == ns[..i];
        if Selectable(Abs(), n) {
          var e := entries[n];
          var upToDate := IsDependencyFresh(e.facts.dependencies, q.dependencies);
          if !upToDate {
            stale := true;
          } else {
            var d := DecideCompatibility(q, e.facts, p);
            if d.Compatible() {
              if found.None? || d.klass == ExactCompatible {
                found := Some(Found(n, d));
              }
            } else {
              incompatible := true;
            }
          }
        }
      }
      assert ns[..|ns|] == ns;
      return Conclude(Scan(found, incompatible, stale));
    }

    method PublishEntry(n: nat)
      requires n < |entries| && !entries[n].published
      modifies this
      ensures Abs() == Apply(old(Abs()), Publish(n))
    {
      var e := entries[n];
      entries := entries[n := e.(published := true)];
      byArtifact := byArtifact[e.artifact := n];
      byKey := Add(byKey, e.key, n);
      byWorkload := Add(byWorkload, WorkloadKey(e.facts.workload), n);
      current := current[e.key := e.generation];
    }

    method MaterializeExec(n: nat, captured: bool) returns (ok: bool)
      requires Published(Abs(), n)
      modifies this
      ensures Abs() == Apply(old(Abs()), Materialize(n, captured)) && ok == entries[n].exec
    {
      if !entries[n].exec && captured {
        entries := entries[n := entries[n].(exec := true, residency := HostResident)];
      }
      ok := entries[n].exec;
    }

    /** One target of an invalidation; an entry that is already invalidated is left alone. */
    method MarkEntry(n: nat) returns (marked: bool)
      requires Published(Abs(), n)
      modifies this
      ensures Abs() == Apply(old(Abs()), Mark(n)) && marked == !old(entries)[n].invalidated
      ensures graphGen == old(graphGen) + if marked then 1 else 0
    {
      marked := !entries[n].invalidated;
      if marked {
        entries := entries[n := entries[n].(invalidated := true, lifecycle := Invalidated)];
        graphGen := graphGen + 1;
      }
    }

    /** The targets are collected first and marked afterwards. */
    method Invalidate(scope: Scope) returns (targets: seq<nat>, invalidated: nat)
      requires ArtifactIndexed(Abs())
      modifies this
      ensures Invalidates(old(Abs()), scope, targets) && Abs() == MarkAll(Apply(old(Abs()), BumpCache), targets)
      ensures graphGen == old(graphGen) + invalidated
    {
      hide InScope, WorkloadKey, IsTarget;
      ghost var r := Abs();
      cacheGen := cacheGen + 1;
      ghost var b := Abs();
      assert b == Apply(r, BumpCache);
      SameTargets(r, b, scope);
      targets := Collect(scope);
      invalidated := 0;
      hide Apply;
      for i := 0 to |targets|
        invariant Abs() == MarkAll(b, targets[..i])
        invariant graphGen == old(graphGen) + invalidated
      {
        assert targets[..i + 1][..i] == targets[..i];
        MarkAllKeeps(b, targets[..i]);
        assert Published(b, targets[i]);
        var marked := MarkEntry(targets[i]);
        if marked {
          invalidated := invalidated + 1;
        }
      }
      assert targets[..|targets|] == targets;
    }

    method Collect(scope: Scope) returns (targets: seq<nat>)
      requires ArtifactIndexed(Abs())
      ensures Invalidates(Abs(), scope, targets)
    {
      hide InScope;
      targets := [];
      var todo := byArtifact.Keys;
      while todo != {}
        invariant todo <= byArtifact.Keys
        invariant forall i | 0 <= i < |targets| :: Published(Abs(), targets[i])
        invariant forall n: nat | n in targets :: IsTarget(Abs(), scope, n)
        invariant forall a | a in byArtifact && a !in todo && InScope(scope, entries[byArtifact[a]]) :: byArtifact[a] in targets
        decreases todo
      {
        var a :| a in todo;
        todo := todo - {a};
        var n := byArtifact[a];
        if InScope(scope, entries[n]) {
          targets := targets + [n];
          assert IsTarget(Abs(), scope, n);
        }
      }
    }

    /** One entry that loaded goes into the indices. */
    method EnterRecovered(e: Entry)
      modifies this
      ensures Abs() == RecoverOne(old(Abs()), e)
    {
      hide WorkloadKey, Add;
      var n := |entries|;
      entries := entries + [e.(published := true)];
      byArtifact := byArtifact[e.artifact := n];
      byKey := Add(byKey, e.key, n);
      byWorkload := Add(byWorkload, WorkloadKey(e.facts.workload), n);
      if !e.invalidated {
        current := current[e.key := e.generation];
      }
    }

    method Recover(files: seq<seq<byte>>)
      requires Abs() == EMPTY
      modifies this
      ensures Abs() == Recovered(LoadAll(files))
    {
      hide EntryOf, RecoverOne, Recovery.LoadEntry;
      for i := 0 to |files|
        invariant Abs() == RecoverAll(LoadAll(files[..i]))
      {
        assert files[..i + 1][..i] == files[..i];
        var loaded := LoadFile(files[i]);
        if loaded.Some? {
          ghost var es := LoadAll(files[..i]);
          assert (es + [loaded.value])[..|es|] == es;
          EnterRecovered(loaded.value);
        }
      }
      assert files[..|files|] == files;
      var generation, cacheGeneration := Greatest();
      if generation + 1 > graphGen {
        graphGen := generation + 1;
      }
      if cacheGeneration + 1 > cacheGen {
        cacheGen := cacheGeneration + 1;
      }
    }

    method Greatest() returns (generation: nat, cacheGeneration: nat)
      ensures generation == GreatestGeneration(Abs(), |entries|) && cacheGeneration == GreatestCacheGeneration(Abs(), |entries|)
    {
      generation, cacheGeneration := 0, 0;
      for n := 0 to |entries|
        invariant generation == GreatestGeneration(Abs(), n) && cacheGeneration == GreatestCacheGeneration(Abs(), n)
      {
        var e := entries[n];
        if e.artifact in byArtifact && byArtifact[e.artifact] == n {
          if e.generation > generation {
            generation := e.generation;
          }
          if e.cacheGeneration > cacheGeneration {
            cacheGeneration := e.cacheGeneration;
          }
        }
      }
    }
  }

  lemma SameTargets(r: Registry, b: Registry, scope: Scope)
    requires b == r.(cacheGen := b.cacheGen)
    ensures forall n: nat :: IsTarget(r, scope, n) <==> IsTarget(b, scope, n)
    ensures forall n: nat :: Published(r, n) <==> Published(b, n)
  {
    hide InScope;
  }
}
