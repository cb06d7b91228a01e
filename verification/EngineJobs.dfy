/**
  The job of a lookup request: the entry that `capture_graph` of src/cache.cpp
  makes of it, with its facts, key, artifact and graph identity derived from
  the request.
 */
module EngineJobs {
  import opened Bytes
  import opened Descriptors
  import opened Topology
  import opened Facts
  import opened Decide
  import opened FactsCodec
  import opened HexIds
  import opened Finalize
  import opened CacheRegistry
  import opened CacheEngine
  import opened GraphCache
  import R = CacheMoves
  import Sha256

  function NewestDependency(ks: seq<KernelRef>): nat {
    if ks == [] then 0
    else
      var before := NewestDependency(ks[..|ks| - 1]);
      if ks[|ks| - 1].generation > before then ks[|ks| - 1].generation else before
  }

  function EntryFor(r: Request): Entry {
    var d, facts := Finalized(r.descriptor), FactsOfRequest(r);
    var key := KeyOf(facts);
    Entry(d.artifact, GraphIdOf(d, r.workload, key), key, facts, d.backend, 0, 0, NewestDependency(d.dependencies),
          false, false, Valid, HostResident, true)
  }

  ghost function JobOf(r: Request, p: Policy): (job: Job)
    ensures R.Captured(job.entry)
  {
    Job(EntryFor(r), p, ValidTopology(r.descriptor.nodes, r.descriptor.edges))
  }

  /** The greatest generation of a dependency, counting or not, and 0 without one. */
  lemma {:induction false} NewestIsGreatest(ks: seq<KernelRef>)
    ensures forall i | 0 <= i < |ks| :: ks[i].generation <= NewestDependency(ks)
    ensures NewestDependency(ks) == 0 || exists i :: 0 <= i < |ks| && ks[i].generation == NewestDependency(ks)
  {
    if ks != [] {
      var last := |ks| - 1;
      NewestIsGreatest(ks[..last]);
      assert forall i | 0 <= i < last :: ks[..last][i] == ks[i];
      if NewestDependency(ks[..last]) != 0 {
        var i :| 0 <= i < last && ks[..last][i].generation == NewestDependency(ks[..last]);
        assert ks[i].generation == NewestDependency(ks[..last]);
      }
      assert ks[last].generation <= NewestDependency(ks);
    }
  }

  /** The texts that graph identities are digested from. */
  function GraphText(name: Text, artifact: Id, key: Text): Text {
    name + [BAR] + IdToString(artifact) + [BAR] + key
  }

  lemma GraphTextInjective(n: Text, a: Id, k: Text, m: Text, b: Id, l: Text)
    requires |k| == |l| && GraphText(n, a, k) == GraphText(m, b, l)
    ensures n == m && a == b && k == l
  {
    hide IdToString;
    var x, y := GraphText(n, a, k), GraphText(m, b, l);
    assert |n| == |m|;
    assert n == x[..|n|] && m == y[..|m|];
    assert IdToString(a) == x[|n| + 1..|n| + 34] && IdToString(b) == y[|m| + 1..|m| + 34];
    assert k == x[|n| + 35..] && l == y[|m| + 35..];
    ToStringInjective(a, b);
  }

  /** As far as the first sixteen bytes of their digests tell the texts apart. */
  ghost predicate ToldApart(x: Text, y: Text) {
    Sha256.Digest(x)[..16] == Sha256.Digest(y)[..16] ==> x == y
  }

  /** What scopes of an invalidation compare, in terms of the request an entry was captured for. */
  lemma CapturedFields(r: Request)
    ensures EntryFor(r).facts.workload == r.workload && EntryFor(r).backend == r.descriptor.backend
    ensures r.descriptor.artifact.Valid() ==> EntryFor(r).artifact == r.descriptor.artifact
    ensures forall i | 0 <= i < |r.descriptor.dependencies| :: r.descriptor.dependencies[i].generation <= EntryFor(r).dependencyGeneration
    ensures EntryFor(r).dependencyGeneration == 0
            || exists i :: 0 <= i < |r.descriptor.dependencies| && r.descriptor.dependencies[i].generation == EntryFor(r).dependencyGeneration
  {
    hide GraphIdOf, KeyOf, TensorsOf;
    NewestIsGreatest(r.descriptor.dependencies);
  }

  /** Two captures have one graph identity exactly when they are of one workload name, one artifact and one key. */
  lemma GraphIdExactly(r: Request, q: Request)
    requires var e, f := EntryFor(r), EntryFor(q);
             ToldApart(GraphText(r.workload.name, e.artifact, e.key), GraphText(q.workload.name, f.artifact, f.key))
    ensures var e, f := EntryFor(r), EntryFor(q);
            e.graphId == f.graphId <==> r.workload.name == q.workload.name && e.artifact == f.artifact && e.key == f.key
  {
    hide Sha256.Digest, IdOf, TensorsOf, EncodeFacts, HexBytes, Finalized, IdToString;
    var e, f := EntryFor(r), EntryFor(q);
    var x, y := GraphText(r.workload.name, e.artifact, e.key), GraphText(q.workload.name, f.artifact, f.key);
    IdExactly(Sha256.Digest(x), Sha256.Digest(y));
    if x == y {
      GraphTextInjective(r.workload.name, e.artifact, e.key, q.workload.name, f.artifact, f.key);
    }
  }

  /**
    An artifact identity leaves out the workload, and a key does not: one
    descriptor under two workloads is one artifact with two encoded facts,
    hence under two keys as long as their digests do not collide.
   */
  lemma OneArtifactTwoKeys(r: Request, q: Request)
    requires q.descriptor == r.descriptor && q.workload != r.workload && |EncodeFacts(FactsOfRequest(r))| < TWO_32
    ensures EntryFor(q).artifact == EntryFor(r).artifact
    ensures EncodeFacts(FactsOfRequest(q)) != EncodeFacts(FactsOfRequest(r))
    ensures EntryFor(q).key == EntryFor(r).key <==>
              Sha256.Digest(EncodeFacts(FactsOfRequest(q))) == Sha256.Digest(EncodeFacts(FactsOfRequest(r)))
  {
    hide EncodeFacts, Sha256.Digest, Finalized, GraphIdOf, TensorsOf, HexBytes, NormalKernels, NormalQuant, NormalScalar;
    var f, g := FactsOfRequest(r), FactsOfRequest(q);
    EncodeFactsInjective(f, g);
    assert NormalFacts(f).workload == r.workload && NormalFacts(g).workload == q.workload;
    HexBytesInjective(Sha256.Digest(EncodeFacts(g)), Sha256.Digest(EncodeFacts(f)));
  }

  /** The same request with another graph name. */
  predicate Renamed(r: Request, q: Request) {
    && q == r.(descriptor := r.descriptor.(provenance := q.descriptor.provenance))
    && GraphName(q.descriptor.provenance.graphName) != GraphName(r.descriptor.provenance.graphName)
  }

  /** The other way round, a graph name is part of an artifact's meaning and of no key: two artifacts under one key. */
  lemma OneKeyTwoArtifacts(r: Request, q: Request)
    requires Renamed(r, q) && |CanonicalSemantic(Reordered(r.descriptor))| < TWO_32
    ensures EntryFor(q).key == EntryFor(r).key && EntryFor(q).facts == EntryFor(r).facts
    ensures CanonicalSemantic(Reordered(q.descriptor)) != CanonicalSemantic(Reordered(r.descriptor))
  {
    hide EncodeFacts, Sha256.Digest, GraphIdOf, TensorsOf, HexBytes, CanonicalSemantic, Reordered, NormalKernels;
    SameFactsRenamed(r, q);
    SemanticExact(Reordered(r.descriptor), Reordered(q.descriptor));
    NamesKept(r.descriptor);
    NamesKept(q.descriptor);
  }

  lemma SameFactsRenamed(r: Request, q: Request)
    requires Renamed(r, q)
    ensures FactsOfRequest(q) == FactsOfRequest(r)
  {
  }

  lemma NamesKept(d: Descriptor)
    ensures SemanticsOf(Reordered(d)).name == GraphName(d.provenance.graphName)
  {
  }
}
