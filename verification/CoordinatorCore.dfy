/**
  The part of the coordinator's state that its safety rests on (generations,
  pending captures, published and invalidated graphs), the five things a step
  can do to it, and what holds in every run of such steps.
 */
module CoordinatorCore {
  import opened Bytes
  import opened Descriptors
  import opened HexIds

  type Socket = int

  datatype Entry = Entry(artifact: Id, generation: u64, worker: u64, cacheGenAtPublish: u64)

  datatype Pending = Pending(client: Socket, worker: u64, requestId: u64, key: Text)

  datatype Core = Core(
    epoch: u64, cacheGen: u64, graphGen: u64, captures: u64,
    graphs: map<Text, Entry>, invalidated: set<Text>, pending: map<u64, Pending>)

  const START := Core(1, 1, 1, 0, map[], {}, map[])

  datatype Effect =
    | Nothing
    | Invalidated(newEpoch: bool)
    | Dispatched(work: Pending)
    | Failed(attempt: u64, counted: bool)
    | Published(attempt: u64, text: Text, artifact: Id)

  /** `++` on a 64-bit counter. */
  function Bump(v: u64): u64 {
    (v + 1) % TWO_64
  }

  const ARTIFACT_PREFIX: Text := [0x61, 0x72, 0x74, 0x69, 0x66, 0x61, 0x63, 0x74, 0x3A]

  function ArtifactKey(text: Text): Text {
    ARTIFACT_PREFIX + text
  }

  /** A completed capture is published under its artifact and, unless empty, under the key it was dispatched for. */
  function Keys(text: Text, key: Text): set<Text> {
    {ArtifactKey(text)} + if key != [] then {key} else {}
  }

  function PublishGraph(c: Core, text: Text, artifact: Id, work: Pending): Core {
    var entry := Entry(artifact, c.graphGen, work.worker, c.cacheGen);
    var byArtifact := c.graphs[ArtifactKey(text) := entry];
    c.(graphs := if work.key != [] then byArtifact[work.key := entry] else byArtifact,
       invalidated := c.invalidated - Keys(text, work.key))
  }

  function Apply(c: Core, e: Effect): Core {
    match e
    case Nothing => c
    case Invalidated(newEpoch) =>
      c.(cacheGen := Bump(c.cacheGen), epoch := if newEpoch then Bump(c.epoch) else c.epoch, invalidated := c.invalidated + c.graphs.Keys)
    case Dispatched(work) => c.(captures := Bump(c.captures), pending := c.pending[Bump(c.captures) := work])
    case Failed(a, counted) => c.(pending := c.pending - {a}, graphGen := if counted then Bump(c.graphGen) else c.graphGen)
    case Published(a, text, artifact) =>
      if a !in c.pending then c
      else PublishGraph(c.(pending := c.pending - {a}, graphGen := Bump(c.graphGen)), text, artifact, c.pending[a])
  }

  function CoreAt(es: seq<Effect>, n: nat): Core
    requires n <= |es|
  {
    if n == 0 then START else Apply(CoreAt(es, n - 1), es[n - 1])
  }

  /** The capture that step `j` publishes was dispatched by step `i` under the same authority. */
  ghost predicate Answers(es: seq<Effect>, i: nat, j: nat)
    requires i < j < |es|
  {
    && es[i].Dispatched? && es[j].Published? && es[j].attempt == Bump(CoreAt(es, i).captures)
    && CoreAt(es, i).cacheGen == CoreAt(es, j).cacheGen && CoreAt(es, i).epoch == CoreAt(es, j).epoch
  }

  /**
    What the environment guarantees: a publication answers an earlier dispatch
    under the current authority. Keys are hexadecimal digests, and the counters
    of a run this short do not wrap around.
   */
  ghost predicate LegalRun(es: seq<Effect>) {
    && |es| < TWO_64 - 1
    && (forall j | 0 <= j < |es| && es[j].Published? :: exists i :: 0 <= i < j && Answers(es, i, j))
    && (forall j | 0 <= j < |es| && es[j].Dispatched? :: |es[j].work.key| == 64)
  }

  ghost predicate Present(c: Core, k: Text) {
    k in c.graphs && k !in c.invalidated
  }

  // ----- counters -----

  lemma {:induction false} Counters(es: seq<Effect>, n: nat)
    requires |es| < TWO_64 - 1 && n <= |es|
    ensures 1 <= CoreAt(es, n).epoch <= 1 + n && 1 <= CoreAt(es, n).cacheGen <= 1 + n
    ensures 1 <= CoreAt(es, n).graphGen <= 1 + n && CoreAt(es, n).captures <= n
  {
    if n > 0 {
      Counters(es, n - 1);
    }
  }

  lemma {:induction false} CacheGenGrows(es: seq<Effect>, i: nat, n: nat)
    requires |es| < TWO_64 - 1 && i <= n <= |es|
    ensures CoreAt(es, i).cacheGen <= CoreAt(es, n).cacheGen
  {
    if i < n {
      CacheGenGrows(es, i, n - 1);
      Counters(es, n - 1);
    }
  }

  lemma {:induction false} EpochGrows(es: seq<Effect>, i: nat, n: nat)
    requires |es| < TWO_64 - 1 && i <= n <= |es|
    ensures CoreAt(es, i).epoch <= CoreAt(es, n).epoch
  {
    if i < n {
      EpochGrows(es, i, n - 1);
      Counters(es, n - 1);
    }
  }

  // ----- attempts -----

  lemma {:induction false} PendingShape(es: seq<Effect>, n: nat)
    requires LegalRun(es) && n <= |es|
    ensures forall a | a in CoreAt(es, n).pending :: a <= CoreAt(es, n).captures && |CoreAt(es, n).pending[a].key| == 64
  {
    hide PublishGraph;
    if n > 0 {
      PendingShape(es, n - 1);
      Counters(es, n - 1);
      PublishKeeps(CoreAt(es, n - 1), es[n - 1]);
    }
  }

  /** What a step does to the pending captures, whatever else it does. */
  lemma PublishKeeps(c: Core, e: Effect)
    ensures Apply(c, e).pending ==
              if e.Dispatched? then c.pending[Bump(c.captures) := e.work]
              else if e.Failed? || e.Published? then c.pending - {e.attempt}
              else c.pending
    ensures Apply(c, e).captures == if e.Dispatched? then Bump(c.captures) else c.captures
  {
    if e.Published? && e.attempt !in c.pending {
      assert c.pending - {e.attempt} == c.pending;
    }
  }

  /** While an attempt is pending, its record is the one its dispatch made. */
  lemma {:induction false} PendingStays(es: seq<Effect>, i: nat, n: nat)
    requires |es| < TWO_64 - 1 && i < n <= |es| && es[i].Dispatched?
    ensures Bump(CoreAt(es, i).captures) <= CoreAt(es, n).captures
    ensures Bump(CoreAt(es, i).captures) in CoreAt(es, n).pending ==>
              CoreAt(es, n).pending[Bump(CoreAt(es, i).captures)] == es[i].work
  {
    hide PublishGraph;
    Counters(es, n - 1);
    PublishKeeps(CoreAt(es, n - 1), es[n - 1]);
    if i < n - 1 {
      Counters(es, i);
      PendingStays(es, i, n - 1);
    }
  }

  ghost predicate PublishesAt(es: seq<Effect>, j: nat)
    requires j < |es|
  {
    es[j].Published? && es[j].attempt in CoreAt(es, j).pending
  }

  lemma {:induction false} CompletedStays(es: seq<Effect>, i: nat, n: nat)
    requires LegalRun(es) && i < n <= |es| && PublishesAt(es, i)
    ensures es[i].attempt !in CoreAt(es, n).pending && es[i].attempt <= CoreAt(es, n).captures
  {
    hide PublishGraph;
    Counters(es, n - 1);
    PublishKeeps(CoreAt(es, n - 1), es[n - 1]);
    if i < n - 1 {
      CompletedStays(es, i, n - 1);
    } else {
      PendingShape(es, i);
    }
  }

  lemma AttemptPublishesOnce(es: seq<Effect>, i: nat, j: nat)
    requires LegalRun(es) && i < j < |es| && PublishesAt(es, i) && PublishesAt(es, j)
    ensures es[i].attempt != es[j].attempt
  {
    CompletedStays(es, i, j);
  }

  // ----- provenance -----

  /** `k` was published at step `j`, from the capture that step `i` dispatched, both under the authority of step `n`. */
  ghost predicate Origin(es: seq<Effect>, i: nat, j: nat, n: nat, k: Text)
    requires i < j < n <= |es|
  {
    && Answers(es, i, j) && PublishesAt(es, j) && CoreAt(es, j).cacheGen == CoreAt(es, n).cacheGen
    && k in Keys(es[j].text, es[i].work.key)
    && k in CoreAt(es, n).graphs
    && CoreAt(es, n).graphs[k] == Entry(es[j].artifact, Bump(CoreAt(es, j).graphGen), es[i].work.worker, CoreAt(es, n).cacheGen)
  }

  /** What a publication does to the graphs. */
  lemma PublishedGraphs(c: Core, e: Effect)
    requires e.Published? && e.attempt in c.pending
    ensures Apply(c, e).cacheGen == c.cacheGen
    ensures Apply(c, e).invalidated == c.invalidated - Keys(e.text, c.pending[e.attempt].key)
    ensures Apply(c, e).graphs.Keys == c.graphs.Keys + Keys(e.text, c.pending[e.attempt].key)
    ensures forall k | k in Keys(e.text, c.pending[e.attempt].key) ::
              Apply(c, e).graphs[k] == Entry(e.artifact, Bump(c.graphGen), c.pending[e.attempt].worker, c.cacheGen)
    ensures forall k | k in c.graphs && k !in Keys(e.text, c.pending[e.attempt].key) :: Apply(c, e).graphs[k] == c.graphs[k]
  {
  }

  lemma OtherGraphs(c: Core, e: Effect)
    requires !(e.Published? && e.attempt in c.pending)
    ensures Apply(c, e).graphs == c.graphs
    ensures if e.Invalidated? then Apply(c, e).invalidated == c.invalidated + c.graphs.Keys && Apply(c, e).cacheGen == Bump(c.cacheGen)
            else Apply(c, e).invalidated == c.invalidated && Apply(c, e).cacheGen == c.cacheGen
  {
  }

  /** Each graph that is present and not invalidated has such an origin. */
  lemma {:induction false} PresentHasOrigin(es: seq<Effect>, n: nat, k: Text)
    requires LegalRun(es) && n <= |es| && Present(CoreAt(es, n), k)
    ensures exists i, j :: 0 <= i < j < n && Origin(es, i, j, n, k)
  {
    hide Apply, Keys;
    var c, e := CoreAt(es, n - 1), es[n - 1];
    if PublishesAt(es, n - 1) && k in Keys(e.text, c.pending[e.attempt].key) {
      PublishedGraphs(c, e);
      var i :| 0 <= i < n - 1 && Answers(es, i, n - 1);
      PendingStays(es, i, n - 1);
      assert Origin(es, i, n - 1, n, k);
    } else {
      StillPresent(c, e, k);
      PresentHasOrigin(es, n - 1, k);
      var i, j :| 0 <= i < j < n - 1 && Origin(es, i, j, n - 1, k);
      assert Origin(es, i, j, n, k);
    }
  }

  /** A graph that this step did not publish and that is present after it was the same before it, under the same generation. */
  lemma StillPresent(c: Core, e: Effect, k: Text)
    requires Present(Apply(c, e), k)
    requires !(e.Published? && e.attempt in c.pending && k in Keys(e.text, c.pending[e.attempt].key))
    ensures Present(c, k) && Apply(c, e).graphs[k] == c.graphs[k] && Apply(c, e).cacheGen == c.cacheGen
  {
    hide Apply, Keys;
    if e.Published? && e.attempt in c.pending {
      PublishedGraphs(c, e);
    } else {
      OtherGraphs(c, e);
    }
  }

  // ----- generations -----

  lemma {:induction false} GenerationsBounded(es: seq<Effect>, n: nat)
    requires |es| < TWO_64 - 1 && n <= |es|
    ensures forall k | k in CoreAt(es, n).graphs :: CoreAt(es, n).graphs[k].generation <= CoreAt(es, n).graphGen
  {
    hide Keys;
    if n > 0 {
      GenerationsBounded(es, n - 1);
      Counters(es, n - 1);
      var c, e := CoreAt(es, n - 1), es[n - 1];
      StepGeneration(c, e);
      if PublishesAt(es, n - 1) {
        PublishedGraphs(c, e);
      } else {
        OtherGraphs(c, e);
      }
    }
  }

  lemma StepGeneration(c: Core, e: Effect)
    requires c.graphGen < TWO_64 - 1
    ensures c.graphGen <= Apply(c, e).graphGen
    ensures e.Published? && e.attempt in c.pending ==> Apply(c, e).graphGen == Bump(c.graphGen)
  {
  }

  /** A graph is never forgotten and its generation never decreases. */
  lemma {:induction false} GenerationsGrow(es: seq<Effect>, i: nat, n: nat, k: Text)
    requires |es| < TWO_64 - 1 && i <= n <= |es| && k in CoreAt(es, i).graphs
    ensures k in CoreAt(es, n).graphs && CoreAt(es, i).graphs[k].generation <= CoreAt(es, n).graphs[k].generation
  {
    hide Apply, Keys;
    if i < n {
      GenerationsGrow(es, i, n - 1, k);
      GenerationsBounded(es, n - 1);
      Counters(es, n - 1);
      if PublishesAt(es, n - 1) {
        PublishedGraphs(CoreAt(es, n - 1), es[n - 1]);
      } else {
        OtherGraphs(CoreAt(es, n - 1), es[n - 1]);
      }
    }
  }

  /** Under one cache generation a graph that is present stays present. */
  lemma {:induction false} PresentStays(es: seq<Effect>, i: nat, n: nat, k: Text)
    requires |es| < TWO_64 - 1 && i <= n <= |es| && Present(CoreAt(es, i), k)
    requires CoreAt(es, i).cacheGen == CoreAt(es, n).cacheGen
    ensures Present(CoreAt(es, n), k)
  {
    hide Apply, Keys;
    if i < n {
      var c, e := CoreAt(es, n - 1), es[n - 1];
      CacheGenGrows(es, i, n - 1);
      CacheGenGrows(es, n - 1, n);
      Counters(es, n - 1);
      PresentStays(es, i, n - 1, k);
      if PublishesAt(es, n - 1) {
        PublishedGraphs(c, e);
      } else {
        OtherGraphs(c, e);
      }
    }
  }

  // ----- keys and artifacts -----

  /** Workers report the artifact they captured in its printed form. */
  ghost predicate WellNamed(es: seq<Effect>) {
    forall j | 0 <= j < |es| && es[j].Published? :: es[j].text == IdToString(es[j].artifact)
  }

  /** The artifact that a lookup key leads to has an entry of its own, which is present and at least as new. */
  ghost predicate Named(c: Core, k: Text) {
    && k in c.graphs && Present(c, ArtifactKey(IdToString(c.graphs[k].artifact)))
    && c.graphs[k].generation <= c.graphs[ArtifactKey(IdToString(c.graphs[k].artifact))].generation
  }

  lemma {:induction false} KeyIsNamed(es: seq<Effect>, n: nat, k: Text)
    requires LegalRun(es) && WellNamed(es) && n <= |es| && Present(CoreAt(es, n), k)
    ensures Named(CoreAt(es, n), k)
  {
    hide Apply, Answers, Origin, PublishesAt;
    PresentHasOrigin(es, n, k);
    var i, j :| 0 <= i < j < n && Origin(es, i, j, n, k);
    OriginArtifact(es, i, j, n, k);
    var a := ArtifactKey(es[j].text);
    PresentStays(es, j + 1, n, a);
    GenerationsGrow(es, j + 1, n, a);
  }

  lemma OriginArtifact(es: seq<Effect>, i: nat, j: nat, n: nat, k: Text)
    requires LegalRun(es) && i < j < n <= |es| && Origin(es, i, j, n, k)
    ensures es[j].Published? && CoreAt(es, j + 1).cacheGen == CoreAt(es, n).cacheGen
    ensures Present(CoreAt(es, j + 1), ArtifactKey(es[j].text)) && k in CoreAt(es, n).graphs
    ensures CoreAt(es, n).graphs[k].artifact == es[j].artifact
    ensures CoreAt(es, n).graphs[k].generation == CoreAt(es, j + 1).graphs[ArtifactKey(es[j].text)].generation
  {
    hide Apply;
    PublishedGraphs(CoreAt(es, j), es[j]);
    assert ArtifactKey(es[j].text) in Keys(es[j].text, CoreAt(es, j).pending[es[j].attempt].key);
  }
}
