/**
  The worker of tools/worker_main.cpp: it keeps every graph it captured under
  the artifact identity of its finalised descriptor, in place of what was there,
  and replays by the printed form of that identity.
 */
module Worker {
  import opened Bytes
  import opened Descriptors
  import opened Protocol
  import opened HexIds
  import opened Topology
  import opened TopologyCodec
  import opened Finalize
  import opened HitReplay
  import opened Coordinator
  import opened CoordinatorRuns

  type Kept = map<Id, Descriptor>

  /** The graph that an instruction makes the worker capture: none if it cannot be decoded or is not valid. */
  ghost function Captured(x: Message): Option<Descriptor> {
    if x.kind == CAPTURE_INSTRUCT && ParseLookup(x.payload).Wanted?
       && ValidTopology(ParseLookup(x.payload).descriptor.nodes, ParseLookup(x.payload).descriptor.edges)
    then Some(Finalized(ParseLookup(x.payload).descriptor)) else None
  }

  ghost function Take(graphs: Kept, x: Message): Kept {
    match Captured(x)
    case None => graphs
    case Some(d) => graphs[d.artifact := d]
  }

  /** What the worker keeps after these messages, one after the other. */
  ghost function Graphs(ms: seq<Message>): Kept {
    if ms == [] then map[] else Take(Graphs(ms[..|ms| - 1]), ms[|ms| - 1])
  }

  /** What it reports: the artifact and the number of its nodes, cut to 32 bits. */
  ghost function Report(x: Message): CoordinatorRuns.Outcome {
    match Captured(x)
    case None => NotDone
    case Some(d) => CaptureDone(d.artifact, |d.nodes| % TWO_32)
  }

  /** The graph that a replay of this text executes. */
  ghost function Target(graphs: Kept, text: Text): Option<Descriptor> {
    if exists id :: id in graphs && IdToString(id) == text then
      var id :| id in graphs && IdToString(id) == text;
      Some(graphs[id])
    else None
  }

  lemma TargetOf(graphs: Kept, id: Id)
    ensures Target(graphs, IdToString(id)) == if id in graphs then Some(graphs[id]) else None
  {
    hide IdToString;
    forall other | other in graphs && IdToString(other) == IdToString(id)
      ensures other == id
    {
      ToStringInjective(other, id);
    }
  }

  class Process {
    var graphs: Kept

    constructor ()
      ensures graphs == map[]
    {
      graphs := map[];
    }

    method HandleCapture(x: Message) returns (o: CoordinatorRuns.Outcome)
      requires x.kind == CAPTURE_INSTRUCT
      modifies this
      ensures graphs == Take(old(graphs), x) && o == Report(x)
    {
      hide ParseLookup, ValidTopology, Finalized;
      var wanted := ParseLookup(x.payload);
      if !wanted.Wanted? {
        return NotDone;
      }
      var verdict, d := FinalizeDescriptor(wanted.descriptor);
      if !verdict.Accepted? {
        return NotDone;
      }
      graphs := graphs[d.artifact := d];
      return CaptureDone(d.artifact, |d.nodes| % TWO_32);
    }

    /** The search by printed identity. */
    method FindTarget(text: Text) returns (d: Option<Descriptor>)
      ensures d == Target(graphs, text)
    {
      hide IdToString;
      var todo := graphs.Keys;
      while todo != {}
        invariant todo <= graphs.Keys
        invariant forall id | id in graphs && id !in todo :: IdToString(id) != text
        decreases todo
      {
        var id :| id in todo;
        if IdToString(id) == text {
          TargetOf(graphs, id);
          return Some(graphs[id]);
        }
        todo := todo - {id};
      }
      return None;
    }
  }

  // ----- what is kept -----

  predicate Names(d: Option<Descriptor>, id: Id) {
    d.Some? && d.value.artifact == id
  }

  /** The last of these messages that makes the worker capture under this artifact. */
  ghost predicate LastUnder(ms: seq<Message>, q: nat, id: Id) {
    q < |ms| && Names(Captured(ms[q]), id) && forall m | q < m < |ms| :: !Names(Captured(ms[m]), id)
  }

  lemma {:induction false} LastCaptureWins(ms: seq<Message>, i: nat, id: Id) returns (q: nat)
    requires i < |ms| && Names(Captured(ms[i]), id)
    ensures i <= q && LastUnder(ms, q, id) && id in Graphs(ms) && Some(Graphs(ms)[id]) == Captured(ms[q])
    decreases |ms|
  {
    hide Captured;
    var last := |ms| - 1;
    if Names(Captured(ms[last]), id) {
      q := last;
    } else {
      q := LastCaptureWins(ms[..last], i, id);
      assert forall m | q < m < last :: ms[..last][m] == ms[m];
    }
  }

  /** The descriptor that an instruction carries. */
  function Carried(x: Message): Descriptor
    requires ParseLookup(x.payload).Wanted?
  {
    ParseLookup(x.payload).descriptor
  }

  lemma CapturedFrom(x: Message)
    requires Captured(x).Some?
    ensures ParseLookup(x.payload).Wanted? && Captured(x).value == Finalized(Carried(x))
    ensures ValidTopology(Carried(x).nodes, Carried(x).edges)
    ensures CanonicalTopology(Captured(x).value.nodes, Captured(x).value.edges) == CanonicalTopology(Carried(x).nodes, Carried(x).edges)
  {
    hide ParseLookup, ValidTopology, Finalized, CanonicalTopology;
    FinalizedTopology(Carried(x));
  }

  /** What is captured under this artifact is named after what it means, and those names do not collide. */
  ghost predicate NamedByMeaning(ms: seq<Message>, id: Id) {
    && (forall m | 0 <= m < |ms| && Names(Captured(ms[m]), id) :: ParseLookup(ms[m].payload).Wanted? && !Carried(ms[m]).artifact.Valid())
    && (forall m, n | 0 <= m < |ms| && 0 <= n < |ms| && Names(Captured(ms[m]), id) && Names(Captured(ms[n]), id)
                      && ParseLookup(ms[m].payload).Wanted? && ParseLookup(ms[n].payload).Wanted? ::
          |CanonicalSemantic(Reordered(Carried(ms[m])))| < TWO_32
          && CanonicalSemantic(Reordered(Carried(ms[m]))) == CanonicalSemantic(Reordered(Carried(ms[n]))))
  }

  lemma SameMeaningSameTopology(a: Descriptor, b: Descriptor)
    requires ValidTopology(a.nodes, a.edges) && ValidTopology(b.nodes, b.edges)
    requires |CanonicalSemantic(Reordered(a))| < TWO_32 && CanonicalSemantic(Reordered(a)) == CanonicalSemantic(Reordered(b))
    ensures CanonicalTopology(a.nodes, a.edges) == CanonicalTopology(b.nodes, b.edges)
  {
    hide CanonicalSemantic, CanonicalTopology, Acyclic;
    SemanticExact(Reordered(a), Reordered(b));
    FinalizedTopology(a);
    FinalizedTopology(b);
    ReorderedTopology(a);
    ReorderedTopology(b);
  }

  lemma ReorderedTopology(d: Descriptor)
    ensures SemanticsOf(Reordered(d)).topology == CanonicalTopology(Finalized(d).nodes, Finalized(d).edges)
  {
    hide CanonicalSemantic, CanonicalTopology;
  }

  /** Then however many captures followed, the worker keeps under it the canonical graph that each of them was for. */
  lemma KeepsTopology(ms: seq<Message>, i: nat, id: Id)
    requires i < |ms| && Names(Captured(ms[i]), id) && NamedByMeaning(ms, id)
    ensures id in Graphs(ms) && ParseLookup(ms[i].payload).Wanted?
    ensures CanonicalTopology(Graphs(ms)[id].nodes, Graphs(ms)[id].edges) == CanonicalTopology(Carried(ms[i]).nodes, Carried(ms[i]).edges)
  {
    hide Captured, ParseLookup, CanonicalSemantic, CanonicalTopology, ValidTopology, Graphs, Finalized, Carried, Reordered;
    var q := LastCaptureWins(ms, i, id);
    CapturedFrom(ms[i]);
    CapturedFrom(ms[q]);
    SameMeaningSameTopology(Carried(ms[i]), Carried(ms[q]));
  }
}
