/**
  A run in which a worker replays one client's graph for another's: the clients
  gave their two graphs one artifact identity, the second capture is already on
  its way to the worker when a replay of the first is forwarded behind it, and
  the worker overwrites and then replays.
 */
module CoordinatorOverwrite {
  import opened Bytes
  import opened Descriptors
  import opened Protocol
  import opened HexIds
  import opened Topology
  import opened CpuCapture
  import opened CpuReplay
  import opened Finalize
  import opened StoredCodec
  import opened HitSoundness
  import opened CoordinatorCore
  import opened Coordinator
  import opened CoordinatorRuns
  import opened CoordinatorSafety
  import opened CoordinatorReplay
  import opened CoordinatorTraces
  import opened CoordinatorWorker
  import opened Worker
  import IdOrder
  import TopologyCodec

  function Overtaken(x: seq<byte>, y: seq<byte>, id: Id): seq<Input> {
    [REGISTERING, Ask(x), Answer(1, id), Ask(x), Ask(y), ReplayAt(2, id)]
  }

  lemma Script(x: seq<byte>, y: seq<byte>, id: Id)
    ensures Begins(Overtaken(x, y, id), x, id)
    ensures |Overtaken(x, y, id)| == 6 && Overtaken(x, y, id)[3] == Ask(x) && Overtaken(x, y, id)[4] == Ask(y)
    ensures Overtaken(x, y, id)[5] == ReplayAt(2, id)
  {
  }

  lemma OneResult(x: seq<byte>, y: seq<byte>, id: Id, j: nat)
    requires j < 6 && (IsResult(Overtaken(x, y, id)[j]) || Succeeds(Overtaken(x, y, id)[j]))
    ensures j == 2
  {
    hide CapturedPayload, NamePayload, IdToString;
  }

  // ----- the states it goes through -----

  lemma OneGraph(k: Text, l: Text, id: Id)
    requires |k| == 64 && |l| == 64 && k != l
    ensures var graphs := WithGraph(map[], 2, k, id);
            && l !in graphs && k in graphs && graphs[k] == Entry(id, 2, 1, 1)
            && ArtifactKey(IdToString(id)) in graphs && graphs[ArtifactKey(IdToString(id))] == Entry(id, 2, 1, 1)
  {
    assert |IdToString(id)| == 33;
  }

  ghost predicate TwoLookups(scan: Text -> Id, x: seq<byte>, y: seq<byte>) {
    ReadsPrinted(scan) && ParseLookup(x).Wanted? && ParseLookup(y).Wanted? && KeyIn(x) != KeyIn(y)
  }

  /** Who is sent something in each of the first five steps. */
  ghost predicate SendsBoth(scan: Text -> Id, run: seq<Input>, x: seq<byte>, y: seq<byte>) {
    && |run| == 6 && Welcomes(scan, run) && AsksToCapture(scan, run, 1, x, 1) && AnswersClient(scan, run, 2)
    && AnswersClient(scan, run, 3) && AsksToCapture(scan, run, 4, y, 2)
  }

  /** After three steps the first graph is there, and two steps later the second one is asked for. */
  ghost predicate GoesThrough(scan: Text -> Id, run: seq<Input>, x: seq<byte>, y: seq<byte>, id: Id) {
    && |run| == 6 && ParseLookup(x).Wanted? && ParseLookup(y).Wanted? && AnswersStep(scan, run, 1, 2)
    && StateAt(scan, run, 3) == Working(1, 2, WithGraph(map[], 2, KeyIn(x), id), map[])
    && StateAt(scan, run, 5) == Working(2, 2, WithGraph(map[], 2, KeyIn(x), id), Waiting(2, KeyIn(y)))
  }

  lemma {:induction false} ReachesHit(scan: Text -> Id, x: seq<byte>, y: seq<byte>, id: Id)
    requires ReadsPrinted(scan) && ParseLookup(x).Wanted? && ParseLookup(y).Wanted? && KeyIn(x) != KeyIn(y)
    ensures |Overtaken(x, y, id)| == 6 && Welcomes(scan, Overtaken(x, y, id)) && AsksToCapture(scan, Overtaken(x, y, id), 1, x, 1)
    ensures AnswersClient(scan, Overtaken(x, y, id), 2) && AnswersStep(scan, Overtaken(x, y, id), 1, 2)
    ensures StateAt(scan, Overtaken(x, y, id), 3) == Working(1, 2, WithGraph(map[], 2, KeyIn(x), id), map[])
    ensures AnswersClient(scan, Overtaken(x, y, id), 3)
    ensures StateAt(scan, Overtaken(x, y, id), 4) == Working(1, 2, WithGraph(map[], 2, KeyIn(x), id), map[])
  {
    hide *;
    Script(x, y, id);
    FirstCapture(scan, Overtaken(x, y, id), x, id);
    OneGraph(KeyIn(x), KeyIn(y), id);
    HitAt(scan, Overtaken(x, y, id), 3, 1, 2, WithGraph(map[], 2, KeyIn(x), id), x);
  }

  lemma {:induction false} ReachesMiss(scan: Text -> Id, x: seq<byte>, y: seq<byte>, id: Id)
    requires ReadsPrinted(scan) && ParseLookup(x).Wanted? && ParseLookup(y).Wanted? && KeyIn(x) != KeyIn(y)
    ensures |Overtaken(x, y, id)| == 6 && AsksToCapture(scan, Overtaken(x, y, id), 4, y, 2)
    ensures StateAt(scan, Overtaken(x, y, id), 5) == Working(2, 2, WithGraph(map[], 2, KeyIn(x), id), Waiting(2, KeyIn(y)))
  {
    hide *;
    Script(x, y, id);
    ReachesHit(scan, x, y, id);
    OneGraph(KeyIn(x), KeyIn(y), id);
    MissAt(scan, Overtaken(x, y, id), 4, 1, 2, WithGraph(map[], 2, KeyIn(x), id), y);
  }

  lemma {:induction false} Reaches(scan: Text -> Id, x: seq<byte>, y: seq<byte>, id: Id)
    requires TwoLookups(scan, x, y)
    ensures GoesThrough(scan, Overtaken(x, y, id), x, y, id) && SendsBoth(scan, Overtaken(x, y, id), x, y)
  {
    hide ParseLookup, KeyIn, Working, WithGraph, Waiting, StateAt, Overtaken, Welcomes, AnswersStep, AsksToCapture, AnswersClient, ReadsPrinted;
    ReachesHit(scan, x, y, id);
    ReachesMiss(scan, x, y, id);
  }

  lemma IsOvertakenRun(scan: Text -> Id, x: seq<byte>, y: seq<byte>, id: Id)
    requires TwoLookups(scan, x, y)
    ensures IsRun(scan, Overtaken(x, y, id))
  {
    hide StateAt, Working, WithGraph, Waiting, Welcomes, AnswersStep, AsksToCapture, AnswersClient, ParseLookup, KeyIn, Overtaken, IsResult, IsRun,
         TwoLookups;
    Reaches(scan, x, y, id);
    forall j: nat | j < |Overtaken(x, y, id)| && IsResult(Overtaken(x, y, id)[j])
      ensures j > 0 && AnswersStep(scan, Overtaken(x, y, id), j - 1, j)
    {
      OneResult(x, y, id, j);
    }
    IsRunOfSteps(scan, Overtaken(x, y, id));
  }

  lemma {:induction false} ForwardStep(scan: Text -> Id, x: seq<byte>, y: seq<byte>, id: Id)
    requires TwoLookups(scan, x, y)
    ensures var run := Overtaken(x, y, id);
            |run| == 6 && Forwards(scan, run, 5) && SentAt(scan, run, 5)[0].to == 1
  {
    hide React, ParseLookup, KeyIn, WithGraph, IdToString, ArtifactKey, ArtifactText, NamePayload, KeyWanted, AnswersStep, StateAt, Welcomes,
         AsksToCapture, AnswersClient, WorkersKnown;
    var run, graphs := Overtaken(x, y, id), WithGraph(map[], 2, KeyIn(x), id);
    Reaches(scan, x, y, id);
    OneGraph(KeyIn(x), KeyIn(y), id);
    NamedText(IdToString(id));
    RunKnown(scan, run, 5);
    ReplayStep(scan, Working(2, 2, graphs, Waiting(2, KeyIn(y))), ReplayAt(2, id), IdToString(id));
  }

  /** The replay asks for what the hit named, and is forwarded to the worker. */
  lemma {:induction false} IsForwarded(scan: Text -> Id, x: seq<byte>, y: seq<byte>, id: Id)
    requires TwoLookups(scan, x, y)
    ensures var run := Overtaken(x, y, id);
            && AsksFor(scan, run, 3, 5, KeyIn(x)) && Forwards(scan, run, 5) && SentAt(scan, run, 5)[0].to == 1
            && KeyIn(x) in StateAt(scan, run, 3).graphs && StateAt(scan, run, 3).graphs[KeyIn(x)].artifact == id
  {
    hide React, ParseLookup, KeyIn, WithGraph, IdToString, ArtifactKey, ArtifactText, NamePayload, KeyWanted, AnswersStep, StateAt, Welcomes,
         AsksToCapture, AnswersClient, Forwards, SentAt;
    Reaches(scan, x, y, id);
    OneGraph(KeyIn(x), KeyIn(y), id);
    HitStep(scan, 1, 2, WithGraph(map[], 2, KeyIn(x), id), x);
    NamedText(IdToString(id));
    ForwardStep(scan, x, y, id);
  }

  // ----- what the worker has been sent -----

  lemma ReceivedStep(scan: Text -> Id, run: seq<Input>, j: nat, to: Socket)
    requires j < |run| && run[j] != Accept(1) && |SentAt(scan, run, j)| == 1 && SentAt(scan, run, j)[0].to == to
    ensures Received(scan, run, 1, j + 1) == Received(scan, run, 1, j) + if to == 1 then [SentAt(scan, run, j)[0].message] else []
  {
    hide SentAt;
    var sent := SentAt(scan, run, j);
    assert sent == [sent[0]] && sent[..0] == [];
    assert ToSocket(sent, 1) == ToSocket([], 1) + if to == 1 then [sent[0].message] else [];
  }

  lemma ReceivedMore(scan: Text -> Id, run: seq<Input>, n: nat, x: seq<byte>, attempt: u64)
    requires AsksToCapture(scan, run, n, x, attempt) && n < |run| && run[n] != Accept(1)
    ensures |SentAt(scan, run, n)| == 1 && Received(scan, run, 1, n + 1) == Received(scan, run, 1, n) + [SentAt(scan, run, n)[0].message]
  {
    hide SentAt, Received, ParseLookup, Passed, Instructs;
    ReceivedStep(scan, run, n, 1);
  }

  lemma ReceivedSame(scan: Text -> Id, run: seq<Input>, n: nat)
    requires AnswersClient(scan, run, n) && n < |run| && run[n] != Accept(1)
    ensures Received(scan, run, 1, n + 1) == Received(scan, run, 1, n)
  {
    hide SentAt, Received;
    ReceivedStep(scan, run, n, 2);
  }

  lemma ReceivedFirst(scan: Text -> Id, run: seq<Input>)
    requires Welcomes(scan, run) && |run| > 0 && run[0] != Accept(1)
    ensures |Received(scan, run, 1, 1)| == 1
  {
    hide SentAt;
    ReceivedStep(scan, run, 0, 1);
    assert Received(scan, run, 1, 0) == [];
  }

  lemma NotOpenedAgain(x: seq<byte>, y: seq<byte>, id: Id)
    ensures |Overtaken(x, y, id)| == 6
    ensures forall n: nat | n < 5 :: Overtaken(x, y, id)[n] != Accept(1)
  {
    hide CapturedPayload, NamePayload, IdToString;
  }

  /** Both instructions, in the order of the lookups. */
  ghost predicate HasBoth(scan: Text -> Id, run: seq<Input>) {
    && |run| == 6 && |SentAt(scan, run, 1)| == 1 && |SentAt(scan, run, 4)| == 1 && |Received(scan, run, 1, 5)| == 3
    && Received(scan, run, 1, 5)[1] == SentAt(scan, run, 1)[0].message && Received(scan, run, 1, 5)[2] == SentAt(scan, run, 4)[0].message
  }

  lemma {:induction false} WorkerIsSent(scan: Text -> Id, x: seq<byte>, y: seq<byte>, id: Id)
    requires SendsBoth(scan, Overtaken(x, y, id), x, y)
    ensures HasBoth(scan, Overtaken(x, y, id))
  {
    hide SentAt, Received, Overtaken, ParseLookup, KeyIn, AnswersStep, StateAt, Working, WithGraph, Waiting, Welcomes, AsksToCapture, AnswersClient;
    var run := Overtaken(x, y, id);
    NotOpenedAgain(x, y, id);
    ReceivedFirst(scan, run);
    ReceivedMore(scan, run, 1, x, 1);
    ReceivedSame(scan, run, 2);
    ReceivedSame(scan, run, 3);
    ReceivedMore(scan, run, 4, y, 2);
  }

  /** A valid graph that arrives whole, under an identity that the client gave it. */
  ghost predicate NamedByClient(w: Wanted, id: Id) {
    && Carries(w) && w.descriptor.artifact == id && id.Valid()
    && ValidTopology(NormalDescriptor(w.descriptor).nodes, w.descriptor.edges)
  }

  lemma CapturesNamed(m: Message, attempt: u64, x: seq<byte>, id: Id)
    requires ParseLookup(x).Wanted? && Instructs(m, attempt) && m.payload == Passed(x) && NamedByClient(ParseLookup(x), id)
    ensures Captured(m) == Some(Finalized(NormalDescriptor(ParseLookup(x).descriptor))) && Names(Captured(m), id)
    ensures |Captured(m).value.nodes| == |ParseLookup(x).descriptor.nodes|
  {
    hide ParseLookup, CapturePayload, ValidTopology, CanonicalSemantic, NormalNodes;
    SortLength(NormalDescriptor(ParseLookup(x).descriptor));
  }

  lemma SortLength(d: Descriptor)
    ensures |Finalized(d).nodes| == |d.nodes|
  {
    hide CanonicalSemantic, IdOrder.Sort;
    IdOrder.SortProperties(d.nodes, TopologyCodec.NodeKey);
  }

  /** The worker's answer is what it reports. */
  lemma AnswerIsReport(m: Message, id: Id)
    requires Instructs(m, 1) && Names(Captured(m), id) && |Captured(m).value.nodes| == 1
    ensures ReportsCapture(m, Answer(1, id).message)
  {
    hide Captured, CapturedPayload, AnswersCapture;
    AnswerFits(m, 1, id);
  }

  /** The instruction of step `n` makes the worker capture what the client named. */
  lemma CapturesAsked(scan: Text -> Id, run: seq<Input>, n: nat, x: seq<byte>, attempt: u64, id: Id)
    requires AsksToCapture(scan, run, n, x, attempt) && NamedByClient(ParseLookup(x), id)
    ensures |SentAt(scan, run, n)| == 1 && ParseLookup(x).Wanted? && Instructs(SentAt(scan, run, n)[0].message, attempt)
    ensures Captured(SentAt(scan, run, n)[0].message) == Some(Finalized(NormalDescriptor(ParseLookup(x).descriptor)))
    ensures Names(Captured(SentAt(scan, run, n)[0].message), id)
    ensures |Captured(SentAt(scan, run, n)[0].message).value.nodes| == |ParseLookup(x).descriptor.nodes|
  {
    hide SentAt, ParseLookup, Captured, Instructs, NamedByClient, Passed, Finalized, NormalDescriptor, Names;
    CapturesNamed(SentAt(scan, run, n)[0].message, attempt, x, id);
  }

  lemma FirstIsReported(scan: Text -> Id, run: seq<Input>, x: seq<byte>, id: Id)
    requires AsksToCapture(scan, run, 1, x, 1) && NamedByClient(ParseLookup(x), id) && |ParseLookup(x).descriptor.nodes| == 1 && Begins(run, x, id)
    ensures IsReported(scan, run, 1, 2)
  {
    hide SentAt, ParseLookup, Captured, Instructs, NamedByClient, ReportsCapture, Answer, Begins, AsksToCapture, Names;
    BeginsThere(run, x, id);
    CapturesAsked(scan, run, 1, x, 1, id);
    AnswerIsReport(SentAt(scan, run, 1)[0].message, id);
  }

  lemma IsFaithful(scan: Text -> Id, x: seq<byte>, y: seq<byte>, id: Id)
    requires SendsBoth(scan, Overtaken(x, y, id), x, y) && NamedByClient(ParseLookup(x), id) && |ParseLookup(x).descriptor.nodes| == 1
    ensures Faithful(scan, Overtaken(x, y, id))
  {
    hide ParseLookup, KeyIn, StateAt, AnswersStep, NamedByClient, Succeeds, Working, WithGraph, Waiting, Overtaken, Begins, AsksToCapture, AnswersClient,
         Welcomes, IsReported;
    Script(x, y, id);
    FirstIsReported(scan, Overtaken(x, y, id), x, id);
    forall j: nat | j < |Overtaken(x, y, id)| && Succeeds(Overtaken(x, y, id)[j])
      ensures exists i: nat :: IsReported(scan, Overtaken(x, y, id), i, j)
    {
      OneResult(x, y, id, j);
    }
  }

  /** What the worker executes for the first client is the second client's graph. */
  lemma {:induction false} ExecutesOther(scan: Text -> Id, run: seq<Input>, y: seq<byte>, id: Id)
    requires HasBoth(scan, run) && AsksToCapture(scan, run, 4, y, 2) && NamedByClient(ParseLookup(y), id)
    requires |SentAt(scan, run, 5)| == 1 && SentAt(scan, run, 5)[0].to == 1
    ensures ParseLookup(y).Wanted? && Executed(scan, run, 5, id) == Some(Finalized(NormalDescriptor(ParseLookup(y).descriptor)))
  {
    hide SentAt, ParseLookup, Captured, Instructs, NamedByClient, AsksToCapture, Received, Graphs, Target, IdToString, Names, Finalized, NormalDescriptor;
    var ms := Received(scan, run, 1, 5);
    CapturesAsked(scan, run, 4, y, 2, id);
    var q := LastCaptureWins(ms, 2, id);
    LastIsCaptured(ms, q, id);
    TargetOf(Graphs(ms), id);
  }

  // ----- two graphs that replay differently -----

  /** One node that fills no bytes, and is counted. */
  const FILLING := DEFAULT_NODE.(id := Id(0, 1), category := MEMORY_SET)

  lemma CountsApart(fp: Arithmetic, g: CpuGraph, h: CpuGraph)
    requires Captures([FILLING], [], g) && h.order == []
    ensures !SameReplayOn(fp, g, h)
  {
    hide CanonicalOrder, ClassifyKernel;
    var io := Buffers([], [0]);
    OneInOrder(g);
    assert Find(g.nodes, g.order[0]) == Some(g.nodes[0]);
    var o := Exec(fp, io, InstrOf(g.nodes[0]), [], [], 0);
    assert o.Running? && o.count == 1;
    assert ReplayFrom(fp, io, g, 1, o) == o;
    assert Replay(fp, io, g, []) == o;
    assert Replay(fp, io, h, []) == Running([], [], 0);
  }

  lemma OneInOrder(g: CpuGraph)
    requires Captures([FILLING], [], g)
    ensures g.order == [FILLING.id] && |g.nodes| == 1 && g.nodes[0] == CpuNodeOf(FILLING)
  {
    assert [FILLING][0].id in NodeIds([FILLING]);
    assert FILLING.id in Elems(g.order);
    if |g.order| >= 2 {
      TwoApart(g.order, FILLING.id);
    }
    assert g.order == [g.order[0]];
  }

  lemma TwoApart(s: seq<Id>, x: Id)
    requires Distinct(s) && |s| >= 2
    ensures !(Elems(s) <= {x})
  {
    assert s[0] in Elems(s) && s[1] in Elems(s) && s[0] != s[1];
  }

  lemma NoneInOrder(h: CpuGraph)
    requires Captures([], [], h)
    ensures h.order == []
  {
    if h.order != [] {
      SomeElement(h.order);
    }
  }

  lemma SomeElement(s: seq<Id>)
    requires s != []
    ensures Elems(s) != {}
  {
    assert s[0] in Elems(s);
  }

  /** The hit names the first graph, the replay is forwarded, and the worker executes the second one. */
  ghost predicate ReplaysOther(scan: Text -> Id, x: seq<byte>, y: seq<byte>, id: Id) {
    var run := Overtaken(x, y, id);
    && ParseLookup(x).Wanted? && ParseLookup(y).Wanted? && IsRun(scan, run) && Faithful(scan, run)
    && AsksFor(scan, run, 3, 5, KeyIn(x)) && Forwards(scan, run, 5)
    && Executed(scan, run, 5, id) == Some(Finalized(NormalDescriptor(ParseLookup(y).descriptor)))
  }

  lemma WorkerReplaysOther(scan: Text -> Id, x: seq<byte>, y: seq<byte>, id: Id)
    requires TwoLookups(scan, x, y) && NamedByClient(ParseLookup(x), id) && NamedByClient(ParseLookup(y), id)
    requires |ParseLookup(x).descriptor.nodes| == 1
    ensures ReplaysOther(scan, x, y, id)
  {
    hide ParseLookup, KeyIn, ReadsPrinted, NamedByClient, Overtaken, IsRun, Faithful, AsksFor, Forwards, Executed, Finalized, NormalDescriptor, StateAt,
         GoesThrough, SendsBoth, HasBoth, Begins, SentAt, AsksToCapture;
    Script(x, y, id);
    Reaches(scan, x, y, id);
    AskedThere(scan, Overtaken(x, y, id), x, y);
    IsOvertakenRun(scan, x, y, id);
    IsFaithful(scan, x, y, id);
    IsForwarded(scan, x, y, id);
    WorkerIsSent(scan, x, y, id);
    ForwardsOnce(scan, Overtaken(x, y, id), 5);
    ExecutesOther(scan, Overtaken(x, y, id), y, id);
  }

  lemma AskedThere(scan: Text -> Id, run: seq<Input>, x: seq<byte>, y: seq<byte>)
    requires SendsBoth(scan, run, x, y)
    ensures AsksToCapture(scan, run, 4, y, 2)
  {
    hide AsksToCapture, Welcomes, AnswersStep, AnswersClient, StateAt, Working, WithGraph;
  }

  lemma ForwardsOnce(scan: Text -> Id, run: seq<Input>, j: nat)
    requires j < |run| && Forwards(scan, run, j)
    ensures |SentAt(scan, run, j)| == 1
  {
    hide SentAt;
  }

  /**
    Two clients, two valid graphs under one identity of the clients' choice: the
    worker replays the second graph for the first client, and on every machine
    that does something else.
   */
  lemma AnotherGraphIsReplayed(scan: Text -> Id, x: seq<byte>, y: seq<byte>, id: Id)
    requires TwoLookups(scan, x, y) && NamedByClient(ParseLookup(x), id) && NamedByClient(ParseLookup(y), id)
    requires ParseLookup(x).descriptor.nodes == [FILLING] && ParseLookup(x).descriptor.edges == []
    requires ParseLookup(y).descriptor.nodes == [] && ParseLookup(y).descriptor.edges == []
    ensures ReplaysOther(scan, x, y, id)
    ensures var d, e := ParseLookup(x).descriptor, Finalized(NormalDescriptor(ParseLookup(y).descriptor));
            forall fp, g, h | Captures(d.nodes, d.edges, g) && Captures(e.nodes, e.edges, h) :: !SameReplayOn(fp, g, h)
  {
    hide ParseLookup, KeyIn, ReadsPrinted, NamedByClient, ReplaysOther, Captures, SameReplayOn, Finalized, NormalDescriptor;
    WorkerReplaysOther(scan, x, y, id);
    NothingLeft(ParseLookup(y).descriptor);
    forall fp, g, h | Captures([FILLING], [], g) && Captures([], [], h)
      ensures !SameReplayOn(fp, g, h)
    {
      NoneInOrder(h);
      CountsApart(fp, g, h);
    }
  }

  lemma NothingLeft(d: Descriptor)
    requires d.nodes == [] && d.edges == []
    ensures Finalized(NormalDescriptor(d)).nodes == [] && Finalized(NormalDescriptor(d)).edges == []
  {
    hide CanonicalSemantic;
  }
}
