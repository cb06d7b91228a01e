/**
  From the hit to the execution. A worker sees what the coordinator sends on its
  connection, in that order, so what a forwarded replay executes is the last
  capture that was sent to the worker under the named artifact, whether or not
  its result has come back.
 */
module CoordinatorWorker {
  import opened Bytes
  import opened Canonical
  import opened Descriptors
  import opened Protocol
  import opened HexIds
  import opened TopologyCodec
  import opened StoredCodec
  import opened HitSoundness
  import opened FactsCodec
  import opened CoordinatorCore
  import opened Coordinator
  import opened CoordinatorRuns
  import opened CoordinatorSafety
  import opened CoordinatorReplay
  import opened CoordinatorHits
  import opened Worker

  // ----- what a connection is sent -----

  function ToSocket(sent: seq<Sent>, s: Socket): seq<Message> {
    if sent == [] then []
    else ToSocket(sent[..|sent| - 1], s) + if sent[|sent| - 1].to == s then [sent[|sent| - 1].message] else []
  }

  /** What has been sent on socket `s` before step `j`, since the socket was last opened. */
  function Received(scan: Text -> Id, run: seq<Input>, s: Socket, j: nat): seq<Message>
    requires j <= |run|
  {
    if j == 0 then []
    else if run[j - 1] == Accept(s) then []
    else Received(scan, run, s, j - 1) + ToSocket(SentAt(scan, run, j - 1), s)
  }

  ghost predicate StaysOpen(run: seq<Input>, s: Socket, a: nat, b: nat)
    requires b <= |run|
  {
    forall m: nat | a <= m < b :: run[m] != Accept(s)
  }

  lemma {:induction false} ReceivedGrows(scan: Text -> Id, run: seq<Input>, s: Socket, a: nat, b: nat)
    requires a <= b <= |run| && StaysOpen(run, s, a, b)
    ensures Received(scan, run, s, a) <= Received(scan, run, s, b)
  {
    hide SentAt, ToSocket;
    if a < b {
      ReceivedGrows(scan, run, s, a, b - 1);
    }
  }

  /** Step `i` sends just this message, on this socket. */
  predicate SendsOnly(scan: Text -> Id, run: seq<Input>, i: nat, s: Socket, x: Message) {
    i < |run| && SentAt(scan, run, i) == [Sent(s, x)]
  }

  lemma {:induction false} SentIsReceived(scan: Text -> Id, run: seq<Input>, s: Socket, i: nat, j: nat, x: Message)
    requires i < j <= |run| && StaysOpen(run, s, i, j) && SendsOnly(scan, run, i, s, x)
    ensures |Received(scan, run, s, i)| < |Received(scan, run, s, j)| && Received(scan, run, s, j)[|Received(scan, run, s, i)|] == x
  {
    hide SentAt;
    assert [Sent(s, x)][..0] == [];
    assert ToSocket([Sent(s, x)], s) == [x];
    assert Received(scan, run, s, i + 1) == Received(scan, run, s, i) + [x];
    ReceivedGrows(scan, run, s, i + 1, j);
  }

  // ----- workers that answer as they do -----

  /** The result reports what the instruction made the worker capture. */
  ghost predicate ReportsCapture(x: Message, m: Message) {
    && AnswersCapture(x, m) && Captured(x).Some?
    && m.payload == CapturedPayload(Captured(x).value.artifact, |Captured(x).value.nodes| % TWO_32)
  }

  /** The answer that the worker's own loop gives is such a report. */
  lemma WorkerReports(worker: u64, boot: u64, x: Message)
    requires x.kind == CAPTURE_INSTRUCT && Captured(x).Some?
    ensures WorkerReply(worker, boot, x, Report(x)).Some? && ReportsCapture(x, WorkerReply(worker, boot, x, Report(x)).value)
  {
    hide Captured, CapturedPayload;
    WorkerEchoes(worker, boot, x, Report(x));
  }

  ghost predicate IsReported(scan: Text -> Id, run: seq<Input>, i: nat, j: nat) {
    i < j < |run| && run[j].Receive? && |SentAt(scan, run, i)| == 1 && ReportsCapture(SentAt(scan, run, i)[0].message, run[j].message)
  }

  predicate Succeeds(i: Input) {
    i.Receive? && i.message.kind == CAPTURE_RESULT && i.message.status == OK
  }

  /** Every successful result is reported by a worker for an instruction it was sent. */
  ghost predicate Faithful(scan: Text -> Id, run: seq<Input>) {
    forall j: nat | j < |run| && Succeeds(run[j]) :: exists i: nat :: IsReported(scan, run, i, j)
  }

  /** Attempts are numbered apart, so the result of a dispatch answers that dispatch. */
  lemma OneDispatch(scan: Text -> Id, run: seq<Input>, i: nat, j: nat)
    requires IsRun(scan, run) && i < |run| && j < |run|
    requires Dispatches(StateAt(scan, run, i), run[i]) && Dispatches(StateAt(scan, run, j), run[j])
    requires Bump(StateAt(scan, run, i).captures) == Bump(StateAt(scan, run, j).captures)
    ensures i == j
  {
    hide React, StateAt, Apply, CoreAt, EffectOf, Instructed, Dispatches;
    if i < j {
      LaterDispatch(scan, run, i, j);
    } else if j < i {
      LaterDispatch(scan, run, j, i);
    }
  }

  lemma LaterDispatch(scan: Text -> Id, run: seq<Input>, i: nat, j: nat)
    requires IsRun(scan, run) && i < j < |run|
    requires Dispatches(StateAt(scan, run, i), run[i]) && Dispatches(StateAt(scan, run, j), run[j])
    ensures Bump(StateAt(scan, run, i).captures) < Bump(StateAt(scan, run, j).captures)
  {
    hide React, StateAt, Apply, CoreAt, Instructed, ParseLookup, KeyHex, LookupFacts, Refusal, ArtifactText;
    RunRefines(scan, run, i);
    RunRefines(scan, run, j);
    DispatchEffect(scan, StateAt(scan, run, i), run[i]);
    Counters(Effects(scan, run), j);
    PendingStays(Effects(scan, run), i, j);
  }

  /** What was captured is what the dispatch asked for, and is named as the hit names it. */
  lemma CapturedIsReported(scan: Text -> Id, run: seq<Input>, i: nat, p: nat, n: nat, k: Text)
    requires IsRun(scan, run) && Faithful(scan, run) && ReadsPrinted(scan)
    requires i < p < n <= |run| && CapturedFor(scan, run, i, p, n, k)
    ensures |SentAt(scan, run, i)| == 1 && k in StateAt(scan, run, n).graphs
    ensures Names(Captured(SentAt(scan, run, i)[0].message), StateAt(scan, run, n).graphs[k].artifact)
  {
    hide React, StateAt, Instructed, KeyHex, LookupFacts, Refusal, ArtifactText, ParseLookup, IdToString, Captured, CapturedPayload, ArtifactKey,
         Dispatches, Bump, KeyWanted;
    var h: nat :| IsReported(scan, run, h, p);
    var x := SentAt(scan, run, h)[0];
    StepSends(scan, StateAt(scan, run, h), run[h]);
    assert x in React(scan, StateAt(scan, run, h), run[h]).sent && x.message.kind == CAPTURE_INSTRUCT;
    OneDispatch(scan, run, h, i);
    PrintedName(Captured(x.message).value.artifact, |Captured(x.message).value.nodes| % TWO_32);
  }

  // ----- what a forwarded replay executes -----

  /** The connection that was told to capture, at step `i`, is the one that step `j` sends on. */
  ghost predicate OneConnection(scan: Text -> Id, run: seq<Input>, i: nat, j: nat) {
    && i < j < |run| && |SentAt(scan, run, i)| == 1 && |SentAt(scan, run, j)| == 1
    && SentAt(scan, run, i)[0].to == SentAt(scan, run, j)[0].to && StaysOpen(run, SentAt(scan, run, j)[0].to, i, j)
  }

  /** What the worker at the other end has been sent when it comes to the message of step `j`. */
  function Before(scan: Text -> Id, run: seq<Input>, j: nat): seq<Message>
    requires j < |run| && |SentAt(scan, run, j)| == 1
  {
    Received(scan, run, SentAt(scan, run, j)[0].to, j)
  }

  /** The graph that the worker executes for the replay of step `j`, which names artifact `id`. */
  ghost function Executed(scan: Text -> Id, run: seq<Input>, j: nat, id: Id): Option<Descriptor>
    requires j < |run| && |SentAt(scan, run, j)| == 1
  {
    Target(Graphs(Before(scan, run, j)), IdToString(id))
  }

  /** Where in that stream the instruction of step `i` is. */
  function Place(scan: Text -> Id, run: seq<Input>, i: nat, j: nat): nat
    requires i <= j < |run| && |SentAt(scan, run, j)| == 1
  {
    |Received(scan, run, SentAt(scan, run, j)[0].to, i)|
  }

  lemma InstructionIsThere(scan: Text -> Id, run: seq<Input>, i: nat, j: nat)
    requires OneConnection(scan, run, i, j)
    ensures Place(scan, run, i, j) < |Before(scan, run, j)| && Before(scan, run, j)[Place(scan, run, i, j)] == SentAt(scan, run, i)[0].message
  {
    hide SentAt, Received;
    var s := SentAt(scan, run, j)[0].to;
    assert SentAt(scan, run, i) == [Sent(s, SentAt(scan, run, i)[0].message)];
    SentIsReceived(scan, run, s, i, j, SentAt(scan, run, i)[0].message);
  }

  /**
    In every run, on the connection that was told to capture: for a forwarded
    replay of what a hit named, the worker executes the last capture that was
    sent to it under that artifact, from the captured lookup on.
   */
  lemma ReplayExecutes(scan: Text -> Id, run: seq<Input>, n: nat, j: nat, k: Text) returns (i: nat, p: nat, q: nat)
    requires IsRun(scan, run) && Faithful(scan, run) && ReadsPrinted(scan) && n < j < |run|
    requires AsksFor(scan, run, n, j, k) && Forwards(scan, run, j)
    ensures i < p < n && CapturedFor(scan, run, i, p, n, k) && OneGraphAt(run, n, i)
    ensures OneConnection(scan, run, i, j) ==>
              var id := StateAt(scan, run, n).graphs[k].artifact;
              && Place(scan, run, i, j) <= q && LastUnder(Before(scan, run, j), q, id)
              && Executed(scan, run, j, id) == Captured(Before(scan, run, j)[q])
  {
    hide React, StateAt, Instructed, CapturedFor, OneGraphAt, ParseLookup, IdToString, Captured, Received, Graphs, Target, LastUnder, Names, Faithful,
         IsRun, ReadsPrinted, ArtifactText, KeyWanted, OneConnection;
    i, p := HitIsOfOneGraph(scan, run, n, k);
    CapturedIsReported(scan, run, i, p, n, k);
    q := 0;
    if OneConnection(scan, run, i, j) {
      var id := StateAt(scan, run, n).graphs[k].artifact;
      InstructionIsThere(scan, run, i, j);
      q := LastCaptureWins(Before(scan, run, j), Place(scan, run, i, j), id);
      TargetOf(Graphs(Before(scan, run, j)), id);
    }
  }

  // ----- and whether that is the client's graph -----

  /** The coordinator's re-encoding of a lookup comes back as that lookup's descriptor and workload, as far as they are ever written. */
  predicate Carries(w: Wanted) {
    && w.Wanted? && ParseLookup(CapturePayload(w.descriptor, w.workload)).Wanted?
    && ParseLookup(CapturePayload(w.descriptor, w.workload)).descriptor == NormalDescriptor(w.descriptor)
    && ParseLookup(CapturePayload(w.descriptor, w.workload)).workload == w.workload.(revisionMode := 0, policyGeneration := [])
  }

  lemma CarriesWithinLimits(w: Wanted)
    requires w.Wanted? && DescriptorWithinLimits(w.descriptor) && |SerializeDescriptor(w.descriptor)| < TWO_32
    requires |w.workload.name| < TWO_32 && |w.workload.namespace| < TWO_32 && |w.workload.modelRevision| < TWO_32
    ensures Carries(w)
  {
    hide Flatten, Tokenize, SerializeDescriptor, DeserializeDescriptor, DescriptorWithinLimits, NormalDescriptor, Be32, FromBe32;
    var wl := w.workload;
    var fs := [Field(1, SerializeDescriptor(w.descriptor)), Field(2, wl.name), Field(3, Be32(wl.version)), Field(4, wl.namespace),
               Field(5, wl.modelRevision)];
    assert AllFit(fs);
    TokenizeFlatten(fs);
    DescriptorBack(w.descriptor);
    assert fs[1..][0] == fs[1] && fs[1..][1..][0] == fs[2] && fs[1..][1..][1..][0] == fs[3] && fs[1..][1..][1..][1..][0] == fs[4];
  }

  lemma DispatchSends(scan: Text -> Id, st: State, i: Input)
    requires Dispatches(st, i)
    ensures var w := ParseLookup(i.message.payload);
            |React(scan, st, i).sent| == 1 && React(scan, st, i).sent[0].message.payload == CapturePayload(w.descriptor, w.workload)
  {
    StepCases(scan, st, i);
    hide React, ParseLookup, KeyHex, LookupFacts, CapturePayload, BootFor, SocketFor, Refusal, Bump;
  }

  /** The instruction of a dispatch is for the graph that was asked for. */
  lemma InstructionTopology(scan: Text -> Id, run: seq<Input>, i: nat)
    requires i < |run| && Dispatches(StateAt(scan, run, i), run[i]) && Carries(WantedAt(run, i))
    requires TopologyFits(WantedAt(run, i).descriptor.nodes, WantedAt(run, i).descriptor.edges)
    ensures |SentAt(scan, run, i)| == 1 && ParseLookup(SentAt(scan, run, i)[0].message.payload).Wanted?
    ensures var c, d := Carried(SentAt(scan, run, i)[0].message), WantedAt(run, i).descriptor;
            CanonicalTopology(c.nodes, c.edges) == CanonicalTopology(d.nodes, d.edges)
  {
    hide React, StateAt, ParseLookup, KeyHex, LookupFacts, CapturePayload, CanonicalTopology, TopologyFits, NormalDescriptor, Refusal;
    DispatchSends(scan, StateAt(scan, run, i), run[i]);
    SentTopology(WantedAt(run, i).descriptor);
  }

  /** Nothing else was captured under the artifact since, or everything captured under it is named after what it means. */
  ghost predicate Undisturbed(ms: seq<Message>, place: nat, id: Id) {
    LastUnder(ms, place, id) || NamedByMeaning(ms, id)
  }

  lemma UndisturbedTopology(ms: seq<Message>, place: nat, q: nat, id: Id)
    requires place < |ms| && Names(Captured(ms[place]), id) && LastUnder(ms, q, id) && place <= q && Undisturbed(ms, place, id)
    ensures q < |ms| && Captured(ms[q]).Some? && ParseLookup(ms[place].payload).Wanted?
    ensures var g, c := Captured(ms[q]).value, Carried(ms[place]);
            CanonicalTopology(g.nodes, g.edges) == CanonicalTopology(c.nodes, c.edges)
  {
    hide Captured, ParseLookup, CanonicalTopology, NamedByMeaning, Carried, Graphs;
    CapturedFrom(ms[place]);
    if LastUnder(ms, place, id) {
      assert place == q;
    } else {
      KeepsTopology(ms, place, id);
      var r := LastCaptureWins(ms, place, id);
      assert r == q;
    }
  }

  /** The lookups of steps `n` and `i` do not collide in their keys and are carried in full. */
  ghost predicate Sound(run: seq<Input>, n: nat, i: nat) {
    && n < |run| && i < |run| && run[n].Receive? && run[i].Receive? && WantedAt(run, n).Wanted? && Carries(WantedAt(run, i))
    && var v, w := WantedAt(run, n), WantedAt(run, i);
       && |EncodeFacts(FactsWanted(v))| < TWO_32 && NoCollision(EncodeFacts(FactsWanted(v)), EncodeFacts(FactsWanted(w)))
       && TopologyFits(v.descriptor.nodes, v.descriptor.edges) && TopologyFits(w.descriptor.nodes, w.descriptor.edges)
  }

  /**
    The worker executes for a client whose lookup hit a graph that can stand in
    for the client's own, whenever it has that canonical graph at all: so when
    the connection is still the one that captured it, and nothing was captured
    under the artifact since or clients do not name their graphs themselves.
   */
  lemma HitExecutesOwnGraph(scan: Text -> Id, run: seq<Input>, n: nat, j: nat, k: Text) returns (i: nat, g: Descriptor)
    requires IsRun(scan, run) && Faithful(scan, run) && ReadsPrinted(scan) && n < j < |run|
    requires AsksFor(scan, run, n, j, k) && Forwards(scan, run, j)
    ensures i < n && run[n].Receive?
    ensures OneConnection(scan, run, i, j) ==>
              var id, v := StateAt(scan, run, n).graphs[k].artifact, WantedAt(run, n);
              && Executed(scan, run, j, id) == Some(g)
              && (Sound(run, n, i) && Undisturbed(Before(scan, run, j), Place(scan, run, i, j), id) ==>
                    CanonicalTopology(g.nodes, g.edges) == CanonicalTopology(v.descriptor.nodes, v.descriptor.edges))
              && (v.Wanted? && TopologyFits(v.descriptor.nodes, v.descriptor.edges) && TopologyFits(g.nodes, g.edges)
                  && CanonicalTopology(g.nodes, g.edges) == CanonicalTopology(v.descriptor.nodes, v.descriptor.edges) ==>
                    ReplaysLike(v.descriptor, g))
  {
    hide React, StateAt, Instructed, CapturedFor, OneGraphAt, ParseLookup, IdToString, Captured, Received, Graphs, Target, LastUnder, Names, Faithful,
         IsRun, ReadsPrinted, ArtifactText, KeyWanted, OneConnection, CanonicalTopology, TopologyFits, ReplaysLike, Undisturbed, Sound, Executed, Before,
         Place;
    var p, q;
    i, p, q := ReplayExecutes(scan, run, n, j, k);
    CapturedIsReported(scan, run, i, p, n, k);
    g := WantedAt(run, n).descriptor;
    if OneConnection(scan, run, i, j) {
      var id, v := StateAt(scan, run, n).graphs[k].artifact, WantedAt(run, n);
      LastIsCaptured(Before(scan, run, j), q, id);
      g := Captured(Before(scan, run, j)[q]).value;
      if Sound(run, n, i) && Undisturbed(Before(scan, run, j), Place(scan, run, i, j), id) {
        InstructionIsThere(scan, run, i, j);
        UndisturbedTopology(Before(scan, run, j), Place(scan, run, i, j), q, id);
        SoundTopology(scan, run, i, p, n, k);
      }
      if v.Wanted? && TopologyFits(v.descriptor.nodes, v.descriptor.edges) && TopologyFits(g.nodes, g.edges)
         && CanonicalTopology(g.nodes, g.edges) == CanonicalTopology(v.descriptor.nodes, v.descriptor.edges) {
        SameTopologyReplaysLike(v.descriptor, g);
      }
    }
  }

  lemma LastIsCaptured(ms: seq<Message>, q: nat, id: Id)
    requires LastUnder(ms, q, id)
    ensures q < |ms| && Captured(ms[q]).Some?
  {
    hide Captured;
  }

  /** The dispatch was of the client's canonical graph. */
  lemma SoundTopology(scan: Text -> Id, run: seq<Input>, i: nat, p: nat, n: nat, k: Text)
    requires IsRun(scan, run) && i < p < n < |run| && CapturedFor(scan, run, i, p, n, k) && Sound(run, n, i)
    requires Hits(StateAt(scan, run, n), run[n], k)
    ensures |SentAt(scan, run, i)| == 1 && ParseLookup(SentAt(scan, run, i)[0].message.payload).Wanted?
    ensures var c, v := Carried(SentAt(scan, run, i)[0].message), WantedAt(run, n);
            CanonicalTopology(c.nodes, c.edges) == CanonicalTopology(v.descriptor.nodes, v.descriptor.edges)
  {
    hide React, StateAt, Instructed, ParseLookup, KeyHex, LookupFacts, CanonicalTopology, TopologyFits, Refusal, ArtifactText, EncodeFacts, NoCollision,
         CapturePayload, NormalDescriptor, ArtifactKey, Carried, Carries;
    KeyIsNoArtifact(scan, run, i, p, n, k);
    InstructionTopology(scan, run, i);
    SameKeyExactly(WantedAt(run, n), WantedAt(run, i));
  }
}
