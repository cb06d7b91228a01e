/**
  Where a replay is forwarded to: the socket that the worker last registered on,
  whatever has become of that connection since, because nothing ever takes a
  worker's socket away.
 */
module CoordinatorTarget {
  import opened Bytes
  import opened Descriptors
  import opened Protocol
  import opened HexIds
  import opened CoordinatorCore
  import opened Coordinator
  import opened CoordinatorRuns
  import opened CoordinatorSafety
  import opened CoordinatorReplay
  import opened CoordinatorTraces

  // ----- when the target is a connection of the worker -----

  /** The step registers worker `w` on socket `s`. */
  predicate RegistersAs(st: State, i: Input, w: u64, s: Socket) {
    && i.Receive? && i.socket == s && i.message.kind == REGISTER && i.message.workerId == w && !StaleEpoch(st, i.message)
    && !(w in st.connected && BootFor(st.boots, w) != 0 && BootFor(st.boots, w) != i.message.workerBoot)
  }

  /** The step takes socket `s` away from worker `w`: it is closed, opened anew, or registered by another worker. */
  predicate Drops(st: State, i: Input, w: u64, s: Socket) {
    i == Accept(s) || i == Close(s) || (i.Receive? && i.message.workerId != w && RegistersAs(st, i, i.message.workerId, s))
  }

  /** The socket that replays for this worker are sent on is a connection of this worker. */
  predicate Reachable(st: State, w: u64) {
    w in st.sockets && st.sockets[w] in st.workerConns && st.workerConns[st.sockets[w]] == w
  }

  predicate Registering(st: State, i: Input) {
    i.Receive? && RegistersAs(st, i, i.message.workerId, i.socket)
  }

  lemma ActingKeepsSockets(scan: Text -> Id, st: State, i: Input)
    requires Acts(st, i)
    ensures React(scan, st, i).state.sockets == st.sockets && React(scan, st, i).state.workerConns == st.workerConns
    ensures i.Receive? && !Registering(st, i)
  {
    StepCases(scan, st, i);
    hide React, Refusal, ParseLookup, KeyHex, LookupFacts, CapturePayload, NamePayload, ArtifactText, IdToString, Keys, ArtifactKey, Bump, BootFor,
         SocketFor, StaleEpoch;
  }

  lemma OtherSockets(scan: Text -> Id, st: State, i: Input)
    requires !Acts(st, i)
    ensures SocketsAfter(st, i, React(scan, st, i).state)
  {
    hide OnLookup, OnCaptureResult, OnReplayInstruct, OnReplayResult, OnInvalidate, BootFor;
  }

  /** Registration alone gives a worker a socket, and opening and closing alone take a connection away. */
  predicate SocketsAfter(st: State, i: Input, x: State) {
    && x.sockets == (if Registering(st, i) then st.sockets[i.message.workerId := i.socket] else st.sockets)
    && x.workerConns == (if Registering(st, i) then st.workerConns[i.socket := i.message.workerId]
                         else if i.Accept? || i.Close? then st.workerConns - {i.socket}
                         else st.workerConns)
  }

  lemma SocketStep(scan: Text -> Id, st: State, i: Input)
    ensures SocketsAfter(st, i, React(scan, st, i).state)
  {
    hide React, Acts, Registering;
    if Acts(st, i) {
      ActingKeepsSockets(scan, st, i);
    } else {
      OtherSockets(scan, st, i);
    }
  }

  /** Worker `w` registered at step `r` on socket `s` and did not register again before step `j`. */
  ghost predicate LastRegistered(scan: Text -> Id, run: seq<Input>, r: nat, j: nat, w: u64, s: Socket)
    requires j <= |run|
  {
    && r < j && RegistersAs(StateAt(scan, run, r), run[r], w, s)
    && (forall m: nat | r < m < j :: !(run[m].Receive? && RegistersAs(StateAt(scan, run, m), run[m], w, run[m].socket)))
  }

  ghost predicate NeverDropped(scan: Text -> Id, run: seq<Input>, r: nat, j: nat, w: u64, s: Socket)
    requires j <= |run|
  {
    forall m: nat | r < m < j :: !Drops(StateAt(scan, run, m), run[m], w, s)
  }

  lemma {:induction false} ReachableExactly(scan: Text -> Id, run: seq<Input>, r: nat, j: nat, w: u64, s: Socket)
    requires j <= |run| && LastRegistered(scan, run, r, j, w, s)
    ensures w in StateAt(scan, run, j).sockets && StateAt(scan, run, j).sockets[w] == s
    ensures Reachable(StateAt(scan, run, j), w) <==> NeverDropped(scan, run, r, j, w, s)
    decreases j
  {
    hide React, StaleEpoch, BootFor;
    SocketStep(scan, StateAt(scan, run, j - 1), run[j - 1]);
    if r < j - 1 {
      ReachableExactly(scan, run, r, j - 1, w, s);
      assert NeverDropped(scan, run, r, j, w, s) <==>
               NeverDropped(scan, run, r, j - 1, w, s) && !Drops(StateAt(scan, run, j - 1), run[j - 1], w, s);
    }
  }

  lemma {:induction false} HasRegistered(scan: Text -> Id, run: seq<Input>, j: nat, w: u64) returns (r: nat, s: Socket)
    requires j <= |run| && w in StateAt(scan, run, j).sockets
    ensures LastRegistered(scan, run, r, j, w, s)
    decreases j
  {
    hide React, StaleEpoch, BootFor;
    if j > 0 {
      SocketStep(scan, StateAt(scan, run, j - 1), run[j - 1]);
      if run[j - 1].Receive? && RegistersAs(StateAt(scan, run, j - 1), run[j - 1], w, run[j - 1].socket) {
        r, s := j - 1, run[j - 1].socket;
      } else {
        r, s := HasRegistered(scan, run, j - 1, w);
      }
    }
  }

  /**
    Every forwarded replay goes to the socket that the graph's worker last
    registered on, and that is a connection of this worker exactly when the
    socket was not closed, opened anew or registered by another worker since.
   */
  lemma ForwardTarget(scan: Text -> Id, run: seq<Input>, j: nat) returns (w: u64, r: nat, s: Socket)
    requires j < |run| && Passes(StateAt(scan, run, j), run[j], REPLAY_INSTRUCT) && run[j].message.graphGen != 0 && Forwards(scan, run, j)
    ensures LastRegistered(scan, run, r, j, w, s) && SentAt(scan, run, j)[0].to == s
    ensures ArtifactText(run[j].message.payload).Some?
    ensures var a := ArtifactKey(ArtifactText(run[j].message.payload).value);
            Serves(StateAt(scan, run, j), a) && StateAt(scan, run, j).graphs[a].worker == w
    ensures Reachable(StateAt(scan, run, j), w) <==> NeverDropped(scan, run, r, j, w, s)
  {
    hide React, StateAt, ArtifactText, ArtifactKey, Refusal, WorkersKnown, LastRegistered, NeverDropped, Reachable;
    var st := StateAt(scan, run, j);
    StepSends(scan, st, run[j]);
    assert SentAt(scan, run, j)[0] in React(scan, st, run[j]).sent;
    var text := ArtifactText(run[j].message.payload).value;
    RunKnown(scan, run, j);
    ReplayStep(scan, st, run[j], text);
    w := st.graphs[ArtifactKey(text)].worker;
    KnownWorker(st, ArtifactKey(text));
    r, s := HasRegistered(scan, run, j, w);
    ReachableExactly(scan, run, r, j, w, s);
  }

  lemma KnownWorker(st: State, k: Text)
    requires WorkersKnown(st) && k in st.graphs
    ensures st.graphs[k].worker in st.sockets
  {
  }

  // ----- and a run in which it is not -----

  /** The worker disconnects after its capture, and a replay follows. */
  function Gone(x: seq<byte>, id: Id): seq<Input> {
    [REGISTERING, Ask(x), Answer(1, id), Close(1), ReplayAt(2, id)]
  }

  lemma Script(x: seq<byte>, id: Id)
    ensures Begins(Gone(x, id), x, id) && |Gone(x, id)| == 5 && Gone(x, id)[3] == Close(1) && Gone(x, id)[4] == ReplayAt(2, id)
  {
  }

  function Alone(graphs: map<Text, Entry>): State {
    Working(1, 2, graphs, map[]).(connected := {}, workerConns := map[])
  }

  lemma Closes(scan: Text -> Id, graphs: map<Text, Entry>)
    ensures React(scan, Working(1, 2, graphs, map[]), Close(1)).state == Alone(graphs)
  {
    assert map[1 := 1] - {1} == map[];
  }

  lemma OneResult(x: seq<byte>, id: Id, j: nat)
    requires j < 5 && IsResult(Gone(x, id)[j])
    ensures j == 2
  {
    hide CapturedPayload, NamePayload, IdToString;
  }

  lemma {:induction false} IsGoneRun(scan: Text -> Id, x: seq<byte>, id: Id)
    requires ReadsPrinted(scan) && ParseLookup(x).Wanted?
    ensures IsRun(scan, Gone(x, id)) && |Gone(x, id)| == 5
    ensures StateAt(scan, Gone(x, id), 4) == Alone(WithGraph(map[], 2, KeyIn(x), id))
  {
    hide *;
    Script(x, id);
    FirstCapture(scan, Gone(x, id), x, id);
    Closes(scan, WithGraph(map[], 2, KeyIn(x), id));
    StepTo(scan, Gone(x, id), 3, Working(1, 2, WithGraph(map[], 2, KeyIn(x), id), map[]), Close(1), Alone(WithGraph(map[], 2, KeyIn(x), id)));
    forall j: nat | j < |Gone(x, id)| && IsResult(Gone(x, id)[j])
      ensures j > 0 && AnswersStep(scan, Gone(x, id), j - 1, j)
    {
      OneResult(x, id, j);
    }
    IsRunOfSteps(scan, Gone(x, id));
  }

  lemma ArtifactIsThere(k: Text, id: Id)
    requires |k| == 64
    ensures var graphs := WithGraph(map[], 2, k, id);
            ArtifactKey(IdToString(id)) in graphs && graphs[ArtifactKey(IdToString(id))] == Entry(id, 2, 1, 1)
  {
    assert |IdToString(id)| == 33;
  }

  /** Nobody is connected any more, and the replay is still forwarded, on the socket that was closed. */
  lemma {:induction false} ForwardedToNobody(scan: Text -> Id, x: seq<byte>, id: Id)
    requires ReadsPrinted(scan) && ParseLookup(x).Wanted?
    ensures var run := Gone(x, id);
            && IsRun(scan, run) && |run| == 5 && StateAt(scan, run, 4).connected == {} && !Reachable(StateAt(scan, run, 4), 1)
            && Forwards(scan, run, 4) && SentAt(scan, run, 4)[0].to == 1
  {
    hide React, ParseLookup, KeyIn, WithGraph, IdToString, ArtifactKey, ArtifactText, NamePayload, StateAt, IsRun, WorkersKnown, ReadsPrinted;
    var graphs := WithGraph(map[], 2, KeyIn(x), id);
    IsGoneRun(scan, x, id);
    ArtifactIsThere(KeyIn(x), id);
    NamedText(IdToString(id));
    RunKnown(scan, Gone(x, id), 4);
    ReplayStep(scan, Alone(graphs), ReplayAt(2, id), IdToString(id));
  }
}
