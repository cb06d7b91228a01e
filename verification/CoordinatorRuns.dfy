/**
  Every run of the coordinator. The network may duplicate, reorder and lose
  messages, clients may send anything at any time, and a worker answers an
  instruction by echoing its authority (tools/worker_main.cpp). So a result
  message is accepted at any step after the instruction it echoes, any number
  of times; everything else may arrive whenever it likes.
 */
module CoordinatorRuns {
  import opened Bytes
  import opened Canonical
  import opened Descriptors
  import opened Protocol
  import opened HexIds
  import opened CoordinatorCore
  import opened Coordinator

  // ----- runs -----

  function StateAt(scan: Text -> Id, run: seq<Input>, n: nat): State
    requires n <= |run|
  {
    if n == 0 then INITIAL else React(scan, StateAt(scan, run, n - 1), run[n - 1]).state
  }

  /** What the coordinator sends in its step `i`. */
  function SentAt(scan: Text -> Id, run: seq<Input>, i: nat): seq<Sent>
    requires i < |run|
  {
    React(scan, StateAt(scan, run, i), run[i]).sent
  }

  /** What a worker copies from an instruction into its answer. */
  predicate SameAuthority(x: Message, m: Message) {
    && m.requestId == x.requestId && m.epoch == x.epoch && m.cacheGen == x.cacheGen && m.graphGen == x.graphGen
    && m.captureAttempt == x.captureAttempt && m.replayAttempt == x.replayAttempt
  }

  function CapturedPayload(id: Id, nodes: u32): seq<byte> {
    Flatten([Field(1, IdToString(id)), Field(2, Be32(nodes))])
  }

  ghost predicate AnswersCapture(x: Message, m: Message) {
    && x.kind == CAPTURE_INSTRUCT && m.kind == CAPTURE_RESULT && SameAuthority(x, m)
    && ((m.status == OK && exists id, nodes :: m.payload == CapturedPayload(id, nodes))
        || (m.status == CAPTURE_FAILED && m.payload == []))
  }

  predicate AnswersReplay(x: Message, m: Message) {
    && x.kind == REPLAY_INSTRUCT && m.kind == REPLAY_RESULT && SameAuthority(x, m)
    && (m.status == OK || (m.status == REPLAY_FAILED && m.payload == []))
  }

  datatype Outcome = CaptureDone(id: Id, nodes: u32) | ReplayDone(output: seq<byte>) | NotDone

  /** One turn of the worker's loop: the authority of the instruction goes back with whatever came of it. */
  function WorkerReply(worker: u64, boot: u64, x: Message, o: Outcome): Option<Message> {
    var reply := BLANK.(requestId := x.requestId, epoch := x.epoch, cacheGen := x.cacheGen, workerId := worker, workerBoot := boot,
                        captureAttempt := x.captureAttempt, replayAttempt := x.replayAttempt, graphGen := x.graphGen);
    if x.kind == CAPTURE_INSTRUCT then
      Some(if o.CaptureDone? then reply.(kind := CAPTURE_RESULT, payload := CapturedPayload(o.id, o.nodes))
           else reply.(kind := CAPTURE_RESULT, status := CAPTURE_FAILED))
    else if x.kind == REPLAY_INSTRUCT then
      Some(if o.ReplayDone? then reply.(kind := REPLAY_RESULT, payload := o.output)
           else reply.(kind := REPLAY_RESULT, status := REPLAY_FAILED))
    else None
  }

  /** Everything a worker sends in answer to a message is admitted by the runs considered here. */
  lemma WorkerEchoes(worker: u64, boot: u64, x: Message, o: Outcome)
    ensures WorkerReply(worker, boot, x, o).Some? ==>
              var m := WorkerReply(worker, boot, x, o).value;
              AnswersCapture(x, m) || AnswersReplay(x, m)
  {
    hide CapturedPayload;
    if x.kind == CAPTURE_INSTRUCT && o.CaptureDone? {
      assert WorkerReply(worker, boot, x, o).value.payload == CapturedPayload(o.id, o.nodes);
    }
  }

  /** Step `i` of the coordinator sent the instruction that `m` answers. */
  ghost predicate Instructed(scan: Text -> Id, run: seq<Input>, i: nat, m: Message)
    requires i < |run|
  {
    var sent := SentAt(scan, run, i);
    |sent| == 1 && (AnswersCapture(sent[0].message, m) || AnswersReplay(sent[0].message, m))
  }

  predicate IsResult(i: Input) {
    i.Receive? && (i.message.kind == CAPTURE_RESULT || i.message.kind == REPLAY_RESULT)
  }

  /** Results come from workers; the counters of a run this short do not wrap around. */
  ghost predicate IsRun(scan: Text -> Id, run: seq<Input>) {
    && |run| < TWO_64 - 1
    && (forall j | 0 <= j < |run| && IsResult(run[j]) :: exists i :: 0 <= i < j && Instructed(scan, run, i, run[j].message))
  }

  // ----- one step -----

  predicate Passes(st: State, i: Input, kind: byte) {
    i.Receive? && i.message.kind == kind && Refusal(st, i.socket, i.message) == None
  }

  /** This step publishes a captured graph. */
  predicate Publishes(st: State, i: Input) {
    && Passes(st, i, CAPTURE_RESULT) && i.message.captureAttempt in st.pending && i.message.status == OK
    && ArtifactText(i.message.payload).Some?
  }

  /** This step sends a capture instruction. */
  predicate Dispatches(st: State, i: Input) {
    && Passes(st, i, LOOKUP) && ParseLookup(i.message.payload).Wanted? && st.connected != {}
    && (KeyWanted(i) !in st.graphs || KeyWanted(i) in st.invalidated)
  }

  function KeyWanted(i: Input): Text
    requires i.Receive? && ParseLookup(i.message.payload).Wanted?
  {
    var w := ParseLookup(i.message.payload);
    KeyHex(LookupFacts(w.descriptor, w.workload))
  }

  /** This step completes a capture, whether or not it succeeded. */
  predicate Completes(st: State, i: Input) {
    Passes(st, i, CAPTURE_RESULT) && i.message.captureAttempt in st.pending
  }

  /** The four maps that only registration and disconnection touch. */
  ghost predicate SameButWorkers(a: State, b: State) {
    b == a.(boots := b.boots, connected := b.connected, sockets := b.sockets, workerConns := b.workerConns)
  }

  predicate Acts(st: State, i: Input) {
    || Passes(st, i, LOOKUP) || Passes(st, i, CAPTURE_RESULT) || Passes(st, i, REPLAY_INSTRUCT)
    || Passes(st, i, REPLAY_RESULT) || Passes(st, i, INVALIDATE)
  }

  /** Every other step leaves the graphs, the counters and the pending work alone and instructs nobody. */
  lemma StepCases(scan: Text -> Id, st: State, i: Input)
    ensures Passes(st, i, LOOKUP) ==> React(scan, st, i) == OnLookup(st, i.socket, i.message)
    ensures Passes(st, i, CAPTURE_RESULT) ==> React(scan, st, i) == OnCaptureResult(scan, st, i.socket, i.message)
    ensures Passes(st, i, REPLAY_INSTRUCT) ==> React(scan, st, i) == OnReplayInstruct(st, i.socket, i.message)
    ensures Passes(st, i, REPLAY_RESULT) ==> React(scan, st, i) == OnReplayResult(st, i.socket, i.message)
    ensures Passes(st, i, INVALIDATE) ==> React(scan, st, i) == OnInvalidate(st, i.socket, i.message)
    ensures !Acts(st, i) ==> SameButWorkers(st, React(scan, st, i).state)
    ensures !Acts(st, i) ==>
              && |React(scan, st, i).sent| <= 1
              && forall x | x in React(scan, st, i).sent :: x.message.kind != CAPTURE_INSTRUCT && x.message.kind != REPLAY_INSTRUCT
  {
    hide OnLookup, OnCaptureResult, OnReplayInstruct, OnReplayResult, OnInvalidate, BootFor;
  }

  // ----- what a step does to the core -----

  function CoreOf(st: State): Core {
    Core(st.epoch, st.cacheGen, st.graphGen, st.captures, st.graphs, st.invalidated, st.pending)
  }

  function EffectOf(scan: Text -> Id, st: State, i: Input): Effect {
    if Passes(st, i, INVALIDATE) then Invalidated(i.message.flags % 2 == 1)
    else if Dispatches(st, i) then Dispatched(Pending(i.socket, Least(st.connected), i.message.requestId, KeyWanted(i)))
    else if Publishes(st, i) then
      var text := ArtifactText(i.message.payload).value;
      Published(i.message.captureAttempt, text, scan(text))
    else if Completes(st, i) then Failed(i.message.captureAttempt, i.message.status == OK)
    else Nothing
  }

  lemma LookupRefines(scan: Text -> Id, st: State, i: Input)
    requires Passes(st, i, LOOKUP)
    ensures CoreOf(OnLookup(st, i.socket, i.message).state) == Apply(CoreOf(st), EffectOf(scan, st, i))
  {
    hide React, Refusal, Bump, BootFor, SocketFor, ParseLookup, KeyHex, LookupFacts, ArtifactText, Status, HitReply, NamePayload,
         CapturePayload, IdToString, Keys, ArtifactKey;
  }

  lemma PublishRefines(scan: Text -> Id, st: State, pc: Pending, text: Text)
    ensures CoreOf(Publish(scan, st, pc, text).state) == PublishGraph(CoreOf(st), text, scan(text), pc)
  {
    hide NamePayload, Keys, ArtifactKey;
  }

  lemma CaptureRefines(scan: Text -> Id, st: State, i: Input)
    requires Passes(st, i, CAPTURE_RESULT)
    ensures CoreOf(OnCaptureResult(scan, st, i.socket, i.message).state) == Apply(CoreOf(st), EffectOf(scan, st, i))
  {
    hide React, Refusal, Bump, ParseLookup, KeyHex, KeyWanted, ArtifactText, Status, PublishGraph, Publish;
    if Publishes(st, i) {
      var a := i.message.captureAttempt;
      var text := ArtifactText(i.message.payload).value;
      PublishRefines(scan, st.(pending := st.pending - {a}, graphGen := Bump(st.graphGen)), st.pending[a], text);
    }
  }

  lemma StepRefines(scan: Text -> Id, st: State, i: Input)
    ensures CoreOf(React(scan, st, i).state) == Apply(CoreOf(st), EffectOf(scan, st, i))
  {
    StepCases(scan, st, i);
    hide React, Refusal, Bump, BootFor, SocketFor, ParseLookup, KeyHex, LookupFacts, ArtifactText, Status, HitReply, NamePayload,
         CapturePayload, IdToString, Keys, ArtifactKey,
         OnLookup, OnCaptureResult;
    if Passes(st, i, LOOKUP) {
      LookupRefines(scan, st, i);
    } else if Passes(st, i, CAPTURE_RESULT) {
      CaptureRefines(scan, st, i);
    }
  }

  /** The only instructions a step sends. */
  lemma StepSends(scan: Text -> Id, st: State, i: Input)
    ensures |React(scan, st, i).sent| <= 1
    ensures forall x | x in React(scan, st, i).sent && x.message.kind == CAPTURE_INSTRUCT ::
              Dispatches(st, i) && x.message.captureAttempt == Bump(st.captures)
              && x.message.cacheGen == st.cacheGen && x.message.epoch == st.epoch
    ensures forall x | x in React(scan, st, i).sent && x.message.kind == REPLAY_INSTRUCT ::
              && Passes(st, i, REPLAY_INSTRUCT) && ArtifactText(i.message.payload).Some?
              && ArtifactKey(ArtifactText(i.message.payload).value) in st.graphs
              && ArtifactKey(ArtifactText(i.message.payload).value) !in st.invalidated
              && x.message.graphGen == st.graphs[ArtifactKey(ArtifactText(i.message.payload).value)].generation
              && x.message.payload == i.message.payload
              && x.message.cacheGen == st.cacheGen && x.message.epoch == st.epoch
  {
    StepCases(scan, st, i);
    hide React, Refusal, BootFor, SocketFor, ParseLookup, KeyHex, LookupFacts, ArtifactText, NamePayload, CapturePayload, IdToString;
  }

  // ----- runs of the process are runs of the core -----

  function Effects(scan: Text -> Id, run: seq<Input>): (es: seq<Effect>)
    ensures |es| == |run|
    ensures forall i | 0 <= i < |run| :: es[i] == EffectOf(scan, StateAt(scan, run, i), run[i])
  {
    seq(|run|, i requires 0 <= i < |run| => EffectOf(scan, StateAt(scan, run, i), run[i]))
  }

  lemma {:induction false} RunRefines(scan: Text -> Id, run: seq<Input>, n: nat)
    requires n <= |run|
    ensures CoreOf(StateAt(scan, run, n)) == CoreAt(Effects(scan, run), n)
  {
    hide React, EffectOf, Apply;
    if n > 0 {
      RunRefines(scan, run, n - 1);
      StepRefines(scan, StateAt(scan, run, n - 1), run[n - 1]);
    } else {
      assert CoreOf(INITIAL) == START;
    }
  }

  /** A capture result that passes the checks answers a dispatch under the current authority. */
  lemma ResultAnswers(scan: Text -> Id, run: seq<Input>, j: nat) returns (i: nat)
    requires IsRun(scan, run) && j < |run| && Passes(StateAt(scan, run, j), run[j], CAPTURE_RESULT)
    ensures i < j && Dispatches(StateAt(scan, run, i), run[i])
    ensures run[j].message.captureAttempt == Bump(StateAt(scan, run, i).captures)
    ensures StateAt(scan, run, i).cacheGen == StateAt(scan, run, j).cacheGen && StateAt(scan, run, i).epoch == StateAt(scan, run, j).epoch
    ensures run[j].message.status == OK ==> exists id, nodes :: run[j].message.payload == CapturedPayload(id, nodes)
  {
    hide React, StateAt, ParseLookup, KeyHex, LookupFacts, CapturedPayload, BootFor, Bump, ArtifactText, Dispatches;
    i :| 0 <= i < j && Instructed(scan, run, i, run[j].message);
    StepSends(scan, StateAt(scan, run, i), run[i]);
    AuthorityIsSet(scan, run, i);
    var x := SentAt(scan, run, i)[0];
    assert x in React(scan, StateAt(scan, run, i), run[i]).sent && x.message.kind == CAPTURE_INSTRUCT;
  }

  lemma AuthorityIsSet(scan: Text -> Id, run: seq<Input>, i: nat)
    requires IsRun(scan, run) && i < |run|
    ensures StateAt(scan, run, i).cacheGen != 0 && StateAt(scan, run, i).epoch != 0
  {
    hide React, StateAt, EffectOf, Apply, CoreAt, Instructed;
    RunRefines(scan, run, i);
    Counters(Effects(scan, run), i);
  }

  lemma RunIsLegal(scan: Text -> Id, run: seq<Input>)
    requires IsRun(scan, run)
    ensures LegalRun(Effects(scan, run))
  {
    hide React, StateAt, Apply, CoreAt, Instructed, ParseLookup, KeyHex, LookupFacts, Refusal, ArtifactText, Bump;
    var es := Effects(scan, run);
    forall j | 0 <= j < |es| && es[j].Published?
      ensures exists i :: 0 <= i < j && Answers(es, i, j)
    {
      var i := ResultAnswers(scan, run, j);
      RunRefines(scan, run, i);
      RunRefines(scan, run, j);
      DispatchEffect(scan, StateAt(scan, run, i), run[i]);
      assert Answers(es, i, j);
    }
    forall j | 0 <= j < |es| && es[j].Dispatched?
      ensures |es[j].work.key| == 64
    {
      DispatchEffect(scan, StateAt(scan, run, j), run[j]);
    }
  }

  lemma DispatchEffect(scan: Text -> Id, st: State, i: Input)
    ensures Dispatches(st, i) <==> EffectOf(scan, st, i).Dispatched?
    ensures Dispatches(st, i) ==> EffectOf(scan, st, i).work.key == KeyWanted(i)
    ensures Publishes(st, i) <==> EffectOf(scan, st, i).Published?
  {
    hide ParseLookup, KeyHex, LookupFacts, Refusal, ArtifactText;
  }
}
