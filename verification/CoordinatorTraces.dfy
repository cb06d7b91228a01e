/**
  Steps that runs of the coordinator with one worker and one client are made
  of: the worker registers, a lookup misses and is captured, and its graph is
  there from then on.
 */
module CoordinatorTraces {
  import opened Bytes
  import opened Canonical
  import opened Descriptors
  import opened Protocol
  import opened HexIds
  import opened CoordinatorCore
  import opened Coordinator
  import opened CoordinatorRuns
  import opened CoordinatorSafety

  const REGISTERING := Receive(1, BLANK.(kind := REGISTER, workerId := 1, workerBoot := 1))

  function Ask(payload: seq<byte>): Input {
    Receive(2, BLANK.(kind := LOOKUP, payload := payload))
  }

  /** The worker's answer to a capture instruction of the first cache generation. */
  function Answer(attempt: u64, id: Id): Input {
    Receive(1, BLANK.(kind := CAPTURE_RESULT, epoch := 1, cacheGen := 1, workerId := 1, workerBoot := 1, captureAttempt := attempt,
                      payload := CapturedPayload(id, 1)))
  }

  function ReplayAt(generation: u64, id: Id): Input {
    Receive(2, BLANK.(kind := REPLAY_INSTRUCT, graphGen := generation, payload := NamePayload(IdToString(id))))
  }

  function KeyIn(payload: seq<byte>): (k: Text)
    requires ParseLookup(payload).Wanted?
    ensures |k| == 64 && k == KeyWanted(Ask(payload))
  {
    KeyHex(LookupFacts(ParseLookup(payload).descriptor, ParseLookup(payload).workload))
  }

  // ----- the states it goes through -----

  /** One worker, under the first epoch and cache generation. */
  function Working(captures: u64, graphGen: u64, graphs: map<Text, Entry>, pending: map<u64, Pending>): State {
    INITIAL.(captures := captures, graphGen := graphGen, graphs := graphs, pending := pending,
             boots := map[1 := 1], connected := {1}, sockets := map[1 := 1], workerConns := map[1 := 1])
  }

  /** The graphs with one more capture, at this generation. */
  function WithGraph(graphs: map<Text, Entry>, generation: u64, k: Text, id: Id): map<Text, Entry> {
    graphs[ArtifactKey(IdToString(id)) := Entry(id, generation, 1, 1)][k := Entry(id, generation, 1, 1)]
  }

  function Waiting(attempt: u64, k: Text): map<u64, Pending> {
    map[attempt := Pending(2, 1, 0, k)]
  }

  lemma Registers(scan: Text -> Id)
    ensures React(scan, INITIAL, REGISTERING) == Reaction(Working(0, 1, map[], map[]), [Status(Working(0, 1, map[], map[]), 1, REGISTER_ACK, 0, OK)])
  {
  }

  lemma OneWorker()
    ensures Least({1}) == 1
  {
    assert Least({1}) in {1};
  }

  /** A miss is dispatched. */
  lemma Misses(scan: Text -> Id, c: u64, g: u64, graphs: map<Text, Entry>, x: seq<byte>)
    requires ParseLookup(x).Wanted? && KeyIn(x) !in graphs && c < 9
    ensures var st := Working(c, g, graphs, map[]);
            && Dispatches(st, Ask(x)) && React(scan, st, Ask(x)).state == Working(c + 1, g, graphs, Waiting(c + 1, KeyIn(x)))
            && |React(scan, st, Ask(x)).sent| == 1 && Instructs(React(scan, st, Ask(x)).sent[0].message, c + 1)
            && React(scan, st, Ask(x)).sent[0].to == 1 && React(scan, st, Ask(x)).sent[0].message.payload == Passed(x)
  {
    hide ParseLookup, KeyHex, LookupFacts, CapturePayload;
    OneWorker();
  }

  /** What the coordinator passes on of a lookup. */
  function Passed(x: seq<byte>): seq<byte>
    requires ParseLookup(x).Wanted?
  {
    CapturePayload(ParseLookup(x).descriptor, ParseLookup(x).workload)
  }

  predicate Instructs(m: Message, attempt: u64) {
    m.kind == CAPTURE_INSTRUCT && m.requestId == 0 && m.epoch == 1 && m.cacheGen == 1 && m.graphGen == 0 && m.replayAttempt == 0
    && m.captureAttempt == attempt
  }

  lemma AnswerFits(m: Message, attempt: u64, id: Id)
    requires Instructs(m, attempt)
    ensures AnswersCapture(m, Answer(attempt, id).message)
  {
    hide CapturedPayload;
    assert Answer(attempt, id).message.payload == CapturedPayload(id, 1);
  }

  /** The answer publishes under the artifact and the key. */
  lemma Completes(scan: Text -> Id, c: u64, g: u64, graphs: map<Text, Entry>, k: Text, id: Id)
    requires ReadsPrinted(scan) && c < 9 && g < 9 && k != []
    ensures React(scan, Working(c, g, graphs, Waiting(c, k)), Answer(c, id)).state == Working(c, g + 1, WithGraph(graphs, g + 1, k, id), map[])
    ensures |React(scan, Working(c, g, graphs, Waiting(c, k)), Answer(c, id)).sent| == 1
    ensures React(scan, Working(c, g, graphs, Waiting(c, k)), Answer(c, id)).sent[0].to == 2
  {
    hide CapturedPayload, ArtifactText, IdToString, ArtifactKey, NamePayload;
    PrintedName(id, 1);
    var st := Working(c, g, graphs, Waiting(c, k));
    assert Waiting(c, k) - {c} == map[];
    assert scan(IdToString(id)) == id;
    assert Passes(st, Answer(c, id), CAPTURE_RESULT);
    StepCases(scan, st, Answer(c, id));
  }

  lemma NamedText(text: Text)
    requires |text| < TWO_32
    ensures ArtifactText(NamePayload(text)) == Some(text)
  {
    hide Tokenize, Flatten;
    var fs := [Field(1, text)];
    assert AllFit(fs);
    TokenizeFlatten(fs);
  }

  lemma StepTo(scan: Text -> Id, run: seq<Input>, n: nat, st: State, i: Input, x: State)
    requires n < |run| && StateAt(scan, run, n) == st && run[n] == i && React(scan, st, i).state == x
    ensures StateAt(scan, run, n + 1) == x
  {
    hide React;
  }

  /** Step `n` tells the worker to capture this lookup. */
  predicate AsksToCapture(scan: Text -> Id, run: seq<Input>, n: nat, x: seq<byte>, attempt: u64) {
    && n < |run| && ParseLookup(x).Wanted? && |SentAt(scan, run, n)| == 1 && SentAt(scan, run, n)[0].to == 1
    && Instructs(SentAt(scan, run, n)[0].message, attempt) && SentAt(scan, run, n)[0].message.payload == Passed(x)
  }

  predicate AnswersClient(scan: Text -> Id, run: seq<Input>, n: nat) {
    n < |run| && |SentAt(scan, run, n)| == 1 && SentAt(scan, run, n)[0].to == 2
  }

  /** A lookup that hits changes nothing and is answered. */
  lemma HitStep(scan: Text -> Id, c: u64, g: u64, graphs: map<Text, Entry>, x: seq<byte>)
    requires ParseLookup(x).Wanted? && KeyIn(x) in graphs
    ensures var st := Working(c, g, graphs, map[]);
            && Hits(st, Ask(x), KeyIn(x)) && React(scan, st, Ask(x)).state == st
            && |React(scan, st, Ask(x)).sent| == 1 && React(scan, st, Ask(x)).sent[0].to == 2
  {
    hide React, ParseLookup, KeyHex, LookupFacts, IdToString, NamePayload;
    HitSends(scan, Working(c, g, graphs, map[]), Ask(x), KeyIn(x));
  }

  lemma {:induction false} HitAt(scan: Text -> Id, run: seq<Input>, n: nat, c: u64, g: u64, graphs: map<Text, Entry>, x: seq<byte>)
    requires ParseLookup(x).Wanted? && KeyIn(x) in graphs
    requires n < |run| && run[n] == Ask(x) && StateAt(scan, run, n) == Working(c, g, graphs, map[])
    ensures AnswersClient(scan, run, n) && StateAt(scan, run, n + 1) == Working(c, g, graphs, map[])
  {
    hide React, ParseLookup, KeyIn, Working, Ask, StateAt;
    HitStep(scan, c, g, graphs, x);
    StepTo(scan, run, n, Working(c, g, graphs, map[]), Ask(x), Working(c, g, graphs, map[]));
  }

  lemma {:induction false} MissAt(scan: Text -> Id, run: seq<Input>, n: nat, c: u64, g: u64, graphs: map<Text, Entry>, x: seq<byte>)
    requires ParseLookup(x).Wanted? && KeyIn(x) !in graphs && c < 8
    requires n < |run| && run[n] == Ask(x) && StateAt(scan, run, n) == Working(c, g, graphs, map[])
    ensures AsksToCapture(scan, run, n, x, c + 1) && StateAt(scan, run, n + 1) == Working(c + 1, g, graphs, Waiting(c + 1, KeyIn(x)))
  {
    hide React, ParseLookup, KeyIn, Working, Ask, StateAt, Waiting, Instructs, Passed, Dispatches;
    Misses(scan, c, g, graphs, x);
    StepTo(scan, run, n, Working(c, g, graphs, map[]), Ask(x), Working(c + 1, g, graphs, Waiting(c + 1, KeyIn(x))));
  }

  /** A miss at step `n` and the answer to it. */
  lemma CaptureSteps(scan: Text -> Id, run: seq<Input>, n: nat, c: u64, g: u64, graphs: map<Text, Entry>, x: seq<byte>, id: Id)
    requires ReadsPrinted(scan) && ParseLookup(x).Wanted? && KeyIn(x) !in graphs && c < 8 && g < 8
    requires n + 1 < |run| && run[n] == Ask(x) && run[n + 1] == Answer(c + 1, id) && StateAt(scan, run, n) == Working(c, g, graphs, map[])
    ensures Instructed(scan, run, n, run[n + 1].message) && AsksToCapture(scan, run, n, x, c + 1) && AnswersClient(scan, run, n + 1)
    ensures StateAt(scan, run, n + 2) == Working(c + 1, g + 1, WithGraph(graphs, g + 1, KeyIn(x), id), map[])
  {
    hide React, ParseLookup, KeyIn, Dispatches, AnswersCapture, Instructs, Working, Ask, Answer, StateAt, WithGraph, Waiting, ReadsPrinted, Passed;
    var st, pending := Working(c, g, graphs, map[]), Waiting(c + 1, KeyIn(x));
    Misses(scan, c, g, graphs, x);
    AnswerFits(React(scan, st, Ask(x)).sent[0].message, c + 1, id);
    StepTo(scan, run, n, st, Ask(x), Working(c + 1, g, graphs, pending));
    Completes(scan, c + 1, g, graphs, KeyIn(x), id);
    StepTo(scan, run, n + 1, Working(c + 1, g, graphs, pending), Answer(c + 1, id),
           Working(c + 1, g + 1, WithGraph(graphs, g + 1, KeyIn(x), id), map[]));
  }

  /** Step `j` delivers an answer to the instruction of step `i`. */
  ghost predicate AnswersStep(scan: Text -> Id, run: seq<Input>, i: nat, j: nat) {
    i < j < |run| && run[j].Receive? && Instructed(scan, run, i, run[j].message)
  }

  lemma Delivered(scan: Text -> Id, run: seq<Input>, i: nat, j: nat)
    requires i < j < |run| && run[j].Receive? && Instructed(scan, run, i, run[j].message)
    ensures AnswersStep(scan, run, i, j)
  {
    hide Instructed;
  }

  lemma StartsThere(scan: Text -> Id, run: seq<Input>)
    ensures StateAt(scan, run, 0) == INITIAL
  {
  }

  /** The registration is acknowledged. */
  predicate Welcomes(scan: Text -> Id, run: seq<Input>) {
    |run| > 0 && |SentAt(scan, run, 0)| == 1 && SentAt(scan, run, 0)[0].to == 1 && SentAt(scan, run, 0)[0].message.kind == REGISTER_ACK
  }

  lemma {:induction false} AtWork(scan: Text -> Id, run: seq<Input>)
    requires |run| > 0 && run[0] == REGISTERING
    ensures StateAt(scan, run, 1) == Working(0, 1, map[], map[]) && Welcomes(scan, run)
  {
    hide React, Working;
    StartsThere(scan, run);
    Registers(scan);
    StepTo(scan, run, 0, INITIAL, REGISTERING, Working(0, 1, map[], map[]));
  }

  /** Every run that begins like this has captured the first lookup after three steps. */
  predicate Begins(run: seq<Input>, x: seq<byte>, id: Id) {
    |run| >= 3 && run[0] == REGISTERING && run[1] == Ask(x) && run[2] == Answer(1, id)
  }

  lemma BeginsThere(run: seq<Input>, x: seq<byte>, id: Id)
    requires Begins(run, x, id)
    ensures |run| >= 3 && run[0] == REGISTERING && run[1] == Ask(x) && run[2] == Answer(1, id) && run[2].Receive?
  {
  }

  lemma FirstCapture(scan: Text -> Id, run: seq<Input>, x: seq<byte>, id: Id)
    requires ReadsPrinted(scan) && ParseLookup(x).Wanted? && Begins(run, x, id)
    ensures Welcomes(scan, run) && AsksToCapture(scan, run, 1, x, 1) && AnswersClient(scan, run, 2) && AnswersStep(scan, run, 1, 2)
    ensures |run| >= 3 && StateAt(scan, run, 3) == Working(1, 2, WithGraph(map[], 2, KeyIn(x), id), map[])
  {
    hide *;
    BeginsThere(run, x, id);
    AtWork(scan, run);
    CaptureSteps(scan, run, 1, 0, 1, map[], x, id);
    Delivered(scan, run, 1, 2);
  }

  /** A short run in which each result answers the step before it. */
  lemma IsRunOfSteps(scan: Text -> Id, run: seq<Input>)
    requires |run| < 9 && forall j: nat | j < |run| && IsResult(run[j]) :: j > 0 && AnswersStep(scan, run, j - 1, j)
    ensures IsRun(scan, run)
  {
    hide IsResult, Instructed;
  }
}
