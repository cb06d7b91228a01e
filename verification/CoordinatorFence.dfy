/**
  Which messages the coordinator refuses, said on the run so far: what carries
  an epoch or a cache generation that is not the current one, or the boot of a
  worker that has registered with another since, changes nothing.
 */
module CoordinatorFence {
  import opened Bytes
  import opened Descriptors
  import opened Protocol
  import opened CoordinatorCore
  import opened Coordinator
  import opened CoordinatorRuns
  import opened CoordinatorSafety
  import opened CoordinatorReplay
  import opened CoordinatorRelay
  import opened CoordinatorTarget

  /** Step `r` registered worker `w` with this boot, and no step before `n` registered it again. */
  ghost predicate BootedAt(scan: Text -> Id, run: seq<Input>, r: nat, n: nat, w: u64, boot: u64)
    requires n <= |run|
  {
    && r < n && run[r].Receive? && run[r].message.workerBoot == boot && RegistersAs(StateAt(scan, run, r), run[r], w, run[r].socket)
    && forall m: nat | r < m < n :: !(run[m].Receive? && RegistersAs(StateAt(scan, run, m), run[m], w, run[m].socket))
  }

  lemma ActingKeepsBoots(scan: Text -> Id, st: State, i: Input)
    requires Acts(st, i)
    ensures React(scan, st, i).state.boots == st.boots && !Registering(st, i)
  {
    StepCases(scan, st, i);
    hide React, Refusal, ParseLookup, KeyHex, LookupFacts, CapturePayload, NamePayload, ArtifactText, Keys, ArtifactKey, Bump, BootFor, SocketFor, StaleEpoch;
  }

  lemma OtherBoots(scan: Text -> Id, st: State, i: Input)
    requires !Acts(st, i)
    ensures React(scan, st, i).state.boots == if Registering(st, i) then st.boots[i.message.workerId := i.message.workerBoot] else st.boots
  {
    hide OnLookup, OnCaptureResult, OnReplayInstruct, OnReplayResult, OnInvalidate, BootFor;
  }

  lemma {:induction false} BootExactly(scan: Text -> Id, run: seq<Input>, n: nat, w: u64)
    requires n <= |run|
    ensures w in StateAt(scan, run, n).boots <==> exists r: nat, boot: u64 :: BootedAt(scan, run, r, n, w, boot)
    ensures forall r: nat, boot: u64 | BootedAt(scan, run, r, n, w, boot) ::
              w in StateAt(scan, run, n).boots && StateAt(scan, run, n).boots[w] == boot
  {
    hide React, StaleEpoch, BootFor, Acts;
    if n > 0 {
      var m := n - 1;
      var st := StateAt(scan, run, m);
      BootExactly(scan, run, m, w);
      if Acts(st, run[m]) {
        ActingKeepsBoots(scan, st, run[m]);
      } else {
        OtherBoots(scan, st, run[m]);
      }
      if run[m].Receive? && RegistersAs(st, run[m], w, run[m].socket) {
        assert BootedAt(scan, run, m, n, w, run[m].message.workerBoot);
      } else {
        forall r: nat, boot: u64
          ensures BootedAt(scan, run, r, n, w, boot) <==> BootedAt(scan, run, r, m, w, boot)
        {
        }
      }
    }
  }

  // ----- refusals -----

  predicate OldEpoch(st: State, m: Message) {
    m.epoch != 0 && m.epoch != st.epoch
  }

  predicate OldCache(st: State, m: Message) {
    m.cacheGen != 0 && m.cacheGen != st.cacheGen
  }

  /** The message names a worker and a boot, and the worker last registered with another boot. */
  ghost predicate OldBoot(scan: Text -> Id, run: seq<Input>, j: nat, m: Message)
    requires j <= |run|
  {
    && m.workerId != 0 && m.workerBoot != 0
    && exists r: nat, boot: u64 :: BootedAt(scan, run, r, j, m.workerId, boot) && boot != 0 && boot != m.workerBoot
  }

  lemma StaleBootExactly(scan: Text -> Id, run: seq<Input>, j: nat, m: Message)
    requires j <= |run|
    ensures StaleBoot(StateAt(scan, run, j), m) <==> OldBoot(scan, run, j, m)
  {
    hide StateAt, BootedAt;
    BootExactly(scan, run, j, m.workerId);
  }

  /**
    A message other than a registration or a greeting is refused exactly when
    its epoch, its cache generation or its boot is an old one; the refusal names
    the first of these, goes back to the sender, and leaves everything as it was.
   */
  lemma RefusedExactly(scan: Text -> Id, run: seq<Input>, j: nat)
    requires j < |run| && run[j].Receive? && run[j].message.kind != REGISTER && run[j].message.kind != HELLO
    ensures var st, m := StateAt(scan, run, j), run[j].message;
            if OldEpoch(st, m) || OldCache(st, m) || OldBoot(scan, run, j, m) then
              && StateAt(scan, run, j + 1) == st && |SentAt(scan, run, j)| == 1 && SentAt(scan, run, j)[0].to == run[j].socket
              && var x := SentAt(scan, run, j)[0].message;
                 && x.requestId == m.requestId && x.epoch == st.epoch && x.cacheGen == st.cacheGen && x.payload == []
                 && x.status == (if OldEpoch(st, m) then STALE_EPOCH else if OldCache(st, m) then STALE_CACHE_GENERATION else STALE_WORKER_BOOT)
                 && x.kind == (if OldEpoch(st, m) && m.kind == REPLAY_INSTRUCT then REPLAY_RESULT else LOOKUP_RESULT)
            else
              Passes(st, run[j], m.kind)
  {
    hide OldBoot, OnAuthorized, StaleBoot, BootFor;
    StaleBootExactly(scan, run, j, run[j].message);
  }

  // ----- invalidation -----

  ghost predicate NothingServed(st: State) {
    forall k: Text :: !Serves(st, k)
  }

  lemma InvalidateStep(scan: Text -> Id, st: State, i: Input)
    requires Passes(st, i, INVALIDATE)
    ensures var x := React(scan, st, i).state;
            && x.cacheGen == Bump(st.cacheGen) && x.epoch == (if i.message.flags % 2 == 1 then Bump(st.epoch) else st.epoch)
            && NothingServed(x) && x.graphs == st.graphs && x.pending == st.pending
  {
    StepCases(scan, st, i);
    hide React, Refusal, Bump;
  }

  /**
    After an invalidation nothing is served, and whatever was sent under the
    cache generation before it is refused ever after; if it starts a new epoch,
    so is whatever was sent under the epoch before it.
   */
  lemma InvalidationFences(scan: Text -> Id, run: seq<Input>, j: nat, n: nat, m: Message)
    requires IsRun(scan, run) && j < n <= |run| && Passes(StateAt(scan, run, j), run[j], INVALIDATE)
    ensures NothingServed(StateAt(scan, run, j + 1))
    ensures m.cacheGen == StateAt(scan, run, j).cacheGen ==> OldCache(StateAt(scan, run, n), m)
    ensures run[j].message.flags % 2 == 1 && m.epoch == StateAt(scan, run, j).epoch ==> OldEpoch(StateAt(scan, run, n), m)
    ensures run[j].message.flags % 2 == 0 ==> StateAt(scan, run, j + 1).epoch == StateAt(scan, run, j).epoch
  {
    hide React, StateAt, IsRun, Refusal, NothingServed;
    InvalidateStep(scan, StateAt(scan, run, j), run[j]);
    OneStep(scan, run, j);
    Grown(scan, run, j + 1, n);
    Grown(scan, run, j, j);
  }

  lemma OneStep(scan: Text -> Id, run: seq<Input>, j: nat)
    requires j < |run|
    ensures StateAt(scan, run, j + 1) == React(scan, StateAt(scan, run, j), run[j]).state
  {
  }

  lemma Grown(scan: Text -> Id, run: seq<Input>, i: nat, n: nat)
    requires IsRun(scan, run) && i <= n <= |run|
    ensures StateAt(scan, run, i).cacheGen <= StateAt(scan, run, n).cacheGen && StateAt(scan, run, i).epoch <= StateAt(scan, run, n).epoch
    ensures 1 <= StateAt(scan, run, i).cacheGen <= 1 + i && 1 <= StateAt(scan, run, i).epoch <= 1 + i && |run| < TWO_64 - 1
  {
    hide React, StateAt, Instructed, EffectOf, CoreAt, CoordinatorCore.Apply;
    var es := Effects(scan, run);
    RunRefines(scan, run, i);
    RunRefines(scan, run, n);
    Counters(es, i);
    CacheGenGrows(es, i, n);
    EpochGrows(es, i, n);
  }

  // ----- registration -----

  /** A registration is acknowledged, and takes effect, exactly when its epoch is not old and no other boot of the worker is connected. */
  lemma RegistrationAnswered(scan: Text -> Id, st: State, i: Input)
    requires i.Receive? && i.message.kind == REGISTER
    ensures var r, m := React(scan, st, i), i.message;
            && |r.sent| == 1 && r.sent[0].to == i.socket && r.sent[0].message.kind == REGISTER_ACK && r.sent[0].message.requestId == m.requestId
            && r.sent[0].message.status ==
                 (if OldEpoch(st, m) then STALE_EPOCH
                  else if m.workerId in st.connected && m.workerId in st.boots && st.boots[m.workerId] !in {0, m.workerBoot} then STALE_WORKER_BOOT
                  else OK)
            && (r.sent[0].message.status == OK <==> Registering(st, i))
            && (r.sent[0].message.status == OK ==>
                  && m.workerId in r.state.connected && m.workerId in r.state.boots && r.state.boots[m.workerId] == m.workerBoot
                  && Reachable(r.state, m.workerId) && r.state.sockets[m.workerId] == i.socket)
            && (r.sent[0].message.status != OK ==> r.state == st)
  {
  }

  // ----- instructions -----

  /** The worker, its boot and the socket are those of the worker's last registration. */
  ghost predicate Addressed(scan: Text -> Id, run: seq<Input>, r: nat, j: nat, x: Sent)
    requires j <= |run|
  {
    BootedAt(scan, run, r, j, x.message.workerId, x.message.workerBoot) && LastRegistered(scan, run, r, j, x.message.workerId, x.to)
  }

  lemma CaptureAddress(scan: Text -> Id, st: State, i: Input)
    requires Dispatches(st, i)
    ensures |React(scan, st, i).sent| == 1
    ensures var x := React(scan, st, i).sent[0];
            && x.message.kind == CAPTURE_INSTRUCT && x.message.workerId in st.connected && AtMostAll(x.message.workerId, st.connected)
            && x.to == SocketFor(st.sockets, x.message.workerId) && x.message.workerBoot == BootFor(st.boots, x.message.workerId)
  {
    StepCases(scan, st, i);
    hide React, ParseLookup, KeyHex, LookupFacts, CapturePayload, BootFor, SocketFor, Refusal, Bump, AtMostAll;
  }

  lemma ReplayAddress(scan: Text -> Id, st: State, i: Input)
    requires ForwardsNow(scan, st, i)
    ensures Passes(st, i, REPLAY_INSTRUCT) && ArtifactText(i.message.payload).Some?
    ensures var x, k := React(scan, st, i).sent[0], ArtifactKey(ArtifactText(i.message.payload).value);
            && k in st.graphs && x.message.workerId == st.graphs[k].worker && x.message.workerId in st.sockets
            && x.to == st.sockets[x.message.workerId] && x.message.workerBoot == BootFor(st.boots, x.message.workerId)
            && x.message.requestId == i.message.requestId && x.message.replayAttempt == i.message.replayAttempt
  {
    StepCases(scan, st, i);
    StepSends(scan, st, i);
    hide React, ParseLookup, KeyHex, LookupFacts, CapturePayload, BootFor, Refusal, Bump, ArtifactText, ArtifactKey;
    assert React(scan, st, i).sent[0] in React(scan, st, i).sent;
  }

  lemma AddressOf(scan: Text -> Id, run: seq<Input>, j: nat, x: Sent) returns (r: nat)
    requires j <= |run| && x.message.workerId in StateAt(scan, run, j).sockets && x.to == StateAt(scan, run, j).sockets[x.message.workerId]
    requires x.message.workerBoot == BootFor(StateAt(scan, run, j).boots, x.message.workerId)
    ensures Addressed(scan, run, r, j, x)
  {
    hide StateAt, RegistersAs;
    var w := x.message.workerId;
    var s: Socket;
    r, s := HasRegistered(scan, run, j, w);
    ReachableExactly(scan, run, r, j, w, s);
    BootExactly(scan, run, j, w);
    RegistersOn(StateAt(scan, run, r), run[r], w, s);
    assert BootedAt(scan, run, r, j, w, run[r].message.workerBoot);
  }

  lemma RegistersOn(st: State, i: Input, w: u64, s: Socket)
    requires RegistersAs(st, i, w, s)
    ensures i.Receive? && i.socket == s
  {
  }

  /**
    A capture is sent to the least of the connected workers, a replay to the
    worker that captured the graph, and either with the boot and on the socket
    that this worker last registered with.
   */
  lemma InstructionAddressed(scan: Text -> Id, run: seq<Input>, j: nat) returns (r: nat)
    requires j < |run| && (Dispatches(StateAt(scan, run, j), run[j]) || ForwardsNow(scan, StateAt(scan, run, j), run[j]))
    ensures |SentAt(scan, run, j)| == 1 && Addressed(scan, run, r, j, SentAt(scan, run, j)[0])
    ensures var st, w := StateAt(scan, run, j), SentAt(scan, run, j)[0].message.workerId;
            && (Dispatches(st, run[j]) ==> w in st.connected && AtMostAll(w, st.connected))
            && (!Dispatches(st, run[j]) ==>
                  && run[j].Receive? && ArtifactText(run[j].message.payload).Some?
                  && var k := ArtifactKey(ArtifactText(run[j].message.payload).value);
                     k in st.graphs && w == st.graphs[k].worker)
  {
    hide React, StateAt, Dispatches, Addressed, ArtifactText, ArtifactKey, AtMostAll, BootFor;
    var st := StateAt(scan, run, j);
    RunKnown(scan, run, j);
    if Dispatches(st, run[j]) {
      CaptureAddress(scan, st, run[j]);
    } else {
      ReplayAddress(scan, st, run[j]);
    }
    r := AddressOf(scan, run, j, SentAt(scan, run, j)[0]);
  }
}
