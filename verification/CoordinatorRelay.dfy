/**
  Who gets what the coordinator sends: a relayed result goes to whoever asked
  for the replay last, the outcome of a capture to whoever's lookup started it,
  and everything else back to where it came from.
 */
module CoordinatorRelay {
  import opened Bytes
  import opened Descriptors
  import opened Protocol
  import opened CoordinatorCore
  import opened Coordinator
  import opened CoordinatorRuns
  import opened CoordinatorReplay

  // ----- replays that wait for their result -----

  /** Step `i` passes on a replay request of this number. */
  predicate ForwardsAs(scan: Text -> Id, run: seq<Input>, i: nat, id: u64)
    requires i < |run|
  {
    run[i].Receive? && run[i].message.requestId == id && Forwards(scan, run, i)
  }

  /** Step `i` relays a result of this number. */
  predicate RelaysAs(scan: Text -> Id, run: seq<Input>, i: nat, id: u64)
    requires i < |run|
  {
    Passes(StateAt(scan, run, i), run[i], REPLAY_RESULT) && run[i].message.requestId == id
  }

  /** Step `i` passed the request on, and no step before `n` passed on another of its number or relayed its result. */
  ghost predicate Waits(scan: Text -> Id, run: seq<Input>, i: nat, n: nat, id: u64)
    requires n <= |run|
  {
    && i < n && ForwardsAs(scan, run, i, id)
    && forall m: nat | i < m < n :: !ForwardsAs(scan, run, m, id) && !RelaysAs(scan, run, m, id)
  }

  predicate ForwardsNow(scan: Text -> Id, st: State, i: Input) {
    i.Receive? && |React(scan, st, i).sent| == 1 && React(scan, st, i).sent[0].message.kind == REPLAY_INSTRUCT
  }

  /** What a step does to the replays that wait. */
  lemma ReplaysAfter(scan: Text -> Id, st: State, i: Input)
    ensures React(scan, st, i).state.replays ==
              if ForwardsNow(scan, st, i) then st.replays[i.message.requestId := i.socket]
              else if Passes(st, i, REPLAY_RESULT) then st.replays - {i.message.requestId}
              else st.replays
    ensures ForwardsNow(scan, st, i) ==> !Passes(st, i, REPLAY_RESULT)
  {
    StepCases(scan, st, i);
    hide React, Refusal, BootFor, SocketFor, ParseLookup, KeyHex, LookupFacts, ArtifactText, NamePayload, CapturePayload, OnCaptureResult, ArtifactKey, Bump;
    if i.Receive? {
      CaptureKeepsReplays(scan, st, i);
    }
  }

  lemma CaptureKeepsReplays(scan: Text -> Id, st: State, i: Input)
    requires i.Receive?
    ensures OnCaptureResult(scan, st, i.socket, i.message).state.replays == st.replays
    ensures forall x | x in OnCaptureResult(scan, st, i.socket, i.message).sent :: x.message.kind == LOOKUP_RESULT
  {
    hide ArtifactText, NamePayload, ArtifactKey, Keys, Bump;
  }

  lemma {:induction false} WaitingExactly(scan: Text -> Id, run: seq<Input>, n: nat, id: u64)
    requires n <= |run|
    ensures id in StateAt(scan, run, n).replays <==> exists i: nat :: Waits(scan, run, i, n, id)
    ensures forall i: nat | Waits(scan, run, i, n, id) :: id in StateAt(scan, run, n).replays && StateAt(scan, run, n).replays[id] == run[i].socket
  {
    hide React, Refusal;
    if n > 0 {
      var m := n - 1;
      WaitingExactly(scan, run, m, id);
      ReplaysAfter(scan, StateAt(scan, run, m), run[m]);
      if ForwardsAs(scan, run, m, id) {
        assert Waits(scan, run, m, n, id);
      } else if !RelaysAs(scan, run, m, id) {
        forall i: nat
          ensures Waits(scan, run, i, n, id) <==> Waits(scan, run, i, m, id)
        {
        }
      }
    }
  }

  /**
    A relayed result carries the worker's status and payload to the last client
    whose request of that number still waits, and back to the sender if none does.
   */
  lemma RelayedToAsker(scan: Text -> Id, run: seq<Input>, j: nat)
    requires j < |run| && Passes(StateAt(scan, run, j), run[j], REPLAY_RESULT)
    ensures |SentAt(scan, run, j)| == 1
    ensures var x, m, st := SentAt(scan, run, j)[0], run[j].message, StateAt(scan, run, j);
            && x.message.kind == REPLAY_RESULT && x.message.requestId == m.requestId
            && x.message.status == m.status && x.message.payload == m.payload
            && x.message.epoch == st.epoch && x.message.cacheGen == st.cacheGen
            && (forall i: nat | Waits(scan, run, i, j, m.requestId) :: x.to == run[i].socket)
            && ((forall i: nat :: !Waits(scan, run, i, j, m.requestId)) ==> x.to == run[j].socket)
  {
    hide React, Refusal, StateAt, Waits;
    WaitingExactly(scan, run, j, run[j].message.requestId);
    StepCases(scan, StateAt(scan, run, j), run[j]);
  }

  // ----- captures that wait for their result -----

  /** Step `i` dispatched the capture attempt `a` for a lookup. */
  ghost predicate DispatchesAs(scan: Text -> Id, run: seq<Input>, i: nat, a: u64)
    requires i < |run|
  {
    Dispatches(StateAt(scan, run, i), run[i]) && Bump(StateAt(scan, run, i).captures) == a
  }

  lemma DispatchWork(scan: Text -> Id, st: State, i: Input)
    requires Dispatches(st, i)
    ensures var e := EffectOf(scan, st, i); e.Dispatched? && e.work.client == i.socket && e.work.requestId == i.message.requestId
  {
    hide ParseLookup, KeyHex, LookupFacts, Refusal;
  }

  lemma {:induction false} PendingOrigin(es: seq<Effect>, n: nat, a: u64) returns (i: nat)
    requires n <= |es| && a in CoreAt(es, n).pending
    ensures i < n && es[i].Dispatched? && Bump(CoreAt(es, i).captures) == a && es[i].work == CoreAt(es, n).pending[a]
  {
    hide Apply;
    if n > 0 {
      PublishKeeps(CoreAt(es, n - 1), es[n - 1]);
      if es[n - 1].Dispatched? && a == Bump(CoreAt(es, n - 1).captures) {
        i := n - 1;
      } else {
        i := PendingOrigin(es, n - 1, a);
      }
    }
  }

  lemma CompletionSends(scan: Text -> Id, st: State, i: Input)
    requires Completes(st, i)
    ensures |React(scan, st, i).sent| == 1
    ensures var x, p := React(scan, st, i).sent[0], st.pending[i.message.captureAttempt];
            && x.to == p.client && x.message.requestId == p.requestId && x.message.kind == LOOKUP_RESULT
            && x.message.epoch == st.epoch && x.message.cacheGen == st.cacheGen
            && x.message.status == (if Publishes(st, i) then OK else CAPTURE_FAILED)
            && (Publishes(st, i) ==> x.message.payload == NamePayload(ArtifactText(i.message.payload).value) && x.message.graphGen == Bump(st.graphGen))
  {
    hide ArtifactText, Refusal, Bump, NamePayload, Keys, ArtifactKey;
  }

  /**
    The outcome of a capture goes to the client whose lookup dispatched it,
    under the number of that lookup: the artifact if it was captured, and
    otherwise that it failed.
   */
  lemma CompletionToAsker(scan: Text -> Id, run: seq<Input>, j: nat) returns (i: nat)
    requires j < |run| && Completes(StateAt(scan, run, j), run[j])
    ensures i < j && DispatchesAs(scan, run, i, run[j].message.captureAttempt) && |SentAt(scan, run, j)| == 1
    ensures var x, st := SentAt(scan, run, j)[0], StateAt(scan, run, j);
            && x.to == run[i].socket && x.message.requestId == run[i].message.requestId && x.message.kind == LOOKUP_RESULT
            && x.message.epoch == st.epoch && x.message.cacheGen == st.cacheGen
            && x.message.status == (if Publishes(st, run[j]) then OK else CAPTURE_FAILED)
            && (Publishes(st, run[j]) ==> x.message.payload == NamePayload(ArtifactText(run[j].message.payload).value))
  {
    hide React, StateAt, Apply, CoreAt, EffectOf, Refusal, ParseLookup, KeyHex, LookupFacts, ArtifactText, NamePayload, Bump;
    var st := StateAt(scan, run, j);
    CompletionSends(scan, st, run[j]);
    RunRefines(scan, run, j);
    i := PendingOrigin(Effects(scan, run), j, run[j].message.captureAttempt);
    RunRefines(scan, run, i);
    DispatchEffect(scan, StateAt(scan, run, i), run[i]);
    DispatchWork(scan, StateAt(scan, run, i), run[i]);
  }

  // ----- everything else -----

  function NumberOf(i: Input): u64 {
    if i.Receive? then i.message.requestId else 0
  }

  /** The reply answers this input. */
  predicate Replies(i: Input, r: Reaction, x: Sent) {
    && x.to == i.socket && x.message.requestId == NumberOf(i)
    && x.message.epoch == r.state.epoch && x.message.cacheGen == r.state.cacheGen
  }

  lemma IdleReplies(scan: Text -> Id, st: State, i: Input, x: Sent)
    requires x in React(scan, st, i).sent && !Acts(st, i)
    ensures Replies(i, React(scan, st, i), x)
  {
    hide OnLookup, OnCaptureResult, OnReplayInstruct, OnReplayResult, OnInvalidate, BootFor;
  }

  lemma ActingReplies(scan: Text -> Id, st: State, i: Input, x: Sent)
    requires x in React(scan, st, i).sent && Acts(st, i) && x.message.kind != CAPTURE_INSTRUCT && x.message.kind != REPLAY_INSTRUCT
    requires !Completes(st, i) && !Passes(st, i, REPLAY_RESULT)
    ensures Replies(i, React(scan, st, i), x)
  {
    StepCases(scan, st, i);
    hide React, Refusal, BootFor, SocketFor, ParseLookup, KeyHex, LookupFacts, ArtifactText, NamePayload, CapturePayload, Publish, Keys, ArtifactKey, Bump;
  }

  /** Every other reply goes back on the socket, and under the number, that it answers. */
  lemma RepliedToSender(scan: Text -> Id, st: State, i: Input, x: Sent)
    requires x in React(scan, st, i).sent && x.message.kind != CAPTURE_INSTRUCT && x.message.kind != REPLAY_INSTRUCT
    requires !Completes(st, i) && !Passes(st, i, REPLAY_RESULT)
    ensures Replies(i, React(scan, st, i), x)
  {
    hide React, Acts, Replies;
    if Acts(st, i) {
      ActingReplies(scan, st, i, x);
    } else {
      IdleReplies(scan, st, i, x);
    }
  }
}
