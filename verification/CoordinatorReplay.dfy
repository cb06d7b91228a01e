/**
  Replaying after a hit: when the coordinator forwards a replay at the
  generation it reported, and a run in which it refuses one.
 */
module CoordinatorReplay {
  import opened Bytes
  import opened Descriptors
  import opened Protocol
  import opened HexIds
  import opened CoordinatorCore
  import opened Coordinator
  import opened CoordinatorRuns
  import opened CoordinatorSafety

  // ----- every worker that is named has a socket -----

  ghost predicate WorkersKnown(st: State) {
    && st.connected <= st.sockets.Keys
    && (forall a | a in st.pending :: st.pending[a].worker in st.sockets)
    && (forall k | k in st.graphs :: st.graphs[k].worker in st.sockets)
  }

  lemma WorkersOnly(scan: Text -> Id, st: State, i: Input)
    requires WorkersKnown(st) && !Acts(st, i)
    ensures WorkersKnown(React(scan, st, i).state)
  {
    hide OnLookup, OnCaptureResult, OnReplayInstruct, OnReplayResult, OnInvalidate, BootFor;
  }

  lemma CompletionKnown(scan: Text -> Id, st: State, s: Socket, m: Message)
    requires WorkersKnown(st)
    ensures WorkersKnown(OnCaptureResult(scan, st, s, m).state)
  {
    hide ArtifactText, NamePayload, ArtifactKey, Keys, Bump;
  }

  lemma LookupKnown(st: State, s: Socket, m: Message)
    requires WorkersKnown(st)
    ensures WorkersKnown(OnLookup(st, s, m).state)
  {
    hide ParseLookup, KeyHex, LookupFacts, CapturePayload, NamePayload, Bump, IdToString;
  }

  lemma StepKnown(scan: Text -> Id, st: State, i: Input)
    requires WorkersKnown(st)
    ensures WorkersKnown(React(scan, st, i).state)
  {
    StepCases(scan, st, i);
    if !Acts(st, i) {
      WorkersOnly(scan, st, i);
    } else {
      hide React, Refusal, OnLookup, OnCaptureResult, ArtifactText, Bump;
      if Passes(st, i, LOOKUP) {
        LookupKnown(st, i.socket, i.message);
      } else if Passes(st, i, CAPTURE_RESULT) {
        CompletionKnown(scan, st, i.socket, i.message);
      }
    }
  }

  /** So no replay is ever refused for want of a worker. */
  lemma {:induction false} RunKnown(scan: Text -> Id, run: seq<Input>, n: nat)
    requires n <= |run|
    ensures WorkersKnown(StateAt(scan, run, n))
  {
    hide React, WorkersKnown;
    if n > 0 {
      RunKnown(scan, run, n - 1);
      StepKnown(scan, StateAt(scan, run, n - 1), run[n - 1]);
    } else {
      NobodyYet();
    }
  }

  lemma NobodyYet()
    ensures WorkersKnown(INITIAL)
  {
  }

  // ----- an artifact that is not published again -----

  /** Step `m` publishes the artifact of this text. */
  ghost predicate PublishesText(es: seq<Effect>, m: nat, text: Text)
    requires m < |es|
  {
    PublishesAt(es, m) && es[m].text == text
  }

  ghost predicate NotAgain(es: seq<Effect>, i: nat, n: nat, text: Text)
    requires i <= n <= |es|
  {
    forall m: nat | i <= m < n :: !PublishesText(es, m, text)
  }

  lemma OneText(text: Text, other: Text, key: Text)
    requires |key| == 64 && |text| != 55
    ensures ArtifactKey(text) in Keys(other, key) <==> text == other
  {
    assert ArtifactKey(text)[9..] == text && ArtifactKey(other)[9..] == other;
  }

  /** A step that does not publish it leaves its entry alone. */
  lemma OtherText(es: seq<Effect>, m: nat, text: Text)
    requires LegalRun(es) && m < |es| && |text| != 55 && ArtifactKey(text) in CoreAt(es, m).graphs && !PublishesText(es, m, text)
    ensures var a := ArtifactKey(text);
            && a in CoreAt(es, m + 1).graphs && CoreAt(es, m + 1).graphs[a] == CoreAt(es, m).graphs[a]
            && (a in CoreAt(es, m).invalidated ==> a in CoreAt(es, m + 1).invalidated)
            && (CoreAt(es, m + 1).cacheGen != CoreAt(es, m).cacheGen ==> a in CoreAt(es, m + 1).invalidated)
  {
    hide Apply, Keys, ArtifactKey;
    var c, e := CoreAt(es, m), es[m];
    if PublishesAt(es, m) {
      PendingShape(es, m);
      OneText(text, e.text, c.pending[e.attempt].key);
      PublishedGraphs(c, e);
    } else {
      OtherGraphs(c, e);
    }
  }

  lemma OwnText(es: seq<Effect>, m: nat, text: Text)
    requires LegalRun(es) && m < |es| && PublishesText(es, m, text)
    ensures ArtifactKey(text) in CoreAt(es, m + 1).graphs
    ensures CoreAt(es, m + 1).graphs[ArtifactKey(text)].generation > CoreAt(es, m).graphGen
  {
    hide Apply, ArtifactKey;
    PublishedGraphs(CoreAt(es, m), es[m]);
    Counters(es, m);
    assert ArtifactKey(text) in Keys(es[m].text, CoreAt(es, m).pending[es[m].attempt].key);
  }

  /** Its generation is what it was exactly when it was not published again. */
  lemma {:induction false} SameGenerationExactly(es: seq<Effect>, i: nat, n: nat, text: Text)
    requires LegalRun(es) && i <= n <= |es| && |text| != 55 && ArtifactKey(text) in CoreAt(es, i).graphs
    ensures var a := ArtifactKey(text);
            && a in CoreAt(es, n).graphs
            && (CoreAt(es, n).graphs[a].generation == CoreAt(es, i).graphs[a].generation <==> NotAgain(es, i, n, text))
  {
    hide Apply, PublishesText, ArtifactKey, LegalRun;
    if i < n {
      SameGenerationExactly(es, i, n - 1, text);
      LegalIsShort(es);
      if PublishesText(es, n - 1, text) {
        OwnText(es, n - 1, text);
        GenerationsBounded(es, n - 1);
        GenerationsGrow(es, i, n - 1, ArtifactKey(text));
      } else {
        OtherText(es, n - 1, text);
        assert NotAgain(es, i, n, text) <==> NotAgain(es, i, n - 1, text);
      }
    }
  }

  lemma LegalIsShort(es: seq<Effect>)
    requires LegalRun(es)
    ensures |es| < TWO_64 - 1
  {
  }

  /** Once everything was invalidated, it stays refused until it is published again. */
  lemma {:induction false} StaysInvalidated(es: seq<Effect>, i: nat, n: nat, text: Text)
    requires LegalRun(es) && i <= n <= |es| && |text| != 55 && ArtifactKey(text) in CoreAt(es, i).graphs
    requires NotAgain(es, i, n, text) && CoreAt(es, i).cacheGen != CoreAt(es, n).cacheGen
    ensures ArtifactKey(text) in CoreAt(es, n).invalidated
  {
    hide Apply, PublishesText, ArtifactKey, LegalRun;
    if i < n {
      SameGenerationExactly(es, i, n - 1, text);
      OtherText(es, n - 1, text);
      if CoreAt(es, i).cacheGen != CoreAt(es, n - 1).cacheGen {
        StaysInvalidated(es, i, n - 1, text);
      }
    }
  }

  // ----- replays after a hit -----

  /** The coordinator passes the replay on to a worker. */
  predicate Forwards(scan: Text -> Id, run: seq<Input>, j: nat)
    requires j < |run|
  {
    |SentAt(scan, run, j)| == 1 && SentAt(scan, run, j)[0].message.kind == REPLAY_INSTRUCT
  }

  predicate PublishesArtifact(st: State, i: Input, text: Text) {
    Publishes(st, i) && ArtifactText(i.message.payload).value == text
  }

  /** After step `p`, and before step `j`, the artifact was published again. */
  ghost predicate Republished(scan: Text -> Id, run: seq<Input>, p: nat, j: nat, text: Text)
    requires j <= |run|
  {
    exists m: nat :: p < m < j && PublishesArtifact(StateAt(scan, run, m), run[m], text)
  }

  /** Step `j` asks to replay what the hit of step `n` named, at the generation that it reported. */
  predicate AsksFor(scan: Text -> Id, run: seq<Input>, n: nat, j: nat, k: Text)
    requires n < j < |run|
  {
    && Hits(StateAt(scan, run, n), run[n], k) && Passes(StateAt(scan, run, j), run[j], REPLAY_INSTRUCT)
    && ArtifactText(run[j].message.payload) == Some(IdToString(StateAt(scan, run, n).graphs[k].artifact))
    && run[j].message.graphGen == StateAt(scan, run, n).graphs[k].generation
  }

  lemma ReplayStep(scan: Text -> Id, st: State, i: Input, text: Text)
    requires Passes(st, i, REPLAY_INSTRUCT) && ArtifactText(i.message.payload) == Some(text) && i.message.graphGen != 0 && WorkersKnown(st)
    ensures |React(scan, st, i).sent| == 1
    ensures React(scan, st, i).sent[0].message.kind == REPLAY_INSTRUCT <==>
              Serves(st, ArtifactKey(text)) && st.graphs[ArtifactKey(text)].generation == i.message.graphGen
    ensures React(scan, st, i).sent[0].message.kind == REPLAY_INSTRUCT ==>
              React(scan, st, i).sent[0].to == st.sockets[st.graphs[ArtifactKey(text)].worker]
    ensures React(scan, st, i).sent[0].message.kind != REPLAY_INSTRUCT ==>
              React(scan, st, i) == Reaction(st, [Status(st, i.socket, REPLAY_RESULT, i.message.requestId, STALE_GRAPH_GENERATION)])
  {
    StepCases(scan, st, i);
    hide React, Refusal, ArtifactText, ArtifactKey;
  }

  lemma EffectPublishes(scan: Text -> Id, run: seq<Input>, m: nat, text: Text)
    requires m < |run|
    ensures PublishesText(Effects(scan, run), m, text) <==>
              PublishesArtifact(StateAt(scan, run, m), run[m], text)
  {
    hide React, StateAt, Apply, CoreAt, ParseLookup, KeyHex, LookupFacts, Refusal, ArtifactText;
    RunRefines(scan, run, m);
    DispatchEffect(scan, StateAt(scan, run, m), run[m]);
  }

  lemma RepublishedExactly(scan: Text -> Id, run: seq<Input>, p: nat, j: nat, text: Text)
    requires p < j <= |run|
    ensures Republished(scan, run, p, j, text) <==> !NotAgain(Effects(scan, run), p + 1, j, text)
  {
    hide React, StateAt, EffectOf, PublishesArtifact, PublishesText;
    forall m: nat | m < |run|
      ensures PublishesText(Effects(scan, run), m, text) <==>
                PublishesArtifact(StateAt(scan, run, m), run[m], text)
    {
      EffectPublishes(scan, run, m, text);
    }
  }

  /** The publication that put `k` where step `n` finds it, seen from the artifact's own entry. */
  lemma HitOrigin(es: seq<Effect>, n: nat, k: Text) returns (i: nat, p: nat)
    requires LegalRun(es) && WellNamed(es) && n <= |es| && Present(CoreAt(es, n), k)
    ensures i < p < n && Origin(es, i, p, n, k)
    ensures var a := ArtifactKey(IdToString(CoreAt(es, n).graphs[k].artifact));
            && Present(CoreAt(es, p + 1), a) && CoreAt(es, p + 1).cacheGen == CoreAt(es, n).cacheGen
            && CoreAt(es, p + 1).graphs[a].generation == CoreAt(es, n).graphs[k].generation
  {
    hide Apply, Answers, PublishesAt, IdToString, ArtifactKey, Keys;
    PresentHasOrigin(es, n, k);
    i, p :| 0 <= i < p < n && Origin(es, i, p, n, k);
    OriginArtifact(es, i, p, n, k);
  }

  /** What the core says about step `j`, for an artifact that was published at step `p`. */
  lemma ServedAtExactly(es: seq<Effect>, p: nat, j: nat, text: Text)
    requires LegalRun(es) && p <= j <= |es| && |text| != 55 && Present(CoreAt(es, p), ArtifactKey(text))
    ensures var a := ArtifactKey(text);
            Present(CoreAt(es, j), a) && CoreAt(es, j).graphs[a].generation == CoreAt(es, p).graphs[a].generation <==>
              CoreAt(es, j).cacheGen == CoreAt(es, p).cacheGen && NotAgain(es, p, j, text)
  {
    hide Apply, CoreAt, ArtifactKey, NotAgain;
    SameGenerationExactly(es, p, j, text);
    if NotAgain(es, p, j, text) {
      if CoreAt(es, j).cacheGen == CoreAt(es, p).cacheGen {
        PresentStays(es, p, j, ArtifactKey(text));
      } else {
        StaysInvalidated(es, p, j, text);
      }
    }
  }

  lemma NameLength(id: Id)
    ensures |IdToString(id)| != 55
  {
  }

  /**
    A replay at the generation a hit reported is forwarded exactly when nothing
    was invalidated since, and the artifact was not published again since the
    capture that the hit found; otherwise it is refused as stale.
   */
  lemma ReplayAfterHit(scan: Text -> Id, run: seq<Input>, n: nat, j: nat, k: Text) returns (i: nat, p: nat)
    requires IsRun(scan, run) && ReadsPrinted(scan) && n < j < |run| && AsksFor(scan, run, n, j, k)
    ensures i < p < n && CapturedFor(scan, run, i, p, n, k)
    ensures var text := IdToString(StateAt(scan, run, n).graphs[k].artifact);
            Forwards(scan, run, j) <==> StateAt(scan, run, j).cacheGen == StateAt(scan, run, n).cacheGen && !Republished(scan, run, p, j, text)
    ensures !Forwards(scan, run, j) ==>
              SentAt(scan, run, j) == [Status(StateAt(scan, run, j), run[j].socket, REPLAY_RESULT, run[j].message.requestId, STALE_GRAPH_GENERATION)]
  {
    hide React, StateAt, Apply, CoreAt, EffectOf, Instructed, ParseLookup, KeyHex, LookupFacts, Refusal, ArtifactText, IdToString, ArtifactKey,
         CapturedFor, Origin, NotAgain, Republished, WellNamed, LegalRun, WorkersKnown, Status;
    var es := Effects(scan, run);
    var text := IdToString(StateAt(scan, run, n).graphs[k].artifact);
    RunIsLegal(scan, run);
    RunIsWellNamed(scan, run);
    RunRefines(scan, run, n);
    RunRefines(scan, run, j);
    i, p := HitOrigin(es, n, k);
    OriginIsCapture(scan, run, i, p, n, k);
    NameLength(StateAt(scan, run, n).graphs[k].artifact);
    ServedAtExactly(es, p + 1, j, text);
    RepublishedExactly(scan, run, p, j, text);
    RunKnown(scan, run, j);
    Reported(scan, run, n, k);
    ReplayStep(scan, StateAt(scan, run, j), run[j], text);
  }

  lemma Reported(scan: Text -> Id, run: seq<Input>, n: nat, k: Text)
    requires IsRun(scan, run) && n < |run| && Serves(StateAt(scan, run, n), k)
    ensures StateAt(scan, run, n).graphs[k].generation != 0
  {
    hide React, StateAt, Instructed, ArtifactText, KeyWanted, ArtifactKey, Dispatches, Publishes;
    ServedUnderCurrentAuthority(scan, run, n, k);
    var i, j :| 0 <= i < j < n && CapturedFor(scan, run, i, j, n, k);
    ShortRun(scan, run, j);
  }

  lemma ShortRun(scan: Text -> Id, run: seq<Input>, j: nat)
    requires IsRun(scan, run) && j < |run|
    ensures Bump(StateAt(scan, run, j).graphGen) != 0
  {
    hide React, StateAt, EffectOf, Apply, CoreAt, Instructed;
    RunRefines(scan, run, j);
    Counters(Effects(scan, run), j);
  }
}
