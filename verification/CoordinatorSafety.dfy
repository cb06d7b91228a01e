/**
  What holds in every run of the coordinator and its workers, stated on the
  messages themselves. The proofs are those of the core.
 */
module CoordinatorSafety {
  import opened Bytes
  import opened Canonical
  import opened Descriptors
  import opened Protocol
  import opened HexIds
  import opened CoordinatorCore
  import opened Coordinator
  import opened CoordinatorRuns

  /** `sscanf` reads back what `to_string` prints. */
  ghost predicate ReadsPrinted(scan: Text -> Id) {
    forall id :: scan(IdToString(id)) == id
  }

  ghost predicate Serves(st: State, k: Text) {
    k in st.graphs && k !in st.invalidated
  }

  /** Step `i` dispatched a capture, step `j` published its result under `k`, and both had the cache generation of step `n`. */
  ghost predicate CapturedFor(scan: Text -> Id, run: seq<Input>, i: nat, j: nat, n: nat, k: Text)
    requires i < j < n <= |run|
  {
    var si, sj, sn := StateAt(scan, run, i), StateAt(scan, run, j), StateAt(scan, run, n);
    && Dispatches(si, run[i]) && Publishes(sj, run[j]) && run[j].message.captureAttempt == Bump(si.captures)
    && si.cacheGen == sj.cacheGen == sn.cacheGen && si.epoch == sj.epoch
    && (k == KeyWanted(run[i]) || k == ArtifactKey(ArtifactText(run[j].message.payload).value))
    && k in sn.graphs && sn.graphs[k].artifact == scan(ArtifactText(run[j].message.payload).value)
    && sn.graphs[k].generation == Bump(sj.graphGen) && sn.graphs[k].cacheGenAtPublish == sn.cacheGen
  }

  /**
    Each graph that is present and not invalidated was published under the
    current cache generation, from a capture dispatched under that generation.
   */
  lemma ServedUnderCurrentAuthority(scan: Text -> Id, run: seq<Input>, n: nat, k: Text)
    requires IsRun(scan, run) && n <= |run| && Serves(StateAt(scan, run, n), k)
    ensures exists i, j :: 0 <= i < j < n && CapturedFor(scan, run, i, j, n, k)
  {
    hide React, StateAt, Apply, CoreAt, EffectOf, Instructed, Origin, Dispatches, Publishes, ArtifactText, KeyWanted, CapturedFor;
    var es := Effects(scan, run);
    RunIsLegal(scan, run);
    RunRefines(scan, run, n);
    PresentHasOrigin(es, n, k);
    var i, j :| 0 <= i < j < n && Origin(es, i, j, n, k);
    OriginIsCapture(scan, run, i, j, n, k);
  }

  lemma OriginIsCapture(scan: Text -> Id, run: seq<Input>, i: nat, j: nat, n: nat, k: Text)
    requires IsRun(scan, run) && i < j < n <= |run| && Origin(Effects(scan, run), i, j, n, k)
    ensures CapturedFor(scan, run, i, j, n, k)
  {
    hide React, StateAt, Apply, CoreAt, Instructed, ParseLookup, KeyHex, LookupFacts, Refusal, ArtifactText, Bump, ArtifactKey;
    RunRefines(scan, run, i);
    RunRefines(scan, run, j);
    RunRefines(scan, run, n);
    DispatchEffect(scan, StateAt(scan, run, i), run[i]);
    DispatchEffect(scan, StateAt(scan, run, j), run[j]);
  }

  // ----- replays -----

  /** Step `i` told a worker to replay a graph that was then present, under the cache generation of step `j`. */
  ghost predicate ReplayedFor(scan: Text -> Id, run: seq<Input>, i: nat, j: nat)
    requires i < j < |run| && run[j].Receive?
  {
    var si, sj, m := StateAt(scan, run, i), StateAt(scan, run, j), run[j].message;
    && Passes(si, run[i], REPLAY_INSTRUCT) && ArtifactText(run[i].message.payload).Some?
    && var k := ArtifactKey(ArtifactText(run[i].message.payload).value);
    && Serves(si, k) && m.graphGen == si.graphs[k].generation
    && si.cacheGen == sj.cacheGen && si.epoch == sj.epoch
    && Serves(sj, k) && m.graphGen <= sj.graphs[k].generation
  }

  /**
    Each replay result that is relayed was instructed under the current cache
    generation, for a graph that was present then and still is.
   */
  lemma RelayedUnderCurrentAuthority(scan: Text -> Id, run: seq<Input>, j: nat)
    requires IsRun(scan, run) && j < |run| && Passes(StateAt(scan, run, j), run[j], REPLAY_RESULT)
    ensures exists i :: 0 <= i < j && ReplayedFor(scan, run, i, j)
  {
    hide React, StateAt, ParseLookup, KeyHex, LookupFacts, BootFor, ArtifactText, ReplayedFor, ArtifactKey;
    var i :| 0 <= i < j && Instructed(scan, run, i, run[j].message);
    StepSends(scan, StateAt(scan, run, i), run[i]);
    AuthorityIsSet(scan, run, i);
    var x := SentAt(scan, run, i)[0];
    assert x in React(scan, StateAt(scan, run, i), run[i]).sent && x.message.kind == REPLAY_INSTRUCT;
    InstructionHolds(scan, run, i, j);
  }

  lemma InstructionHolds(scan: Text -> Id, run: seq<Input>, i: nat, j: nat)
    requires IsRun(scan, run) && i < j < |run| && run[j].Receive?
    requires Passes(StateAt(scan, run, i), run[i], REPLAY_INSTRUCT) && ArtifactText(run[i].message.payload).Some?
    requires Serves(StateAt(scan, run, i), ArtifactKey(ArtifactText(run[i].message.payload).value))
    requires run[j].message.graphGen ==
               StateAt(scan, run, i).graphs[ArtifactKey(ArtifactText(run[i].message.payload).value)].generation
    requires StateAt(scan, run, i).cacheGen == StateAt(scan, run, j).cacheGen
    requires StateAt(scan, run, i).epoch == StateAt(scan, run, j).epoch
    ensures ReplayedFor(scan, run, i, j)
  {
    hide React, StateAt, Apply, CoreAt, EffectOf, Instructed, Refusal, ArtifactText, ArtifactKey;
    var k := ArtifactKey(ArtifactText(run[i].message.payload).value);
    RunRefines(scan, run, i);
    RunRefines(scan, run, j);
    PresentStays(Effects(scan, run), i, j, k);
    GenerationsGrow(Effects(scan, run), i, j, k);
  }

  // ----- attempts and generations -----

  /** Each capture attempt publishes at most once, however often its result is delivered. */
  lemma PublishesOnce(scan: Text -> Id, run: seq<Input>, i: nat, j: nat)
    requires IsRun(scan, run) && i < j < |run|
    requires Publishes(StateAt(scan, run, i), run[i]) && Publishes(StateAt(scan, run, j), run[j])
    ensures run[i].message.captureAttempt != run[j].message.captureAttempt
  {
    hide React, StateAt, Apply, CoreAt, Instructed, ParseLookup, KeyHex, LookupFacts, Refusal, ArtifactText;
    RunIsLegal(scan, run);
    RunRefines(scan, run, i);
    RunRefines(scan, run, j);
    DispatchEffect(scan, StateAt(scan, run, i), run[i]);
    DispatchEffect(scan, StateAt(scan, run, j), run[j]);
    AttemptPublishesOnce(Effects(scan, run), i, j);
  }

  predicate Hits(st: State, i: Input, k: Text) {
    Passes(st, i, LOOKUP) && ParseLookup(i.message.payload).Wanted? && KeyWanted(i) == k && k in st.graphs && k !in st.invalidated
  }

  /** Step `i` tells a client the generation of the graph under `k`: a hit, or the completion of the capture it asked for. */
  ghost predicate Reports(scan: Text -> Id, run: seq<Input>, i: nat, k: Text)
    requires i < |run|
  {
    var st := StateAt(scan, run, i);
    Hits(st, run[i], k) || (Publishes(st, run[i]) && st.pending[run[i].message.captureAttempt].key == k && k != [])
  }

  lemma HitSends(scan: Text -> Id, st: State, i: Input, k: Text)
    requires Hits(st, i, k)
    ensures React(scan, st, i) == Reaction(st, [HitReply(st, i.socket, i.message.requestId, st.graphs[k])])
  {
    hide ParseLookup, KeyHex, LookupFacts, Refusal, HitReply;
  }

  lemma PublishSends(scan: Text -> Id, st: State, i: Input)
    requires Publishes(st, i)
    ensures |React(scan, st, i).sent| == 1 && React(scan, st, i).sent[0].message.graphGen == Bump(st.graphGen)
    ensures forall k | k == st.pending[i.message.captureAttempt].key && k != [] ::
              k in React(scan, st, i).state.graphs && React(scan, st, i).state.graphs[k].generation == Bump(st.graphGen)
  {
    hide ArtifactText, Refusal, Bump, NamePayload, Keys, ArtifactKey;
  }

  lemma ReportIsGeneration(scan: Text -> Id, run: seq<Input>, i: nat, k: Text)
    requires i < |run| && Reports(scan, run, i, k)
    ensures |SentAt(scan, run, i)| == 1 && k in StateAt(scan, run, i + 1).graphs
    ensures SentAt(scan, run, i)[0].message.graphGen == StateAt(scan, run, i + 1).graphs[k].generation
  {
    hide React, ParseLookup, KeyHex, LookupFacts, Refusal, ArtifactText, Bump, NamePayload;
    var st := StateAt(scan, run, i);
    if Hits(st, run[i], k) {
      HitSends(scan, st, run[i], k);
    } else {
      PublishSends(scan, st, run[i]);
    }
  }

  /** The graph generation reported for a key never decreases. */
  lemma ReportsNeverDecrease(scan: Text -> Id, run: seq<Input>, i: nat, j: nat, k: Text)
    requires IsRun(scan, run) && i < j < |run| && Reports(scan, run, i, k) && Reports(scan, run, j, k)
    ensures |SentAt(scan, run, i)| == |SentAt(scan, run, j)| == 1
    ensures SentAt(scan, run, i)[0].message.graphGen <= SentAt(scan, run, j)[0].message.graphGen
  {
    hide React, StateAt, SentAt, Reports, Apply, CoreAt, EffectOf, Instructed;
    ReportIsGeneration(scan, run, i, k);
    ReportIsGeneration(scan, run, j, k);
    RunRefines(scan, run, i + 1);
    RunRefines(scan, run, j + 1);
    GenerationsGrow(Effects(scan, run), i + 1, j + 1, k);
  }

  // ----- hits -----

  lemma PrintedName(id: Id, nodes: u32)
    ensures ArtifactText(CapturedPayload(id, nodes)) == Some(IdToString(id))
  {
    hide IdToString, Be32, Tokenize, Flatten;
    var fs := [Field(1, IdToString(id)), Field(2, Be32(nodes))];
    assert AllFit(fs);
    TokenizeFlatten(fs);
  }

  lemma RunIsWellNamed(scan: Text -> Id, run: seq<Input>)
    requires IsRun(scan, run) && ReadsPrinted(scan)
    ensures WellNamed(Effects(scan, run))
  {
    hide React, StateAt, Instructed, ParseLookup, KeyHex, LookupFacts, Refusal, ArtifactText, CapturedPayload, IdToString;
    var es := Effects(scan, run);
    forall j | 0 <= j < |es| && es[j].Published?
      ensures es[j].text == IdToString(es[j].artifact)
    {
      var i := ResultAnswers(scan, run, j);
      var id, nodes :| run[j].message.payload == CapturedPayload(id, nodes);
      PrintedName(id, nodes);
    }
  }

  /**
    A lookup hit names an artifact whose own entry is present, not invalidated
    and at least as new as reported; it may be newer, and then a replay at the
    reported generation is refused. It was captured under the current cache
    generation for a lookup with the same key.
   */
  lemma HitIsPresent(scan: Text -> Id, run: seq<Input>, n: nat, k: Text)
    requires IsRun(scan, run) && ReadsPrinted(scan) && n < |run| && Hits(StateAt(scan, run, n), run[n], k)
    ensures |SentAt(scan, run, n)| == 1 && SentAt(scan, run, n)[0].message.status == OK
    ensures var st := StateAt(scan, run, n);
            var text := IdToString(st.graphs[k].artifact);
            && SentAt(scan, run, n)[0].message.payload == NamePayload(text)
            && Serves(st, ArtifactKey(text))
            && SentAt(scan, run, n)[0].message.graphGen <= st.graphs[ArtifactKey(text)].generation
    ensures exists i, j :: 0 <= i < j < n && CapturedFor(scan, run, i, j, n, k) && KeyWanted(run[i]) == k
  {
    hide React, StateAt, Apply, CoreAt, EffectOf, Instructed, ParseLookup, KeyHex, LookupFacts, Refusal, ArtifactText, NamePayload, IdToString;
    var es := Effects(scan, run);
    HitSends(scan, StateAt(scan, run, n), run[n], k);
    RunIsLegal(scan, run);
    RunIsWellNamed(scan, run);
    RunRefines(scan, run, n);
    KeyIsNamed(es, n, k);
    ServedUnderCurrentAuthority(scan, run, n, k);
    var i, j :| 0 <= i < j < n && CapturedFor(scan, run, i, j, n, k);
    KeyIsNoArtifact(scan, run, i, j, n, k);
  }

  /** Digests and artifact names have different lengths, so no key is ever mistaken for an artifact. */
  lemma KeyIsNoArtifact(scan: Text -> Id, run: seq<Input>, i: nat, j: nat, n: nat, k: Text)
    requires IsRun(scan, run) && i < j < n <= |run| && |k| == 64 && CapturedFor(scan, run, i, j, n, k)
    ensures KeyWanted(run[i]) == k
  {
    hide React, StateAt, Instructed, ParseLookup, KeyHex, LookupFacts, Refusal, ArtifactText, CapturedPayload, IdToString;
    var a := ResultAnswers(scan, run, j);
    var id, nodes :| run[j].message.payload == CapturedPayload(id, nodes);
    PrintedName(id, nodes);
  }
}
