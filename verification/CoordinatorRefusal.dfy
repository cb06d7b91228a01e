/**
  A run in which a replay at the generation just reported is refused: one graph
  is looked up under two workloads, so it has two keys and one artifact; the
  second capture moves the artifact on to a newer generation, and a later hit
  on the first key still reports the old one.
 */
module CoordinatorRefusal {
  import opened Bytes
  import opened Descriptors
  import opened Protocol
  import opened HexIds
  import opened CoordinatorCore
  import opened Coordinator
  import opened CoordinatorRuns
  import opened CoordinatorSafety
  import opened CoordinatorReplay
  import opened CoordinatorTraces

  function TwoWorkloads(x: seq<byte>, y: seq<byte>, id: Id): seq<Input> {
    [REGISTERING, Ask(x), Answer(1, id), Ask(y), Answer(2, id), Ask(x), ReplayAt(2, id)]
  }

  function AfterBoth(k: Text, l: Text, id: Id): map<Text, Entry> {
    WithGraph(WithGraph(map[], 2, k, id), 3, l, id)
  }

  lemma KeysDiffer(k: Text, l: Text, id: Id)
    requires |k| == 64 && |l| == 64 && k != l
    ensures ArtifactKey(IdToString(id)) != k && ArtifactKey(IdToString(id)) != l
    ensures l !in WithGraph(map[], 2, k, id)
    ensures k in AfterBoth(k, l, id) && AfterBoth(k, l, id)[k] == Entry(id, 2, 1, 1)
    ensures ArtifactKey(IdToString(id)) in AfterBoth(k, l, id) && AfterBoth(k, l, id)[ArtifactKey(IdToString(id))] == Entry(id, 3, 1, 1)
  {
    assert |IdToString(id)| == 33;
  }

  lemma SecondCapture(scan: Text -> Id, x: seq<byte>, y: seq<byte>, id: Id)
    requires ReadsPrinted(scan) && ParseLookup(x).Wanted? && ParseLookup(y).Wanted? && KeyIn(x) != KeyIn(y)
    ensures AnswersStep(scan, TwoWorkloads(x, y, id), 3, 4)
    ensures |TwoWorkloads(x, y, id)| == 7
    ensures StateAt(scan, TwoWorkloads(x, y, id), 5) == Working(2, 3, WithGraph(WithGraph(map[], 2, KeyIn(x), id), 3, KeyIn(y), id), map[])
  {
    hide *;
    Script(x, y, id);
    FirstCapture(scan, TwoWorkloads(x, y, id), x, id);
    KeysDiffer(KeyIn(x), KeyIn(y), id);
    CaptureSteps(scan, TwoWorkloads(x, y, id), 3, 1, 2, WithGraph(map[], 2, KeyIn(x), id), y, id);
    Delivered(scan, TwoWorkloads(x, y, id), 3, 4);
  }

  lemma Script(x: seq<byte>, y: seq<byte>, id: Id)
    ensures Begins(TwoWorkloads(x, y, id), x, id)
    ensures |TwoWorkloads(x, y, id)| == 7 && TwoWorkloads(x, y, id)[3] == Ask(y) && TwoWorkloads(x, y, id)[4] == Answer(2, id)
    ensures TwoWorkloads(x, y, id)[4].Receive?
  {
  }

  lemma ResultSteps(x: seq<byte>, y: seq<byte>, id: Id, j: nat)
    requires j < 7 && IsResult(TwoWorkloads(x, y, id)[j])
    ensures j == 2 || j == 4
  {
    hide CapturedPayload, NamePayload, IdToString;
  }

  lemma IsTwoWorkloadsRun(scan: Text -> Id, x: seq<byte>, y: seq<byte>, id: Id)
    requires ReadsPrinted(scan) && ParseLookup(x).Wanted? && ParseLookup(y).Wanted? && KeyIn(x) != KeyIn(y)
    ensures IsRun(scan, TwoWorkloads(x, y, id))
  {
    hide *;
    Script(x, y, id);
    FirstCapture(scan, TwoWorkloads(x, y, id), x, id);
    SecondCapture(scan, x, y, id);
    forall j: nat | j < 7 && IsResult(TwoWorkloads(x, y, id)[j])
      ensures j > 0 && AnswersStep(scan, TwoWorkloads(x, y, id), j - 1, j)
    {
      ResultSteps(x, y, id, j);
    }
    IsRunOfSteps(scan, TwoWorkloads(x, y, id));
  }

  /**
    Whatever one descriptor is looked up under two workloads with different
    keys: the second lookup of the first workload is a hit at generation 2, and
    the replay that asks for just that is refused as stale.
   */
  lemma ReportedReplayIsRefused(scan: Text -> Id, x: seq<byte>, y: seq<byte>, id: Id)
    requires ReadsPrinted(scan) && ParseLookup(x).Wanted? && ParseLookup(y).Wanted? && KeyIn(x) != KeyIn(y)
    requires ParseLookup(x).descriptor == ParseLookup(y).descriptor
    ensures var run := TwoWorkloads(x, y, id);
            && IsRun(scan, run) && AsksFor(scan, run, 5, 6, KeyIn(x))
            && |SentAt(scan, run, 5)| == 1 && SentAt(scan, run, 5)[0].message.graphGen == 2 && !Forwards(scan, run, 6)
            && SentAt(scan, run, 6) == [Status(StateAt(scan, run, 6), 2, REPLAY_RESULT, 0, STALE_GRAPH_GENERATION)]
  {
    hide React, ParseLookup, KeyIn, IdToString, ArtifactKey, Instructed, WithGraph, ArtifactText, NamePayload, KeyWanted;
    var run, k := TwoWorkloads(x, y, id), KeyIn(x);
    SecondCapture(scan, x, y, id);
    IsTwoWorkloadsRun(scan, x, y, id);
    KeysDiffer(k, KeyIn(y), id);
    var st := Working(2, 3, AfterBoth(k, KeyIn(y), id), map[]);
    assert Hits(st, Ask(x), k);
    HitSends(scan, st, Ask(x), k);
    assert StateAt(scan, run, 6) == st;
    NamedText(IdToString(id));
    assert WorkersKnown(st) by {
      RunKnown(scan, run, 6);
    }
    ReplayStep(scan, st, ReplayAt(2, id), IdToString(id));
  }
}
