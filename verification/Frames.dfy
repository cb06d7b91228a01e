/**
  Framing over a byte stream: `send_frame` of src/protocol.cpp and the
  coordinator's extraction of complete frames from what it has received so far
  (tools/coordinator_main.cpp). However the stream is cut into receives, the
  same bodies come out.
 */
module Frames {
  import opened Bytes
  import opened Protocol

  datatype Extraction = Extraction(bodies: seq<seq<byte>>, rest: seq<byte>, oversized: bool)

  /** The frames at the front of a buffer; an empty frame is skipped and an oversized one ends the connection. */
  function Extract(buf: seq<byte>): Extraction
    decreases |buf|
  {
    if |buf| < 4 then Extraction([], buf, false)
    else
      var len := At32(buf, 0);
      if len == 0 then Extract(buf[4..])
      else if len > MAX_FRAME_SIZE then Extraction([], buf, true)
      else if |buf| < 4 + len then Extraction([], buf, false)
      else
        var e := Extract(buf[4 + len..]);
        e.(bodies := [buf[4..4 + len]] + e.bodies)
  }

  class Connection {
    var buf: seq<byte>
    var open: bool

    constructor ()
      ensures buf == [] && open
    {
      buf, open := [], true;
    }

    /** One `recv`: the bodies are handed on in the order they are found. */
    method Receive(chunk: seq<byte>) returns (bodies: seq<seq<byte>>)
      requires open
      modifies this
      ensures Extraction(bodies, buf, !open) == Extract(old(buf) + chunk)
    {
      hide At32, Extract;
      buf := buf + chunk;
      bodies := [];
      ghost var all := Extract(buf);
      var progress := true;
      while progress && |buf| >= 4
        invariant open && Continues(all, bodies, Extract(buf))
        invariant !progress ==> Extract(buf) == Extraction([], buf, false)
        decreases |buf|, progress
      {
        ExtractOnce(buf);
        var len := At32(buf, 0);
        if len == 0 {
          buf := buf[4..];
        } else if len > MAX_FRAME_SIZE {
          open := false;
          return;
        } else if |buf| < 4 + len {
          progress := false;
        } else {
          bodies := bodies + [buf[4..4 + len]];
          buf := buf[4 + len..];
        }
      }
      ExtractOnce(buf);
    }
  }

  lemma ExtractOnce(buf: seq<byte>)
    ensures |buf| < 4 ==> Extract(buf) == Extraction([], buf, false)
    ensures |buf| >= 4 && At32(buf, 0) == 0 ==> Extract(buf) == Extract(buf[4..])
    ensures |buf| >= 4 && At32(buf, 0) > MAX_FRAME_SIZE ==> Extract(buf) == Extraction([], buf, true)
    ensures |buf| >= 4 && 0 < At32(buf, 0) <= MAX_FRAME_SIZE && |buf| < 4 + At32(buf, 0) ==>
              Extract(buf) == Extraction([], buf, false)
    ensures |buf| >= 4 && 0 < At32(buf, 0) <= MAX_FRAME_SIZE && |buf| >= 4 + At32(buf, 0) ==>
              Continues(Extract(buf), [buf[4..4 + At32(buf, 0)]], Extract(buf[4 + At32(buf, 0)..]))
  {
    hide At32;
  }

  ghost predicate Continues(all: Extraction, bodies: seq<seq<byte>>, e: Extraction) {
    all.bodies == bodies + e.bodies && all.rest == e.rest && all.oversized == e.oversized
  }

  // ----- chunking -----

  function Joined(chunks: seq<seq<byte>>): seq<byte> {
    if chunks == [] then [] else Joined(chunks[..|chunks| - 1]) + chunks[|chunks| - 1]
  }

  /** A connection's whole life: each receive extracts from what the previous ones left, until an oversized frame closes it. */
  function Session(chunks: seq<seq<byte>>): Extraction {
    if chunks == [] then Extraction([], [], false)
    else
      var before := Session(chunks[..|chunks| - 1]);
      if before.oversized then before
      else
        var e := Extract(before.rest + chunks[|chunks| - 1]);
        e.(bodies := before.bodies + e.bodies)
  }

  lemma {:induction false} ExtractAppend(a: seq<byte>, b: seq<byte>)
    ensures !Extract(a).oversized ==>
              Continues(Extract(a + b), Extract(a).bodies, Extract(Extract(a).rest + b))
    ensures Extract(a).oversized ==> Extract(a + b) == Extract(a).(rest := Extract(a).rest + b)
    decreases |a|
  {
    hide At32, Extract;
    ExtractOnce(a);
    if |a| >= 4 {
      SameLength(a, b);
      ExtractOnce(a + b);
      var len := At32(a, 0);
      if len == 0 {
        assert (a + b)[4..] == a[4..] + b;
        ExtractAppend(a[4..], b);
      } else if len <= MAX_FRAME_SIZE && |a| >= 4 + len {
        assert (a + b)[4 + len..] == a[4 + len..] + b;
        assert (a + b)[4..4 + len] == a[4..4 + len];
        ExtractAppend(a[4 + len..], b);
      }
    }
  }

  lemma SameLength(a: seq<byte>, b: seq<byte>)
    requires |a| >= 4
    ensures At32(a + b, 0) == At32(a, 0)
  {
    assert (a + b)[0..4] == a[0..4];
  }

  /** For any split into receives, the bodies processed are those of the whole stream, up to the first oversized length. */
  lemma {:induction false} ChunkingDoesNotMatter(chunks: seq<seq<byte>>)
    ensures Session(chunks).bodies == Extract(Joined(chunks)).bodies
    ensures Session(chunks).oversized == Extract(Joined(chunks)).oversized
    ensures !Session(chunks).oversized ==> Session(chunks).rest == Extract(Joined(chunks)).rest
  {
    hide Extract;
    if chunks == [] {
      NothingToExtract();
    } else {
      var n := |chunks| - 1;
      ChunkingDoesNotMatter(chunks[..n]);
      ExtractAppend(Joined(chunks[..n]), chunks[n]);
    }
  }

  lemma NothingToExtract()
    ensures Extract([]) == Extraction([], [], false)
  {
  }

  // ----- senders -----

  function Frame(body: seq<byte>): seq<byte> {
    LittleEndian(4, |body| % TWO_32) + body
  }

  /** `send_frame` refuses a body that is too large. */
  predicate Sendable(body: seq<byte>) {
    |body| <= MAX_FRAME_SIZE
  }

  function Stream(bodies: seq<seq<byte>>): seq<byte> {
    if bodies == [] then [] else Frame(bodies[0]) + Stream(bodies[1..])
  }

  lemma FrameLength(body: seq<byte>, rest: seq<byte>)
    requires Sendable(body)
    ensures At32(Frame(body) + rest, 0) == |body|
    ensures |Frame(body)| == 4 + |body| && (Frame(body) + rest)[4..4 + |body|] == body
    ensures (Frame(body) + rest)[4 + |body|..] == rest
  {
    assert (Frame(body) + rest)[0..4] == LittleEndian(4, |body|);
    Pow256Values();
    LittleEndianRoundTrip(4, |body|);
  }

  /** Non-empty bodies that were sent come out whole, in order, with nothing left over. */
  lemma {:induction false} StreamBack(bodies: seq<seq<byte>>)
    requires forall i | 0 <= i < |bodies| :: Sendable(bodies[i]) && bodies[i] != []
    ensures Extract(Stream(bodies)) == Extraction(bodies, [], false)
  {
    hide At32, Frame;
    if bodies == [] {
      NothingToExtract();
    } else {
      StreamBack(bodies[1..]);
      FrameLength(bodies[0], Stream(bodies[1..]));
      assert [bodies[0]] + bodies[1..] == bodies;
    }
  }

  function Bodies(ms: seq<Message>): (r: seq<seq<byte>>)
    ensures |r| == |ms| && forall i | 0 <= i < |ms| :: r[i] == Encode(ms[i])
  {
    seq(|ms|, i requires 0 <= i < |ms| => Encode(ms[i]))
  }

  /**
    Legal messages sent one after the other reach the coordinator exactly once
    each, in order and unchanged, however the network cuts the stream.
   */
  lemma MessagesArrive(ms: seq<Message>, chunks: seq<seq<byte>>)
    requires forall i | 0 <= i < |ms| :: Legal(ms[i])
    requires Joined(chunks) == Stream(Bodies(ms))
    ensures !Session(chunks).oversized && Session(chunks).rest == [] && |Session(chunks).bodies| == |ms|
    ensures forall i | 0 <= i < |ms| :: Decode(Session(chunks).bodies[i]) == Decoded(ms[i])
  {
    hide Encode, Decode, Extract, Stream, Session, Joined;
    forall i | 0 <= i < |ms|
      ensures Sendable(Bodies(ms)[i]) && Bodies(ms)[i] != [] && Decode(Bodies(ms)[i]) == Decoded(ms[i])
    {
      EncodedSize(ms[i]);
      MessageExact(Encode(ms[i]), ms[i]);
    }
    StreamBack(Bodies(ms));
    ChunkingDoesNotMatter(chunks);
  }

  lemma EncodedSize(m: Message)
    ensures |Encode(m)| == HEADER_SIZE + |m.payload|
  {
  }
}
