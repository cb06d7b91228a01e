/**
  The wire messages of src/protocol.cpp: a fixed little-endian header and a
  payload. Encoding and strict decoding are exact inverses on legal messages.
 */
module Protocol {
  import opened Bytes

  const PROTOCOL_VERSION: byte := 1
  const MAX_FRAME_SIZE: int := 8 * 1024 * 1024
  const MAX_PAYLOAD_SIZE: int := MAX_FRAME_SIZE - 96
  const HEADER_SIZE: int := 74

  // Message types.
  const HELLO: byte := 1
  const WELCOME: byte := 2
  const REGISTER: byte := 3
  const REGISTER_ACK: byte := 4
  const LOOKUP: byte := 5
  const LOOKUP_RESULT: byte := 6
  const CAPTURE_INSTRUCT: byte := 7
  const CAPTURE_RESULT: byte := 8
  const REPLAY_INSTRUCT: byte := 9
  const REPLAY_RESULT: byte := 10
  const INVALIDATE: byte := 11
  const INVALIDATE_ACK: byte := 12
  const SHUTDOWN: byte := 13

  datatype Message = Message(
    kind: byte, version: byte, flags: u16,
    requestId: u64, epoch: u64, cacheGen: u64, workerId: u64, workerBoot: u64,
    graphGen: u64, captureAttempt: u64, replayAttempt: u64,
    status: u16, payload: seq<byte>)

  datatype Error = Truncated | UnknownMessage | UnknownVersion | Overflow
  datatype Decoded = Decoded(message: Message) | Malformed(error: Error)

  function Words(m: Message): (w: seq<u64>)
    ensures |w| == 8
  {
    [m.requestId, m.epoch, m.cacheGen, m.workerId, m.workerBoot, m.graphGen, m.captureAttempt, m.replayAttempt]
  }

  function WordsBytes(w: seq<u64>): (b: seq<byte>)
    ensures |b| == 8 * |w|
  {
    if w == [] then [] else WordsBytes(w[..|w| - 1]) + LittleEndian(8, w[|w| - 1])
  }

  function HeaderOf(m: Message): (b: seq<byte>)
    ensures |b| == HEADER_SIZE
  {
    [m.kind, m.version] + LittleEndian(2, m.flags) + WordsBytes(Words(m)) + LittleEndian(2, m.status)
    + LittleEndian(4, |m.payload| % TWO_32)
  }

  function Encode(m: Message): seq<byte> {
    HeaderOf(m) + m.payload
  }

  function At16(b: seq<byte>, off: nat): u16
    requires off + 2 <= |b|
  {
    Pow256Values();
    FromLittleEndianRoundTrip(b[off..off + 2]);
    FromLittleEndian(b[off..off + 2])
  }

  function At32(b: seq<byte>, off: nat): u32
    requires off + 4 <= |b|
  {
    Pow256Values();
    FromLittleEndianRoundTrip(b[off..off + 4]);
    FromLittleEndian(b[off..off + 4])
  }

  function At64(b: seq<byte>, off: nat): u64
    requires off + 8 <= |b|
  {
    Pow256Values();
    FromLittleEndianRoundTrip(b[off..off + 8]);
    FromLittleEndian(b[off..off + 8])
  }

  function MessageOf(b: seq<byte>): Message
    requires |b| >= HEADER_SIZE
  {
    Message(b[0], b[1], At16(b, 2), At64(b, 4), At64(b, 12), At64(b, 20), At64(b, 28), At64(b, 36), At64(b, 44), At64(b, 52), At64(b, 60),
            At16(b, 68), b[HEADER_SIZE..])
  }

  function Decode(b: seq<byte>): Decoded {
    if |b| < HEADER_SIZE then Malformed(Truncated)
    else if !(HELLO <= b[0] <= SHUTDOWN) then Malformed(UnknownMessage)
    else if b[1] != PROTOCOL_VERSION then Malformed(UnknownVersion)
    else if At32(b, 70) > MAX_PAYLOAD_SIZE then Malformed(Overflow)
    else if HEADER_SIZE + At32(b, 70) != |b| then Malformed(Truncated)
    else Decoded(MessageOf(b))
  }

  /** What the decoder lets through. */
  predicate Legal(m: Message) {
    HELLO <= m.kind <= SHUTDOWN && m.version == PROTOCOL_VERSION && |m.payload| <= MAX_PAYLOAD_SIZE
  }

  // ----- the byte loops -----

  /** `v >> (8 * i)`. */
  function ShiftRight(v: nat, i: nat): nat {
    if i == 0 then v else ShiftRight(v / 256, i - 1)
  }

  lemma {:induction false} BigEndianTop(width: nat, v: nat)
    ensures BigEndian(width + 1, v) == [ShiftRight(v, width) % 256] + BigEndian(width, v)
  {
    if width > 0 {
      BigEndianTop(width - 1, v / 256);
    }
  }

  /** The loop of `put_u16_le`, `put_u32_le` and `put_u64_le`. */
  method PutLittleEndian(b: seq<byte>, width: nat, v: nat) returns (r: seq<byte>)
    ensures r == b + LittleEndian(width, v)
  {
    r := b;
    for i := 0 to width
      invariant r == b + LittleEndian(i, v)
    {
      BigEndianTop(i, v);
      assert LittleEndian(i + 1, v) == LittleEndian(i, v) + [ShiftRight(v, i) % 256];
      r := r + [ShiftRight(v, i) % 256];
    }
  }

  lemma {:induction false} FromBigEndianTop(x: byte, b: seq<byte>)
    ensures FromBigEndian([x] + b) == x * Pow256(|b|) + FromBigEndian(b)
  {
    var s := [x] + b;
    if b == [] {
      assert s[..0] == [];
      assert FromBigEndian(s) == FromBigEndian(s[..0]) * 256 + x;
    } else {
      var n := |b| - 1;
      FromBigEndianTop(x, b[..n]);
      assert s[..n + 1] == [x] + b[..n];
      assert x * Pow256(n) * 256 == x * Pow256(n + 1);
    }
  }

  /** The loop of `rd_u32_le` and `rd_u64_le`; the bits it joins do not overlap. */
  method ReadLittleEndian(b: seq<byte>, off: nat, width: nat) returns (v: nat)
    requires off + width <= |b|
    ensures v == FromLittleEndian(b[off..off + width])
  {
    v := 0;
    for i := 0 to width
      invariant v == FromLittleEndian(b[off..off + i])
    {
      assert Reverse(b[off..off + i + 1]) == [b[off + i]] + Reverse(b[off..off + i]);
      FromBigEndianTop(b[off + i], Reverse(b[off..off + i]));
      v := v + b[off + i] * Pow256(i);
    }
  }

  // ----- messages as methods -----

  method EncodeMessage(m: Message) returns (b: seq<byte>)
    ensures b == Encode(m)
  {
    hide LittleEndian;
    b := [m.kind];
    b := b + [m.version];
    b := PutLittleEndian(b, 2, m.flags);
    var words := Words(m);
    ghost var front := b;
    for i := 0 to 8
      invariant b == front + WordsBytes(words[..i])
    {
      assert words[..i + 1][..i] == words[..i];
      b := PutLittleEndian(b, 8, words[i]);
    }
    assert words[..8] == words;
    b := PutLittleEndian(b, 2, m.status);
    b := PutLittleEndian(b, 4, |m.payload| % TWO_32);
    b := b + m.payload;
  }

  method DecodeMessage(b: seq<byte>) returns (r: Decoded)
    ensures r == Decode(b)
  {
    hide FromLittleEndian;
    if |b| < HEADER_SIZE { return Malformed(Truncated); }
    if !(HELLO <= b[0] <= SHUTDOWN) { return Malformed(UnknownMessage); }
    if b[1] != PROTOCOL_VERSION { return Malformed(UnknownVersion); }
    var off := 2;
    var flags := ReadLittleEndian(b, off, 2);
    off := off + 2;
    var words: seq<u64> := [];
    for i := 0 to 8
      invariant off == 4 + 8 * i && |words| == i
      invariant forall k | 0 <= k < i :: words[k] == At64(b, 4 + 8 * k)
    {
      var w := ReadLittleEndian(b, off, 8);
      assert w == At64(b, off);
      words := words + [w];
      off := off + 8;
    }
    var status := ReadLittleEndian(b, off, 2);
    off := off + 2;
    var plen := ReadLittleEndian(b, off, 4);
    off := off + 4;
    assert flags == At16(b, 2) && status == At16(b, 68) && plen == At32(b, 70);
    if plen > MAX_PAYLOAD_SIZE { return Malformed(Overflow); }
    if off + plen != |b| { return Malformed(Truncated); }
    assert words[0] == At64(b, 4 + 8 * 0) && words[1] == At64(b, 4 + 8 * 1) && words[2] == At64(b, 4 + 8 * 2) && words[3] == At64(b, 4 + 8 * 3);
    assert words[4] == At64(b, 4 + 8 * 4) && words[5] == At64(b, 4 + 8 * 5) && words[6] == At64(b, 4 + 8 * 6) && words[7] == At64(b, 4 + 8 * 7);
    return Decoded(Message(b[0], b[1], flags, words[0], words[1], words[2], words[3], words[4], words[5], words[6], words[7], status, b[off..]));
  }

  // ----- exact inverses -----

  lemma {:induction false} WordsBytesAt(w: seq<u64>, k: nat)
    requires k < |w|
    ensures WordsBytes(w)[8 * k..8 * k + 8] == LittleEndian(8, w[k])
  {
    hide LittleEndian;
    var n := |w| - 1;
    if k < n {
      WordsBytesAt(w[..n], k);
      assert WordsBytes(w)[..8 * n] == WordsBytes(w[..n]);
      assert WordsBytes(w)[8 * k..8 * k + 8] == WordsBytes(w[..n])[8 * k..8 * k + 8];
    }
  }

  lemma HeaderParts(m: Message, rest: seq<byte>)
    ensures var b := HeaderOf(m) + rest;
            && b[0] == m.kind && b[1] == m.version && b[2..4] == LittleEndian(2, m.flags)
            && b[4..68] == WordsBytes(Words(m)) && b[68..70] == LittleEndian(2, m.status)
            && b[70..74] == LittleEndian(4, |m.payload| % TWO_32) && b[74..] == rest
  {
    hide LittleEndian, WordsBytes;
  }

  lemma WordRead(m: Message, rest: seq<byte>, k: nat)
    requires k < 8
    ensures At64(HeaderOf(m) + rest, 4 + 8 * k) == Words(m)[k]
  {
    hide LittleEndian, FromLittleEndian, WordsBytes;
    var b := HeaderOf(m) + rest;
    HeaderParts(m, rest);
    WordsBytesAt(Words(m), k);
    assert b[4 + 8 * k..4 + 8 * k + 8] == b[4..68][8 * k..8 * k + 8];
    Pow256Values();
    LittleEndianRoundTrip(8, Words(m)[k]);
  }

  lemma HeaderReadBack(m: Message, rest: seq<byte>)
    ensures At16(HeaderOf(m) + rest, 2) == m.flags && At16(HeaderOf(m) + rest, 68) == m.status
    ensures At32(HeaderOf(m) + rest, 70) == |m.payload| % TWO_32
  {
    hide LittleEndian, FromLittleEndian, HeaderOf, WordsBytes;
    HeaderParts(m, rest);
    Pow256Values();
    LittleEndianRoundTrip(2, m.flags);
    LittleEndianRoundTrip(2, m.status);
    LittleEndianRoundTrip(4, |m.payload| % TWO_32);
  }

  lemma EncodedDecodes(m: Message)
    requires Legal(m)
    ensures Decode(Encode(m)) == Decoded(m)
  {
    hide At16, At32, At64, HeaderOf;
    var b := Encode(m);
    HeaderParts(m, m.payload);
    HeaderReadBack(m, m.payload);
    WordRead(m, m.payload, 0);
    WordRead(m, m.payload, 1);
    WordRead(m, m.payload, 2);
    WordRead(m, m.payload, 3);
    WordRead(m, m.payload, 4);
    WordRead(m, m.payload, 5);
    WordRead(m, m.payload, 6);
    WordRead(m, m.payload, 7);
  }

  lemma {:induction false} WordsFromBytes(w: seq<u64>, b: seq<byte>)
    requires |b| == 8 * |w|
    requires forall k | 0 <= k < |w| :: b[8 * k..8 * k + 8] == LittleEndian(8, w[k])
    ensures WordsBytes(w) == b
  {
    hide LittleEndian;
    if w != [] {
      var n := |w| - 1;
      var c := b[..8 * n];
      forall k | 0 <= k < n
        ensures c[8 * k..8 * k + 8] == LittleEndian(8, w[..n][k])
      {
        assert c[8 * k..8 * k + 8] == b[8 * k..8 * k + 8];
      }
      WordsFromBytes(w[..n], c);
      assert b == c + b[8 * n..8 * n + 8];
    }
  }

  lemma At64Bytes(b: seq<byte>, off: nat)
    requires off + 8 <= |b|
    ensures LittleEndian(8, At64(b, off)) == b[off..off + 8]
  {
    FromLittleEndianRoundTrip(b[off..off + 8]);
  }

  lemma WordsRebuilt(b: seq<byte>)
    requires |b| >= HEADER_SIZE
    ensures WordsBytes(Words(MessageOf(b))) == b[4..68]
  {
    hide LittleEndian, At16, At64, FromLittleEndian, WordsBytes;
    var w := Words(MessageOf(b));
    forall k | 0 <= k < 8
      ensures b[4..68][8 * k..8 * k + 8] == LittleEndian(8, w[k])
    {
      assert w[k] == At64(b, 4 + 8 * k);
      At64Bytes(b, 4 + 8 * k);
      assert b[4..68][8 * k..8 * k + 8] == b[4 + 8 * k..4 + 8 * k + 8];
    }
    WordsFromBytes(w, b[4..68]);
  }

  lemma SmallBytes(b: seq<byte>)
    requires |b| >= HEADER_SIZE
    ensures LittleEndian(2, At16(b, 2)) == b[2..4] && LittleEndian(2, At16(b, 68)) == b[68..70]
    ensures LittleEndian(4, At32(b, 70)) == b[70..74]
  {
    FromLittleEndianRoundTrip(b[2..4]);
    FromLittleEndianRoundTrip(b[68..70]);
    FromLittleEndianRoundTrip(b[70..74]);
  }

  lemma DecodedEncodes(b: seq<byte>)
    requires Decode(b).Decoded?
    ensures Legal(Decode(b).message) && b == Encode(Decode(b).message)
  {
    hide LittleEndian, FromLittleEndian, At16, At32, At64, WordsBytes;
    var m := MessageOf(b);
    assert Decode(b) == Decoded(m);
    assert m.kind == b[0] && m.version == b[1] && m.flags == At16(b, 2) && m.status == At16(b, 68) && m.payload == b[74..];
    WordsRebuilt(b);
    SmallBytes(b);
    assert |m.payload| % TWO_32 == At32(b, 70);
    assert b == [b[0], b[1]] + b[2..4] + b[4..68] + b[68..70] + b[70..74] + b[74..];
  }

  /** The decoder accepts exactly the encodings of legal messages, and returns the message that was encoded. */
  lemma MessageExact(b: seq<byte>, m: Message)
    ensures Decode(b) == Decoded(m) <==> Legal(m) && b == Encode(m)
  {
    hide Encode, Decode;
    if Decode(b) == Decoded(m) {
      DecodedEncodes(b);
    }
    if Legal(m) && b == Encode(m) {
      EncodedDecodes(m);
    }
  }
}
