/**
  The envelope of src/persistence.cpp around every stored payload: magic,
  format version, payload length, payload, checksum length, SHA-256 checksum.
  The parser adds the lengths in 32 bits, so the sum can wrap around.
 */
module Envelope {
  import opened Bytes
  import Sha256

  const MAGIC: u32 := 0x47434652
  const FORMAT_VERSION: u32 := 1
  const CHECKSUM_LENGTH: u32 := 32

  /** One more byte and the 32-bit sum `12u + plen + 4u` wraps to zero. */
  const MAX_PAYLOAD: int := TWO_32 - 17

  datatype Error = Truncated | Corrupt | UnknownVersion | TrailingGarbage | ChecksumMismatch

  /** `Fault` is a read outside the file, which the parser does not guard against. */
  datatype Outcome = Accepted(payload: seq<byte>) | Refused(error: Error) | Fault

  function Header(version: u32, payload: seq<byte>): (h: seq<byte>)
    ensures |h| == 12
  {
    Be32(MAGIC) + Be32(version) + Be32(|payload| % TWO_32)
  }

  function Build(version: u32, payload: seq<byte>): seq<byte> {
    Header(version, payload) + (payload + (Be32(CHECKSUM_LENGTH) + Sha256.Digest(payload)))
  }

  function WordAt(data: seq<byte>, off: nat): u32
    requires off + 4 <= |data|
  {
    FromBe32(data[off..off + 4])
  }

  /** The checks after the three header words. */
  function ParseBody(data: seq<byte>, plen: u32): Outcome
    requires |data| >= 16
  {
    var total := (16 + plen) % TWO_32 + 32;
    var off := (12 + plen) % TWO_32;
    if total > |data| then Refused(Truncated)
    else if total < |data| then Refused(TrailingGarbage)
    else if off + 4 > |data| then Refused(Truncated)
    else if WordAt(data, off) != CHECKSUM_LENGTH then Refused(Corrupt)
    else if 12 + plen > |data| then Fault
    else
      var payload := data[12..12 + plen];
      if data[(16 + plen) % TWO_32..] == Sha256.Digest(payload) then Accepted(payload) else Refused(ChecksumMismatch)
  }

  function Parse(version: u32, data: seq<byte>): Outcome {
    if |data| < 16 then Refused(Truncated)
    else if WordAt(data, 0) != MAGIC then Refused(Corrupt)
    else if WordAt(data, 4) != version then Refused(UnknownVersion)
    else ParseBody(data, WordAt(data, 8))
  }

  // ----- methods -----

  method BuildEnvelope(version: u32, payload: seq<byte>) returns (out: seq<byte>)
    ensures out == Build(version, payload)
  {
    out := Be32(MAGIC);
    out := out + Be32(version);
    out := out + Be32(|payload| % TWO_32);
    out := out + payload;
    var digest := Sha256.HashPieces([payload]);
    Sha256.OnePiece(payload);
    out := out + Be32(CHECKSUM_LENGTH);
    out := out + digest;
  }

  /** The checksum is compared byte by byte. */
  method CompareChecksum(data: seq<byte>, at: nat, digest: seq<byte>) returns (same: bool)
    requires |digest| == 32 && at + 32 == |data|
    ensures same <==> data[at..] == digest
  {
    for i := 0 to 32
      invariant forall k | 0 <= k < i :: data[at + k] == digest[k]
    {
      if data[at + i] != digest[i] {
        assert data[at..][i] != digest[i];
        return false;
      }
    }
    return true;
  }

  method ParseEnvelope(version: u32, data: seq<byte>) returns (r: Outcome)
    ensures r == Parse(version, data)
  {
    hide Sha256.Digest;
    if |data| < 16 { return Refused(Truncated); }
    if WordAt(data, 0) != MAGIC { return Refused(Corrupt); }
    if WordAt(data, 4) != version { return Refused(UnknownVersion); }
    var plen := WordAt(data, 8);
    var total := (16 + plen) % TWO_32 + 32;
    if total != |data| {
      return if total > |data| then Refused(Truncated) else Refused(TrailingGarbage);
    }
    var off := (12 + plen) % TWO_32;
    if off + 4 > |data| { return Refused(Truncated); }
    if WordAt(data, off) != CHECKSUM_LENGTH { return Refused(Corrupt); }
    if 12 + plen > |data| { return Fault; }
    var payload := data[12..12 + plen];
    Sha256.OnePiece(payload);
    var digest := Sha256.HashPieces([payload]);
    var same := CompareChecksum(data, (16 + plen) % TWO_32, digest);
    return if same then Accepted(payload) else Refused(ChecksumMismatch);
  }

  // ----- exactly the built envelopes are accepted -----

  function Word(a: int, b: int, c: int, d: int): int {
    ((a * 256 + b) * 256 + c) * 256 + d
  }

  lemma WordBytes(b: seq<byte>)
    requires |b| == 4
    ensures FromBe32(b) == Word(b[0], b[1], b[2], b[3])
  {
    assert b[..3][..2] == b[..2] && b[..2][..1] == b[..1] && b[..1][..0] == [];
    assert FromBigEndian(b[..1]) == b[0];
    assert FromBigEndian(b[..2]) == FromBigEndian(b[..1]) * 256 + b[1];
    assert FromBigEndian(b[..3]) == FromBigEndian(b[..2]) * 256 + b[2];
  }

  lemma WordIs(data: seq<byte>, off: nat, v: u32)
    requires off + 4 <= |data| && data[off..off + 4] == Be32(v)
    ensures WordAt(data, off) == v
  {
  }

  /** A wrapped length sum leads the parser back into the header, where only a version of 32 looks like a checksum length. */
  lemma WrappedLength(version: u32, data: seq<byte>)
    requires |data| >= 16 && WordAt(data, 0) == MAGIC && WordAt(data, 4) == version && 16 + WordAt(data, 8) >= TWO_32
    ensures !ParseBody(data, WordAt(data, 8)).Accepted?
    ensures ParseBody(data, WordAt(data, 8)).Fault? <==> version == 32 && |data| == 40 && WordAt(data, 8) == 0xFFFF_FFF8
  {
    hide Be32, FromBe32, Sha256.Digest;
    var plen := WordAt(data, 8);
    var k := plen + 16 - TWO_32;
    HeaderBytes(data);
    if |data| == k + 32 && k >= 4 {
      assert (12 + plen) % TWO_32 == k - 4;
      var w := data[k - 4..k];
      WordBytes(w);
      assert forall i | 0 <= i < 4 :: w[i] == data[k - 4 + i];
      MisreadWord(data, k);
    }
  }

  lemma HeaderBytes(data: seq<byte>)
    requires |data| >= 16 && WordAt(data, 0) == MAGIC && 16 + WordAt(data, 8) >= TWO_32
    ensures data[0] == 0x47 && data[1] == 0x43 && data[2] == 0x46 && data[3] == 0x52
    ensures data[8] == data[9] == data[10] == 0xFF && WordAt(data, 8) - data[11] == 0xFFFF_FF00 && data[11] >= 0xF0
    ensures WordAt(data, 4) == Word(data[4], data[5], data[6], data[7])
  {
    WordBytes(data[0..4]);
    WordBytes(data[4..8]);
    WordBytes(data[8..12]);
  }

  lemma MisreadWord(data: seq<byte>, k: nat)
    requires |data| >= 16 && 4 <= k < 16
    requires data[0] == 0x47 && data[1] == 0x43 && data[2] == 0x46 && data[3] == 0x52
    requires data[8] == data[9] == data[10] == 0xFF && data[11] == 0xF0 + k
    ensures Word(data[k - 4], data[k - 3], data[k - 2], data[k - 1]) == 32 <==>
              k == 8 && Word(data[4], data[5], data[6], data[7]) == 32
  {
  }

  lemma BuiltParts(version: u32, p: seq<byte>)
    ensures |Build(version, p)| == |p| + 48
    ensures Build(version, p)[0..4] == Be32(MAGIC) && Build(version, p)[4..8] == Be32(version)
    ensures Build(version, p)[8..12] == Be32(|p| % TWO_32) && Build(version, p)[12..12 + |p|] == p
    ensures Build(version, p)[12 + |p|..16 + |p|] == Be32(CHECKSUM_LENGTH) && Build(version, p)[16 + |p|..] == Sha256.Digest(p)
  {
    hide Be32, Sha256.Digest;
  }

  lemma SameParts(version: u32, p: seq<byte>, data: seq<byte>)
    requires |data| == |p| + 48
    requires data[0..4] == Be32(MAGIC) && data[4..8] == Be32(version) && data[8..12] == Be32(|p| % TWO_32) && data[12..12 + |p|] == p
    requires data[12 + |p|..16 + |p|] == Be32(CHECKSUM_LENGTH) && data[16 + |p|..] == Sha256.Digest(p)
    ensures data == Build(version, p)
  {
    hide Be32, Sha256.Digest;
    assert data == data[0..4] + data[4..8] + data[8..12] + (data[12..12 + |p|] + (data[12 + |p|..16 + |p|] + data[16 + |p|..]));
  }

  lemma BuiltIsAccepted(version: u32, p: seq<byte>)
    requires |p| <= MAX_PAYLOAD
    ensures Parse(version, Build(version, p)) == Accepted(p)
  {
    hide Be32, Sha256.Digest, Build;
    var data := Build(version, p);
    BuiltParts(version, p);
    WordIs(data, 0, MAGIC);
    WordIs(data, 4, version);
    WordIs(data, 8, |p|);
    WordIs(data, 12 + |p|, CHECKSUM_LENGTH);
  }

  lemma AcceptedParts(version: u32, data: seq<byte>, plen: u32)
    requires Parse(version, data).Accepted? && plen == WordAt(data, 8) && 16 + plen < TWO_32
    ensures |data| == plen + 48 && Parse(version, data).payload == data[12..12 + plen]
    ensures data[0..4] == Be32(MAGIC) && data[4..8] == Be32(version) && data[8..12] == Be32(plen)
    ensures data[12 + plen..16 + plen] == Be32(CHECKSUM_LENGTH)
    ensures data[16 + plen..] == Sha256.Digest(data[12..12 + plen])
  {
    hide Sha256.Digest, Be32, FromBe32;
  }

  lemma AcceptedIsBuilt(version: u32, data: seq<byte>)
    requires Parse(version, data).Accepted?
    ensures |Parse(version, data).payload| <= MAX_PAYLOAD && data == Build(version, Parse(version, data).payload)
  {
    hide Sha256.Digest, Be32, FromBe32, Build;
    var plen := WordAt(data, 8);
    if 16 + plen >= TWO_32 {
      WrappedLength(version, data);
    } else {
      AcceptedParts(version, data, plen);
      SameParts(version, data[12..12 + plen], data);
    }
  }

  /**
    Parsing returns a payload on exactly the byte strings that building
    produces for payloads of at most 2^32 - 17 bytes, for every format version.
   */
  lemma EnvelopeExact(version: u32, data: seq<byte>, p: seq<byte>)
    ensures Parse(version, data) == Accepted(p) <==> |p| <= MAX_PAYLOAD && data == Build(version, p)
  {
    hide Build, ParseBody;
    if Parse(version, data) == Accepted(p) {
      AcceptedIsBuilt(version, data);
    }
    if |p| <= MAX_PAYLOAD && data == Build(version, p) {
      BuiltIsAccepted(version, p);
    }
  }

  /** The file that makes a store of format version 32 copy a payload from outside the file. */
  function Misleading(): seq<byte> {
    Be32(MAGIC) + Be32(32) + Be32(0xFFFF_FFF8) + seq(28, _ => 0)
  }

  lemma MisleadingFaults()
    ensures Parse(32, Misleading()).Fault?
  {
    hide Be32, Sha256.Digest;
    var data := Misleading();
    WordIs(data, 0, MAGIC);
    WordIs(data, 4, 32);
    WordIs(data, 8, 0xFFFF_FFF8);
    WrappedLength(32, data);
  }

  /** No file makes the parser read outside it, unless the store was opened for format version 32. */
  lemma ParseStaysInside(version: u32)
    ensures (exists data :: Parse(version, data).Fault?) <==> version == 32
  {
    hide ParseBody, Be32, FromBe32;
    forall data | Parse(version, data).Fault?
      ensures version == 32
    {
      OnlyVersion32Faults(version, data);
    }
    MisleadingFaults();
    assert version == 32 ==> Parse(version, Misleading()).Fault?;
  }

  lemma OnlyVersion32Faults(version: u32, data: seq<byte>)
    requires Parse(version, data).Fault?
    ensures version == 32
  {
    hide Be32, FromBe32, Sha256.Digest;
    if 16 + WordAt(data, 8) >= TWO_32 {
      WrappedLength(version, data);
    }
  }
}
