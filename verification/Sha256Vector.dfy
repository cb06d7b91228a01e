/**
  The digest that FIPS 180-4 gives for the three bytes "abc", word by word and
  round by round.
 */
module Sha256Vector {
  import opened Bytes
  import opened Sha256

  const ABC: seq<byte> := [0x61, 0x62, 0x63]

  /** The one block of the padded message. */
  ghost predicate AbcBlock(b: seq<byte>) {
    && |b| == 64 && b[0] == 0x61 && b[1] == 0x62 && b[2] == 0x63 && b[3] == 0x80
    && (forall i | 4 <= i < 63 :: b[i] == 0) && b[63] == 24
  }

  lemma AbcPadded()
    ensures AbcBlock(Pad(ABC))
  {
    assert PadCount(3) == 52;
    assert 8 * |ABC| % TWO_64 == 24;
    var tail := Be64(24);
    LengthBytes();
    var p := Pad(ABC);
    assert p == ABC + [0x80] + Zeros(52) + tail;
    assert forall i | 4 <= i < 56 :: p[i] == Zeros(52)[i - 4];
    assert forall i | 56 <= i < 64 :: p[i] == tail[i - 56];
  }

  lemma LengthBytes()
    ensures Be64(24) == [0, 0, 0, 0, 0, 0, 0, 24]
  {
    assert BigEndian(1, 0) == [0];
    assert BigEndian(2, 0) == [0, 0];
    assert BigEndian(3, 0) == [0, 0, 0];
    assert BigEndian(4, 0) == [0, 0, 0, 0];
    assert BigEndian(5, 0) == [0, 0, 0, 0, 0];
    assert BigEndian(6, 0) == [0, 0, 0, 0, 0, 0];
    assert BigEndian(7, 0) == [0, 0, 0, 0, 0, 0, 0];
    assert 24 / 256 == 0 && 24 % 256 == 24;
  }

  // ----- the schedule -----

  /** A schedule word from four earlier ones, `x` and `y` being the partial sums. */
  lemma WordAt(b: seq<byte>, t: nat, w16: bv32, w15: bv32, w7: bv32, w2: bv32, s1: bv32, x: bv32, s0: bv32, y: bv32, w: bv32)
    requires AbcBlock(b) && 16 <= t < 64
    requires Schedule(b, t - 16) == w16 && Schedule(b, t - 15) == w15 && Schedule(b, t - 7) == w7 && Schedule(b, t - 2) == w2
    requires SmallSigma1(w2) == s1 && Plus(s1, w7) == x && SmallSigma0(w15) == s0 && Plus(x, s0) == y && Plus(y, w16) == w
    ensures Schedule(b, t) == w
  {
    hide Plus, SmallSigma0, SmallSigma1;
  }

  lemma FirstWords(b: seq<byte>)
    requires AbcBlock(b)
    ensures Schedule(b, 0) == 0x61626380 && Schedule(b, 15) == 24
    ensures forall t | 1 <= t < 15 :: Schedule(b, t) == 0
  {
    hide BlockWord;
    Word0(b);
    Word15(b);
    forall t | 1 <= t < 15
      ensures Schedule(b, t) == 0
    {
      ZeroWord(b, t);
    }
  }

  lemma Word0(b: seq<byte>)
    requires AbcBlock(b)
    ensures BlockWord(b, 0) == 0x61626380
  {
    assert b[0] as bv32 == 0x61;
    assert b[1] as bv32 == 0x62;
    assert b[2] as bv32 == 0x63;
    assert b[3] as bv32 == 0x80;
  }

  lemma Word15(b: seq<byte>)
    requires AbcBlock(b)
    ensures BlockWord(b, 15) == 24
  {
    assert b[60] as bv32 == 0 && b[61] as bv32 == 0 && b[62] as bv32 == 0;
    assert b[63] as bv32 == 24;
  }

  lemma ZeroWord(b: seq<byte>, t: nat)
    requires AbcBlock(b) && 1 <= t < 15
    ensures BlockWord(b, t) == 0
  {
    assert b[4 * t] as bv32 == 0 && b[4 * t + 1] as bv32 == 0 && b[4 * t + 2] as bv32 == 0 && b[4 * t + 3] as bv32 == 0;
  }

  lemma Words16(b: seq<byte>)
    requires AbcBlock(b)
    ensures Schedule(b, 16) == 0x61626380
    ensures Schedule(b, 17) == 0x000f0000
    ensures Schedule(b, 18) == 0x7da86405
    ensures Schedule(b, 19) == 0x600003c6
    ensures Schedule(b, 20) == 0x3e9d7b78
    ensures Schedule(b, 21) == 0x0183fc00
    ensures Schedule(b, 22) == 0x12dcbfdb
    ensures Schedule(b, 23) == 0xe2e2c38e
  {
    hide Schedule, AbcBlock;
    FirstWords(b);
    WordAt(b, 16, 0x61626380, 0x00000000, 0x00000000, 0x00000000, 0x00000000, 0x00000000, 0x00000000, 0x00000000, 0x61626380);
    WordAt(b, 17, 0x00000000, 0x00000000, 0x00000000, 0x00000018, 0x000f0000, 0x000f0000, 0x00000000, 0x000f0000, 0x000f0000);
    WordAt(b, 18, 0x00000000, 0x00000000, 0x00000000, 0x61626380, 0x7da86405, 0x7da86405, 0x00000000, 0x7da86405, 0x7da86405);
    WordAt(b, 19, 0x00000000, 0x00000000, 0x00000000, 0x000f0000, 0x600003c6, 0x600003c6, 0x00000000, 0x600003c6, 0x600003c6);
    WordAt(b, 20, 0x00000000, 0x00000000, 0x00000000, 0x7da86405, 0x3e9d7b78, 0x3e9d7b78, 0x00000000, 0x3e9d7b78, 0x3e9d7b78);
    WordAt(b, 21, 0x00000000, 0x00000000, 0x00000000, 0x600003c6, 0x0183fc00, 0x0183fc00, 0x00000000, 0x0183fc00, 0x0183fc00);
    WordAt(b, 22, 0x00000000, 0x00000000, 0x00000018, 0x3e9d7b78, 0x12dcbfc3, 0x12dcbfdb, 0x00000000, 0x12dcbfdb, 0x12dcbfdb);
    WordAt(b, 23, 0x00000000, 0x00000000, 0x61626380, 0x0183fc00, 0x8180600e, 0xe2e2c38e, 0x00000000, 0xe2e2c38e, 0xe2e2c38e);
  }

  lemma Words24(b: seq<byte>)
    requires AbcBlock(b)
    ensures Schedule(b, 24) == 0xc8215c1a
    ensures Schedule(b, 25) == 0xb73679a2
    ensures Schedule(b, 26) == 0xe5bc3909
    ensures Schedule(b, 27) == 0x32663c5b
    ensures Schedule(b, 28) == 0x9d209d67
    ensures Schedule(b, 29) == 0xec8726cb
    ensures Schedule(b, 30) == 0x702138a4
    ensures Schedule(b, 31) == 0xd3b7973b
  {
    hide Schedule, AbcBlock;
    FirstWords(b);
    Words16(b);
    WordAt(b, 24, 0x00000000, 0x00000000, 0x000f0000, 0x12dcbfdb, 0xc8125c1a, 0xc8215c1a, 0x00000000, 0xc8215c1a, 0xc8215c1a);
    WordAt(b, 25, 0x00000000, 0x00000000, 0x7da86405, 0xe2e2c38e, 0x398e159d, 0xb73679a2, 0x00000000, 0xb73679a2, 0xb73679a2);
    WordAt(b, 26, 0x00000000, 0x00000000, 0x600003c6, 0xc8215c1a, 0x85bc3543, 0xe5bc3909, 0x00000000, 0xe5bc3909, 0xe5bc3909);
    WordAt(b, 27, 0x00000000, 0x00000000, 0x3e9d7b78, 0xb73679a2, 0xf3c8c0e3, 0x32663c5b, 0x00000000, 0x32663c5b, 0x32663c5b);
    WordAt(b, 28, 0x00000000, 0x00000000, 0x0183fc00, 0xe5bc3909, 0x9b9ca167, 0x9d209d67, 0x00000000, 0x9d209d67, 0x9d209d67);
    WordAt(b, 29, 0x00000000, 0x00000000, 0x12dcbfdb, 0x32663c5b, 0xd9aa66f0, 0xec8726cb, 0x00000000, 0xec8726cb, 0xec8726cb);
    WordAt(b, 30, 0x00000000, 0x00000018, 0xe2e2c38e, 0x9d209d67, 0x5d387513, 0x401b38a1, 0x30060003, 0x702138a4, 0x702138a4);
    WordAt(b, 31, 0x00000018, 0x61626380, 0xc8215c1a, 0xec8726cb, 0x7787aa1a, 0x3fa90634, 0x940e90ef, 0xd3b79723, 0xd3b7973b);
  }

  lemma Words32(b: seq<byte>)
    requires AbcBlock(b)
    ensures Schedule(b, 32) == 0x93f5997f
    ensures Schedule(b, 33) == 0x3b68ba73
    ensures Schedule(b, 34) == 0xaff4ffc1
    ensures Schedule(b, 35) == 0xf10a5c62
    ensures Schedule(b, 36) == 0x0a8b3996
    ensures Schedule(b, 37) == 0x72af830a
    ensures Schedule(b, 38) == 0x9409e33e
    ensures Schedule(b, 39) == 0x24641522
  {
    hide Schedule, AbcBlock;
    Words16(b);
    Words24(b);
    WordAt(b, 32, 0x61626380, 0x000f0000, 0xb73679a2, 0x702138a4, 0xbb5abe5a, 0x729137fc, 0xc001fe03, 0x329335ff, 0x93f5997f);
    WordAt(b, 33, 0x000f0000, 0x7da86405, 0xe5bc3909, 0xd3b7973b, 0x394e7e48, 0x1f0ab751, 0x1c4f0322, 0x3b59ba73, 0x3b68ba73);
    WordAt(b, 34, 0x7da86405, 0x600003c6, 0x32663c5b, 0x93f5997f, 0x7fb4c6e2, 0xb21b033d, 0x8031987f, 0x324c9bbc, 0xaff4ffc1);
    WordAt(b, 35, 0x600003c6, 0x3e9d7b78, 0x9d209d67, 0x3b68ba73, 0x4a7920f7, 0xe799be5e, 0xa9709a3e, 0x910a589c, 0xf10a5c62);
    WordAt(b, 36, 0x3e9d7b78, 0x0183fc00, 0xec8726cb, 0xaff4ffc1, 0xe0331f3b, 0xccba4606, 0xff337818, 0xcbedbe1e, 0x0a8b3996);
    WordAt(b, 37, 0x0183fc00, 0x12dcbfdb, 0x702138a4, 0xf10a5c62, 0x65816433, 0xd5a29cd7, 0x9b88ea33, 0x712b870a, 0x72af830a);
    WordAt(b, 38, 0x12dcbfdb, 0xe2e2c38e, 0xd3b7973b, 0x0a8b3996, 0xfbfb66da, 0xcfb2fe15, 0xb17a254e, 0x812d2363, 0x9409e33e);
    WordAt(b, 39, 0xe2e2c38e, 0xc8215c1a, 0x93f5997f, 0x72af830a, 0x31f8dce2, 0xc5ee7661, 0x7b92db33, 0x41815194, 0x24641522);
  }

  lemma Words40(b: seq<byte>)
    requires AbcBlock(b)
    ensures Schedule(b, 40) == 0x9f47bf94
    ensures Schedule(b, 41) == 0xf0a64f5a
    ensures Schedule(b, 42) == 0x3e246a79
    ensures Schedule(b, 43) == 0x27333ba3
    ensures Schedule(b, 44) == 0x0c4763f2
    ensures Schedule(b, 45) == 0x840abf27
    ensures Schedule(b, 46) == 0x7a290d5d
    ensures Schedule(b, 47) == 0x065c43da
  {
    hide Schedule, AbcBlock;
    Words24(b);
    Words32(b);
    WordAt(b, 40, 0xc8215c1a, 0xb73679a2, 0x3b68ba73, 0x9409e33e, 0xcddd9afd, 0x09465570, 0xcde00e0a, 0xd726637a, 0x9f47bf94);
    WordAt(b, 41, 0xb73679a2, 0xe5bc3909, 0xaff4ffc1, 0x24641522, 0x883c4fbb, 0x38314f7c, 0x013e863c, 0x396fd5b8, 0xf0a64f5a);
    WordAt(b, 42, 0xe5bc3909, 0x32663c5b, 0xf10a5c62, 0x9f47bf94, 0x281f0da4, 0x19296a06, 0x3f3ec76a, 0x58683170, 0x3e246a79);
    WordAt(b, 43, 0x32663c5b, 0x9d209d67, 0x0a8b3996, 0xf0a64f5a, 0xee7a0fd4, 0xf905496a, 0xfbc7b5de, 0xf4ccff48, 0x27333ba3);
    WordAt(b, 44, 0x9d209d67, 0xec8726cb, 0x72af830a, 0x3e246a79, 0xb87c31cc, 0x2b2bb4d6, 0x43fb11b5, 0x6f26c68b, 0x0c4763f2);
    WordAt(b, 45, 0xec8726cb, 0x702138a4, 0x9409e33e, 0x27333ba3, 0xfaac3bb1, 0x8eb61eef, 0x08cd796d, 0x9783985c, 0x840abf27);
    WordAt(b, 46, 0x702138a4, 0xd3b7973b, 0x24641522, 0x0c4763f2, 0x5d845673, 0x81e86b95, 0x881f6924, 0x0a07d4b9, 0x7a290d5d);
    WordAt(b, 47, 0xd3b7973b, 0x93f5997f, 0x9f47bf94, 0x840abf27, 0x0856302b, 0xa79defbf, 0x8b06bce0, 0x32a4ac9f, 0x065c43da);
  }

  lemma Words48(b: seq<byte>)
    requires AbcBlock(b)
    ensures Schedule(b, 48) == 0xfb3e89cb
    ensures Schedule(b, 49) == 0xcc7617db
    ensures Schedule(b, 50) == 0xb9e66c34
    ensures Schedule(b, 51) == 0xa9993667
    ensures Schedule(b, 52) == 0x84badedd
    ensures Schedule(b, 53) == 0xc21462bc
    ensures Schedule(b, 54) == 0x1487472c
    ensures Schedule(b, 55) == 0xb20f7a99
  {
    hide Schedule, AbcBlock;
    Words32(b);
    Words40(b);
    WordAt(b, 48, 0x93f5997f, 0x3b68ba73, 0xf0a64f5a, 0x7a290d5d, 0xa71b9812, 0x97c1e76c, 0xcf8708e0, 0x6748f04c, 0xfb3e89cb);
    WordAt(b, 49, 0x3b68ba73, 0xaff4ffc1, 0x3e246a79, 0x065c43da, 0xa997d4f5, 0xe7bc3f6e, 0xa9511dfa, 0x910d5d68, 0xcc7617db);
    WordAt(b, 50, 0xaff4ffc1, 0xf10a5c62, 0x27333ba3, 0xfb3e89cb, 0x95e24d5a, 0xbd1588fd, 0x4cdbe376, 0x09f16c73, 0xb9e66c34);
    WordAt(b, 51, 0xf10a5c62, 0x0a8b3996, 0x0c4763f2, 0xcc7617db, 0xc9258230, 0xd56ce622, 0xe321f3e3, 0xb88eda05, 0xa9993667);
    WordAt(b, 52, 0x0a8b3996, 0x72af830a, 0x840abf27, 0xb9e66c34, 0xfbb2b254, 0x7fbd717b, 0xfa7233cc, 0x7a2fa547, 0x84badedd);
    WordAt(b, 53, 0x72af830a, 0x9409e33e, 0x7a290d5d, 0xa9993667, 0xbdd547b2, 0x37fe550f, 0x17668aa3, 0x4f64dfb2, 0xc21462bc);
    WordAt(b, 54, 0x9409e33e, 0x24641522, 0x065c43da, 0x84badedd, 0x34945c7d, 0x3af0a057, 0x458cc397, 0x807d63ee, 0x1487472c);
    WordAt(b, 55, 0x24641522, 0x9f47bf94, 0xfb3e89cb, 0xc21462bc, 0xbd397c50, 0xb878061b, 0xd5335f5c, 0x8dab6577, 0xb20f7a99);
  }

  lemma Words56(b: seq<byte>)
    requires AbcBlock(b)
    ensures Schedule(b, 56) == 0xef57b9cd
    ensures Schedule(b, 57) == 0xebe6b238
    ensures Schedule(b, 58) == 0x9fe3095e
    ensures Schedule(b, 59) == 0x78bc8d4b
    ensures Schedule(b, 60) == 0xa43fcf15
    ensures Schedule(b, 61) == 0x668b2ff8
    ensures Schedule(b, 62) == 0xeeaba2cc
    ensures Schedule(b, 63) == 0x12b1edeb
  {
    hide Schedule, AbcBlock;
    Words40(b);
    Words48(b);
    WordAt(b, 56, 0x9f47bf94, 0xf0a64f5a, 0xcc7617db, 0x1487472c, 0x4b76a902, 0x17ecc0dd, 0x3823395c, 0x500ffa39, 0xef57b9cd);
    WordAt(b, 57, 0xf0a64f5a, 0x3e246a79, 0xb9e66c34, 0xb20f7a99, 0x52336c98, 0x0c19d8cc, 0xef268a12, 0xfb4062de, 0xebe6b238);
    WordAt(b, 58, 0x3e246a79, 0x27333ba3, 0xa9993667, 0xef57b9cd, 0x2be49faf, 0xd57dd616, 0x8c40c8cf, 0x61be9ee5, 0x9fe3095e);
    WordAt(b, 59, 0x27333ba3, 0x0c4763f2, 0x84badedd, 0xebe6b238, 0x8f619123, 0x141c7000, 0x3d6ce1a8, 0x518951a8, 0x78bc8d4b);
    WordAt(b, 60, 0x0c4763f2, 0x840abf27, 0xc21462bc, 0x9fe3095e, 0xe5a364cf, 0xa7b7c78b, 0xf040a398, 0x97f86b23, 0xa43fcf15);
    WordAt(b, 61, 0x840abf27, 0x7a290d5d, 0x1487472c, 0x78bc8d4b, 0xd712fc6a, 0xeb9a4396, 0xf6e62d3b, 0xe28070d1, 0x668b2ff8);
    WordAt(b, 62, 0x7a290d5d, 0x065c43da, 0xb20f7a99, 0xa43fcf15, 0x1e41696b, 0xd050e404, 0xa431b16b, 0x7482956f, 0xeeaba2cc);
    WordAt(b, 63, 0x065c43da, 0xfb3e89cb, 0xef57b9cd, 0x668b2ff8, 0xf21a9d5f, 0xe172572c, 0x2ae352e5, 0x0c55aa11, 0x12b1edeb);
  }

  // ----- the rounds -----

  /** After `t` rounds the registers are these. */
  ghost predicate After(b: seq<byte>, t: nat, r: Registers)
    requires |b| == 64 && t <= 64
  {
    Rounds(Load(INITIAL), b, t) == r
  }

  /** One round; `x`, `y` and `z` are the partial sums of `t1`. */
  lemma RoundAt(b: seq<byte>, t: nat, r: Registers, k: bv32, w: bv32, s1: bv32, x: bv32, ch: bv32, y: bv32, z: bv32, t1: bv32,
                s0: bv32, maj: bv32, t2: bv32, a: bv32, e: bv32)
    requires |b| == 64 && t < 64 && After(b, t, r) && RoundConstant(t) == k && Schedule(b, t) == w
    requires BigSigma1(r.e) == s1 && Plus(r.h, s1) == x && Ch(r.e, r.f, r.g) == ch && Plus(x, ch) == y && Plus(y, k) == z && Plus(z, w) == t1
    requires BigSigma0(r.a) == s0 && Maj(r.a, r.b, r.c) == maj && Plus(s0, maj) == t2 && Plus(t1, t2) == a && Plus(r.d, t1) == e
    ensures After(b, t + 1, Registers(a, r.a, r.b, r.c, e, r.e, r.f, r.g))
  {
    hide Schedule, RoundConstant, Load, Plus, BigSigma0, BigSigma1, Ch, Maj;
  }

  lemma BlockSize(b: seq<byte>)
    requires AbcBlock(b)
    ensures |b| == 64
  {
  }

  lemma Start(b: seq<byte>)
    requires |b| == 64
    ensures After(b, 0, Registers(0x6a09e667, 0xbb67ae85, 0x3c6ef372, 0xa54ff53a, 0x510e527f, 0x9b05688c, 0x1f83d9ab, 0x5be0cd19))
  {
  }

  lemma Row0()
    ensures RoundConstant(0) == 0x428a2f98
    ensures RoundConstant(1) == 0x71374491
    ensures RoundConstant(2) == 0xb5c0fbcf
    ensures RoundConstant(3) == 0xe9b5dba5
    ensures RoundConstant(4) == 0x3956c25b
    ensures RoundConstant(5) == 0x59f111f1
    ensures RoundConstant(6) == 0x923f82a4
    ensures RoundConstant(7) == 0xab1c5ed5
  {
  }

  lemma Row8()
    ensures RoundConstant(8) == 0xd807aa98
    ensures RoundConstant(9) == 0x12835b01
    ensures RoundConstant(10) == 0x243185be
    ensures RoundConstant(11) == 0x550c7dc3
    ensures RoundConstant(12) == 0x72be5d74
    ensures RoundConstant(13) == 0x80deb1fe
    ensures RoundConstant(14) == 0x9bdc06a7
    ensures RoundConstant(15) == 0xc19bf174
  {
  }

  lemma Row16()
    ensures RoundConstant(16) == 0xe49b69c1
    ensures RoundConstant(17) == 0xefbe4786
    ensures RoundConstant(18) == 0x0fc19dc6
    ensures RoundConstant(19) == 0x240ca1cc
    ensures RoundConstant(20) == 0x2de92c6f
    ensures RoundConstant(21) == 0x4a7484aa
    ensures RoundConstant(22) == 0x5cb0a9dc
    ensures RoundConstant(23) == 0x76f988da
  {
  }

  lemma Row24()
    ensures RoundConstant(24) == 0x983e5152
    ensures RoundConstant(25) == 0xa831c66d
    ensures RoundConstant(26) == 0xb00327c8
    ensures RoundConstant(27) == 0xbf597fc7
    ensures RoundConstant(28) == 0xc6e00bf3
    ensures RoundConstant(29) == 0xd5a79147
    ensures RoundConstant(30) == 0x06ca6351
    ensures RoundConstant(31) == 0x14292967
  {
  }

  lemma Row32()
    ensures RoundConstant(32) == 0x27b70a85
    ensures RoundConstant(33) == 0x2e1b2138
    ensures RoundConstant(34) == 0x4d2c6dfc
    ensures RoundConstant(35) == 0x53380d13
    ensures RoundConstant(36) == 0x650a7354
    ensures RoundConstant(37) == 0x766a0abb
    ensures RoundConstant(38) == 0x81c2c92e
    ensures RoundConstant(39) == 0x92722c85
  {
  }

  lemma Row40()
    ensures RoundConstant(40) == 0xa2bfe8a1
    ensures RoundConstant(41) == 0xa81a664b
    ensures RoundConstant(42) == 0xc24b8b70
    ensures RoundConstant(43) == 0xc76c51a3
    ensures RoundConstant(44) == 0xd192e819
    ensures RoundConstant(45) == 0xd6990624
    ensures RoundConstant(46) == 0xf40e3585
    ensures RoundConstant(47) == 0x106aa070
  {
  }

  lemma Row48()
    ensures RoundConstant(48) == 0x19a4c116
    ensures RoundConstant(49) == 0x1e376c08
    ensures RoundConstant(50) == 0x2748774c
    ensures RoundConstant(51) == 0x34b0bcb5
    ensures RoundConstant(52) == 0x391c0cb3
    ensures RoundConstant(53) == 0x4ed8aa4a
    ensures RoundConstant(54) == 0x5b9cca4f
    ensures RoundConstant(55) == 0x682e6ff3
  {
  }

  lemma Row56()
    ensures RoundConstant(56) == 0x748f82ee
    ensures RoundConstant(57) == 0x78a5636f
    ensures RoundConstant(58) == 0x84c87814
    ensures RoundConstant(59) == 0x8cc70208
    ensures RoundConstant(60) == 0x90befffa
    ensures RoundConstant(61) == 0xa4506ceb
    ensures RoundConstant(62) == 0xbef9a3f7
    ensures RoundConstant(63) == 0xc67178f2
  {
  }

  lemma Rounds0(b: seq<byte>)
    requires AbcBlock(b)
    ensures After(b, 8, Registers(0x85a07b5f, 0xe5030380, 0x2b4209f5, 0x04409a6a, 0x0c657a79, 0x9b27a401, 0x714260ad, 0x43ada245))
  {
    hide AbcBlock, Schedule, RoundConstant, After;
    BlockSize(b);
    Start(b);
    Row0();
    FirstWords(b);
    RoundAt(b, 0, Registers(0x6a09e667, 0xbb67ae85, 0x3c6ef372, 0xa54ff53a, 0x510e527f, 0x9b05688c, 0x1f83d9ab, 0x5be0cd19), 0x428a2f98, 0x61626380,
            0x3587272b, 0x9167f444, 0x1f85c98c, 0xb0edbdd0, 0xf377ed68, 0x54da50e8, 0xce20b47e, 0x3a6fe667, 0x08909ae5, 0x5d6aebcd, 0xfa2a4622);
    RoundAt(b, 1, Registers(0x5d6aebcd, 0x6a09e667, 0xbb67ae85, 0x3c6ef372, 0xfa2a4622, 0x510e527f, 0x9b05688c, 0x1f83d9ab), 0x71374491, 0x00000000,
            0x5a94fd2d, 0x7a18d6d8, 0x510f6aae, 0xcb284186, 0x3c5f8617, 0x3c5f8617, 0xa29f64d1, 0x7b6beec5, 0x1e0b5396, 0x5a6ad9ad, 0x78ce7989);
    RoundAt(b, 2, Registers(0x5a6ad9ad, 0x5d6aebcd, 0x6a09e667, 0xbb67ae85, 0x78ce7989, 0xfa2a4622, 0x510e527f, 0x9b05688c), 0xb5c0fbcf, 0x00000000,
            0x73f0e495, 0x0ef64d21, 0x790a4276, 0x88008f97, 0x3dc18b66, 0x3dc18b66, 0x3096d054, 0x5a6aebed, 0x8b01bc41, 0xc8c347a7, 0xf92939eb);
    RoundAt(b, 3, Registers(0xc8c347a7, 0x5a6ad9ad, 0x5d6aebcd, 0x6a09e667, 0xf92939eb, 0x78ce7989, 0xfa2a4622, 0x510e527f), 0xe9b5dba5, 0x00000000,
            0x0607743c, 0x5715c6bb, 0x7a0a7f89, 0xd1204644, 0xbad621e9, 0xbad621e9, 0xc21008d0, 0x586acbad, 0x1a7ad47d, 0xd550f666, 0x24e00850);
    RoundAt(b, 4, Registers(0xd550f666, 0xc8c347a7, 0x5a6ad9ad, 0x5d6aebcd, 0x24e00850, 0xf92939eb, 0x78ce7989, 0xfa2a4622), 0x3956c25b, 0x00000000,
            0x3a933432, 0x34bd7a54, 0x782e79c9, 0xacebf41d, 0xe642b678, 0xe642b678, 0x45bb0c4b, 0xd842d7a7, 0x1dfde3f2, 0x04409a6a, 0x43ada245);
    RoundAt(b, 5, Registers(0x04409a6a, 0xd550f666, 0xc8c347a7, 0x5a6ad9ad, 0x43ada245, 0x24e00850, 0xf92939eb, 0x78ce7989), 0x59f111f1, 0x00000000,
            0x8b77e19c, 0x04465b25, 0xb8a019ea, 0xbce6750f, 0x16d78700, 0x16d78700, 0x5029ac8f, 0xc440d666, 0x146a82f5, 0x2b4209f5, 0x714260ad);
    RoundAt(b, 6, Registers(0x2b4209f5, 0x04409a6a, 0xd550f666, 0xc8c347a7, 0x714260ad, 0x43ada245, 0x24e00850, 0xf92939eb), 0x923f82a4, 0x00000000,
            0x015b7776, 0xfa84b161, 0x45a02855, 0x4024d9b6, 0xd2645c5a, 0xd2645c5a, 0x0d5e0cc0, 0x05409a66, 0x129ea726, 0xe5030380, 0x9b27a401);
    RoundAt(b, 7, Registers(0xe5030380, 0x2b4209f5, 0x04409a6a, 0xd550f666, 0x9b27a401, 0x714260ad, 0x43ada245, 0x24e00850), 0xab1c5ed5, 0x00000000,
            0x158dfaa9, 0x3a6e02f9, 0x518a2245, 0x8bf8253e, 0x37148413, 0x37148413, 0x2949eb6c, 0x25420be0, 0x4e8bf74c, 0x85a07b5f, 0x0c657a79);
  }

  lemma Rounds8(b: seq<byte>)
    requires AbcBlock(b)
    ensures After(b, 16, Registers(0xb0fa238e, 0xc0645fde, 0xd932eb16, 0x87912990, 0x07590dcd, 0x0b92f20c, 0x745a48de, 0x1e578218))
  {
    hide AbcBlock, Schedule, RoundConstant, After;
    BlockSize(b);
    Rounds0(b);
    Row8();
    FirstWords(b);
    RoundAt(b, 8, Registers(0x85a07b5f, 0xe5030380, 0x2b4209f5, 0x04409a6a, 0x0c657a79, 0x9b27a401, 0x714260ad, 0x43ada245), 0xd807aa98, 0x00000000,
            0x99ad25c0, 0xdd5ac805, 0x79272085, 0x5681e88a, 0x2e899322, 0x2e899322, 0xba794dc2, 0xa5020bd5, 0x5f7b5997, 0x8e04ecb9, 0x32ca2d8c);
    RoundAt(b, 9, Registers(0x8e04ecb9, 0x85a07b5f, 0xe5030380, 0x2b4209f5, 0x32ca2d8c, 0x0c657a79, 0x9b27a401, 0x714260ad), 0x12835b01, 0x00000000,
            0xe45bb7ea, 0x559e1897, 0x8965a809, 0xdf03c0a0, 0xf1871ba1, 0xf1871ba1, 0x15ffad31, 0x85006b99, 0x9b0018ca, 0x8c87346b, 0x1cc92596);
    RoundAt(b, 10, Registers(0x8c87346b, 0x8e04ecb9, 0x85a07b5f, 0xe5030380, 0x1cc92596, 0x32ca2d8c, 0x0c657a79, 0x9b27a401), 0x243185be, 0x00000000,
            0x8e2276bc, 0x294a1abd, 0x10ec7fed, 0x3a369aaa, 0x5e682068, 0x5e682068, 0x5cac0711, 0x8c847c7b, 0xe930838c, 0x4798a3f4, 0x436b23e8);
    RoundAt(b, 11, Registers(0x4798a3f4, 0x8c87346b, 0x8e04ecb9, 0x85a07b5f, 0x436b23e8, 0x1cc92596, 0x32ca2d8c, 0x0c657a79), 0x550c7dc3, 0x00000000,
            0x699435ca, 0x75f9b043, 0x30c92d84, 0xa6c2ddc7, 0xfbcf5b8a, 0xfbcf5b8a, 0x6ccbc526, 0x8e84a4f9, 0xfb506a1f, 0xf71fc5a9, 0x816fd6e9);
    RoundAt(b, 12, Registers(0xf71fc5a9, 0x4798a3f4, 0x8c87346b, 0x8e04ecb9, 0x816fd6e9, 0x436b23e8, 0x1cc92596, 0x32ca2d8c), 0x72be5d74, 0x00000000,
            0xccdee661, 0xffa913ed, 0x1deb23fe, 0x1d9437eb, 0x9052955f, 0x9052955f, 0x2f9eee48, 0xc79fa5e9, 0xf73e9431, 0x87912990, 0x1e578218);
    RoundAt(b, 13, Registers(0x87912990, 0xf71fc5a9, 0x4798a3f4, 0x8c87346b, 0x1e578218, 0x816fd6e9, 0x436b23e8, 0x1cc92596), 0x80deb1fe, 0x00000000,
            0x08bb98f7, 0x2584be8d, 0x416fa3e8, 0x66f46275, 0xe7d31473, 0xe7d31473, 0x29c634f3, 0xc799a1b0, 0xf15fd6a3, 0xd932eb16, 0x745a48de);
    RoundAt(b, 14, Registers(0xd932eb16, 0x87912990, 0xf71fc5a9, 0x4798a3f4, 0x745a48de, 0x1e578218, 0x816fd6e9, 0x436b23e8), 0x9bdc06a7, 0x00000000,
            0x4f3b8d50, 0x92a6b138, 0x95779639, 0x281e4771, 0xc3fa4e18, 0xc3fa4e18, 0x25562836, 0xd713e990, 0xfc6a11c6, 0xc0645fde, 0x0b92f20c);
    RoundAt(b, 15, Registers(0xc0645fde, 0xd932eb16, 0x87912990, 0xf71fc5a9, 0x0b92f20c, 0x745a48de, 0x1e578218, 0x816fd6e9), 0xc19bf174, 0x00000018,
            0xb8d63f93, 0x3a46167c, 0x1457401c, 0x4e9d5698, 0x1039480c, 0x10394824, 0xdf906fd4, 0xc1306b96, 0xa0c0db6a, 0xb0fa238e, 0x07590dcd);
  }

  lemma Rounds16(b: seq<byte>)
    requires AbcBlock(b)
    ensures After(b, 24, Registers(0xc5d53d8d, 0xa7a3623f, 0xc2606d6d, 0x9dc68b63, 0xaa47c347, 0x49f5114a, 0xe1257970, 0x8ada8930))
  {
    hide AbcBlock, Schedule, RoundConstant, After;
    BlockSize(b);
    Rounds8(b);
    Row16();
    Words16(b);
    RoundAt(b, 16, Registers(0xb0fa238e, 0xc0645fde, 0xd932eb16, 0x87912990, 0x07590dcd, 0x0b92f20c, 0x745a48de, 0x1e578218), 0xe49b69c1, 0x61626380,
            0x213b6995, 0x3f92ebad, 0x7312401e, 0xb2a52bcb, 0x9740958c, 0xf8a2f90c, 0x58c535f1, 0xd0726b9e, 0x2937a18f, 0x21da9a9b, 0x8034229c);
    RoundAt(b, 17, Registers(0x21da9a9b, 0xb0fa238e, 0xc0645fde, 0xd932eb16, 0x8034229c, 0x07590dcd, 0x0b92f20c, 0x745a48de), 0xefbe4786, 0x000f0000,
            0x3b81984e, 0xafdbe12c, 0x0b92d08c, 0xbb6eb1b8, 0xab2cf93e, 0xab3bf93e, 0x76c5c4f5, 0xa0fa1b9e, 0x17bfe093, 0xc2fbd9d1, 0x846ee454);
    RoundAt(b, 18, Registers(0xc2fbd9d1, 0x21da9a9b, 0xb0fa238e, 0xc0645fde, 0x846ee454, 0x8034229c, 0x07590dcd, 0x0b92f20c), 0x0fc19dc6, 0x7da86405,
            0xeff31c0f, 0xfb860e1b, 0x8335299d, 0x7ebb37b8, 0x8e7cd57e, 0x0c253983, 0x5157a6a1, 0xa0fa9b9b, 0xf252423c, 0xfe777bbf, 0xcc899961);
    RoundAt(b, 19, Registers(0xfe777bbf, 0xc2fbd9d1, 0x21da9a9b, 0xb0fa238e, 0xcc899961, 0x846ee454, 0x8034229c, 0x07590dcd), 0x240ca1cc, 0x600003c6,
            0xefc707b0, 0xf720157d, 0x843ca2dc, 0x7b5cb859, 0x9f695a25, 0xff695deb, 0xff8cd2ad, 0xe2fbdb9b, 0xe288ae48, 0xe1f20c33, 0xb0638179);
    RoundAt(b, 20, Registers(0xe1f20c33, 0xfe777bbf, 0xc2fbd9d1, 0x21da9a9b, 0xb0638179, 0xcc899961, 0x846ee454, 0x8034229c), 0x2de92c6f, 0x3e9d7b78,
            0xf8373ead, 0x786b6149, 0x840de565, 0xfc7946ae, 0x2a62731d, 0x68ffee95, 0x51d3431b, 0xe2f359b3, 0x34c69cce, 0x9dc68b63, 0x8ada8930);
    RoundAt(b, 21, Registers(0x9dc68b63, 0xe1f20c33, 0xfe777bbf, 0xc2fbd9d1, 0x8ada8930, 0xb0638179, 0xcc899961, 0x846ee454), 0x4a7484aa, 0x0183fc00,
            0x897ea930, 0x0ded8d84, 0xc4439171, 0xd2311ef5, 0x1ca5a39f, 0x1e299f9f, 0xa640c29b, 0xfdf60b33, 0xa436cdce, 0xc2606d6d, 0xe1257970);
    RoundAt(b, 22, Registers(0xc2606d6d, 0x9dc68b63, 0xe1f20c33, 0xfe777bbf, 0xe1257970, 0x8ada8930, 0xb0638179, 0xcc899961), 0x5cb0a9dc, 0x12dcbfdb,
            0x7f24093a, 0x4bada29b, 0x90428939, 0xdbf02bd4, 0x38a0d5b0, 0x4b7d958b, 0x9a43bf51, 0xc1e20d63, 0x5c25ccb4, 0xa7a3623f, 0x49f5114a);
    RoundAt(b, 23, Registers(0xa7a3623f, 0xc2606d6d, 0x9dc68b63, 0xe1f20c33, 0x49f5114a, 0xe1257970, 0x8ada8930, 0xb0638179), 0x76f988da, 0xe2e2c38e,
            0xfae64fc3, 0xab49d13c, 0xc32f9970, 0x6e796aac, 0xe572f386, 0xc855b714, 0x759d1b0a, 0x87e26b6f, 0xfd7f8679, 0xc5d53d8d, 0xaa47c347);
  }

  lemma Rounds24(b: seq<byte>)
    requires AbcBlock(b)
    ensures After(b, 32, Registers(0x73b33bf5, 0xea992a22, 0xa0060b30, 0x363482c9, 0xba591112, 0x0109ab3a, 0xade79437, 0x6112a3b7))
  {
    hide AbcBlock, Schedule, RoundConstant, After;
    BlockSize(b);
    Rounds16(b);
    Row24();
    Words24(b);
    RoundAt(b, 24, Registers(0xc5d53d8d, 0xa7a3623f, 0xc2606d6d, 0x9dc68b63, 0xaa47c347, 0x49f5114a, 0xe1257970, 0x8ada8930), 0x983e5152, 0xc8215c1a,
            0x55bdf420, 0xe0987d50, 0x49653972, 0x29fdb6c2, 0xc23c0814, 0x8a5d642e, 0xc9ed56dd, 0xc7e16d2d, 0x91cec40a, 0x1c2c2838, 0x2823ef91);
    RoundAt(b, 25, Registers(0x1c2c2838, 0xc5d53d8d, 0xa7a3623f, 0xc2606d6d, 0x2823ef91, 0xaa47c347, 0x49f5114a, 0xe1257970), 0xa831c66d, 0xb73679a2,
            0xa7724357, 0x8897bcc7, 0x69d7d34b, 0xf26f9012, 0x9aa1567f, 0x51d7d021, 0xf66b0b1f, 0x85a5283d, 0x7c10335c, 0xcde8037d, 0x14383d8e);
    RoundAt(b, 26, Registers(0xcde8037d, 0x1c2c2838, 0xc5d53d8d, 0xa7a3623f, 0x14383d8e, 0x2823ef91, 0xaa47c347, 0x49f5114a), 0xb00327c8, 0xe5bc3909,
            0x958ca0fb, 0xdf81b245, 0xaa67efc1, 0x89e9a206, 0x39ecc9ce, 0x1fa902d7, 0xc89998a8, 0xcdec293d, 0x9685c1e5, 0xb62ec4bc, 0xc74c6516);
    RoundAt(b, 27, Registers(0xb62ec4bc, 0xcde8037d, 0x1c2c2838, 0xc5d53d8d, 0xc74c6516, 0x14383d8e, 0x2823ef91, 0xaa47c347), 0xbf597fc7, 0x32663c5b,
            0x5ff7537b, 0x0a3f16c2, 0x2c2baf87, 0x366ac649, 0xf5c44610, 0x282a826b, 0xb37cf281, 0x9c2c003c, 0x4fa8f2bd, 0x77d37528, 0xedffbff8);
    RoundAt(b, 28, Registers(0x77d37528, 0xb62ec4bc, 0xcde8037d, 0x1c2c2838, 0xedffbff8, 0xc74c6516, 0x14383d8e, 0x2823ef91), 0xc6e00bf3, 0x9d209d67,
            0xe375bd7e, 0x0b99ad0f, 0xd54c2516, 0xe0e5d225, 0xa7c5de18, 0x44e67b7f, 0xf963c20e, 0xf7ea453c, 0xf14e074a, 0x363482c9, 0x6112a3b7);
    RoundAt(b, 29, Registers(0x363482c9, 0x77d37528, 0xb62ec4bc, 0xcde8037d, 0x6112a3b7, 0xedffbff8, 0xc74c6516, 0x14383d8e), 0xd5a79147, 0xec8726cb,
            0x2239b36a, 0x3671f0f8, 0xe75ee7b0, 0x1dd0d8a8, 0xf37869ef, 0xdfff90ba, 0x89cfb5ce, 0x3636c4a8, 0xc0067a76, 0xa0060b30, 0xade79437);
    RoundAt(b, 30, Registers(0xa0060b30, 0x363482c9, 0x77d37528, 0xb62ec4bc, 0xade79437, 0x6112a3b7, 0xedffbff8, 0xc74c6516), 0x06ca6351, 0x702138a4,
            0xab883974, 0x72d49e8a, 0x611aabff, 0xd3ef4a89, 0xdab9adda, 0x4adae67e, 0x69a8407c, 0x36160328, 0x9fbe43a4, 0xea992a22, 0x0109ab3a);
    RoundAt(b, 31, Registers(0xea992a22, 0xa0060b30, 0x363482c9, 0x77d37528, 0x0109ab3a, 0xade79437, 0x6112a3b7, 0xedffbff8), 0x14292967, 0xd3b7973b,
            0x0b919a99, 0xf9915a91, 0x611380b7, 0x5aa4db48, 0x6ece04af, 0x42859bea, 0x8f1995eb, 0xa2140a20, 0x312da00b, 0x73b33bf5, 0xba591112);
  }

  lemma Rounds32(b: seq<byte>)
    requires AbcBlock(b)
    ensures After(b, 40, Registers(0x79ea687a, 0x6dc57a8a, 0x34df1604, 0x41a65cb1, 0x1efbc0a0, 0xf0781bc8, 0xa507a53d, 0x0772a26b))
  {
    hide AbcBlock, Schedule, RoundConstant, After;
    BlockSize(b);
    Rounds24(b);
    Row32();
    Words32(b);
    RoundAt(b, 32, Registers(0x73b33bf5, 0xea992a22, 0xa0060b30, 0x363482c9, 0xba591112, 0x0109ab3a, 0xade79437, 0x6112a3b7), 0x27b70a85, 0x93f5997f,
            0x4436a63b, 0xa54949f2, 0x05af8537, 0xaaf8cf29, 0xd2afd9ae, 0x66a5732d, 0x4fa886aa, 0xe2932b30, 0x323bb1da, 0x98e12507, 0x9cd9f5f6);
    RoundAt(b, 33, Registers(0x98e12507, 0x73b33bf5, 0xea992a22, 0xa0060b30, 0x9cd9f5f6, 0xba591112, 0x0109ab3a, 0xade79437), 0x2e1b2138, 0x3b68ba73,
            0x085a07a7, 0xb6419bde, 0x99591b1a, 0x4f9ab6f8, 0x7db5d830, 0xb91e92a3, 0x4a90902b, 0xfab12b27, 0x4541bb52, 0xfe604df5, 0x59249dd3);
    RoundAt(b, 34, Registers(0xfe604df5, 0x98e12507, 0x73b33bf5, 0xea992a22, 0x59249dd3, 0x9cd9f5f6, 0xba591112, 0x0109ab3a), 0x4d2c6dfc, 0xaff4ffc1,
            0x65415f48, 0x664b0a82, 0xba5995d2, 0x20a4a054, 0x6dd10e50, 0x1dc60e11, 0x91003786, 0xfae12df5, 0x8be1657b, 0xa9a7738c, 0x085f3833);
    RoundAt(b, 35, Registers(0xa9a7738c, 0xfe604df5, 0x98e12507, 0x73b33bf5, 0x085f3833, 0x59249dd3, 0x9cd9f5f6, 0xba591112), 0x53380d13, 0xf10a5c62,
            0xe5dc6e83, 0xa0357f95, 0x9c84ddd7, 0x3cba5d6c, 0x8ff26a7f, 0x80fcc6e1, 0x2bc2a37e, 0xb8e16585, 0xe4a40903, 0x65a0cfe4, 0xf4b002d6);
    RoundAt(b, 36, Registers(0x65a0cfe4, 0xa9a7738c, 0xfe604df5, 0x98e12507, 0xf4b002d6, 0x085f3833, 0x59249dd3, 0x9cd9f5f6), 0x650a7354, 0x0a8b3996,
            0x590d3d71, 0xf5e73367, 0x09149d13, 0xfefbd07a, 0x640643ce, 0x6e917d64, 0xe5748f69, 0xeda04fe4, 0xd314df4d, 0x41a65cb1, 0x0772a26b);
    RoundAt(b, 37, Registers(0x41a65cb1, 0x65a0cfe4, 0xa9a7738c, 0xfe604df5, 0x0772a26b, 0xf4b002d6, 0x085f3833, 0x59249dd3), 0x766a0abb, 0x72af830a,
            0x582c115e, 0xb150af31, 0x0c3d1a52, 0xbd8dc983, 0x33f7d43e, 0xa6a75748, 0x2c915f18, 0x61a65fa4, 0x8e37bebc, 0x34df1604, 0xa507a53d);
    RoundAt(b, 38, Registers(0x34df1604, 0x41a65cb1, 0x65a0cfe4, 0xa9a7738c, 0xa507a53d, 0x0772a26b, 0xf4b002d6, 0x085f3833), 0x81c2c92e, 0x9409e33e,
            0xd2f220b2, 0xdb5158e5, 0x55b2a2eb, 0x3103fbd0, 0xb2c6c4fe, 0x46d0a83c, 0xc14e73aa, 0x65a65ea4, 0x26f4d24e, 0x6dc57a8a, 0xf0781bc8);
    RoundAt(b, 39, Registers(0x6dc57a8a, 0x34df1604, 0x41a65cb1, 0x65a0cfe4, 0xf0781bc8, 0xa507a53d, 0x0772a26b, 0xf4b002d6), 0x92722c85, 0x24641522,
            0x66d20b14, 0x5b820dea, 0xa702a12b, 0x0284af15, 0x94f6db9a, 0xb95af0bc, 0x5ac8193e, 0x65c75e80, 0xc08f77be, 0x79ea687a, 0x1efbc0a0);
  }

  lemma Rounds40(b: seq<byte>)
    requires AbcBlock(b)
    ensures After(b, 48, Registers(0x4172328d, 0xa14c14b0, 0x72ab4b91, 0x26628815, 0xfecf0bc6, 0xd57b94a9, 0xb7755da1, 0xa80f11f0))
  {
    hide AbcBlock, Schedule, RoundConstant, After;
    BlockSize(b);
    Rounds32(b);
    Row40();
    Words40(b);
    RoundAt(b, 40, Registers(0x79ea687a, 0x6dc57a8a, 0x34df1604, 0x41a65cb1, 0x1efbc0a0, 0xf0781bc8, 0xa507a53d, 0x0772a26b), 0xa2bfe8a1, 0x9f47bf94,
            0xe9986075, 0xf10b02e0, 0xb17c259d, 0xa287287d, 0x4547111e, 0xe48ed0b2, 0x7408bcaa, 0x7dcf7a0a, 0xf1d836b4, 0xd6670766, 0x26352d63);
    RoundAt(b, 41, Registers(0xd6670766, 0x79ea687a, 0x6dc57a8a, 0x34df1604, 0x26352d63, 0x1efbc0a0, 0xf0781bc8, 0xa507a53d), 0xa81a664b, 0xf0a64f5a,
            0x3a6aa383, 0xdf7248c0, 0xd67912a8, 0xb5eb5b68, 0x5e05c1b3, 0x4eac110d, 0x12b2e9b8, 0x7de76a6a, 0x909a5422, 0xdf46652f, 0x838b2711);
    RoundAt(b, 42, Registers(0xdf46652f, 0xd6670766, 0x79ea687a, 0x6dc57a8a, 0x838b2711, 0x26352d63, 0x1efbc0a0, 0xf0781bc8), 0xc24b8b70, 0x3e246a79,
            0x61add539, 0x5225f101, 0x1e71e5a1, 0x7097d6a2, 0x32e36212, 0x7107cc8b, 0xc73bdc05, 0xdf66656e, 0xa6a24173, 0x17aa0dfe, 0xdecd4715);
    RoundAt(b, 43, Registers(0x17aa0dfe, 0xdf46652f, 0xd6670766, 0x79ea687a, 0xdecd4715, 0x838b2711, 0x26352d63, 0x1efbc0a0), 0xc76c51a3, 0x27333ba3,
            0xd363665b, 0xf25f26fb, 0xa2b92f73, 0x9518566e, 0x5c84a811, 0x83b7e3b4, 0x422dc671, 0xd766056e, 0x1993cbdf, 0x9d4baf93, 0xfda24c2e);
    RoundAt(b, 44, Registers(0x9d4baf93, 0x17aa0dfe, 0xdf46652f, 0xd6670766, 0xfda24c2e, 0xdecd4715, 0x838b2711, 0x26352d63), 0xd192e819, 0x0c4763f2,
            0xef0f2a07, 0x1544576a, 0xde896715, 0xf3cdbe7f, 0xc560a698, 0xd1a80a8a, 0xb5704fcc, 0x9f4a2dbf, 0x54ba7d8b, 0x26628815, 0xa80f11f0);
    RoundAt(b, 45, Registers(0x26628815, 0x9d4baf93, 0x17aa0dfe, 0xdf46652f, 0xa80f11f0, 0xfda24c2e, 0xdecd4715, 0x838b2711), 0xd6990624, 0x840abf27,
            0xfb3dc5f1, 0x7ec8ed02, 0xfec24625, 0x7d8b3327, 0x5424394b, 0xd82ef872, 0x8311c588, 0x176a8d97, 0x9a7c531f, 0x72ab4b91, 0xb7755da1);
    RoundAt(b, 46, Registers(0x72ab4b91, 0x26628815, 0x9d4baf93, 0x17aa0dfe, 0xb7755da1, 0xa80f11f0, 0xfda24c2e, 0xdecd4715), 0xf40e3585, 0x7a290d5d,
            0x8845eb06, 0x6713321b, 0xe88711ae, 0x4f9a43c9, 0x43a8794e, 0xbdd186ab, 0xad0f0274, 0x366b8b91, 0xe37a8e05, 0xa14c14b0, 0xd57b94a9);
    RoundAt(b, 47, Registers(0xa14c14b0, 0x72ab4b91, 0x26628815, 0x9d4baf93, 0xd57b94a9, 0xb7755da1, 0xa80f11f0, 0xfda24c2e), 0x106aa070, 0x065c43da,
            0x8fa515ca, 0x8d4761f8, 0xbd7515f1, 0x4abc77e9, 0x5b271859, 0x61835c33, 0xbd84cdc9, 0x226a0891, 0xdfeed65a, 0x4172328d, 0xfecf0bc6);
  }

  lemma Rounds48(b: seq<byte>)
    requires AbcBlock(b)
    ensures After(b, 56, Registers(0x38cc9913, 0x3ec45cdb, 0xf5702fdb, 0x101fd28f, 0x54cb266b, 0xe50e1b4f, 0x9f4787c3, 0x529e7d00))
  {
    hide AbcBlock, Schedule, RoundConstant, After;
    BlockSize(b);
    Rounds40(b);
    Row48();
    Words48(b);
    RoundAt(b, 48, Registers(0x4172328d, 0xa14c14b0, 0x72ab4b91, 0x26628815, 0xfecf0bc6, 0xd57b94a9, 0xb7755da1, 0xa80f11f0), 0x19a4c116, 0xfb3e89cb,
            0x04a106b1, 0xacb018a1, 0xd57b54a1, 0x822b6d42, 0x9bd02e58, 0x970eb823, 0x0cfcb237, 0x616a1291, 0x6e66c4c8, 0x05757ceb, 0xbd714038);
    RoundAt(b, 49, Registers(0x05757ceb, 0x4172328d, 0xa14c14b0, 0x72ab4b91, 0xbd714038, 0xfecf0bc6, 0xd57b94a9, 0xb7755da1), 0x1e376c08, 0xcc7617db,
            0x5d427776, 0x14b7d517, 0xfc4b9481, 0x11036998, 0x2f3ad5a0, 0xfbb0ed7b, 0xf3f6d884, 0x017434a9, 0xf56b0d2d, 0xf11bfaa8, 0x6e5c390c);
    RoundAt(b, 50, Registers(0xf11bfaa8, 0x05757ceb, 0x4172328d, 0xa14c14b0, 0x6e5c390c, 0xbd714038, 0xfecf0bc6, 0xd57b94a9), 0x2748774c, 0xb9e66c34,
            0x3e283d54, 0x13a3d1fd, 0xbcd302ca, 0xd076d4c7, 0xf7bf4c13, 0xb1a5b847, 0x86ebd5b1, 0x41737aa9, 0xc85f505a, 0x7a0508a1, 0x52f1ccf7);
    RoundAt(b, 51, Registers(0x7a0508a1, 0xf11bfaa8, 0x05757ceb, 0x4172328d, 0x52f1ccf7, 0x6e5c390c, 0xbd714038, 0xfecf0bc6), 0x34b0bcb5, 0xa9993667,
            0x3b47e2a3, 0x3a16ee69, 0xef50080c, 0x2966f675, 0x5e17b32a, 0x07b0e991, 0x0fa817e8, 0x711578a9, 0x80bd9091, 0x886e7a22, 0x49231c1e);
    RoundAt(b, 52, Registers(0x886e7a22, 0x7a0508a1, 0xf11bfaa8, 0x05757ceb, 0x49231c1e, 0x52f1ccf7, 0x6e5c390c, 0xbd714038), 0x391c0cb3, 0x84badedd,
            0x6b63a737, 0x28d4e76f, 0x667d2d16, 0x8f521485, 0xc86e2138, 0x4d290015, 0xcae757da, 0xf80f7aa0, 0xc2f6d27a, 0x101fd28f, 0x529e7d00);
    RoundAt(b, 53, Registers(0x101fd28f, 0x886e7a22, 0x7a0508a1, 0xf11bfaa8, 0x529e7d00, 0x49231c1e, 0x52f1ccf7, 0x6e5c390c), 0x4ed8aa4a, 0xc21462bc,
            0xee7eaa12, 0x5cdae31e, 0x40639cf7, 0x9d3e8015, 0xec172a5f, 0xae2b8d1b, 0x2f35481d, 0x180f5aa3, 0x4744a2c0, 0xf5702fdb, 0x9f4787c3);
    RoundAt(b, 54, Registers(0xf5702fdb, 0x101fd28f, 0x886e7a22, 0x7a0508a1, 0x9f4787c3, 0x529e7d00, 0x49231c1e, 0x52f1ccf7), 0x5b9cca4f, 0x1487472c,
            0x55cd1720, 0xa8bee417, 0x52261d1c, 0xfae50133, 0x5681cb82, 0x6b0912ae, 0x433ccfa2, 0x907e7a8b, 0xd3bb4a2d, 0x3ec45cdb, 0xe50e1b4f);
    RoundAt(b, 55, Registers(0x3ec45cdb, 0xf5702fdb, 0x101fd28f, 0x886e7a22, 0xe50e1b4f, 0x9f4787c3, 0x529e7d00, 0x49231c1e), 0x682e6ff3, 0xb20f7a99,
            0xd1653e5c, 0x1a885a7a, 0x97966743, 0xb21ec1bd, 0x1a4d31b0, 0xcc5cac49, 0x381b8def, 0x34545edb, 0x6c6fecca, 0x38cc9913, 0x54cb266b);
  }

  lemma Rounds56(b: seq<byte>)
    requires AbcBlock(b)
    ensures After(b, 64, Registers(0x506e3058, 0xd39a2165, 0x04d24d6c, 0xb85e2ce9, 0x5ef50f24, 0xfb121210, 0x948d25b6, 0x961f4894))
  {
    hide AbcBlock, Schedule, RoundConstant, After;
    BlockSize(b);
    Rounds48(b);
    Row56();
    Words56(b);
    RoundAt(b, 56, Registers(0x38cc9913, 0x3ec45cdb, 0xf5702fdb, 0x101fd28f, 0x54cb266b, 0xe50e1b4f, 0x9f4787c3, 0x529e7d00), 0x748f82ee, 0xef57b9cd,
            0x05aa8057, 0x5848fd57, 0xcf0e83cb, 0x27578122, 0x9be70410, 0x8b3ebddd, 0x34ceacc3, 0x3cc41ddb, 0x7192ca9e, 0xfcd1887b, 0x9b5e906c);
    RoundAt(b, 57, Registers(0xfcd1887b, 0x38cc9913, 0x3ec45cdb, 0xf5702fdb, 0x9b5e906c, 0x54cb266b, 0xe50e1b4f, 0x9f4787c3), 0x78a5636f, 0xebe6b238,
            0x10b627de, 0xaffdafa1, 0x744a0b6b, 0x2447bb0c, 0x9ced1e7b, 0x88d3d0b3, 0xfaca6b61, 0x3cc4985b, 0x378f03bc, 0xc062d46f, 0x7e44008e);
    RoundAt(b, 58, Registers(0xc062d46f, 0xfcd1887b, 0x38cc9913, 0x3ec45cdb, 0x7e44008e, 0x9b5e906c, 0x54cb266b, 0xe50e1b4f), 0x84c87814, 0x9fe3095e,
            0x0a369fbd, 0xef44bb0c, 0x1acf266d, 0x0a13e179, 0x8edc598d, 0x2ebf62eb, 0xd837090c, 0xf8c0987b, 0xd0f7a187, 0xffb70472, 0x6d83bfc6);
    RoundAt(b, 59, Registers(0xffb70472, 0xc062d46f, 0xfcd1887b, 0x38cc9913, 0x6d83bfc6, 0x7e44008e, 0x9b5e906c, 0x54cb266b), 0x8cc70208, 0x78bc8d4b,
            0x20a45dbe, 0x756f8429, 0xfe5c00ae, 0x73cb84d7, 0x009286df, 0x794f142a, 0x406bf75a, 0xfcf3847b, 0x3d5f7bd5, 0xb6ae8fff, 0xb21bad3d);
    RoundAt(b, 60, Registers(0xb6ae8fff, 0xffb70472, 0xc062d46f, 0xfcd1887b, 0xb21bad3d, 0x6d83bfc6, 0x7e44008e, 0x9b5e906c), 0x90befffa, 0xa43fcf15,
            0x5ca8b318, 0xf8074384, 0x6c47ad86, 0x644ef10a, 0xf50df104, 0x994dc019, 0x2869e851, 0xf6a6847f, 0x1f106cd0, 0xb85e2ce9, 0x961f4894);
    RoundAt(b, 61, Registers(0xb85e2ce9, 0xb6ae8fff, 0xffb70472, 0xc062d46f, 0x961f4894, 0xb21bad3d, 0x6d83bfc6, 0x7e44008e), 0xa4506ceb, 0x668b2ff8,
            0x4f6ef480, 0xcdb2f50e, 0xfb9bbf56, 0xc94eb464, 0x6d9f214f, 0xd42a5147, 0x71e9ef2a, 0xbebe0cfb, 0x30a7fc25, 0x04d24d6c, 0x948d25b6);
    RoundAt(b, 62, Registers(0x04d24d6c, 0xb85e2ce9, 0xb6ae8fff, 0xffb70472, 0x948d25b6, 0x961f4894, 0xb21bad3d, 0x6d83bfc6), 0xbef9a3f7, 0xeeaba2cc,
            0x2a127e78, 0x97963e3e, 0xb61f889d, 0x4db5c6db, 0x0caf6ad2, 0xfb5b0d9e, 0x236105da, 0xb4de0ded, 0xd83f13c7, 0xd39a2165, 0xfb121210);
    RoundAt(b, 63, Registers(0xd39a2165, 0x04d24d6c, 0xb85e2ce9, 0xb6ae8fff, 0xfb121210, 0x948d25b6, 0x961f4894, 0xb21bad3d), 0xc67178f2, 0x12b1edeb,
            0x88fa2277, 0x3b15cfb4, 0x940d4894, 0xcf231848, 0x9594913a, 0xa8467f25, 0x174d83c6, 0x90da2d6d, 0xa827b133, 0x506e3058, 0x5ef50f24);
  }

  // ----- the digest -----

  const ABC_WORDS: seq<bv32> := [0xba7816bf, 0x8f01cfea, 0x414140de, 0x5dae2223, 0xb00361a3, 0x96177a9c, 0xb410ff61, 0xf20015ad]

  lemma Compressed(b: seq<byte>)
    requires AbcBlock(b)
    ensures Compress(INITIAL, b) == ABC_WORDS
  {
    hide AbcBlock, Rounds;
    BlockSize(b);
    AfterAll(b);
  }

  lemma AfterAll(b: seq<byte>)
    requires AbcBlock(b)
    ensures |b| == 64 && Rounds(Load(INITIAL), b, 64) == Registers(0x506e3058, 0xd39a2165, 0x04d24d6c, 0xb85e2ce9, 0x5ef50f24, 0xfb121210, 0x948d25b6, 0x961f4894)
  {
    hide AbcBlock, Rounds;
    BlockSize(b);
    Rounds56(b);
  }

  /** The standard's digest of "abc". */
  lemma DigestOfAbc()
    ensures Digest(ABC) == [
      0xba, 0x78, 0x16, 0xbf, 0x8f, 0x01, 0xcf, 0xea, 0x41, 0x41, 0x40, 0xde, 0x5d, 0xae, 0x22, 0x23,
      0xb0, 0x03, 0x61, 0xa3, 0x96, 0x17, 0x7a, 0x9c, 0xb4, 0x10, 0xff, 0x61, 0xf2, 0x00, 0x15, 0xad]
  {
    hide Compress, Pad, WordsBytes, AbcBlock;
    AbcPadded();
    BlockSize(Pad(ABC));
    OneBlock(Pad(ABC));
    Compressed(Pad(ABC));
    DigestBytes();
  }

  lemma OneBlock(b: seq<byte>)
    requires |b| == 64
    ensures HashBlocks(INITIAL, b) == Compress(INITIAL, b)
  {
    hide Compress;
    assert b[..64] == b && b[64..] == [];
    assert HashBlocks(Compress(INITIAL, b), []) == Compress(INITIAL, b);
  }

  lemma WordsSnoc(h: seq<bv32>, w: bv32, front: seq<byte>, a: byte, b: byte, c: byte, d: byte)
    requires WordsBytes(h) == front && WordBytes(w) == [a, b, c, d]
    ensures WordsBytes(h + [w]) == front + [a, b, c, d]
  {
    assert (h + [w])[..|h|] == h;
  }

  lemma DigestBytes()
    ensures WordsBytes(ABC_WORDS) == [
      0xba, 0x78, 0x16, 0xbf, 0x8f, 0x01, 0xcf, 0xea, 0x41, 0x41, 0x40, 0xde, 0x5d, 0xae, 0x22, 0x23,
      0xb0, 0x03, 0x61, 0xa3, 0x96, 0x17, 0x7a, 0x9c, 0xb4, 0x10, 0xff, 0x61, 0xf2, 0x00, 0x15, 0xad]
  {
    hide WordsBytes;
    NoWords();
    WordsSnoc(ABC_WORDS[..0], 0xba7816bf, [], 0xba, 0x78, 0x16, 0xbf);
    var b1: seq<byte> := [0xba, 0x78, 0x16, 0xbf];
    assert ABC_WORDS[..0] + [0xba7816bf] == ABC_WORDS[..1];
    WordsSnoc(ABC_WORDS[..1], 0x8f01cfea, b1, 0x8f, 0x01, 0xcf, 0xea);
    var b2: seq<byte> := [0xba, 0x78, 0x16, 0xbf, 0x8f, 0x01, 0xcf, 0xea];
    assert ABC_WORDS[..1] + [0x8f01cfea] == ABC_WORDS[..2];
    WordsSnoc(ABC_WORDS[..2], 0x414140de, b2, 0x41, 0x41, 0x40, 0xde);
    var b3: seq<byte> := [0xba, 0x78, 0x16, 0xbf, 0x8f, 0x01, 0xcf, 0xea, 0x41, 0x41, 0x40, 0xde];
    assert ABC_WORDS[..2] + [0x414140de] == ABC_WORDS[..3];
    WordsSnoc(ABC_WORDS[..3], 0x5dae2223, b3, 0x5d, 0xae, 0x22, 0x23);
    var b4: seq<byte> := [0xba, 0x78, 0x16, 0xbf, 0x8f, 0x01, 0xcf, 0xea, 0x41, 0x41, 0x40, 0xde, 0x5d, 0xae, 0x22, 0x23];
    assert ABC_WORDS[..3] + [0x5dae2223] == ABC_WORDS[..4];
    WordsSnoc(ABC_WORDS[..4], 0xb00361a3, b4, 0xb0, 0x03, 0x61, 0xa3);
    var b5: seq<byte> := [0xba, 0x78, 0x16, 0xbf, 0x8f, 0x01, 0xcf, 0xea, 0x41, 0x41, 0x40, 0xde, 0x5d, 0xae, 0x22, 0x23, 0xb0, 0x03, 0x61, 0xa3];
    assert ABC_WORDS[..4] + [0xb00361a3] == ABC_WORDS[..5];
    WordsSnoc(ABC_WORDS[..5], 0x96177a9c, b5, 0x96, 0x17, 0x7a, 0x9c);
    var b6: seq<byte> := [0xba, 0x78, 0x16, 0xbf, 0x8f, 0x01, 0xcf, 0xea, 0x41, 0x41, 0x40, 0xde, 0x5d, 0xae, 0x22, 0x23, 0xb0, 0x03, 0x61, 0xa3, 0x96, 0x17, 0x7a, 0x9c];
    assert ABC_WORDS[..5] + [0x96177a9c] == ABC_WORDS[..6];
    WordsSnoc(ABC_WORDS[..6], 0xb410ff61, b6, 0xb4, 0x10, 0xff, 0x61);
    var b7: seq<byte> := [0xba, 0x78, 0x16, 0xbf, 0x8f, 0x01, 0xcf, 0xea, 0x41, 0x41, 0x40, 0xde, 0x5d, 0xae, 0x22, 0x23, 0xb0, 0x03, 0x61, 0xa3, 0x96, 0x17, 0x7a, 0x9c, 0xb4, 0x10, 0xff, 0x61];
    assert ABC_WORDS[..6] + [0xb410ff61] == ABC_WORDS[..7];
    WordsSnoc(ABC_WORDS[..7], 0xf20015ad, b7, 0xf2, 0x00, 0x15, 0xad);
    var b8: seq<byte> := [0xba, 0x78, 0x16, 0xbf, 0x8f, 0x01, 0xcf, 0xea, 0x41, 0x41, 0x40, 0xde, 0x5d, 0xae, 0x22, 0x23, 0xb0, 0x03, 0x61, 0xa3, 0x96, 0x17, 0x7a, 0x9c, 0xb4, 0x10, 0xff, 0x61, 0xf2, 0x00, 0x15, 0xad];
    assert ABC_WORDS[..7] + [0xf20015ad] == ABC_WORDS[..8];
    assert ABC_WORDS[..8] == ABC_WORDS;
  }

  lemma NoWords()
    ensures WordsBytes(ABC_WORDS[..0]) == []
  {
  }
}
