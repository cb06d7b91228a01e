/**
  The incremental SHA-256 of include/graphcache/sha256.hpp against the one-shot
  definition of FIPS 180-4: padding of section 5.1.1, schedule and rounds of
  section 6.2.2.
 */
module Sha256 {
  import opened Bytes

  // ----- FIPS 180-4 -----

  const INITIAL: seq<bv32> := [
    0x6a09e667, 0xbb67ae85, 0x3c6ef372, 0xa54ff53a, 0x510e527f, 0x9b05688c, 0x1f83d9ab, 0x5be0cd19]

  const K: seq<seq<bv32>> := [
    [0x428a2f98, 0x71374491, 0xb5c0fbcf, 0xe9b5dba5, 0x3956c25b, 0x59f111f1, 0x923f82a4, 0xab1c5ed5],
    [0xd807aa98, 0x12835b01, 0x243185be, 0x550c7dc3, 0x72be5d74, 0x80deb1fe, 0x9bdc06a7, 0xc19bf174],
    [0xe49b69c1, 0xefbe4786, 0x0fc19dc6, 0x240ca1cc, 0x2de92c6f, 0x4a7484aa, 0x5cb0a9dc, 0x76f988da],
    [0x983e5152, 0xa831c66d, 0xb00327c8, 0xbf597fc7, 0xc6e00bf3, 0xd5a79147, 0x06ca6351, 0x14292967],
    [0x27b70a85, 0x2e1b2138, 0x4d2c6dfc, 0x53380d13, 0x650a7354, 0x766a0abb, 0x81c2c92e, 0x92722c85],
    [0xa2bfe8a1, 0xa81a664b, 0xc24b8b70, 0xc76c51a3, 0xd192e819, 0xd6990624, 0xf40e3585, 0x106aa070],
    [0x19a4c116, 0x1e376c08, 0x2748774c, 0x34b0bcb5, 0x391c0cb3, 0x4ed8aa4a, 0x5b9cca4f, 0x682e6ff3],
    [0x748f82ee, 0x78a5636f, 0x84c87814, 0x8cc70208, 0x90befffa, 0xa4506ceb, 0xbef9a3f7, 0xc67178f2]]

  function RoundConstant(t: nat): bv32
    requires t < 64
  {
    K[t / 8][t % 8]
  }

  /** Addition modulo 2^32. */
  function Plus(x: bv32, y: bv32): bv32 {
    x + y
  }

  function RotR(x: bv32, n: bv32): bv32
    requires 0 < n < 32
  {
    (x >> n) | (x << (32 - n))
  }

  function ShR(x: bv32, n: bv32): bv32
    requires n < 32
  {
    x >> n
  }

  function SmallSigma0(x: bv32): bv32 {
    RotR(x, 7) ^ RotR(x, 18) ^ ShR(x, 3)
  }

  function SmallSigma1(x: bv32): bv32 {
    RotR(x, 17) ^ RotR(x, 19) ^ ShR(x, 10)
  }

  function BigSigma0(x: bv32): bv32 {
    RotR(x, 2) ^ RotR(x, 13) ^ RotR(x, 22)
  }

  function BigSigma1(x: bv32): bv32 {
    RotR(x, 6) ^ RotR(x, 11) ^ RotR(x, 25)
  }

  function Ch(x: bv32, y: bv32, z: bv32): bv32 {
    (x & y) ^ ((!x) & z)
  }

  function Maj(x: bv32, y: bv32, z: bv32): bv32 {
    (x & y) ^ (x & z) ^ (y & z)
  }

  function BlockWord(block: seq<byte>, t: nat): bv32
    requires |block| == 64 && t < 16
  {
    ((block[4 * t] as bv32) << 24) | ((block[4 * t + 1] as bv32) << 16) | ((block[4 * t + 2] as bv32) << 8) | (block[4 * t + 3] as bv32)
  }

  function NextWord(w16: bv32, w15: bv32, w7: bv32, w2: bv32): bv32 {
    Plus(Plus(Plus(SmallSigma1(w2), w7), SmallSigma0(w15)), w16)
  }

  /** The message schedule word W_t. */
  function Schedule(block: seq<byte>, t: nat): bv32
    requires |block| == 64 && t < 64
  {
    if t < 16 then BlockWord(block, t)
    else
      NextWord(Schedule(block, t - 16), Schedule(block, t - 15), Schedule(block, t - 7), Schedule(block, t - 2))
  }

  datatype Registers = Registers(a: bv32, b: bv32, c: bv32, d: bv32, e: bv32, f: bv32, g: bv32, h: bv32)

  function Temp1(e: bv32, f: bv32, g: bv32, h: bv32, k: bv32, w: bv32): bv32 {
    Plus(Plus(Plus(Plus(h, BigSigma1(e)), Ch(e, f, g)), k), w)
  }

  function Temp2(a: bv32, b: bv32, c: bv32): bv32 {
    Plus(BigSigma0(a), Maj(a, b, c))
  }

  function Round(r: Registers, k: bv32, w: bv32): Registers {
    var t1 := Temp1(r.e, r.f, r.g, r.h, k, w);
    var t2 := Temp2(r.a, r.b, r.c);
    Registers(Plus(t1, t2), r.a, r.b, r.c, Plus(r.d, t1), r.e, r.f, r.g)
  }

  function Rounds(r: Registers, block: seq<byte>, n: nat): Registers
    requires |block| == 64 && n <= 64
  {
    if n == 0 then r else Round(Rounds(r, block, n - 1), RoundConstant(n - 1), Schedule(block, n - 1))
  }

  function Load(h: seq<bv32>): Registers
    requires |h| == 8
  {
    Registers(h[0], h[1], h[2], h[3], h[4], h[5], h[6], h[7])
  }

  /** The intermediate hash value after one more block. */
  function Compress(h: seq<bv32>, block: seq<byte>): (r: seq<bv32>)
    requires |h| == 8 && |block| == 64
    ensures |r| == 8
  {
    var v := Rounds(Load(h), block, 64);
    [Plus(h[0], v.a), Plus(h[1], v.b), Plus(h[2], v.c), Plus(h[3], v.d),
     Plus(h[4], v.e), Plus(h[5], v.f), Plus(h[6], v.g), Plus(h[7], v.h)]
  }

  /** Folds the block function over the whole blocks of `m`. */
  function HashBlocks(h: seq<bv32>, m: seq<byte>): (r: seq<bv32>)
    requires |h| == 8
    ensures |r| == 8
    decreases |m|
  {
    if |m| < 64 then h else HashBlocks(Compress(h, m[..64]), m[64..])
  }

  function Zeros(n: nat): (z: seq<byte>)
    ensures |z| == n && forall i | 0 <= i < n :: z[i] == 0
  {
    seq(n, i => 0)
  }

  /** The number of zero bytes after which the length field ends a block; being below 64, it is the least. */
  function PadCount(n: nat): (k: nat)
    ensures (n + 1 + k) % 64 == 56
    ensures k < 64
  {
    (119 - n % 64) % 64
  }

  /** Section 5.1.1; the standard stops at 2^61 bytes, past which the code's 64-bit length wraps. */
  function Pad(m: seq<byte>): (p: seq<byte>)
    ensures |p| % 64 == 0
  {
    WholeBlocks(|m|, PadCount(|m|));
    m + [0x80] + Zeros(PadCount(|m|)) + Be64(8 * |m| % TWO_64)
  }

  lemma WholeBlocks(n: nat, k: nat)
    requires (n + 1 + k) % 64 == 56
    ensures (n + 1 + k + 8) % 64 == 0
  {
  }

  /** The low eight bits of a word. */
  function LowByte(x: bv32): byte {
    ((x & 0xff) as bv8) as int
  }

  function WordBytes(x: bv32): (b: seq<byte>)
    ensures |b| == 4
  {
    [LowByte(x >> 24), LowByte(x >> 16), LowByte(x >> 8), LowByte(x)]
  }

  function WordsBytes(h: seq<bv32>): (b: seq<byte>)
    ensures |b| == 4 * |h|
  {
    if h == [] then [] else WordsBytes(h[..|h| - 1]) + WordBytes(h[|h| - 1])
  }

  function Digest(m: seq<byte>): (d: seq<byte>)
    ensures |d| == 32
  {
    WordsBytes(HashBlocks(INITIAL, Pad(m)))
  }

  // ----- block structure -----

  lemma {:induction false} HashBlocksSnoc(h: seq<bv32>, m: seq<byte>, block: seq<byte>)
    requires |h| == 8 && |m| % 64 == 0 && |block| == 64
    ensures HashBlocks(h, m + block) == Compress(HashBlocks(h, m), block)
    decreases |m|
  {
    hide Compress;
    if |m| == 0 {
      assert m + block == block && block[..64] == block && block[64..] == [];
      assert HashBlocks(Compress(h, block), []) == Compress(h, block);
    } else {
      assert (m + block)[..64] == m[..64] && (m + block)[64..] == m[64..] + block;
      HashBlocksSnoc(Compress(h, m[..64]), m[64..], block);
    }
  }

  /** The part of a message that fills whole blocks, and the rest. */
  ghost function Whole(m: seq<byte>): seq<byte> {
    m[..|m| - |m| % 64]
  }

  ghost function Tail(m: seq<byte>): (t: seq<byte>)
    ensures |t| == |m| % 64
  {
    m[|m| - |m| % 64..]
  }

  lemma AbsorbPart(m: seq<byte>, chunk: seq<byte>)
    requires |m| % 64 + |chunk| < 64
    ensures |m + chunk| % 64 == |m| % 64 + |chunk|
    ensures Whole(m + chunk) == Whole(m) && Tail(m + chunk) == Tail(m) + chunk
  {
    ModAdd(|m|, |chunk|);
  }

  lemma AbsorbBlock(m: seq<byte>, chunk: seq<byte>)
    requires |m| % 64 + |chunk| == 64
    ensures |m + chunk| % 64 == 0 && |Whole(m)| % 64 == 0
    ensures Whole(m + chunk) == Whole(m) + (Tail(m) + chunk) && Tail(m + chunk) == []
  {
    ModAdd(|m|, |chunk|);
  }

  lemma ModAdd(n: nat, k: nat)
    requires n % 64 + k <= 64
    ensures (n + k) % 64 == if n % 64 + k == 64 then 0 else n % 64 + k
    ensures (n - n % 64) % 64 == 0
  {
  }

  // ----- the incremental object -----

  class Hasher {
    var state: seq<bv32>
    const buffer: array<byte>
    var totalLen: u64
    var curLen: nat
    ghost var msg: seq<byte>   // every byte fed so far

    ghost predicate Absorbed()
      reads this, buffer
    {
      && buffer.Length == 64 && curLen == |msg| % 64
      && buffer[..curLen] == Tail(msg)
      && state == HashBlocks(INITIAL, Whole(msg))
    }

    ghost predicate Valid()
      reads this, buffer
    {
      Absorbed() && totalLen == |msg| % TWO_64
    }

    constructor ()
      ensures Valid() && fresh(buffer) && msg == []
    {
      state := INITIAL;
      buffer := new byte[64](i => 0);
      totalLen, curLen := 0, 0;
      msg := [];
    }

    method ExpandSchedule(block: seq<byte>) returns (w: array<bv32>)
      requires |block| == 64
      ensures fresh(w) && w.Length == 64
      ensures forall t | 0 <= t < 64 :: w[t] == Schedule(block, t)
    {
      hide BlockWord, NextWord;
      w := new bv32[64](i => 0);
      for i := 0 to 16
        invariant forall t | 0 <= t < i :: w[t] == Schedule(block, t)
      {
        w[i] := BlockWord(block, i);
      }
      for i := 16 to 64
        invariant forall t | 0 <= t < i :: w[t] == Schedule(block, t)
      {
        w[i] := NextWord(w[i - 16], w[i - 15], w[i - 7], w[i - 2]);
      }
    }

    method ProcessBlock(block: seq<byte>)
      requires |state| == 8 && |block| == 64
      modifies this`state
      ensures state == Compress(old(state), block)
    {
      hide Schedule, Temp1, Temp2, Plus, RoundConstant;
      var w := ExpandSchedule(block);
      var a, b, c, d := state[0], state[1], state[2], state[3];
      var e, f, g, h := state[4], state[5], state[6], state[7];
      for i := 0 to 64
        invariant Registers(a, b, c, d, e, f, g, h) == Rounds(Load(state), block, i)
        invariant forall t | 0 <= t < 64 :: w[t] == Schedule(block, t)
      {
        var temp1 := Temp1(e, f, g, h, RoundConstant(i), w[i]);
        var temp2 := Temp2(a, b, c);
        h := g;
        g := f;
        f := e;
        e := Plus(d, temp1);
        d := c;
        c := b;
        b := a;
        a := Plus(temp1, temp2);
      }
      state := [Plus(state[0], a), Plus(state[1], b), Plus(state[2], c), Plus(state[3], d),
                Plus(state[4], e), Plus(state[5], f), Plus(state[6], g), Plus(state[7], h)];
    }

    /** Copies into the block buffer and compresses each time it fills. */
    method Update(data: seq<byte>)
      requires Valid()
      modifies this, buffer
      ensures Valid() && msg == old(msg) + data
    {
      hide HashBlocks, Whole, Tail;
      TotalAdd(|msg|, |data|);
      totalLen := (totalLen + |data|) % TWO_64;
      var pos := 0;
      while pos < |data|
        invariant pos <= |data| && Absorbed()
        invariant msg == old(msg) + data[..pos]
        invariant totalLen == (|old(msg)| + |data|) % TWO_64
      {
        var take := if 64 - curLen > |data| - pos then |data| - pos else 64 - curLen;
        AppendSlices(old(msg), data, pos, pos + take);
        Take(data[pos..pos + take]);
        pos := pos + take;
      }
      assert data[..pos] == data;
    }

    method Take(chunk: seq<byte>)
      requires Absorbed() && 0 < |chunk| <= 64 - curLen
      modifies this`state, this`curLen, this`msg, buffer
      ensures Absorbed() && msg == old(msg) + chunk
    {
      hide HashBlocks, Whole;
      ghost var before := buffer[..curLen];
      forall i | 0 <= i < |chunk| {
        buffer[curLen + i] := chunk[i];
      }
      curLen := curLen + |chunk|;
      assert buffer[..curLen] == before + chunk;
      if curLen == 64 {
        AbsorbBlock(msg, chunk);
        HashBlocksSnoc(INITIAL, Whole(msg), before + chunk);
        assert buffer[..] == buffer[..64];
        ProcessBlock(buffer[..]);
        curLen := 0;
      } else {
        AbsorbPart(msg, chunk);
      }
      msg := msg + chunk;
    }

    /** Pads, hashes the length and returns the digest of everything fed in before the call. */
    method Final() returns (digest: seq<byte>)
      requires Valid()
      modifies this, buffer
      ensures digest == Digest(old(msg))
    {
      hide HashBlocks, Whole, Tail, Be64, WordsBytes, PadCount, Zeros;
      ghost var m := msg;
      ghost var k := PadCount(|m|);
      BitLength(|m|);
      var bitLen := totalLen * 8 % TWO_64;
      Update([0x80]);
      ghost var j := 0;
      while curLen != 56
        invariant Valid() && 0 <= j <= k
        invariant msg == m + [0x80] + Zeros(j)
        decreases k - j
      {
        FillLevel(m, j);
        PadNotYet(|m|, j, curLen);
        Update([0]);
        ZerosSnoc(m + [0x80], j);
        j := j + 1;
      }
      FillLevel(m, j);
      PadDone(|m|, j);
      Update(Be64(bitLen));
      WholePadding(m);
      digest := EmitState();
    }

    method EmitState() returns (out: seq<byte>)
      requires |state| == 8
      ensures out == WordsBytes(state)
    {
      out := [];
      for i := 0 to 8
        invariant out == WordsBytes(state[..i])
      {
        assert state[..i + 1][..i] == state[..i];
        out := out + WordBytes(state[i]);
      }
      assert state[..8] == state;
    }
  }

  lemma TotalAdd(n: nat, k: nat)
    ensures (n % TWO_64 + k) % TWO_64 == (n + k) % TWO_64
  {
    var q := n / TWO_64;
    assert n + k == (n % TWO_64 + k) + q * TWO_64;
    SameResidue(n % TWO_64 + k, q);
  }

  lemma AppendSlices(m: seq<byte>, data: seq<byte>, i: nat, j: nat)
    requires i <= j <= |data|
    ensures m + data[..i] + data[i..j] == m + data[..j]
  {
  }

  lemma PadNotYet(n: nat, j: nat, cur: nat)
    requires j <= PadCount(n) && cur == (n + 1 + j) % 64 && cur != 56
    ensures j < PadCount(n)
  {
  }

  lemma PadDone(n: nat, j: nat)
    requires j <= PadCount(n) && (n + 1 + j) % 64 == 56
    ensures j == PadCount(n)
  {
    var k := PadCount(n);
    assert (n + 1 + k) % 64 == 56 && k - j < 64;
  }

  lemma FillLevel(m: seq<byte>, j: nat)
    ensures |m + [0x80] + Zeros(j)| == |m| + 1 + j
  {
  }

  lemma ZerosSnoc(m: seq<byte>, j: nat)
    ensures m + Zeros(j) + [0] == m + Zeros(j + 1)
  {
  }

  lemma BitLength(n: nat)
    ensures n % TWO_64 * 8 % TWO_64 == 8 * n % TWO_64
  {
    var q := n / TWO_64;
    assert 8 * n == n % TWO_64 * 8 + 8 * q * TWO_64;
    SameResidue(n % TWO_64 * 8, 8 * q);
  }

  lemma SameResidue(n: nat, q: nat)
    ensures (n + q * TWO_64) % TWO_64 == n % TWO_64
  {
  }

  lemma WholePadding(m: seq<byte>)
    ensures Whole(Pad(m)) == Pad(m)
  {
  }

  /** Feeding a message in any pieces and finishing gives its one-shot digest. */
  method HashPieces(pieces: seq<seq<byte>>) returns (digest: seq<byte>)
    ensures digest == Digest(Concat(pieces))
  {
    var h := new Hasher();
    for i := 0 to |pieces|
      invariant h.Valid() && fresh(h) && fresh(h.buffer)
      invariant h.msg == Concat(pieces[..i])
    {
      assert pieces[..i + 1][..i] == pieces[..i];
      h.Update(pieces[i]);
    }
    assert pieces[..|pieces|] == pieces;
    digest := h.Final();
  }

  ghost function Concat(pieces: seq<seq<byte>>): seq<byte> {
    if pieces == [] then [] else Concat(pieces[..|pieces| - 1]) + pieces[|pieces| - 1]
  }

  lemma OnePiece(p: seq<byte>)
    ensures Concat([p]) == p
  {
    assert [p][..0] == [];
    assert Concat([]) == [];
  }
}
