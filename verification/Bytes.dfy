/**
  Machine integers, byte strings and the fixed-width integer encodings that
  every Graph Cache format is built from.

  Integers are subset types of `int`, so wrap-around and truncation are written
  out where the code relies on them. Strings are byte strings, and a `double`
  is its 64-bit pattern.
 */
module Bytes {
  const TWO_32: int := 0x1_0000_0000
  const TWO_64: int := 0x1_0000_0000_0000_0000

  type byte = x: int | 0 <= x < 0x100
  type u16 = x: int | 0 <= x < 0x1_0000
  type u32 = x: int | 0 <= x < 0x1_0000_0000
  type u64 = x: int | 0 <= x < 0x1_0000_0000_0000_0000
  type i64 = x: int | -0x8000_0000_0000_0000 <= x < 0x8000_0000_0000_0000
  type Text = seq<byte>

  datatype Option<+T> = None | Some(value: T) {
    predicate IsFailure() {
      None?
    }

    function PropagateFailure<U>(): Option<U>
      requires None?
    {
      None
    }

    function Extract(): T
      requires Some?
    {
      value
    }
  }

  function Pow256(n: nat): (p: nat)
    ensures p > 0
  {
    if n == 0 then 1 else 256 * Pow256(n - 1)
  }

  lemma Pow256Values()
    ensures Pow256(2) == 0x1_0000 && Pow256(4) == TWO_32 && Pow256(8) == TWO_64
  {
    assert Pow256(3) == 0x100_0000;
    assert Pow256(5) == 0x100_0000_0000;
    assert Pow256(7) == 0x100_0000_0000_0000;
  }

  /** Most significant byte first; bits above the width are dropped. */
  function BigEndian(width: nat, v: nat): (b: seq<byte>)
    ensures |b| == width
  {
    if width == 0 then [] else BigEndian(width - 1, v / 256) + [v % 256]
  }

  function FromBigEndian(b: seq<byte>): nat
  {
    if b == [] then 0 else FromBigEndian(b[..|b| - 1]) * 256 + b[|b| - 1]
  }

  lemma {:induction false} BigEndianRoundTrip(width: nat, v: nat)
    requires v < Pow256(width)
    ensures FromBigEndian(BigEndian(width, v)) == v
  {
    if width > 0 {
      BigEndianRoundTrip(width - 1, v / 256);
      assert BigEndian(width, v)[..width - 1] == BigEndian(width - 1, v / 256);
    }
  }

  lemma {:induction false} FromBigEndianRoundTrip(b: seq<byte>)
    ensures FromBigEndian(b) < Pow256(|b|)
    ensures BigEndian(|b|, FromBigEndian(b)) == b
  {
    if b != [] {
      FromBigEndianRoundTrip(b[..|b| - 1]);
    }
  }

  function Be16(v: u16): (b: seq<byte>)
    ensures |b| == 2 && FromBigEndian(b) == v
  {
    Pow256Values();
    BigEndianRoundTrip(2, v);
    BigEndian(2, v)
  }

  function Be32(v: u32): (b: seq<byte>)
    ensures |b| == 4 && FromBigEndian(b) == v
  {
    Pow256Values();
    BigEndianRoundTrip(4, v);
    BigEndian(4, v)
  }

  function Be64(v: u64): (b: seq<byte>)
    ensures |b| == 8 && FromBigEndian(b) == v
  {
    Pow256Values();
    BigEndianRoundTrip(8, v);
    BigEndian(8, v)
  }

  function FromBe16(b: seq<byte>): (v: u16)
    requires |b| == 2
    ensures Be16(v) == b
  {
    Pow256Values();
    FromBigEndianRoundTrip(b);
    FromBigEndian(b)
  }

  function FromBe32(b: seq<byte>): (v: u32)
    requires |b| == 4
    ensures Be32(v) == b
  {
    Pow256Values();
    FromBigEndianRoundTrip(b);
    FromBigEndian(b)
  }

  function FromBe64(b: seq<byte>): (v: u64)
    requires |b| == 8
    ensures Be64(v) == b
  {
    Pow256Values();
    FromBigEndianRoundTrip(b);
    FromBigEndian(b)
  }

  function Reverse(b: seq<byte>): (r: seq<byte>)
    ensures |r| == |b|
    ensures forall i | 0 <= i < |b| :: r[i] == b[|b| - 1 - i]
  {
    seq(|b|, i requires 0 <= i < |b| => b[|b| - 1 - i])
  }

  lemma ReverseTwice(b: seq<byte>)
    ensures Reverse(Reverse(b)) == b
  {
  }

  /** Least significant byte first, as the wire protocol writes integers. */
  function LittleEndian(width: nat, v: nat): (b: seq<byte>)
    ensures |b| == width
  {
    Reverse(BigEndian(width, v))
  }

  function FromLittleEndian(b: seq<byte>): nat
  {
    FromBigEndian(Reverse(b))
  }

  lemma LittleEndianRoundTrip(width: nat, v: nat)
    requires v < Pow256(width)
    ensures FromLittleEndian(LittleEndian(width, v)) == v
  {
    ReverseTwice(BigEndian(width, v));
    BigEndianRoundTrip(width, v);
  }

  lemma FromLittleEndianRoundTrip(b: seq<byte>)
    ensures FromLittleEndian(b) < Pow256(|b|)
    ensures LittleEndian(|b|, FromLittleEndian(b)) == b
  {
    FromBigEndianRoundTrip(Reverse(b));
    ReverseTwice(b);
  }

  /** `static_cast` between the signed and unsigned 64-bit types. */
  function AsUnsigned(v: i64): (u: u64)
    ensures AsSigned(u) == v
  {
    if v < 0 then v + TWO_64 else v
  }

  function AsSigned(u: u64): (v: i64)
  {
    if u < 0x8000_0000_0000_0000 then u else u - TWO_64
  }
}
