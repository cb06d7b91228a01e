/**
  Identities as text: `GraphArtifactId::to_string` of include/graphcache/ids.hpp,
  the file names of src/persistence.cpp and the digest keys of
  include/graphcache/sha256.hpp.
 */
module HexIds {
  import opened Bytes
  import opened Descriptors

  function Digit(d: nat): byte
    requires d < 16
  {
    if d < 10 then 0x30 + d else 0x61 + (d - 10)
  }

  /** The value of a hexadecimal digit of either case, 16 for any other character. */
  function Value(c: byte): nat {
    if 0x30 <= c <= 0x39 then c - 0x30
    else if 0x61 <= c <= 0x66 then c - 0x61 + 10
    else if 0x41 <= c <= 0x46 then c - 0x41 + 10
    else 16
  }

  function LowerCase(c: byte): byte {
    if 0x41 <= c <= 0x46 then c + 0x20 else c
  }

  function Lower(s: Text): (r: Text)
    ensures |r| == |s| && forall i | 0 <= i < |s| :: r[i] == LowerCase(s[i])
  {
    seq(|s|, i requires 0 <= i < |s| => LowerCase(s[i]))
  }

  predicate AllHex(s: Text) {
    forall i | 0 <= i < |s| :: Value(s[i]) < 16
  }

  function Pow16(n: nat): nat {
    if n == 0 then 1 else 16 * Pow16(n - 1)
  }

  /** `%0<width>llx`. */
  function Hex(width: nat, v: nat): (s: Text)
    ensures |s| == width
  {
    if width == 0 then [] else Hex(width - 1, v / 16) + [Digit(v % 16)]
  }

  function FromHex(s: Text): nat
    requires AllHex(s)
  {
    if s == [] then 0 else FromHex(s[..|s| - 1]) * 16 + Value(s[|s| - 1])
  }

  lemma DigitIsLower(d: nat)
    requires d < 16
    ensures Value(Digit(d)) == d && LowerCase(Digit(d)) == Digit(d)
  {
  }

  lemma {:induction false} HexIsLower(width: nat, v: nat)
    ensures AllHex(Hex(width, v)) && Lower(Hex(width, v)) == Hex(width, v)
  {
    hide Value, Digit, LowerCase;
    if width > 0 {
      HexIsLower(width - 1, v / 16);
      DigitIsLower(v % 16);
      LowerSnoc(Hex(width - 1, v / 16), Digit(v % 16));
    }
  }

  lemma LowerSnoc(s: Text, c: byte)
    ensures Lower(s + [c]) == Lower(s) + [LowerCase(c)]
  {
    hide LowerCase;
  }

  lemma {:induction false} HexRoundTrip(width: nat, v: nat)
    requires v < Pow16(width)
    ensures AllHex(Hex(width, v)) && FromHex(Hex(width, v)) == v && Lower(Hex(width, v)) == Hex(width, v)
  {
    hide Value, Digit, LowerCase, Lower;
    HexIsLower(width, v);
    if width > 0 {
      HexRoundTrip(width - 1, v / 16);
      DigitIsLower(v % 16);
      assert Hex(width, v)[..width - 1] == Hex(width - 1, v / 16);
    }
  }

  lemma {:induction false} FromHexRoundTrip(s: Text)
    requires AllHex(s)
    ensures FromHex(s) < Pow16(|s|) && Hex(|s|, FromHex(s)) == Lower(s)
  {
    if s != [] {
      var n := |s| - 1;
      FromHexRoundTrip(s[..n]);
      assert Digit(Value(s[n])) == LowerCase(s[n]);
      assert Lower(s) == Lower(s[..n]) + [LowerCase(s[n])];
    }
  }

  lemma Pow16Values()
    ensures Pow16(16) == TWO_64
  {
    assert Pow16(4) == 0x1_0000;
    assert Pow16(8) == 0x1_0000_0000 by {
      assert Pow16(6) == 0x100_0000;
    }
    assert Pow16(12) == 0x1_0000_0000_0000 by {
      assert Pow16(10) == 0x100_0000_0000;
    }
    assert Pow16(14) == 0x100_0000_0000_0000;
  }

  function IdToHex(id: Id): (s: Text)
    ensures |s| == 32
  {
    Hex(16, id.hi) + Hex(16, id.lo)
  }

  /** `to_string`: the two halves with a colon between them. */
  function IdToString(id: Id): (s: Text)
    ensures |s| == 33
  {
    Hex(16, id.hi) + [0x3A] + Hex(16, id.lo)
  }

  function HexToId(s: Text): Option<Id> {
    if |s| == 32 && AllHex(s) then
      HalfFits(s[..16]);
      HalfFits(s[16..]);
      Some(Id(FromHex(s[..16]), FromHex(s[16..])))
    else None
  }

  lemma HalfFits(s: Text)
    requires |s| == 16 && AllHex(s)
    ensures FromHex(s) < TWO_64
  {
    FromHexRoundTrip(s);
    Pow16Values();
  }

  /** A name is read as an identity exactly when, in lower case, it is how that identity is written. */
  lemma NameExact(s: Text, id: Id)
    ensures HexToId(s) == Some(id) <==> AllHex(s) && Lower(s) == IdToHex(id)
  {
    hide Hex, FromHex, Pow16;
    Pow16Values();
    if |s| == 32 && AllHex(s) {
      FromHexRoundTrip(s[..16]);
      FromHexRoundTrip(s[16..]);
      assert Lower(s) == Lower(s[..16]) + Lower(s[16..]);
      if Lower(s) == IdToHex(id) {
        HexRoundTrip(16, id.hi);
        HexRoundTrip(16, id.lo);
        HexRoundTrip(16, FromHex(s[..16]));
        HexRoundTrip(16, FromHex(s[16..]));
        assert Lower(s[..16]) == IdToHex(id)[..16] == Hex(16, id.hi);
        assert Lower(s[16..]) == IdToHex(id)[16..] == Hex(16, id.lo);
      }
    }
  }

  lemma ToStringInjective(a: Id, b: Id)
    ensures IdToString(a) == IdToString(b) <==> a == b
  {
    hide Hex, FromHex;
    Pow16Values();
    if IdToString(a) == IdToString(b) {
      assert Hex(16, a.hi) == IdToString(a)[..16] == IdToString(b)[..16] == Hex(16, b.hi);
      assert Hex(16, a.lo) == IdToString(a)[17..] == IdToString(b)[17..] == Hex(16, b.lo);
      HexRoundTrip(16, a.hi);
      HexRoundTrip(16, a.lo);
      HexRoundTrip(16, b.hi);
      HexRoundTrip(16, b.lo);
    }
  }

  lemma NoDigits()
    ensures AllHex([]) && FromHex([]) == 0
  {
  }

  lemma HexSnoc(s: Text, c: byte)
    requires AllHex(s) && Value(c) < 16
    ensures AllHex(s + [c]) && FromHex(s + [c]) == FromHex(s) * 16 + Value(c)
  {
    hide Value;
    assert (s + [c])[..|s|] == s;
  }

  /** Sixteen digits, or zero as soon as one of them is not a digit. */
  method ParseHalf(s: Text, off: nat) returns (v: nat)
    requires off + 16 <= |s|
    ensures AllHex(s[off..off + 16]) ==> v == FromHex(s[off..off + 16])
    ensures v < TWO_64
  {
    hide FromHex;
    v := 0;
    assert s[off..off] == [] && FromHex([]) == 0 by {
      NoDigits();
    }
    for i := 0 to 16
      invariant AllHex(s[off..off + i]) && v == FromHex(s[off..off + i])
    {
      var d := Value(s[off + i]);
      if d > 15 {
        assert Value(s[off..off + 16][i]) > 15;
        return 0;
      }
      HexSnoc(s[off..off + i], s[off + i]);
      assert s[off..off + i + 1] == s[off..off + i] + [s[off + i]];
      v := v * 16 + d;
    }
    HalfFits(s[off..off + 16]);
  }

  method ParseName(s: Text) returns (r: Option<Id>)
    ensures r == HexToId(s)
  {
    if |s| != 32 {
      return None;
    }
    var hi := ParseHalf(s, 0);
    var lo := ParseHalf(s, 16);
    for i := 0 to 32
      invariant forall k | 0 <= k < i :: Value(s[k]) < 16
    {
      if Value(s[i]) > 15 {
        return None;
      }
    }
    assert s[0..16] == s[..16] && s[16..32] == s[16..];
    return Some(Id(hi, lo));
  }

  /** `Sha256::hex`. */
  function HexBytes(b: seq<byte>): (s: Text)
    ensures |s| == 2 * |b|
  {
    if b == [] then [] else HexBytes(b[..|b| - 1]) + [Digit(b[|b| - 1] / 16), Digit(b[|b| - 1] % 16)]
  }

  lemma {:induction false} HexBytesInjective(a: seq<byte>, b: seq<byte>)
    ensures HexBytes(a) == HexBytes(b) <==> a == b
  {
    if HexBytes(a) == HexBytes(b) {
      assert |a| == |b|;
      if a != [] {
        var n := |a| - 1;
        var x, y := HexBytes(a), HexBytes(b);
        assert x[..2 * n] == HexBytes(a[..n]) && y[..2 * n] == HexBytes(b[..n]);
        HexBytesInjective(a[..n], b[..n]);
        assert x[2 * n] == y[2 * n] && x[2 * n + 1] == y[2 * n + 1];
        DigitInjective(a[n] / 16, b[n] / 16);
        DigitInjective(a[n] % 16, b[n] % 16);
        assert a == a[..n] + [a[n]] && b == b[..n] + [b[n]];
      }
    }
  }

  lemma DigitInjective(a: nat, b: nat)
    requires a < 16 && b < 16 && Digit(a) == Digit(b)
    ensures a == b
  {
  }
}
