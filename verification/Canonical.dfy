/**
  The typed tag-length-value encoding of include/graphcache/canonical.hpp:
  a field is a 16-bit tag, a 32-bit length and that many payload bytes.
  `Tokens` is what a reader can take from an arbitrary byte string; `Flatten`
  is what a writer produces.
 */
module Canonical {
  import opened Bytes

  datatype Field = Field(tag: u16, data: seq<byte>)

  /** The writer casts the payload length to 32 bits. */
  predicate Fits(f: Field) {
    |f.data| < TWO_32
  }

  ghost predicate AllFit(fs: seq<Field>) {
    forall i | 0 <= i < |fs| :: Fits(fs[i])
  }

  function FieldBytes(f: Field): seq<byte> {
    Be16(f.tag) + Be32(|f.data| % TWO_32) + f.data
  }

  function Flatten(fs: seq<Field>): seq<byte> {
    if fs == [] then [] else FieldBytes(fs[0]) + Flatten(fs[1..])
  }

  /** One call of the reader on the unread suffix. */
  datatype Step = End | Malformed | Item(field: Field, rest: seq<byte>)

  function Next(b: seq<byte>): (s: Step)
    ensures s.Item? ==> |s.rest| < |b|
  {
    if b == [] then End
    else if |b| < 6 then Malformed
    else
      var len := FromBe32(b[2..6]);
      if len > |b| - 6 then Malformed
      else Item(Field(FromBe16(b[..2]), b[6..6 + len]), b[6 + len..])
  }

  /** The fields a reader delivers before it stops, and whether it stopped because the stream is malformed. */
  datatype Tokens = Tokens(fields: seq<Field>, malformed: bool)

  function Tokenize(b: seq<byte>): Tokens
    decreases |b|
  {
    match Next(b)
    case End => Tokens([], false)
    case Malformed => Tokens([], true)
    case Item(f, rest) =>
      var t := Tokenize(rest);
      Tokens([f] + t.fields, t.malformed)
  }

  // ----- the encoding is a bijection -----

  lemma SliceFour(a: seq<byte>, b: seq<byte>, c: seq<byte>, d: seq<byte>)
    ensures
      var s := a + b + c + d;
      && s[..|a|] == a && s[|a|..|a| + |b|] == b
      && s[|a| + |b|..|a| + |b| + |c|] == c && s[|a| + |b| + |c|..] == d
  {
  }

  lemma NextOfField(f: Field, rest: seq<byte>)
    requires Fits(f)
    ensures Next(FieldBytes(f) + rest) == Item(f, rest)
  {
    hide BigEndian, FromBigEndian;
    SliceFour(Be16(f.tag), Be32(|f.data|), f.data, rest);
  }

  lemma FieldOfNext(b: seq<byte>)
    requires Next(b).Item?
    ensures Fits(Next(b).field)
    ensures FieldBytes(Next(b).field) + Next(b).rest == b
  {
    var len := FromBe32(b[2..6]);
    assert b[..2] + b[2..6] + b[6..6 + len] + b[6 + len..] == b;
  }

  /** Reading back what was written gives the fields that were written. */
  lemma {:induction false} TokenizeFlatten(fs: seq<Field>)
    requires AllFit(fs)
    ensures Tokenize(Flatten(fs)) == Tokens(fs, false)
  {
    if fs != [] {
      NextOfField(fs[0], Flatten(fs[1..]));
      TokenizeFlatten(fs[1..]);
      assert [fs[0]] + fs[1..] == fs;
    }
  }

  /** A byte string that reads without error is the encoding of exactly the fields it reads as. */
  lemma {:induction false} FlattenTokenize(b: seq<byte>)
    requires !Tokenize(b).malformed
    ensures AllFit(Tokenize(b).fields)
    ensures Flatten(Tokenize(b).fields) == b
    decreases |b|
  {
    if Next(b).Item? {
      FieldOfNext(b);
      FlattenTokenize(Next(b).rest);
      var t := Tokenize(Next(b).rest);
      assert Tokenize(b).fields[1..] == t.fields;
    }
  }

  lemma FlattenInjective(a: seq<Field>, b: seq<Field>)
    requires AllFit(a) && AllFit(b)
    requires Flatten(a) == Flatten(b)
    ensures a == b
  {
    TokenizeFlatten(a);
    TokenizeFlatten(b);
  }

  lemma {:induction false} FlattenAppend(a: seq<Field>, b: seq<Field>)
    ensures Flatten(a + b) == Flatten(a) + Flatten(b)
  {
    if a == [] {
      assert a + b == b;
    } else {
      calc {
        Flatten(a + b);
        { assert (a + b)[1..] == a[1..] + b; }
        FieldBytes(a[0]) + Flatten(a[1..] + b);
        { FlattenAppend(a[1..], b); }
        FieldBytes(a[0]) + (Flatten(a[1..]) + Flatten(b));
        { AppendAssociative(FieldBytes(a[0]), Flatten(a[1..]), Flatten(b)); }
        Flatten(a) + Flatten(b);
      }
    }
  }

  lemma AppendAssociative<T>(a: seq<T>, b: seq<T>, c: seq<T>)
    ensures a + b + c == a + (b + c)
  {
  }

  lemma SplitAppend<T>(a: seq<T>, b: seq<T>)
    ensures (a + b)[..|a|] == a && (a + b)[|a|..] == b
  {
  }

  lemma AppendCancel<T>(a: seq<T>, b: seq<T>, c: seq<T>, d: seq<T>)
    requires |a| == |c| && a + b == c + d
    ensures a == c && b == d
  {
    assert a == (a + b)[..|a|] && b == (a + b)[|a|..];
    assert c == (c + d)[..|c|] && d == (c + d)[|c|..];
  }

  lemma FlattenSnoc(fs: seq<Field>, f: Field)
    ensures Flatten(fs + [f]) == Flatten(fs) + FieldBytes(f)
  {
    FlattenAppend(fs, [f]);
    assert Flatten([f]) == FieldBytes(f) + Flatten([]);
  }

  // ----- typed payloads -----

  function BoolData(v: bool): seq<byte> {
    if v then [1] else [0]
  }

  function U64sBytes(vs: seq<u64>): (b: seq<byte>)
    ensures |b| == 8 * |vs|
  {
    if vs == [] then [] else Be64(vs[0]) + U64sBytes(vs[1..])
  }

  lemma U64sBytesStep(vs: seq<u64>, i: nat)
    requires i < |vs|
    ensures U64sBytes(vs[i..]) == Be64(vs[i]) + U64sBytes(vs[i + 1..])
  {
    assert vs[i..][1..] == vs[i + 1..];
  }

  /** The payload of `put_u64_list`: a 32-bit count, then the values. */
  function U64ListData(vs: seq<u64>): seq<byte> {
    Be32(|vs| % TWO_32) + U64sBytes(vs)
  }

  function AsU32(data: seq<byte>): Option<u32> {
    if |data| == 4 then Some(FromBe32(data)) else None
  }

  function AsU64(data: seq<byte>): Option<u64> {
    if |data| == 8 then Some(FromBe64(data)) else None
  }

  function AsBool(data: seq<byte>): Option<bool> {
    if data == [] then None else Some(data[0] != 0)
  }

  /** The first `n` 8-byte groups; the caller has checked that they are there. */
  function TakeU64s(b: seq<byte>, n: nat): (vs: seq<u64>)
    requires 8 * n <= |b|
    ensures |vs| == n
  {
    if n == 0 then [] else [FromBe64(b[..8])] + TakeU64s(b[8..], n - 1)
  }

  const MAX_LIST: int := 4096

  /** The bounded list decoder shared by decode_shape and decode_u64_list: bytes past the counted ones are ignored. */
  function AsU64List(data: seq<byte>): Option<seq<u64>> {
    if |data| < 4 then None
    else
      var n := FromBe32(data[..4]);
      if n > MAX_LIST || |data| < 4 + 8 * n then None
      else Some(TakeU64s(data[4..], n))
  }

  lemma {:induction false} TakeU64sOfBytes(vs: seq<u64>)
    ensures TakeU64s(U64sBytes(vs), |vs|) == vs
  {
    if vs != [] {
      SplitAppend(Be64(vs[0]), U64sBytes(vs[1..]));
      TakeU64sOfBytes(vs[1..]);
    }
  }

  lemma U64ListRoundTrip(vs: seq<u64>)
    requires |vs| <= MAX_LIST
    ensures AsU64List(U64ListData(vs)) == Some(vs)
  {
    SplitAppend(Be32(|vs| % TWO_32), U64sBytes(vs));
    TakeU64sOfBytes(vs);
  }

  lemma U64ListInjective(a: seq<u64>, b: seq<u64>)
    requires |a| < TWO_32 && |b| < TWO_32
    requires U64ListData(a) == U64ListData(b)
    ensures a == b
  {
    AppendCancel(Be32(|a| % TWO_32), U64sBytes(a), Be32(|b| % TWO_32), U64sBytes(b));
    TakeU64sOfBytes(a);
    TakeU64sOfBytes(b);
  }

  // ----- records made of optional segments -----

  /** A run of fields that a record writes only under some condition. */
  datatype Seg = Seg(on: bool, fields: seq<Field>)

  function Join(segs: seq<Seg>): seq<Field> {
    if segs == [] then []
    else (if segs[0].on then segs[0].fields else []) + Join(segs[1..])
  }

  /** Leading tags increase, so a leading tag tells which segment comes next. */
  ghost predicate Shaped(a: seq<Seg>) {
    && (forall i | 0 <= i < |a| :: a[i].fields != [])
    && (forall i | 0 <= i < |a| - 1 :: a[i].fields[0].tag < a[i + 1].fields[0].tag)
  }

  ghost predicate SameShape(a: seq<Seg>, b: seq<Seg>) {
    && |a| == |b| && Shaped(a) && Shaped(b)
    && (forall i | 0 <= i < |a| ::
          |a[i].fields| == |b[i].fields| && a[i].fields[0].tag == b[i].fields[0].tag)
  }

  /** A stream that does not start with a tag from `lo` up to `hi`. */
  ghost predicate HeadOutside(rest: seq<Field>, lo: nat, hi: nat) {
    rest == [] || rest[0].tag < lo || hi <= rest[0].tag
  }

  /** All leading tags lie from `lo` up to `hi`. */
  ghost predicate TagsWithin(a: seq<Seg>, lo: nat, hi: nat) {
    forall i | 0 <= i < |a| :: a[i].fields != [] && lo <= a[i].fields[0].tag < hi
  }

  lemma ShapedTail(a: seq<Seg>, hi: nat)
    requires Shaped(a) && a != [] && TagsWithin(a, 0, hi)
    ensures Shaped(a[1..]) && TagsWithin(a[1..], a[0].fields[0].tag + 1, hi)
    decreases |a|
  {
    forall i | 0 <= i < |a[1..]| - 1
      ensures a[1..][i].fields[0].tag < a[1..][i + 1].fields[0].tag
    {
      assert a[i + 1].fields[0].tag < a[i + 1 + 1].fields[0].tag;
    }
    if |a| > 1 {
      ShapedTail(a[1..], hi);
      assert a[0].fields[0].tag < a[0 + 1].fields[0].tag;
      forall i | 0 <= i < |a[1..]|
        ensures a[1..][i].fields != [] && a[0].fields[0].tag + 1 <= a[1..][i].fields[0].tag < hi
      {
        assert i > 0 ==> a[1..][1..][i - 1] == a[1..][i];
      }
    }
  }

  /** The same segments are present, and the present ones are equal. */
  ghost predicate Agree(a: seq<Seg>, b: seq<Seg>) {
    && |a| == |b|
    && (forall i | 0 <= i < |a| :: a[i].on == b[i].on && (a[i].on ==> a[i].fields == b[i].fields))
  }

  lemma AgreeCons(a: seq<Seg>, b: seq<Seg>)
    requires |a| == |b| && a != [] && Agree(a[1..], b[1..])
    requires a[0].on == b[0].on && (a[0].on ==> a[0].fields == b[0].fields)
    ensures Agree(a, b)
  {
    forall i | 0 <= i < |a|
      ensures a[i].on == b[i].on && (a[i].on ==> a[i].fields == b[i].fields)
    {
      if i > 0 {
        assert a[1..][i - 1] == a[i] && b[1..][i - 1] == b[i];
      }
    }
  }

  lemma SameHeadPresence(a: Seg, ta: seq<Field>, b: Seg, tb: seq<Field>)
    requires a.fields != [] && b.fields != [] && a.fields[0].tag == b.fields[0].tag
    requires ta == [] || ta[0].tag != a.fields[0].tag
    requires tb == [] || tb[0].tag != a.fields[0].tag
    requires (if a.on then a.fields else []) + ta == (if b.on then b.fields else []) + tb
    ensures a.on == b.on
  {
    var whole := (if a.on then a.fields else []) + ta;
    if a.on {
      assert whole[0] == a.fields[0];
    } else {
      assert whole == ta;
    }
    if b.on {
      assert whole[0] == b.fields[0];
    } else {
      assert whole == tb;
    }
  }

  lemma {:induction false} HeadOfJoin(a: seq<Seg>, rest: seq<Field>, lo: nat, hi: nat)
    requires TagsWithin(a, hi, 0x1_0000) && HeadOutside(rest, lo, hi) && lo <= hi
    ensures HeadOutside(Join(a) + rest, lo, hi)
  {
    if a != [] {
      if a[0].on {
        assert (Join(a) + rest)[0] == a[0].fields[0];
      } else {
        assert Join(a) == Join(a[1..]);
        HeadOfJoin(a[1..], rest, lo, hi);
      }
    } else {
      assert Join(a) + rest == rest;
    }
  }

  /**
    Records written flat, with no enclosing length, are still uniquely readable:
    equal streams have the same segments present, with the same fields.
   */
  lemma {:induction false} JoinCancel(a: seq<Seg>, ra: seq<Field>, b: seq<Seg>, rb: seq<Field>, lo: nat, hi: nat)
    requires SameShape(a, b) && TagsWithin(a, lo, hi) && TagsWithin(b, lo, hi) && lo <= hi <= 0x1_0000
    requires HeadOutside(ra, lo, hi) && HeadOutside(rb, lo, hi)
    requires Join(a) + ra == Join(b) + rb
    ensures ra == rb
    ensures Agree(a, b)
  {
    if a == [] {
      assert Join(a) + ra == ra && Join(b) + rb == rb;
    } else {
      var tag: nat := a[0].fields[0].tag;
      var ta, tb := Join(a[1..]) + ra, Join(b[1..]) + rb;
      var ha := if a[0].on then a[0].fields else [];
      var hb := if b[0].on then b[0].fields else [];
      AppendAssociative(ha, Join(a[1..]), ra);
      AppendAssociative(hb, Join(b[1..]), rb);
      ShapedTail(a, hi);
      ShapedTail(b, hi);
      HeadOfJoin(a[1..], ra, tag, tag + 1);
      HeadOfJoin(b[1..], rb, tag, tag + 1);
      SameHeadPresence(a[0], ta, b[0], tb);
      AppendCancel(ha, ta, hb, tb);
      SameShapeTail(a, b);
      JoinCancel(a[1..], ra, b[1..], rb, tag + 1, hi);
      AgreeCons(a, b);
    }
  }

  lemma SameShapeTail(a: seq<Seg>, b: seq<Seg>)
    requires SameShape(a, b) && a != [] && Shaped(a[1..]) && Shaped(b[1..])
    ensures SameShape(a[1..], b[1..])
  {
  }

  lemma AllFitAppend(a: seq<Field>, b: seq<Field>)
    ensures AllFit(a + b) <==> AllFit(a) && AllFit(b)
  {
    if AllFit(a + b) {
      forall i | 0 <= i < |a| ensures Fits(a[i]) { assert (a + b)[i] == a[i]; }
      forall i | 0 <= i < |b| ensures Fits(b[i]) { assert (a + b)[|a| + i] == b[i]; }
    }
  }

  lemma {:induction false} AllFitJoin(a: seq<Seg>)
    requires forall i | 0 <= i < |a| :: a[i].on ==> AllFit(a[i].fields)
    ensures AllFit(Join(a))
  {
    if a != [] {
      AllFitJoin(a[1..]);
      AllFitAppend(if a[0].on then a[0].fields else [], Join(a[1..]));
    }
  }

  // ----- the writer and the reader as the code has them -----

  class CanonicalWriter {
    var buf: seq<byte>
    ghost var fields: seq<Field>

    ghost predicate Valid()
      reads this
    {
      buf == Flatten(fields)
    }

    constructor ()
      ensures Valid() && fields == []
    {
      buf, fields := [], [];
    }

    method PutBytes(tag: u16, data: seq<byte>)
      requires Valid()
      modifies this
      ensures Valid() && fields == old(fields) + [Field(tag, data)]
    {
      FlattenSnoc(fields, Field(tag, data));
      buf := buf + (Be16(tag) + Be32(|data| % TWO_32) + data);
      fields := fields + [Field(tag, data)];
    }

    method PutU32(tag: u16, v: u32)
      requires Valid()
      modifies this
      ensures Valid() && fields == old(fields) + [Field(tag, Be32(v))]
    {
      PutBytes(tag, Be32(v));
    }

    method PutU64(tag: u16, v: u64)
      requires Valid()
      modifies this
      ensures Valid() && fields == old(fields) + [Field(tag, Be64(v))]
    {
      PutBytes(tag, Be64(v));
    }

    method PutBool(tag: u16, v: bool)
      requires Valid()
      modifies this
      ensures Valid() && fields == old(fields) + [Field(tag, BoolData(v))]
    {
      PutBytes(tag, if v then [1] else [0]);
    }

    /** Appends the count and then each value, as the loop in `put_u64_list` does. */
    method PutU64List(tag: u16, vs: seq<u64>)
      requires Valid()
      modifies this
      ensures Valid() && fields == old(fields) + [Field(tag, U64ListData(vs))]
    {
      var data := Be32(|vs| % TWO_32);
      for i := 0 to |vs|
        invariant data + U64sBytes(vs[i..]) == U64ListData(vs)
        invariant unchanged(this)
      {
        U64sBytesStep(vs, i);
        AppendAssociative(data, Be64(vs[i]), U64sBytes(vs[i + 1..]));
        data := data + Be64(vs[i]);
      }
      assert U64sBytes(vs[|vs|..]) == [] && data == U64ListData(vs);
      PutBytes(tag, data);
    }
  }

  lemma SliceOfSuffix<T>(s: seq<T>, off: nat, i: nat, j: nat)
    requires i <= j && off + j <= |s|
    ensures s[off..][i..j] == s[off + i..off + j] && s[off..][j..] == s[off + j..]
  {
  }

  class CanonicalReader {
    const data: seq<byte>
    var off: nat
    var malformed: bool

    ghost predicate Valid()
      reads this
    {
      off <= |data|
    }

    /** What can still be read. A reader that has failed delivers nothing more. */
    ghost function Unread(): Tokens
      requires Valid()
      reads this
    {
      if malformed then Tokens([], true) else Tokenize(data[off..])
    }

    constructor (data: seq<byte>)
      ensures Valid() && this.data == data && !malformed && Unread() == Tokenize(data)
    {
      this.data := data;
      off := 0;
      malformed := false;
      new;
      assert data[0..] == data;
    }

    /** Each successful call delivers the next token; the first failing call leaves the stream's verdict in `malformed`. */
    method Advance() returns (ok: bool, tag: u16, payload: seq<byte>)
      requires Valid() && !malformed
      modifies this
      ensures Valid() && off >= old(off)
      ensures ok == (old(Unread()).fields != [])
      ensures ok ==> old(Unread()).fields[0] == Field(tag, payload)
      ensures ok ==> !malformed && Unread().fields == old(Unread()).fields[1..]
      ensures ok ==> Unread().malformed == old(Unread()).malformed && off > old(off)
      ensures !ok ==> malformed == old(Unread()).malformed
    {
      ok, tag, payload := false, 0, [];
      if off == |data| {
        return;
      }
      if |data| - off < 6 {
        malformed := true;
        return;
      }
      ghost var from := off;
      SliceOfSuffix(data, off, 0, 2);
      SliceOfSuffix(data, off, 2, 6);
      tag := FromBe16(data[off..off + 2]);
      var len := FromBe32(data[off + 2..off + 6]);
      off := off + 6;
      if len > |data| - off {
        malformed := true;
        return;
      }
      payload := data[off..off + len];
      SliceOfSuffix(data, from, 6, 6 + len);
      off := off + len;
      ok := true;
    }
  }
}
