/**
  Strict reading of a field stream: each step demands the next tag, as the
  decoders of src/compatibility.cpp and src/serialization.cpp do.
 */
module Records {
  import opened Bytes
  import opened Canonical

  datatype Parsed<+T> = Fail | Got(value: T, rest: seq<Field>) {
    predicate IsFailure() {
      Fail?
    }

    function PropagateFailure<U>(): Parsed<U>
      requires Fail?
    {
      Fail
    }

    function Extract(): (T, seq<Field>)
      requires Got?
    {
      (value, rest)
    }
  }

  function Take(tag: u16, fs: seq<Field>): Parsed<seq<byte>> {
    if fs != [] && fs[0].tag == tag then Got(fs[0].data, fs[1..]) else Fail
  }

  function TakeU32(tag: u16, fs: seq<Field>): Parsed<u32> {
    var (data, rest) :- Take(tag, fs);
    match AsU32(data)
    case None => Fail
    case Some(v) => Got(v, rest)
  }

  function TakeU64(tag: u16, fs: seq<Field>): Parsed<u64> {
    var (data, rest) :- Take(tag, fs);
    match AsU64(data)
    case None => Fail
    case Some(v) => Got(v, rest)
  }

  /** A flag is its first byte; an empty payload is refused. */
  function TakeBool(tag: u16, fs: seq<Field>): Parsed<bool> {
    var (data, rest) :- Take(tag, fs);
    match AsBool(data)
    case None => Fail
    case Some(v) => Got(v, rest)
  }

  /** `n` fields of one tag. */
  function TakeItems(tag: u16, n: nat, fs: seq<Field>): Parsed<seq<seq<byte>>> {
    if n == 0 then Got([], fs)
    else
      var (data, rest) :- Take(tag, fs);
      var (more, rest') :- TakeItems(tag, n - 1, rest);
      Got([data] + more, rest')
  }

  /** A count, bounded by `limit`, and that many items. */
  function TakeCounted(countTag: u16, tag: u16, limit: nat, fs: seq<Field>): Parsed<seq<seq<byte>>> {
    var (n, rest) :- TakeU32(countTag, fs);
    if n > limit then Fail else TakeItems(tag, n, rest)
  }

  function ItemFields(tag: u16, items: seq<seq<byte>>): (fs: seq<Field>)
    ensures |fs| == |items|
    ensures forall i | 0 <= i < |items| :: fs[i] == Field(tag, items[i])
  {
    seq(|items|, i requires 0 <= i < |items| => Field(tag, items[i]))
  }

  function CountedFields(countTag: u16, tag: u16, items: seq<seq<byte>>): seq<Field> {
    [Field(countTag, Be32(|items| % TWO_32))] + ItemFields(tag, items)
  }

  lemma TakeFirst(f: Field, rest: seq<Field>)
    ensures Take(f.tag, [f] + rest) == Got(f.data, rest)
    ensures forall t | t != f.tag :: Take(t, [f] + rest) == Fail
  {
  }

  lemma {:induction false} TakeItemsBack(tag: u16, items: seq<seq<byte>>, rest: seq<Field>)
    ensures TakeItems(tag, |items|, ItemFields(tag, items) + rest) == Got(items, rest)
  {
    var fs := ItemFields(tag, items) + rest;
    if items == [] {
      assert fs == rest;
    } else {
      assert fs[1..] == ItemFields(tag, items[1..]) + rest;
      TakeItemsBack(tag, items[1..], rest);
      assert [items[0]] + items[1..] == items;
    }
  }

  /** A counted list reads back exactly when it respects the limit. */
  lemma TakeCountedBack(countTag: u16, tag: u16, limit: nat, items: seq<seq<byte>>, rest: seq<Field>)
    requires |items| < TWO_32
    ensures TakeCounted(countTag, tag, limit, CountedFields(countTag, tag, items) + rest) ==
              if |items| <= limit then Got(items, rest) else Fail
  {
    hide TakeItems, ItemFields, BigEndian, FromBigEndian;
    var head := Field(countTag, Be32(|items| % TWO_32));
    AppendAssociative([head], ItemFields(tag, items), rest);
    TakeFirst(head, ItemFields(tag, items) + rest);
    TakeItemsBack(tag, items, rest);
  }

  // ----- lists of decoded items -----

  function DecodeAll<T>(decode: seq<byte> -> Option<T>, items: seq<seq<byte>>): Option<seq<T>> {
    if items == [] then Some([])
    else
      var x :- decode(items[0]);
      var more :- DecodeAll(decode, items[1..]);
      Some([x] + more)
  }

  function TakeList<T>(countTag: u16, tag: u16, limit: nat, decode: seq<byte> -> Option<T>, fs: seq<Field>): Parsed<seq<T>> {
    var (items, rest) :- TakeCounted(countTag, tag, limit, fs);
    match DecodeAll(decode, items)
    case None => Fail
    case Some(vs) => Got(vs, rest)
  }

  lemma TakeListBack<T>(countTag: u16, tag: u16, limit: nat, decode: seq<byte> -> Option<T>, items: seq<seq<byte>>, rest: seq<Field>)
    requires |items| < TWO_32
    ensures TakeList(countTag, tag, limit, decode, CountedFields(countTag, tag, items) + rest) ==
              if |items| > limit || DecodeAll(decode, items).None? then Fail else Got(DecodeAll(decode, items).value, rest)
  {
    hide TakeCounted, CountedFields;
    TakeCountedBack(countTag, tag, limit, items, rest);
  }

  // ----- sizes -----

  lemma {:induction false} FieldsFitBySize(fs: seq<Field>)
    requires |Flatten(fs)| < TWO_32
    ensures AllFit(fs)
    ensures |fs| <= |Flatten(fs)|
  {
    hide BigEndian;
    if fs != [] {
      assert |Flatten(fs)| == |FieldBytes(fs[0])| + |Flatten(fs[1..])|;
      FieldsFitBySize(fs[1..]);
      assert fs == [fs[0]] + fs[1..];
    }
  }
}
