/**
  The order on 128-bit identities that topology.cpp and cpu_backend.cpp sort
  by, and sorting by it.
 */
module IdOrder {
  import opened Bytes
  import opened Descriptors

  predicate Less(a: Id, b: Id) {
    if a.hi != b.hi then a.hi < b.hi else a.lo < b.lo
  }

  predicate AtMost(a: Id, b: Id) {
    a == b || Less(a, b)
  }

  /** The 128-bit number that an identity is. */
  function Number(a: Id): nat {
    (a.hi as int) * TWO_64 + a.lo
  }

  /** Identities are ordered as the numbers they are. */
  lemma LessIsNumber(a: Id, b: Id)
    ensures Less(a, b) <==> Number(a) < Number(b)
    ensures a == b <==> Number(a) == Number(b)
  {
    if a.hi < b.hi {
      assert a.hi + 1 <= b.hi;
    } else if b.hi < a.hi {
      assert b.hi + 1 <= a.hi;
    }
  }

  ghost predicate Sorted<T>(s: seq<T>, key: T -> Id) {
    forall i, j | 0 <= i < j < |s| :: AtMost(key(s[i]), key(s[j]))
  }

  ghost predicate DistinctKeys<T, K>(s: seq<T>, key: T -> K) {
    forall i, j | 0 <= i < j < |s| :: key(s[i]) != key(s[j])
  }

  function Insert<T>(x: T, s: seq<T>, key: T -> Id): seq<T> {
    if s == [] || AtMost(key(x), key(s[0])) then [x] + s
    else [s[0]] + Insert(x, s[1..], key)
  }

  /** `std::sort` by identity. */
  function Sort<T>(s: seq<T>, key: T -> Id): seq<T> {
    if s == [] then [] else Insert(s[0], Sort(s[1..], key), key)
  }

  lemma {:induction false} InsertProperties<T>(x: T, s: seq<T>, key: T -> Id)
    requires Sorted(s, key)
    ensures Sorted(Insert(x, s, key), key)
    ensures multiset(Insert(x, s, key)) == multiset(s) + multiset{x}
  {
    if s == [] || AtMost(key(x), key(s[0])) {
      assert Insert(x, s, key) == [x] + s;
    } else {
      var t := Insert(x, s[1..], key);
      InsertProperties(x, s[1..], key);
      assert s == [s[0]] + s[1..];
      forall j | 0 <= j < |t|
        ensures AtMost(key(s[0]), key(t[j]))
      {
        assert t[j] in multiset(t);
        assert t[j] == x || t[j] in s[1..];
      }
    }
  }

  lemma {:induction false} SortProperties<T>(s: seq<T>, key: T -> Id)
    ensures Sorted(Sort(s, key), key)
    ensures multiset(Sort(s, key)) == multiset(s)
    ensures |Sort(s, key)| == |s|
  {
    if s != [] {
      SortProperties(s[1..], key);
      InsertProperties(s[0], Sort(s[1..], key), key);
      assert s == [s[0]] + s[1..];
    }
    assert |multiset(Sort(s, key))| == |Sort(s, key)|;
  }

  lemma WithoutHead<T>(s: seq<T>)
    requires s != []
    ensures multiset(s[1..]) == multiset(s) - multiset{s[0]}
  {
    assert s == [s[0]] + s[1..];
  }

  lemma WithoutIndex<T>(s: seq<T>, i: nat)
    requires i < |s|
    ensures multiset(s[..i] + s[i + 1..]) == multiset(s) - multiset{s[i]}
  {
    assert s == s[..i] + [s[i]] + s[i + 1..];
  }

  lemma SameLength<T>(a: seq<T>, b: seq<T>)
    requires multiset(a) == multiset(b)
    ensures |a| == |b|
  {
    assert |multiset(a)| == |a| && |multiset(b)| == |b|;
  }

  lemma IndexOf<T>(x: T, s: seq<T>) returns (i: nat)
    requires x in multiset(s)
    ensures i < |s| && s[i] == x
  {
    assert x in s;
    i :| i < |s| && s[i] == x;
  }

  lemma SameHead<T>(a: seq<T>, b: seq<T>, key: T -> Id)
    requires Sorted(a, key) && Sorted(b, key) && DistinctKeys(a, key)
    requires multiset(a) == multiset(b) && a != [] && b != []
    ensures a[0] == b[0]
  {
    assert a[0] in multiset(a) && b[0] in multiset(b);
    var i := IndexOf(a[0], b);
    var j := IndexOf(b[0], a);
    assert AtMost(key(a[0]), key(b[0])) && AtMost(key(b[0]), key(a[0]));
  }

  /** A multiset has at most one listing in strictly increasing order. */
  lemma {:induction false} SortedIsUnique<T>(a: seq<T>, b: seq<T>, key: T -> Id)
    requires Sorted(a, key) && Sorted(b, key)
    requires multiset(a) == multiset(b)
    requires DistinctKeys(a, key)
    ensures a == b
  {
    SameLength(a, b);
    if a != [] {
      SameHead(a, b, key);
      WithoutHead(a);
      WithoutHead(b);
      SortedIsUnique(a[1..], b[1..], key);
      assert a == [a[0]] + a[1..] && b == [b[0]] + b[1..];
    }
  }

  lemma {:induction false} DistinctKeysOfPermutation<T, K>(a: seq<T>, b: seq<T>, key: T -> K)
    requires multiset(a) == multiset(b)
    requires DistinctKeys(a, key)
    ensures DistinctKeys(b, key)
    decreases |a|
  {
    SameLength(a, b);
    if b != [] {
      assert b[0] in multiset(b);
      var i := IndexOf(b[0], a);
      var rest := a[..i] + a[i + 1..];
      WithoutIndex(a, i);
      WithoutHead(b);
      assert DistinctKeys(rest, key);
      DistinctKeysOfPermutation(rest, b[1..], key);
      forall j | 1 <= j < |b|
        ensures key(b[0]) != key(b[j])
      {
        assert b[1..][j - 1] in multiset(b[1..]);
        var k := IndexOf(b[j], rest);
        assert rest[k] == if k < i then a[k] else a[k + 1];
      }
      DistinctKeysCons(b, key);
    }
  }

  lemma DistinctKeysCons<T, K>(b: seq<T>, key: T -> K)
    requires b != [] && DistinctKeys(b[1..], key)
    requires forall j | 1 <= j < |b| :: key(b[0]) != key(b[j])
    ensures DistinctKeys(b, key)
  {
    forall i, j | 0 <= i < j < |b|
      ensures key(b[i]) != key(b[j])
    {
      if i > 0 {
        assert b[1..][i - 1] == b[i] && b[1..][j - 1] == b[j];
      }
    }
  }

  /** Sorting forgets the listing order. */
  lemma SortOfPermutation<T>(a: seq<T>, b: seq<T>, key: T -> Id)
    requires multiset(a) == multiset(b)
    requires DistinctKeys(a, key)
    ensures Sort(a, key) == Sort(b, key)
  {
    SortProperties(a, key);
    SortProperties(b, key);
    DistinctKeysOfPermutation(a, Sort(a, key), key);
    SortedIsUnique(Sort(a, key), Sort(b, key), key);
  }

  lemma SortIdempotent<T>(a: seq<T>, key: T -> Id)
    requires Sorted(a, key) && DistinctKeys(a, key)
    ensures Sort(a, key) == a
  {
    SortProperties(a, key);
    SortedIsUnique(a, Sort(a, key), key);
  }
}
