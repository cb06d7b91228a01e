/**
  `decide_compatibility` compares dependencies by the joined string
  name|generation|digest. When that string identifies a dependency, and when
  it does not.
 */
module DependencyKeys {
  import opened Bytes
  import opened Canonical
  import opened Descriptors
  import opened Facts
  import opened Decide

  function Joined(name: Text, generation: u64, digest: Text): Text {
    name + [BAR] + Decimal(generation) + [BAR] + digest
  }

  lemma DecimalHasNoBar(n: nat)
    ensures BAR !in Decimal(n)
  {
  }

  lemma {:induction false} DecimalInjective(a: nat, b: nat)
    requires Decimal(a) == Decimal(b)
    ensures a == b
  {
    var x, y := Decimal(a), Decimal(b);
    if a >= 10 && b >= 10 {
      assert x[..|x| - 1] == Decimal(a / 10) && y[..|y| - 1] == Decimal(b / 10);
      DecimalInjective(a / 10, b / 10);
      assert x[|x| - 1] == y[|y| - 1];
    } else {
      assert x[0] == y[0];
      assert a >= 10 ==> |x| >= 2;
      assert b >= 10 ==> |y| >= 2;
    }
  }

  function FirstBar(s: Text): nat {
    if s == [] || s[0] == BAR then 0 else 1 + FirstBar(s[1..])
  }

  lemma {:induction false} FirstBarAt(a: Text, x: Text)
    requires BAR !in a
    ensures FirstBar(a + [BAR] + x) == |a|
  {
    if a == [] {
      assert (a + [BAR] + x)[0] == BAR;
    } else {
      assert (a + [BAR] + x)[0] == a[0] && (a + [BAR] + x)[1..] == a[1..] + [BAR] + x;
      FirstBarAt(a[1..], x);
    }
  }

  lemma {:induction false} FirstBarAtMost(s: Text, i: nat)
    requires i < |s| && s[i] == BAR
    ensures FirstBar(s) <= i
  {
    if i > 0 && s[0] != BAR {
      FirstBarAtMost(s[1..], i - 1);
    }
  }

  /** Text up to the first bar can be cut off in one way only. */
  lemma CutAtBar(a: Text, x: Text, b: Text, y: Text)
    requires BAR !in a && BAR !in b
    requires a + [BAR] + x == b + [BAR] + y
    ensures a == b && x == y
  {
    var s := a + [BAR] + x;
    FirstBarAt(a, x);
    FirstBarAt(b, y);
    assert a == s[..|a|] == b;
    assert x == s[|a| + 1..] == y;
  }

  /** One name: the string determines generation and digest. */
  lemma SameNameKeys(name: Text, g: u64, d: Text, g': u64, d': Text)
    ensures Joined(name, g, d) == Joined(name, g', d') <==> g == g' && d == d'
  {
    if Joined(name, g, d) == Joined(name, g', d') {
      var tail, tail' := Decimal(g) + [BAR] + d, Decimal(g') + [BAR] + d';
      assert Joined(name, g, d) == (name + [BAR]) + tail;
      assert Joined(name, g', d') == (name + [BAR]) + tail';
      AppendCancel(name + [BAR], tail, name + [BAR], tail');
      DecimalHasNoBar(g);
      DecimalHasNoBar(g');
      CutAtBar(Decimal(g), d, Decimal(g'), d');
      DecimalInjective(g, g');
    }
  }

  /** `longer` is `shorter` with a generation, and perhaps more, written after a bar. */
  ghost predicate Extends(shorter: Text, longer: Text) {
    exists g: u64, t: Text :: IsExtension(shorter, longer, g, t)
  }

  predicate IsExtension(shorter: Text, longer: Text, g: u64, t: Text) {
    longer == shorter + [BAR] + Decimal(g) + t && (t == [] || t[0] == BAR)
  }

  lemma CollisionMeansExtension(n: Text, g: u64, d: Text, m: Text, h: u64, e: Text)
    requires Joined(n, g, d) == Joined(m, h, e) && |n| < |m|
    ensures Extends(n, m)
  {
    hide Decimal;
    var s := Joined(n, g, d);
    assert s[..|n|] == n && s[..|m|] == m;
    assert s[|n|] == BAR == m[|n|];
    var r := m[|n| + 1..];
    assert m == n + [BAR] + r;
    var left, right := Decimal(g) + [BAR] + d, r + [BAR] + (Decimal(h) + [BAR] + e);
    assert s == (n + [BAR]) + left;
    assert s == (n + [BAR]) + right;
    AppendCancel(n + [BAR], left, n + [BAR], right);
    DecimalHasNoBar(g);
    var k := |Decimal(g)|;
    assert left[k] == BAR;
    FirstBarAt(Decimal(g), d);
    assert right[|r|] == BAR;
    FirstBarAtMost(right, |r|);
    assert r[..k] == left[..k] == Decimal(g);
    var t := r[k..];
    assert t != [] ==> t[0] == right[k];
    assert m == n + [BAR] + Decimal(g) + t;
    assert IsExtension(n, m, g, t);
  }

  lemma ExtensionCollides(n: Text, m: Text) returns (g: u64, d: Text, h: u64, e: Text)
    requires Extends(n, m)
    ensures Joined(n, g, d) == Joined(m, h, e)
  {
    var g', t :| IsExtension(n, m, g', t);
    g, h, e := g', 0, [];
    var tail := [BAR] + Decimal(0) + [BAR];
    if t == [] {
      d := Decimal(0) + [BAR];
      assert Joined(m, h, e) == n + [BAR] + Decimal(g) + tail;
      assert Joined(n, g, d) == n + [BAR] + Decimal(g) + tail;
    } else {
      d := t[1..] + tail;
      assert [BAR] + d == t + tail;
      assert Joined(n, g, d) == n + [BAR] + Decimal(g) + (t + tail);
      assert Joined(m, h, e) == n + [BAR] + Decimal(g) + (t + tail);
    }
  }

  /**
    Two different names can be confused, under some generations and digests,
    exactly when one extends the other by a bar and a decimal number.
   */
  lemma NamesConfusedExactly(n: Text, m: Text)
    requires n != m
    ensures (exists g: u64, d: Text, h: u64, e: Text :: Joined(n, g, d) == Joined(m, h, e)) <==>
            Extends(n, m) || Extends(m, n)
  {
    hide Joined, Extends;
    if exists g: u64, d: Text, h: u64, e: Text :: Joined(n, g, d) == Joined(m, h, e) {
      var g: u64, d: Text, h: u64, e: Text :| Joined(n, g, d) == Joined(m, h, e);
      if |n| < |m| {
        CollisionMeansExtension(n, g, d, m, h, e);
      } else if |m| < |n| {
        CollisionMeansExtension(m, h, e, n, g, d);
      } else {
        SameLengthNames(n, g, d, m, h, e);
      }
    }
    if Extends(n, m) {
      var g, d, h, e := ExtensionCollides(n, m);
    }
    if Extends(m, n) {
      var h, e, g, d := ExtensionCollides(m, n);
      assert Joined(n, g, d) == Joined(m, h, e);
    }
  }

  lemma SameLengthNames(n: Text, g: u64, d: Text, m: Text, h: u64, e: Text)
    requires Joined(n, g, d) == Joined(m, h, e) && |n| == |m|
    ensures n == m
  {
    assert Joined(n, g, d)[..|n|] == n && Joined(m, h, e)[..|m|] == m;
  }

  /** Some dependency of `ks` that counts has this name, generation and digest. */
  ghost predicate Supplies(ks: seq<KernelRef>, k: KernelRef) {
    exists i :: 0 <= i < |ks| && ks[i].contributes && ks[i].name == k.name && ks[i].generation == k.generation
                && ks[i].digest == k.digest
  }

  /** Different names, one of which extends the other by a bar and a decimal number. */
  ghost predicate Confusable(n: Text, m: Text) {
    n != m && (Extends(n, m) || Extends(m, n))
  }

  /** Every dependency of `c` that counts is supplied by `q`: what the check is for. */
  ghost predicate AllSupplied(q: seq<KernelRef>, c: seq<KernelRef>) {
    forall j | 0 <= j < |c| && c[j].contributes :: Supplies(q, c[j])
  }

  /** No counting name of the request is confusable with one of the candidate. */
  ghost predicate Apart(q: seq<KernelRef>, c: seq<KernelRef>) {
    forall i, j | 0 <= i < |q| && 0 <= j < |c| && q[i].contributes && c[j].contributes :: !Confusable(q[i].name, c[j].name)
  }

  lemma KeysOfApartNames(a: KernelRef, b: KernelRef)
    requires !Confusable(a.name, b.name)
    ensures DependencyKey(a) == DependencyKey(b) <==> a.name == b.name && a.generation == b.generation && a.digest == b.digest
  {
    hide Decimal, Extends;
    assert DependencyKey(a) == Joined(a.name, a.generation, a.digest) && DependencyKey(b) == Joined(b.name, b.generation, b.digest);
    if a.name == b.name {
      SameNameKeys(a.name, a.generation, a.digest, b.generation, b.digest);
    } else {
      NamesConfusedExactly(a.name, b.name);
    }
  }

  lemma KeyPresence(ks: seq<KernelRef>, k: KernelRef)
    requires forall i | 0 <= i < |ks| && ks[i].contributes :: !Confusable(ks[i].name, k.name)
    ensures DependencyKey(k) in CorrectnessKeys(ks) <==> Supplies(ks, k)
  {
    hide DependencyKey, Confusable;
    forall i | 0 <= i < |ks| && ks[i].contributes
      ensures DependencyKey(ks[i]) == DependencyKey(k) <==>
              ks[i].name == k.name && ks[i].generation == k.generation && ks[i].digest == k.digest
    {
      KeysOfApartNames(ks[i], k);
    }
  }

  lemma KeysMeanSupply(q: seq<KernelRef>, c: seq<KernelRef>)
    requires Apart(q, c)
    ensures CorrectnessKeys(c) <= CorrectnessKeys(q) <==> AllSupplied(q, c)
  {
    hide Supplies, DependencyKey, Confusable;
    forall j | 0 <= j < |c| && c[j].contributes
      ensures DependencyKey(c[j]) in CorrectnessKeys(q) <==> Supplies(q, c[j])
    {
      KeyPresence(q, c[j]);
    }
  }

  /** Unless names are confusable, the comparison is the intended one. */
  lemma DependencyCheckSound(q: Facts, c: Facts, p: Policy)
    requires Apart(q.dependencies, c.dependencies)
    ensures DependenciesDiffer(q, c, p) <==> p.exactDependencies && !AllSupplied(q.dependencies, c.dependencies)
  {
    hide CorrectnessKeys, Apart, AllSupplied;
    KeysMeanSupply(q.dependencies, c.dependencies);
  }

  ghost predicate NamesIn(ks: seq<KernelRef>, names: set<Text>) {
    forall i | 0 <= i < |ks| && ks[i].contributes :: ks[i].name in names
  }

  /** The check decides as intended for all dependencies with these names, whatever their generations and digests. */
  ghost predicate CheckIsRight(qs: set<Text>, cs: set<Text>) {
    forall q, c | NamesIn(q, qs) && NamesIn(c, cs) :: CorrectnessKeys(c) <= CorrectnessKeys(q) <==> AllSupplied(q, c)
  }

  /** And it does so exactly when no name a request may use is confusable with one a candidate may use. */
  lemma DependencyCheckExactly(qs: set<Text>, cs: set<Text>)
    ensures CheckIsRight(qs, cs) <==> forall n, m | n in qs && m in cs :: !Confusable(n, m)
  {
    hide Confusable, AllSupplied, CorrectnessKeys;
    if n, m :| n in qs && m in cs && Confusable(n, m) {
      var q, c := ConfusedPair(n, m);
      assert NamesIn(q, qs) && NamesIn(c, cs);
    } else {
      forall q, c | NamesIn(q, qs) && NamesIn(c, cs)
        ensures CorrectnessKeys(c) <= CorrectnessKeys(q) <==> AllSupplied(q, c)
      {
        KeysMeanSupply(q, c);
      }
    }
  }

  /** For confusable names there are generations and digests with which an unsupplied dependency passes. */
  lemma ConfusedPair(n: Text, m: Text) returns (q: seq<KernelRef>, c: seq<KernelRef>)
    requires Confusable(n, m)
    ensures |q| == 1 && |c| == 1 && q[0].name == n && c[0].name == m && q[0].contributes && c[0].contributes
    ensures CorrectnessKeys(c) <= CorrectnessKeys(q) && !AllSupplied(q, c)
  {
    hide Decimal, Extends;
    NamesConfusedExactly(n, m);
    var g: u64, d: Text, h: u64, e: Text :| Joined(n, g, d) == Joined(m, h, e);
    q, c := [KernelRef(n, 0, 0, g, 1, d, [], true)], [KernelRef(m, 0, 0, h, 1, e, [], true)];
    assert DependencyKey(q[0]) == Joined(n, g, d) && DependencyKey(c[0]) == Joined(m, h, e);
    assert forall k | k in CorrectnessKeys(c) :: k == DependencyKey(c[0]);
    assert DependencyKey(q[0]) in CorrectnessKeys(q);
    assert !Supplies(q, c[0]);
  }

  /** Without that, a candidate dependency nobody supplies can pass: a|1 at generation 2 reads like a at generation 1. */
  lemma DependencyCheckConfused() returns (q: seq<KernelRef>, c: seq<KernelRef>)
    ensures CorrectnessKeys(c) <= CorrectnessKeys(q)
    ensures |c| == 1 && c[0].contributes && !Supplies(q, c[0])
  {
    var a, one: byte, two: byte, x := 0x61, 0x31, 0x32, 0x78;
    q := [KernelRef([a], 0, 0, 1, 1, [two, BAR, x], [], true)];
    c := [KernelRef([a, BAR, one], 0, 0, 2, 1, [x], [], true)];
    assert Decimal(1) == [one] && Decimal(2) == [two];
    assert DependencyKey(q[0]) == [a, BAR, one, BAR, two, BAR, x] == DependencyKey(c[0]);
    assert forall k | k in CorrectnessKeys(c) :: k == DependencyKey(c[0]);
    assert DependencyKey(q[0]) in CorrectnessKeys(q);
  }
}
