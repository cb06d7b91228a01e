/**
  The constants of SHA-256 from the primes: section 4.2.2 of FIPS 180-4 takes
  the first thirty-two bits of the fractional parts of the cube roots of the
  first sixty-four primes, and section 5.3.3 those of the square roots of the
  first eight.
 */
module Sha256Constants {
  import opened Sha256

  // ----- primes -----

  ghost predicate Prime(n: nat) {
    n >= 2 && forall d | 2 <= d < n :: n % d != 0
  }

  /** Not a proper multiple of a prime below 18. */
  predicate Sifted(n: nat) {
    && n >= 2 && (n == 2 || n % 2 != 0) && (n == 3 || n % 3 != 0) && (n == 5 || n % 5 != 0) && (n == 7 || n % 7 != 0)
    && (n == 11 || n % 11 != 0) && (n == 13 || n % 13 != 0) && (n == 17 || n % 17 != 0)
  }

  lemma Times(a: nat, b: nat, c: nat)
    requires b <= c
    ensures a * b <= a * c && a * c == c * a
  {
  }

  lemma Distribute(a: int, b: int, c: int)
    ensures a * (b - c) == a * b - a * c
  {
  }

  lemma MultipleMod(n: nat, a: nat, b: nat)
    requires a > 0 && n == a * b
    ensures n % a == 0
  {
    var q, r := n / a, n % a;
    assert n == a * q + r;
    if q < b {
      Times(a, 1, b - q);
      Distribute(a, b, q);
    } else if b < q {
      Times(a, 1, q - b);
      Distribute(a, q, b);
    } else {
      assert r == 0;
    }
  }

  /** A number with a proper divisor has one up to its root. */
  lemma SmallDivisor(n: nat, k: nat) returns (j: nat)
    requires 2 <= k < n && n % k == 0
    ensures 2 <= j && j * j <= n && n % j == 0
  {
    var q := n / k;
    assert n == k * q;
    if k <= q {
      j := k;
      Times(k, k, q);
    } else {
      j := q;
      assert q >= 2;
      Times(q, q, k);
      MultipleMod(n, q, k);
    }
  }

  lemma SmallDivisorSifts(n: nat, j: nat)
    requires 2 <= j < 18 && 2 * j <= n && n % j == 0
    ensures !Sifted(n)
  {
    if j in {2, 4, 6, 8, 10, 12, 14, 16} {
      assert n % 2 == 0;
    } else if j in {3, 9, 15} {
      assert n % 3 == 0;
    } else {
      assert j in {5, 7, 11, 13, 17};
    }
  }

  /** Below the square of 18, sifting by the primes below 18 leaves the primes. */
  lemma PrimeExactly(n: nat)
    requires n < 324
    ensures Prime(n) <==> Sifted(n)
  {
    if Sifted(n) {
      forall k | 2 <= k < n
        ensures n % k != 0
      {
        if n % k == 0 {
          var j := SmallDivisor(n, k);
          if j >= 18 {
            Times(j, 18, j);
          }
          Times(j, 2, j);
          SmallDivisorSifts(n, j);
        }
      }
    }
  }

  /** `q` is the least prime above `p`. */
  ghost predicate NextPrime(p: nat, q: nat) {
    p < q && Prime(q) && forall n | p < n < q :: !Prime(n)
  }

  predicate NoneBetween(p: nat, q: nat) {
    q <= p + 1 || (!Sifted(q - 1) && NoneBetween(p, q - 1))
  }

  lemma {:induction false} NoneBetweenMeans(p: nat, q: nat, n: nat)
    requires NoneBetween(p, q) && p < n < q < 324
    ensures !Prime(n)
    decreases q
  {
    hide Sifted;
    PrimeExactly(n);
    if n < q - 1 {
      NoneBetweenMeans(p, q - 1, n);
    }
  }

  lemma Next(p: nat, q: nat)
    requires p < q < 324 && Sifted(q) && NoneBetween(p, q)
    ensures NextPrime(p, q)
  {
    hide Sifted;
    PrimeExactly(q);
    forall n | p < n < q
      ensures !Prime(n)
    {
      NoneBetweenMeans(p, q, n);
    }
  }

  // ----- roots -----

  predicate CubeRoot(r: nat, p: nat) {
    r * r * r <= p * 0x1_0000_0000_0000_0000_0000_0000 < (r + 1) * (r + 1) * (r + 1)
  }

  /** The first 32 bits of the fraction of the cube root of `p`, whose integer part is some `c`. */
  ghost predicate CubeRootBits(k: nat, p: nat) {
    k < 0x1_0000_0000 && exists c: nat :: CubeRoot(0x1_0000_0000 * c + k, p)
  }

  predicate SquareRoot(r: nat, p: nat) {
    r * r <= p * 0x1_0000_0000_0000_0000 < (r + 1) * (r + 1)
  }

  ghost predicate SquareRootBits(k: nat, p: nat) {
    k < 0x1_0000_0000 && exists c: nat :: SquareRoot(0x1_0000_0000 * c + k, p)
  }

  lemma CubeRootWith(k: nat, p: nat, c: nat)
    requires k < 0x1_0000_0000 && CubeRoot(0x1_0000_0000 * c + k, p)
    ensures CubeRootBits(k, p)
  {
  }

  lemma SquareRootWith(k: nat, p: nat, c: nat)
    requires k < 0x1_0000_0000 && SquareRoot(0x1_0000_0000 * c + k, p)
    ensures SquareRootBits(k, p)
  {
  }

  // ----- the tables -----

  const PRIMES: seq<seq<nat>> := [
    [2, 3, 5, 7, 11, 13, 17, 19],
    [23, 29, 31, 37, 41, 43, 47, 53],
    [59, 61, 67, 71, 73, 79, 83, 89],
    [97, 101, 103, 107, 109, 113, 127, 131],
    [137, 139, 149, 151, 157, 163, 167, 173],
    [179, 181, 191, 193, 197, 199, 211, 223],
    [227, 229, 233, 239, 241, 251, 257, 263],
    [269, 271, 277, 281, 283, 293, 307, 311]]

  function NthPrime(t: nat): nat
    requires t < 64
  {
    PRIMES[t / 8][t % 8]
  }

  /** What position `t` of the round constants holds. */
  ghost predicate ConstantAt(t: nat)
    requires t < 64
  {
    && CubeRootBits(RoundConstant(t) as int, NthPrime(t))
    && (t == 0 ==> NthPrime(t) == 2)
    && (t > 0 ==> NextPrime(NthPrime(t - 1), NthPrime(t)))
  }

  lemma ConstantFrom(t: nat, k: bv32, p: nat, c: nat, before: nat)
    requires t < 64 && RoundConstant(t) == k && NthPrime(t) == p && (t > 0 ==> NthPrime(t - 1) == before)
    requires CubeRoot(0x1_0000_0000 * c + k as int, p) && (t == 0 ==> p == 2) && before < p < 324 && Sifted(p) && NoneBetween(before, p)
    ensures ConstantAt(t)
  {
    hide NextPrime, CubeRootBits, CubeRoot, NthPrime, RoundConstant, Sifted, NoneBetween;
    CubeRootWith(k as int, p, c);
    Next(before, p);
  }

  lemma Constants0()
    ensures forall t | 0 <= t < 4 :: ConstantAt(t)
  {
    hide ConstantAt;
    ConstantFrom(0, 0x428a2f98, 2, 1, 0);
    ConstantFrom(1, 0x71374491, 3, 1, 2);
    ConstantFrom(2, 0xb5c0fbcf, 5, 1, 3);
    ConstantFrom(3, 0xe9b5dba5, 7, 1, 5);
  }

  lemma Constants1()
    ensures forall t | 4 <= t < 8 :: ConstantAt(t)
  {
    hide ConstantAt;
    ConstantFrom(4, 0x3956c25b, 11, 2, 7);
    ConstantFrom(5, 0x59f111f1, 13, 2, 11);
    ConstantFrom(6, 0x923f82a4, 17, 2, 13);
    ConstantFrom(7, 0xab1c5ed5, 19, 2, 17);
  }

  lemma Constants2()
    ensures forall t | 8 <= t < 12 :: ConstantAt(t)
  {
    hide ConstantAt;
    ConstantFrom(8, 0xd807aa98, 23, 2, 19);
    ConstantFrom(9, 0x12835b01, 29, 3, 23);
    ConstantFrom(10, 0x243185be, 31, 3, 29);
    ConstantFrom(11, 0x550c7dc3, 37, 3, 31);
  }

  lemma Constants3()
    ensures forall t | 12 <= t < 16 :: ConstantAt(t)
  {
    hide ConstantAt;
    ConstantFrom(12, 0x72be5d74, 41, 3, 37);
    ConstantFrom(13, 0x80deb1fe, 43, 3, 41);
    ConstantFrom(14, 0x9bdc06a7, 47, 3, 43);
    ConstantFrom(15, 0xc19bf174, 53, 3, 47);
  }

  lemma Constants4()
    ensures forall t | 16 <= t < 20 :: ConstantAt(t)
  {
    hide ConstantAt;
    ConstantFrom(16, 0xe49b69c1, 59, 3, 53);
    ConstantFrom(17, 0xefbe4786, 61, 3, 59);
    ConstantFrom(18, 0x0fc19dc6, 67, 4, 61);
    ConstantFrom(19, 0x240ca1cc, 71, 4, 67);
  }

  lemma Constants5()
    ensures forall t | 20 <= t < 24 :: ConstantAt(t)
  {
    hide ConstantAt;
    ConstantFrom(20, 0x2de92c6f, 73, 4, 71);
    ConstantFrom(21, 0x4a7484aa, 79, 4, 73);
    ConstantFrom(22, 0x5cb0a9dc, 83, 4, 79);
    ConstantFrom(23, 0x76f988da, 89, 4, 83);
  }

  lemma Constants6()
    ensures forall t | 24 <= t < 28 :: ConstantAt(t)
  {
    hide ConstantAt;
    ConstantFrom(24, 0x983e5152, 97, 4, 89);
    ConstantFrom(25, 0xa831c66d, 101, 4, 97);
    ConstantFrom(26, 0xb00327c8, 103, 4, 101);
    ConstantFrom(27, 0xbf597fc7, 107, 4, 103);
  }

  lemma Constants7()
    ensures forall t | 28 <= t < 32 :: ConstantAt(t)
  {
    hide ConstantAt;
    ConstantFrom(28, 0xc6e00bf3, 109, 4, 107);
    ConstantFrom(29, 0xd5a79147, 113, 4, 109);
    ConstantFrom(30, 0x06ca6351, 127, 5, 113);
    ConstantFrom(31, 0x14292967, 131, 5, 127);
  }

  lemma Constants8()
    ensures forall t | 32 <= t < 36 :: ConstantAt(t)
  {
    hide ConstantAt;
    ConstantFrom(32, 0x27b70a85, 137, 5, 131);
    ConstantFrom(33, 0x2e1b2138, 139, 5, 137);
    ConstantFrom(34, 0x4d2c6dfc, 149, 5, 139);
    ConstantFrom(35, 0x53380d13, 151, 5, 149);
  }

  lemma Constants9()
    ensures forall t | 36 <= t < 40 :: ConstantAt(t)
  {
    hide ConstantAt;
    ConstantFrom(36, 0x650a7354, 157, 5, 151);
    ConstantFrom(37, 0x766a0abb, 163, 5, 157);
    ConstantFrom(38, 0x81c2c92e, 167, 5, 163);
    ConstantFrom(39, 0x92722c85, 173, 5, 167);
  }

  lemma Constants10()
    ensures forall t | 40 <= t < 44 :: ConstantAt(t)
  {
    hide ConstantAt;
    ConstantFrom(40, 0xa2bfe8a1, 179, 5, 173);
    ConstantFrom(41, 0xa81a664b, 181, 5, 179);
    ConstantFrom(42, 0xc24b8b70, 191, 5, 181);
    ConstantFrom(43, 0xc76c51a3, 193, 5, 191);
  }

  lemma Constants11()
    ensures forall t | 44 <= t < 48 :: ConstantAt(t)
  {
    hide ConstantAt;
    ConstantFrom(44, 0xd192e819, 197, 5, 193);
    ConstantFrom(45, 0xd6990624, 199, 5, 197);
    ConstantFrom(46, 0xf40e3585, 211, 5, 199);
    ConstantFrom(47, 0x106aa070, 223, 6, 211);
  }

  lemma Constants12()
    ensures forall t | 48 <= t < 52 :: ConstantAt(t)
  {
    hide ConstantAt;
    ConstantFrom(48, 0x19a4c116, 227, 6, 223);
    ConstantFrom(49, 0x1e376c08, 229, 6, 227);
    ConstantFrom(50, 0x2748774c, 233, 6, 229);
    ConstantFrom(51, 0x34b0bcb5, 239, 6, 233);
  }

  lemma Constants13()
    ensures forall t | 52 <= t < 56 :: ConstantAt(t)
  {
    hide ConstantAt;
    ConstantFrom(52, 0x391c0cb3, 241, 6, 239);
    ConstantFrom(53, 0x4ed8aa4a, 251, 6, 241);
    ConstantFrom(54, 0x5b9cca4f, 257, 6, 251);
    ConstantFrom(55, 0x682e6ff3, 263, 6, 257);
  }

  lemma Constants14()
    ensures forall t | 56 <= t < 60 :: ConstantAt(t)
  {
    hide ConstantAt;
    ConstantFrom(56, 0x748f82ee, 269, 6, 263);
    ConstantFrom(57, 0x78a5636f, 271, 6, 269);
    ConstantFrom(58, 0x84c87814, 277, 6, 271);
    ConstantFrom(59, 0x8cc70208, 281, 6, 277);
  }

  lemma Constants15()
    ensures forall t | 60 <= t < 64 :: ConstantAt(t)
  {
    hide ConstantAt;
    ConstantFrom(60, 0x90befffa, 283, 6, 281);
    ConstantFrom(61, 0xa4506ceb, 293, 6, 283);
    ConstantFrom(62, 0xbef9a3f7, 307, 6, 293);
    ConstantFrom(63, 0xc67178f2, 311, 6, 307);
  }

  /**
    The round constants are the first 32 bits of the fractions of the cube roots
    of the first 64 primes: of 2, and then of each next prime.
   */
  lemma RoundConstants(t: nat)
    requires t < 64
    ensures ConstantAt(t)
  {
    hide ConstantAt;
    Constants0();
    Constants1();
    Constants2();
    Constants3();
    Constants4();
    Constants5();
    Constants6();
    Constants7();
    Constants8();
    Constants9();
    Constants10();
    Constants11();
    Constants12();
    Constants13();
    Constants14();
    Constants15();
  }

  /** The initial hash value is the first 32 bits of the fractions of the square roots of the first eight. */
  lemma InitialValues(t: nat)
    requires t < 8
    ensures SquareRootBits(INITIAL[t] as int, NthPrime(t))
  {
    hide SquareRootBits;
    SquareRootWith(0x6a09e667, 2, 1);
    SquareRootWith(0xbb67ae85, 3, 1);
    SquareRootWith(0x3c6ef372, 5, 2);
    SquareRootWith(0xa54ff53a, 7, 2);
    SquareRootWith(0x510e527f, 11, 3);
    SquareRootWith(0x9b05688c, 13, 3);
    SquareRootWith(0x1f83d9ab, 17, 4);
    SquareRootWith(0x5be0cd19, 19, 4);
  }
}
