/**
  What the parts of SHA-256 are: the functions of section 4.1.2 of FIPS 180-4
  bit by bit, and the constants of sections 4.2.2 and 5.3.3 from the primes.
 */
module Sha256Meaning {
  import opened Sha256

  // ----- bits -----

  /** Bit `i` of a word, counted from the least significant; sums of positions wrap at 32. */
  predicate Bit(x: bv32, i: bv5) {
    (x >> i) & 1 == 1
  }

  predicate Xor(a: bool, b: bool, c: bool) {
    (a != b) != c
  }

  lemma XorShifted(x: bv32, y: bv32, i: bv5)
    ensures ((x ^ y) >> i) & 1 == ((x >> i) & 1) ^ ((y >> i) & 1)
  {
  }

  lemma OneBit(x: bv32, i: bv5)
    ensures (x >> i) & 1 == 0 || (x >> i) & 1 == 1
  {
  }

  lemma XorOfBits(a: bv32, b: bv32)
    requires (a == 0 || a == 1) && (b == 0 || b == 1)
    ensures a ^ b == 1 <==> (a == 1) != (b == 1)
  {
  }

  lemma XorBit(x: bv32, y: bv32, i: bv5)
    ensures Bit(x ^ y, i) <==> Bit(x, i) != Bit(y, i)
  {
    XorShifted(x, y, i);
    OneBit(x, i);
    OneBit(y, i);
    XorOfBits((x >> i) & 1, (y >> i) & 1);
  }

  function Shifted(x: bv32, i: bv5): bv32 {
    x >> i
  }

  function And(x: bv32, y: bv32): bv32 {
    x & y
  }

  predicate Low(x: bv32) {
    x & 1 == 1
  }

  lemma ShiftStep(x: bv32, i: bv5)
    requires i > 0
    ensures Shifted(x, i) == Shifted(Shifted(x, 1), i - 1)
  {
  }

  lemma AndStep(x: bv32, y: bv32)
    ensures Shifted(And(x, y), 1) == And(Shifted(x, 1), Shifted(y, 1))
  {
  }

  lemma AndLast(x: bv32, y: bv32)
    ensures Low(And(x, y)) <==> Low(x) && Low(y)
  {
  }

  lemma NoShift(x: bv32)
    ensures Shifted(x, 0) == x
  {
  }

  lemma {:induction false} AndShifted(x: bv32, y: bv32, i: bv5)
    ensures Low(Shifted(And(x, y), i)) <==> Low(Shifted(x, i)) && Low(Shifted(y, i))
    decreases i
  {
    hide And, Shifted, Low;
    if i == 0 {
      NoShift(x);
      NoShift(y);
      NoShift(And(x, y));
      AndLast(x, y);
    } else {
      AndShifted(Shifted(x, 1), Shifted(y, 1), i - 1);
      ShiftStep(x, i);
      ShiftStep(y, i);
      ShiftStep(And(x, y), i);
      AndStep(x, y);
    }
  }

  lemma BitIsLow(x: bv32, i: bv5)
    ensures Bit(x, i) <==> Low(Shifted(x, i))
  {
  }

  lemma AndBit(x: bv32, y: bv32, i: bv5)
    ensures Bit(x & y, i) <==> Bit(x, i) && Bit(y, i)
  {
    hide Bit, Shifted, Low;
    AndShifted(x, y, i);
    BitIsLow(x, i);
    BitIsLow(y, i);
    BitIsLow(x & y, i);
  }

  lemma OnesBit(i: bv5)
    ensures Bit(0xffff_ffff, i)
  {
  }

  lemma XorThree(x: bv32, y: bv32, z: bv32, i: bv5)
    ensures Bit(x ^ y ^ z, i) <==> Xor(Bit(x, i), Bit(y, i), Bit(z, i))
  {
    hide Bit;
    XorBit(x ^ y, z, i);
    XorBit(x, y, i);
  }

  lemma Shifts2(x: bv32, i: bv5)
    ensures (((x >> 2) | (x << 30)) >> i) & 1 == (x >> (i + 2)) & 1
  {
  }

  lemma Rotated2(x: bv32, i: bv5)
    ensures Bit(RotR(x, 2), i) <==> Bit(x, i + 2)
  {
    Shifts2(x, i);
  }

  lemma Shifts6(x: bv32, i: bv5)
    ensures (((x >> 6) | (x << 26)) >> i) & 1 == (x >> (i + 6)) & 1
  {
  }

  lemma Rotated6(x: bv32, i: bv5)
    ensures Bit(RotR(x, 6), i) <==> Bit(x, i + 6)
  {
    Shifts6(x, i);
  }

  lemma Shifts7(x: bv32, i: bv5)
    ensures (((x >> 7) | (x << 25)) >> i) & 1 == (x >> (i + 7)) & 1
  {
  }

  lemma Rotated7(x: bv32, i: bv5)
    ensures Bit(RotR(x, 7), i) <==> Bit(x, i + 7)
  {
    Shifts7(x, i);
  }

  lemma Shifts11(x: bv32, i: bv5)
    ensures (((x >> 11) | (x << 21)) >> i) & 1 == (x >> (i + 11)) & 1
  {
  }

  lemma Rotated11(x: bv32, i: bv5)
    ensures Bit(RotR(x, 11), i) <==> Bit(x, i + 11)
  {
    Shifts11(x, i);
  }

  lemma Shifts13(x: bv32, i: bv5)
    ensures (((x >> 13) | (x << 19)) >> i) & 1 == (x >> (i + 13)) & 1
  {
  }

  lemma Rotated13(x: bv32, i: bv5)
    ensures Bit(RotR(x, 13), i) <==> Bit(x, i + 13)
  {
    Shifts13(x, i);
  }

  lemma Shifts17(x: bv32, i: bv5)
    ensures (((x >> 17) | (x << 15)) >> i) & 1 == (x >> (i + 17)) & 1
  {
  }

  lemma Rotated17(x: bv32, i: bv5)
    ensures Bit(RotR(x, 17), i) <==> Bit(x, i + 17)
  {
    Shifts17(x, i);
  }

  lemma Shifts18(x: bv32, i: bv5)
    ensures (((x >> 18) | (x << 14)) >> i) & 1 == (x >> (i + 18)) & 1
  {
  }

  lemma Rotated18(x: bv32, i: bv5)
    ensures Bit(RotR(x, 18), i) <==> Bit(x, i + 18)
  {
    Shifts18(x, i);
  }

  lemma Shifts19(x: bv32, i: bv5)
    ensures (((x >> 19) | (x << 13)) >> i) & 1 == (x >> (i + 19)) & 1
  {
  }

  lemma Rotated19(x: bv32, i: bv5)
    ensures Bit(RotR(x, 19), i) <==> Bit(x, i + 19)
  {
    Shifts19(x, i);
  }

  lemma Shifts22(x: bv32, i: bv5)
    ensures (((x >> 22) | (x << 10)) >> i) & 1 == (x >> (i + 22)) & 1
  {
  }

  lemma Rotated22(x: bv32, i: bv5)
    ensures Bit(RotR(x, 22), i) <==> Bit(x, i + 22)
  {
    Shifts22(x, i);
  }

  lemma Shifts25(x: bv32, i: bv5)
    ensures (((x >> 25) | (x << 7)) >> i) & 1 == (x >> (i + 25)) & 1
  {
  }

  lemma Rotated25(x: bv32, i: bv5)
    ensures Bit(RotR(x, 25), i) <==> Bit(x, i + 25)
  {
    Shifts25(x, i);
  }

  lemma ShiftedBy3(x: bv32, i: bv5)
    ensures Bit(ShR(x, 3), i) <==> i < 29 && Bit(x, i + 3)
  {
  }

  lemma ShiftedBy10(x: bv32, i: bv5)
    ensures Bit(ShR(x, 10), i) <==> i < 22 && Bit(x, i + 10)
  {
  }

  lemma BigSigma0Bits(x: bv32, i: bv5)
    ensures Bit(BigSigma0(x), i) <==> Xor(Bit(x, i + 2), Bit(x, i + 13), Bit(x, i + 22))
  {
    hide Bit, RotR, ShR;
    Rotated2(x, i);
    Rotated13(x, i);
    Rotated22(x, i);
    XorThree(RotR(x, 2), RotR(x, 13), RotR(x, 22), i);
  }

  lemma BigSigma1Bits(x: bv32, i: bv5)
    ensures Bit(BigSigma1(x), i) <==> Xor(Bit(x, i + 6), Bit(x, i + 11), Bit(x, i + 25))
  {
    hide Bit, RotR, ShR;
    Rotated6(x, i);
    Rotated11(x, i);
    Rotated25(x, i);
    XorThree(RotR(x, 6), RotR(x, 11), RotR(x, 25), i);
  }

  lemma SmallSigma0Bits(x: bv32, i: bv5)
    ensures Bit(SmallSigma0(x), i) <==> Xor(Bit(x, i + 7), Bit(x, i + 18), i < 29 && Bit(x, i + 3))
  {
    hide Bit, RotR, ShR;
    Rotated7(x, i);
    Rotated18(x, i);
    ShiftedBy3(x, i);
    XorThree(RotR(x, 7), RotR(x, 18), ShR(x, 3), i);
  }

  lemma SmallSigma1Bits(x: bv32, i: bv5)
    ensures Bit(SmallSigma1(x), i) <==> Xor(Bit(x, i + 17), Bit(x, i + 19), i < 22 && Bit(x, i + 10))
  {
    hide Bit, RotR, ShR;
    Rotated17(x, i);
    Rotated19(x, i);
    ShiftedBy10(x, i);
    XorThree(RotR(x, 17), RotR(x, 19), ShR(x, 10), i);
  }

  lemma XorOfAnds(x: bv32, y: bv32, u: bv32, z: bv32, i: bv5)
    ensures Bit((x & y) ^ (u & z), i) <==> (Bit(x, i) && Bit(y, i)) != (Bit(u, i) && Bit(z, i))
  {
    hide Bit;
    XorBit(x & y, u & z, i);
    AndBit(x, y, i);
    AndBit(u, z, i);
  }

  lemma ChWithoutNot(x: bv32, y: bv32, z: bv32)
    ensures Ch(x, y, z) == (x & y) ^ ((x ^ 0xffff_ffff) & z)
  {
  }

  lemma ChosenBit(x: bv32, y: bv32, w: bv32, z: bv32, c: bv32, i: bv5)
    requires c == (x & y) ^ (w & z) && (Bit(w, i) <==> !Bit(x, i))
    ensures Bit(c, i) <==> if Bit(x, i) then Bit(y, i) else Bit(z, i)
  {
    hide Bit;
    XorOfAnds(x, y, w, z, i);
  }

  /** `Ch` chooses between the bits of `y` and `z` by the bit of `x`. */
  lemma ChBits(x: bv32, y: bv32, z: bv32, i: bv5)
    ensures Bit(Ch(x, y, z), i) <==> if Bit(x, i) then Bit(y, i) else Bit(z, i)
  {
    hide Bit, Ch;
    ChWithoutNot(x, y, z);
    XorBit(x, 0xffff_ffff, i);
    OnesBit(i);
    ChosenBit(x, y, x ^ 0xffff_ffff, z, Ch(x, y, z), i);
  }

  /** `Maj` is the majority of the three bits. */
  lemma MajBits(x: bv32, y: bv32, z: bv32, i: bv5)
    ensures Bit(Maj(x, y, z), i) <==> (Bit(x, i) && Bit(y, i)) || (Bit(x, i) && Bit(z, i)) || (Bit(y, i) && Bit(z, i))
  {
    hide Bit;
    XorThree(x & y, x & z, y & z, i);
    AndBit(x, y, i);
    AndBit(x, z, i);
    AndBit(y, z, i);
  }
}
