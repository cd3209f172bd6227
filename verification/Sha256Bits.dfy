/** The logical functions of SHA-256, bit by bit: sections 2.2.2, 3.2 and 4.1.2 of FIPS 180-4. */
module Sha256Bits {
  import opened Sha256

  /** Positions of bits, counted modulo 32. */
  type index = bv5

  /** Bit i of x, bit 0 being the least significant. */
  predicate Bit(x: word, i: index) {
    (x >> i) & 1 == 1
  }

  predicate Odd(a: bool, b: bool, c: bool) {
    (a != b) != c
  }

  lemma BitOfXor3(a: word, b: word, c: word, i: index)
    ensures Bit(a ^ b ^ c, i) == Odd(Bit(a, i), Bit(b, i), Bit(c, i))
  {
  }

  lemma BitOfAnd(a: word, b: word, i: index)
    ensures Bit(a & b, i) == (Bit(a, i) && Bit(b, i))
  {
  }

  /** Ch takes y where x is set and z where it is not, for any set m of bits. */
  lemma ChSelects(x: word, y: word, z: word, m: word)
    ensures x & m == m ==> Ch(x, y, z) & m == y & m
    ensures x & m == 0 ==> Ch(x, y, z) & m == z & m
  {
  }

  /** Maj is set where at least two are. */
  lemma MajIsMajority(x: word, y: word, z: word, i: index)
    ensures Bit(Maj(x, y, z), i) == ((Bit(x, i) && Bit(y, i)) || (Bit(x, i) && Bit(z, i)) || (Bit(y, i) && Bit(z, i)))
  {
    BitOfXor3(x & y, x & z, y & z, i);
    BitOfAnd(x, y, i);
    BitOfAnd(x, z, i);
    BitOfAnd(y, z, i);
  }

  lemma Rotate2(x: word, i: index)
    ensures Bit((x >> 2) | (x << 30), i) == Bit(x, i + 2)
  {
  }

  lemma Rotate6(x: word, i: index)
    ensures Bit((x >> 6) | (x << 26), i) == Bit(x, i + 6)
  {
  }

  lemma Rotate7(x: word, i: index)
    ensures Bit((x >> 7) | (x << 25), i) == Bit(x, i + 7)
  {
  }

  lemma Rotate11(x: word, i: index)
    ensures Bit((x >> 11) | (x << 21), i) == Bit(x, i + 11)
  {
  }

  lemma Rotate13(x: word, i: index)
    ensures Bit((x >> 13) | (x << 19), i) == Bit(x, i + 13)
  {
  }

  lemma Rotate17(x: word, i: index)
    ensures Bit((x >> 17) | (x << 15), i) == Bit(x, i + 17)
  {
  }

  lemma Rotate18(x: word, i: index)
    ensures Bit((x >> 18) | (x << 14), i) == Bit(x, i + 18)
  {
  }

  lemma Rotate19(x: word, i: index)
    ensures Bit((x >> 19) | (x << 13), i) == Bit(x, i + 19)
  {
  }

  lemma Rotate22(x: word, i: index)
    ensures Bit((x >> 22) | (x << 10), i) == Bit(x, i + 22)
  {
  }

  lemma Rotate25(x: word, i: index)
    ensures Bit((x >> 25) | (x << 7), i) == Bit(x, i + 25)
  {
  }

  lemma Shift3(x: word, i: index)
    ensures Bit(x >> 3, i) == (i < 29 && Bit(x, i + 3))
  {
  }

  lemma Shift10(x: word, i: index)
    ensures Bit(x >> 10, i) == (i < 22 && Bit(x, i + 10))
  {
  }

  lemma BigSigma0Bits(x: word, i: index)
    ensures Bit(BigSigma0(x), i) == Odd(Bit(x, i + 2), Bit(x, i + 13), Bit(x, i + 22))
  {
    BitOfXor3((x >> 2) | (x << 30), (x >> 13) | (x << 19), (x >> 22) | (x << 10), i);
    Rotate2(x, i);
    Rotate13(x, i);
    Rotate22(x, i);
  }

  lemma BigSigma1Bits(x: word, i: index)
    ensures Bit(BigSigma1(x), i) == Odd(Bit(x, i + 6), Bit(x, i + 11), Bit(x, i + 25))
  {
    BitOfXor3((x >> 6) | (x << 26), (x >> 11) | (x << 21), (x >> 25) | (x << 7), i);
    Rotate6(x, i);
    Rotate11(x, i);
    Rotate25(x, i);
  }

  lemma SmallSigma0Bits(x: word, i: index)
    ensures Bit(SmallSigma0(x), i) == Odd(Bit(x, i + 7), Bit(x, i + 18), i < 29 && Bit(x, i + 3))
  {
    BitOfXor3((x >> 7) | (x << 25), (x >> 18) | (x << 14), x >> 3, i);
    Rotate7(x, i);
    Rotate18(x, i);
    Shift3(x, i);
  }

  lemma SmallSigma1Bits(x: word, i: index)
    ensures Bit(SmallSigma1(x), i) == Odd(Bit(x, i + 17), Bit(x, i + 19), i < 22 && Bit(x, i + 10))
  {
    BitOfXor3((x >> 17) | (x << 15), (x >> 19) | (x << 13), x >> 10, i);
    Rotate17(x, i);
    Rotate19(x, i);
    Shift10(x, i);
  }
}
