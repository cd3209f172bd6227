/** Where the constants of SHA-256 come from: sections 4.2.2 and 5.3.3 of FIPS 180-4. */
module Sha256Constants {
  import opened Sha256

  // ---------------------------------------------------------------------------
  // The first 64 primes
  // ---------------------------------------------------------------------------

  ghost predicate Divides(d: nat, n: nat) {
    d > 0 && n % d == 0
  }

  ghost predicate IsPrime(n: nat) {
    n >= 2 && forall d: nat :: 2 <= d < n ==> !Divides(d, n)
  }

  ghost function PrimesBelow(n: nat): nat {
    if n == 0 then 0 else PrimesBelow(n - 1) + if IsPrime(n - 1) then 1 else 0
  }

  /** p is the prime with `t` primes before it. */
  ghost predicate PrimeAt(t: nat, p: nat) {
    IsPrime(p) && PrimesBelow(p) == t
  }

  lemma {:induction false} PrimesBelowGrows(m: nat, n: nat)
    requires m <= n
    ensures PrimesBelow(m) <= PrimesBelow(n)
  {
    if m < n { PrimesBelowGrows(m, n - 1); }
  }

  lemma OnePrimeAt(t: nat, p: nat, q: nat)
    requires PrimeAt(t, p) && PrimeAt(t, q)
    ensures p == q
  {
    if p < q { PrimesBelowGrows(p + 1, q); }
    if q < p { PrimesBelowGrows(q + 1, p); }
  }

  /** A prime less than 19, but not n itself, divides n. */
  predicate Crossed(n: nat) {
    || (n % 2 == 0 && n > 2) || (n % 3 == 0 && n > 3) || (n % 5 == 0 && n > 5) || (n % 7 == 0 && n > 7)
    || (n % 11 == 0 && n > 11) || (n % 13 == 0 && n > 13) || (n % 17 == 0 && n > 17)
  }

  lemma CrossedIsComposite(n: nat)
    requires 2 <= n < 19 * 19
    ensures IsPrime(n) <==> !Crossed(n)
  {
    if Crossed(n) {
      var d := if n % 2 == 0 && n > 2 then 2 else if n % 3 == 0 && n > 3 then 3 else if n % 5 == 0 && n > 5 then 5
               else if n % 7 == 0 && n > 7 then 7 else if n % 11 == 0 && n > 11 then 11 else if n % 13 == 0 && n > 13 then 13 else 17;
      assert Divides(d, n);
    } else {
      forall d: nat | 2 <= d < n ensures !Divides(d, n) {
        if Divides(d, n) { DivisorCrosses(n, d); }
      }
    }
  }

  lemma DivisorCrosses(n: nat, d: nat)
    requires 2 <= d < n < 19 * 19 && Divides(d, n)
    ensures Crossed(n)
  {
    var e := SmallDivisor(n, d);
    var a := SmallPrime(e);
    DividesOn(a, e, n);
  }

  lemma SmallPrime(e: nat) returns (a: nat)
    requires 2 <= e < 19
    ensures a == 2 || a == 3 || a == 5 || a == 7 || a == 11 || a == 13 || a == 17
    ensures a <= e && Divides(a, e)
  {
    a := if e % 2 == 0 then 2 else if e % 3 == 0 then 3 else e;
  }

  lemma DividesOn(a: nat, d: nat, n: nat)
    requires Divides(a, d) && Divides(d, n)
    ensures Divides(a, n)
  {
    var k, l := d / a, n / d;
    calc {
      n;
      d * l;
      (a * k) * l;
      a * (k * l);
    }
    Multiple(n, a, k * l);
  }

  /** Of a divisor and its cofactor one is less than the root. */
  lemma SmallDivisor(n: nat, d: nat) returns (e: nat)
    requires 2 <= d < n < 19 * 19 && Divides(d, n)
    ensures 2 <= e < 19 && e < n && Divides(e, n)
  {
    var c := n / d;
    assert n == d * c;
    if c <= 1 { Bigger(d, d, c, 1); }
    if d < 19 {
      e := d;
    } else {
      if c >= 19 { Bigger(19, d, 19, c); }
      Bigger(2, d, c, c);
      Multiple(n, c, d);
      e := c;
    }
  }

  lemma Bigger(a: nat, b: nat, c: nat, d: nat)
    requires a <= b && c <= d
    ensures a * c <= b * d
  {
  }

  lemma Multiple(n: nat, d: nat, k: nat)
    requires d > 0 && n == d * k
    ensures n % d == 0
  {
    var q, r := n / d, n % d;
    assert n == d * q + r;
    if k > q {
      Bigger(d, d, q + 1, k);
    } else if k < q {
      Bigger(d, d, k + 1, q);
    }
  }

  /** Every second number from n up to q is crossed. */
  predicate OddsCrossed(n: nat, q: nat)
    decreases q - n
  {
    n >= q || (Crossed(n) && OddsCrossed(n + 2, q))
  }

  predicate Adjacent(p: nat, q: nat) {
    2 <= p < q < 19 * 19 && (p % 2 == 1 || q == 3) && !Crossed(q) && OddsCrossed(p + 2, q)
  }

  lemma {:induction false} OddCrossed(n: nat, q: nat, k: nat)
    requires OddsCrossed(n, q) && n + 2 * k < q
    ensures Crossed(n + 2 * k)
    decreases k
  {
    if k > 0 { OddCrossed(n + 2, q, k - 1); }
  }

  lemma BetweenCrossed(p: nat, q: nat, m: nat)
    requires Adjacent(p, q) && p < m < q
    ensures Crossed(m)
  {
    if m % 2 == 0 {
      EvenCrossed(m);
    } else {
      var k := HalfWay(p, m);
      OddCrossed(p + 2, q, k);
    }
  }

  lemma EvenCrossed(m: nat)
    requires m % 2 == 0 && m > 2
    ensures Crossed(m)
  {
  }

  lemma HalfWay(p: nat, m: nat) returns (k: nat)
    requires p % 2 == 1 && m % 2 == 1 && p < m
    ensures m == p + 2 + 2 * k
  {
    k := (m - p) / 2 - 1;
  }

  lemma {:induction false} NoneBetween(p: nat, n: nat, q: nat)
    requires Adjacent(p, q) && IsPrime(p) && p < n <= q
    ensures PrimesBelow(n) == PrimesBelow(p) + 1
  {
    if n > p + 1 {
      NoneBetween(p, n - 1, q);
      BetweenCrossed(p, q, n - 1);
      CrossedIsComposite(n - 1);
    }
  }

  lemma NextPrime(t: nat, p: nat, q: nat)
    requires PrimeAt(t, p) && Adjacent(p, q)
    ensures PrimeAt(t + 1, q)
  {
    NoneBetween(p, q, q);
    CrossedIsComposite(q);
  }

  const P0: seq<nat> := [2, 3, 5, 7, 11, 13, 17, 19]
  const P1: seq<nat> := [23, 29, 31, 37, 41, 43, 47, 53]
  const P2: seq<nat> := [59, 61, 67, 71, 73, 79, 83, 89]
  const P3: seq<nat> := [97, 101, 103, 107, 109, 113, 127, 131]
  const P4: seq<nat> := [137, 139, 149, 151, 157, 163, 167, 173]
  const P5: seq<nat> := [179, 181, 191, 193, 197, 199, 211, 223]
  const P6: seq<nat> := [227, 229, 233, 239, 241, 251, 257, 263]
  const P7: seq<nat> := [269, 271, 277, 281, 283, 293, 307, 311]
  const P: seq<nat> := P0 + P1 + P2 + P3 + P4 + P5 + P6 + P7

  lemma Adjacent0(t: nat)
    requires 1 <= t < 8
    ensures Adjacent(P[t - 1], P[t])
  {
    assert Adjacent(2, 3);
    assert Adjacent(3, 5);
    assert Adjacent(5, 7);
    assert Adjacent(7, 11);
    assert Adjacent(11, 13);
    assert Adjacent(13, 17);
    assert Adjacent(17, 19);
  }

  lemma Adjacent1(t: nat)
    requires 8 <= t < 16
    ensures Adjacent(P[t - 1], P[t])
  {
    assert Adjacent(19, 23);
    assert Adjacent(23, 29);
    assert Adjacent(29, 31);
    assert Adjacent(31, 37);
    assert Adjacent(37, 41);
    assert Adjacent(41, 43);
    assert Adjacent(43, 47);
    assert Adjacent(47, 53);
  }

  lemma Adjacent2(t: nat)
    requires 16 <= t < 24
    ensures Adjacent(P[t - 1], P[t])
  {
    assert Adjacent(53, 59);
    assert Adjacent(59, 61);
    assert Adjacent(61, 67);
    assert Adjacent(67, 71);
    assert Adjacent(71, 73);
    assert Adjacent(73, 79);
    assert Adjacent(79, 83);
    assert Adjacent(83, 89);
  }

  lemma Adjacent3(t: nat)
    requires 24 <= t < 32
    ensures Adjacent(P[t - 1], P[t])
  {
    assert Adjacent(89, 97);
    assert Adjacent(97, 101);
    assert Adjacent(101, 103);
    assert Adjacent(103, 107);
    assert Adjacent(107, 109);
    assert Adjacent(109, 113);
    assert Adjacent(113, 127);
    assert Adjacent(127, 131);
  }

  lemma Adjacent4(t: nat)
    requires 32 <= t < 40
    ensures Adjacent(P[t - 1], P[t])
  {
    assert Adjacent(131, 137);
    assert Adjacent(137, 139);
    assert Adjacent(139, 149);
    assert Adjacent(149, 151);
    assert Adjacent(151, 157);
    assert Adjacent(157, 163);
    assert Adjacent(163, 167);
    assert Adjacent(167, 173);
  }

  lemma Adjacent5(t: nat)
    requires 40 <= t < 48
    ensures Adjacent(P[t - 1], P[t])
  {
    assert Adjacent(173, 179);
    assert Adjacent(179, 181);
    assert Adjacent(181, 191);
    assert Adjacent(191, 193);
    assert Adjacent(193, 197);
    assert Adjacent(197, 199);
    assert Adjacent(199, 211);
    assert Adjacent(211, 223);
  }

  lemma Adjacent6(t: nat)
    requires 48 <= t < 56
    ensures Adjacent(P[t - 1], P[t])
  {
    assert Adjacent(223, 227);
    assert Adjacent(227, 229);
    assert Adjacent(229, 233);
    assert Adjacent(233, 239);
    assert Adjacent(239, 241);
    assert Adjacent(241, 251);
    assert Adjacent(251, 257);
    assert Adjacent(257, 263);
  }

  lemma Adjacent7(t: nat)
    requires 56 <= t < 64
    ensures Adjacent(P[t - 1], P[t])
  {
    assert Adjacent(263, 269);
    assert Adjacent(269, 271);
    assert Adjacent(271, 277);
    assert Adjacent(277, 281);
    assert Adjacent(281, 283);
    assert Adjacent(283, 293);
    assert Adjacent(293, 307);
    assert Adjacent(307, 311);
  }

  lemma AllAdjacent(t: nat)
    requires 1 <= t < 64
    ensures Adjacent(P[t - 1], P[t])
  {
    if t < 8 { Adjacent0(t); }
    else if t < 16 { Adjacent1(t); }
    else if t < 24 { Adjacent2(t); }
    else if t < 32 { Adjacent3(t); }
    else if t < 40 { Adjacent4(t); }
    else if t < 48 { Adjacent5(t); }
    else if t < 56 { Adjacent6(t); }
    else if t < 64 { Adjacent7(t); }
  }

  lemma {:induction false} PrimeTable(t: nat)
    requires t < 64
    ensures PrimeAt(t, P[t])
  {
    if t == 0 {
      FirstPrime(P[0]);
    } else {
      PrimeTable(t - 1);
      AllAdjacent(t);
      NextPrime(t - 1, P[t - 1], P[t]);
    }
  }

  lemma FirstPrime(p: nat)
    requires p == 2
    ensures PrimeAt(0, p)
  {
    assert PrimesBelow(p) == PrimesBelow(p - 1);
    assert PrimesBelow(p - 1) == PrimesBelow(p - 2);
  }

  // ---------------------------------------------------------------------------
  // The roots
  // ---------------------------------------------------------------------------

  /** c / 2^32 is the cube root of p, rounded down to 32 binary places. */
  predicate IsCubeRoot(c: nat, p: nat) {
    c * c * c <= p * 0x1_0000_0000_0000_0000_0000_0000 < (c + 1) * (c + 1) * (c + 1)
  }

  predicate IsSquareRoot(c: nat, p: nat) {
    c * c <= p * 0x1_0000_0000_0000_0000 < (c + 1) * (c + 1)
  }

  predicate IsFraction(k: word, c: nat) {
    k as nat == c % 0x1_0000_0000
  }

  lemma CubeIs(t: nat, p: nat, k: word, c: nat)
    requires t < |K| && P[t] == p && K[t] == k && IsCubeRoot(c, p) && IsFraction(k, c)
    ensures exists c: nat :: IsCubeRoot(c, P[t]) && IsFraction(K[t], c)
  {
  }

  lemma SquareIs(t: nat, p: nat, k: word, c: nat)
    requires t < |InitialHash| && P[t] == p && InitialHash[t] == k && IsSquareRoot(c, p) && IsFraction(k, c)
    ensures exists c: nat :: IsSquareRoot(c, P[t]) && IsFraction(InitialHash[t], c)
  {
  }

  lemma Cube0(t: nat)
    requires 0 <= t < 8
    ensures exists c: nat :: IsCubeRoot(c, P[t]) && IsFraction(K[t], c)
  {
    if t == 0 { CubeIs(t, 2, 0x428A2F98, 0x1428A2F98); }
    else if t == 1 { CubeIs(t, 3, 0x71374491, 0x171374491); }
    else if t == 2 { CubeIs(t, 5, 0xB5C0FBCF, 0x1B5C0FBCF); }
    else if t == 3 { CubeIs(t, 7, 0xE9B5DBA5, 0x1E9B5DBA5); }
    else if t == 4 { CubeIs(t, 11, 0x3956C25B, 0x23956C25B); }
    else if t == 5 { CubeIs(t, 13, 0x59F111F1, 0x259F111F1); }
    else if t == 6 { CubeIs(t, 17, 0x923F82A4, 0x2923F82A4); }
    else if t == 7 { CubeIs(t, 19, 0xAB1C5ED5, 0x2AB1C5ED5); }
  }

  lemma Cube1(t: nat)
    requires 8 <= t < 16
    ensures exists c: nat :: IsCubeRoot(c, P[t]) && IsFraction(K[t], c)
  {
    if t == 8 { CubeIs(t, 23, 0xD807AA98, 0x2D807AA98); }
    else if t == 9 { CubeIs(t, 29, 0x12835B01, 0x312835B01); }
    else if t == 10 { CubeIs(t, 31, 0x243185BE, 0x3243185BE); }
    else if t == 11 { CubeIs(t, 37, 0x550C7DC3, 0x3550C7DC3); }
    else if t == 12 { CubeIs(t, 41, 0x72BE5D74, 0x372BE5D74); }
    else if t == 13 { CubeIs(t, 43, 0x80DEB1FE, 0x380DEB1FE); }
    else if t == 14 { CubeIs(t, 47, 0x9BDC06A7, 0x39BDC06A7); }
    else if t == 15 { CubeIs(t, 53, 0xC19BF174, 0x3C19BF174); }
  }

  lemma Cube2(t: nat)
    requires 16 <= t < 24
    ensures exists c: nat :: IsCubeRoot(c, P[t]) && IsFraction(K[t], c)
  {
    if t == 16 { CubeIs(t, 59, 0xE49B69C1, 0x3E49B69C1); }
    else if t == 17 { CubeIs(t, 61, 0xEFBE4786, 0x3EFBE4786); }
    else if t == 18 { CubeIs(t, 67, 0x0FC19DC6, 0x40FC19DC6); }
    else if t == 19 { CubeIs(t, 71, 0x240CA1CC, 0x4240CA1CC); }
    else if t == 20 { CubeIs(t, 73, 0x2DE92C6F, 0x42DE92C6F); }
    else if t == 21 { CubeIs(t, 79, 0x4A7484AA, 0x44A7484AA); }
    else if t == 22 { CubeIs(t, 83, 0x5CB0A9DC, 0x45CB0A9DC); }
    else if t == 23 { CubeIs(t, 89, 0x76F988DA, 0x476F988DA); }
  }

  lemma Cube3(t: nat)
    requires 24 <= t < 32
    ensures exists c: nat :: IsCubeRoot(c, P[t]) && IsFraction(K[t], c)
  {
    if t == 24 { CubeIs(t, 97, 0x983E5152, 0x4983E5152); }
    else if t == 25 { CubeIs(t, 101, 0xA831C66D, 0x4A831C66D); }
    else if t == 26 { CubeIs(t, 103, 0xB00327C8, 0x4B00327C8); }
    else if t == 27 { CubeIs(t, 107, 0xBF597FC7, 0x4BF597FC7); }
    else if t == 28 { CubeIs(t, 109, 0xC6E00BF3, 0x4C6E00BF3); }
    else if t == 29 { CubeIs(t, 113, 0xD5A79147, 0x4D5A79147); }
    else if t == 30 { CubeIs(t, 127, 0x06CA6351, 0x506CA6351); }
    else if t == 31 { CubeIs(t, 131, 0x14292967, 0x514292967); }
  }

  lemma Cube4(t: nat)
    requires 32 <= t < 40
    ensures exists c: nat :: IsCubeRoot(c, P[t]) && IsFraction(K[t], c)
  {
    if t == 32 { CubeIs(t, 137, 0x27B70A85, 0x527B70A85); }
    else if t == 33 { CubeIs(t, 139, 0x2E1B2138, 0x52E1B2138); }
    else if t == 34 { CubeIs(t, 149, 0x4D2C6DFC, 0x54D2C6DFC); }
    else if t == 35 { CubeIs(t, 151, 0x53380D13, 0x553380D13); }
    else if t == 36 { CubeIs(t, 157, 0x650A7354, 0x5650A7354); }
    else if t == 37 { CubeIs(t, 163, 0x766A0ABB, 0x5766A0ABB); }
    else if t == 38 { CubeIs(t, 167, 0x81C2C92E, 0x581C2C92E); }
    else if t == 39 { CubeIs(t, 173, 0x92722C85, 0x592722C85); }
  }

  lemma Cube5(t: nat)
    requires 40 <= t < 48
    ensures exists c: nat :: IsCubeRoot(c, P[t]) && IsFraction(K[t], c)
  {
    if t == 40 { CubeIs(t, 179, 0xA2BFE8A1, 0x5A2BFE8A1); }
    else if t == 41 { CubeIs(t, 181, 0xA81A664B, 0x5A81A664B); }
    else if t == 42 { CubeIs(t, 191, 0xC24B8B70, 0x5C24B8B70); }
    else if t == 43 { CubeIs(t, 193, 0xC76C51A3, 0x5C76C51A3); }
    else if t == 44 { CubeIs(t, 197, 0xD192E819, 0x5D192E819); }
    else if t == 45 { CubeIs(t, 199, 0xD6990624, 0x5D6990624); }
    else if t == 46 { CubeIs(t, 211, 0xF40E3585, 0x5F40E3585); }
    else if t == 47 { CubeIs(t, 223, 0x106AA070, 0x6106AA070); }
  }

  lemma Cube6(t: nat)
    requires 48 <= t < 56
    ensures exists c: nat :: IsCubeRoot(c, P[t]) && IsFraction(K[t], c)
  {
    if t == 48 { CubeIs(t, 227, 0x19A4C116, 0x619A4C116); }
    else if t == 49 { CubeIs(t, 229, 0x1E376C08, 0x61E376C08); }
    else if t == 50 { CubeIs(t, 233, 0x2748774C, 0x62748774C); }
    else if t == 51 { CubeIs(t, 239, 0x34B0BCB5, 0x634B0BCB5); }
    else if t == 52 { CubeIs(t, 241, 0x391C0CB3, 0x6391C0CB3); }
    else if t == 53 { CubeIs(t, 251, 0x4ED8AA4A, 0x64ED8AA4A); }
    else if t == 54 { CubeIs(t, 257, 0x5B9CCA4F, 0x65B9CCA4F); }
    else if t == 55 { CubeIs(t, 263, 0x682E6FF3, 0x6682E6FF3); }
  }

  lemma Cube7(t: nat)
    requires 56 <= t < 64
    ensures exists c: nat :: IsCubeRoot(c, P[t]) && IsFraction(K[t], c)
  {
    if t == 56 { CubeIs(t, 269, 0x748F82EE, 0x6748F82EE); }
    else if t == 57 { CubeIs(t, 271, 0x78A5636F, 0x678A5636F); }
    else if t == 58 { CubeIs(t, 277, 0x84C87814, 0x684C87814); }
    else if t == 59 { CubeIs(t, 281, 0x8CC70208, 0x68CC70208); }
    else if t == 60 { CubeIs(t, 283, 0x90BEFFFA, 0x690BEFFFA); }
    else if t == 61 { CubeIs(t, 293, 0xA4506CEB, 0x6A4506CEB); }
    else if t == 62 { CubeIs(t, 307, 0xBEF9A3F7, 0x6BEF9A3F7); }
    else if t == 63 { CubeIs(t, 311, 0xC67178F2, 0x6C67178F2); }
  }

  lemma Square0(t: nat)
    requires 0 <= t < 8
    ensures exists c: nat :: IsSquareRoot(c, P[t]) && IsFraction(InitialHash[t], c)
  {
    if t == 0 { SquareIs(t, 2, 0x6A09E667, 0x16A09E667); }
    else if t == 1 { SquareIs(t, 3, 0xBB67AE85, 0x1BB67AE85); }
    else if t == 2 { SquareIs(t, 5, 0x3C6EF372, 0x23C6EF372); }
    else if t == 3 { SquareIs(t, 7, 0xA54FF53A, 0x2A54FF53A); }
    else if t == 4 { SquareIs(t, 11, 0x510E527F, 0x3510E527F); }
    else if t == 5 { SquareIs(t, 13, 0x9B05688C, 0x39B05688C); }
    else if t == 6 { SquareIs(t, 17, 0x1F83D9AB, 0x41F83D9AB); }
    else if t == 7 { SquareIs(t, 19, 0x5BE0CD19, 0x45BE0CD19); }
  }

  /** Section 4.2.2: the first 32 bits of the fractional parts of the cube roots of the first 64 primes. */
  lemma RoundConstantIsCubeRoot(t: nat, p: nat)
    requires t < 64 && PrimeAt(t, p)
    ensures exists c: nat ::
              && c * c * c <= p * 0x1_0000_0000_0000_0000_0000_0000 < (c + 1) * (c + 1) * (c + 1)
              && RoundConstant(t) as nat == c % 0x1_0000_0000
  {
    PrimeTable(t);
    OnePrimeAt(t, p, P[t]);
    NthIsIndex(K, t);
    CubeRoot(t);
    var c: nat :| IsCubeRoot(c, P[t]) && IsFraction(K[t], c);
  }

  lemma CubeRoot(t: nat)
    requires t < 64
    ensures exists c: nat :: IsCubeRoot(c, P[t]) && IsFraction(K[t], c)
  {
    if t < 8 { Cube0(t); }
    else if t < 16 { Cube1(t); }
    else if t < 24 { Cube2(t); }
    else if t < 32 { Cube3(t); }
    else if t < 40 { Cube4(t); }
    else if t < 48 { Cube5(t); }
    else if t < 56 { Cube6(t); }
    else if t < 64 { Cube7(t); }
  }

  /** Section 5.3.3: the same of the square roots of the first eight primes. */
  lemma InitialHashIsSquareRoot(t: nat, p: nat)
    requires t < 8 && PrimeAt(t, p)
    ensures exists c: nat ::
              && c * c <= p * 0x1_0000_0000_0000_0000 < (c + 1) * (c + 1)
              && InitialHash[t] as nat == c % 0x1_0000_0000
  {
    PrimeTable(t);
    OnePrimeAt(t, p, P[t]);
    Square0(t);
    var c: nat :| IsSquareRoot(c, P[t]) && IsFraction(InitialHash[t], c);
  }

  /** There is such a prime for every t, so neither lemma is empty. */
  lemma PrimeExists(t: nat)
    requires t < 64
    ensures exists p: nat :: PrimeAt(t, p)
  {
    PrimeTable(t);
  }
}
