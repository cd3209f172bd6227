/** The digest of "abc" in appendix B of FIPS 180-2, derived round by round. */
module Sha256Vector {
  import opened Sha256

  // ---------------------------------------------------------------------------
  // The one block
  // ---------------------------------------------------------------------------

  const Abc: seq<octet> := [0x61, 0x62, 0x63]

  /** The padded message: its three octets, 0x80, zeros, and its length of 24 bits. */
  ghost predicate IsAbcBlock(block: seq<octet>) {
    && |block| == BLOCK && block[0] == 0x61 && block[1] == 0x62 && block[2] == 0x63 && block[3] == 0x80
    && (forall i :: 4 <= i < 63 ==> block[i] == 0) && block[63] == 24
  }

  lemma PadAbc()
    ensures IsAbcBlock(Pad(Abc))
  {
    var padded := Pad(Abc);
    var field := LengthField(3);
    assert padded == (Abc + [0x80] + Zeros(52)) + field;
    assert forall i :: 4 <= i < 56 ==> padded[i] == Zeros(52)[i - 4];
    assert forall i :: 56 <= i < 64 ==> padded[i] == field[i - 56];
    LengthOf24();
  }

  lemma LengthOf24()
    ensures forall i :: 0 <= i < 7 ==> LengthField(3)[i] == 0
    ensures LengthField(3)[7] == 24
  {
    assert LengthBits(3) == 24;
    forall i | 0 <= i < 7 ensures LengthField(3)[i] == 0 {
      HighOctet(24, i);
    }
    LowOctet(24);
  }

  lemma HighOctet(bits: nat, i: nat)
    requires bits < 256 && i < 7
    ensures LengthOctet(bits, i) == 0
  {
    PowPositive(6 - i);
    TooSmall(bits, Common.Pow256(7 - i));
  }

  lemma {:induction false} PowPositive(n: nat)
    ensures Common.Pow256(n + 1) >= 256
  {
    if n > 0 { PowPositive(n - 1); }
  }

  lemma LowOctet(bits: nat)
    requires bits < 256
    ensures LengthOctet(bits, 7) as nat == bits
  {
    assert Common.Pow256(0) == 1;
    OctetIs(bits / Common.Pow256(0));
  }

  lemma OctetIs(n: nat)
    requires n < 256
    ensures (n % 256) as octet as nat == n
  {
  }

  lemma TooSmall(n: nat, divisor: nat)
    requires n < divisor
    ensures n / divisor == 0
  {
  }

  // ---------------------------------------------------------------------------
  // The message schedule
  // ---------------------------------------------------------------------------

  datatype Sixteen = Sixteen(
    w0: word, w1: word, w2: word, w3: word, w4: word, w5: word, w6: word, w7: word,
    w8: word, w9: word, w10: word, w11: word, w12: word, w13: word, w14: word, w15: word)

  /** Words t to t + 15 of the schedule. */
  ghost predicate Words(block: seq<octet>, t: nat, s: Sixteen)
    requires |block| == BLOCK
  {
    && t + 16 <= ROUNDS
    && Schedule(block, t) == s.w0 && Schedule(block, t + 1) == s.w1 && Schedule(block, t + 2) == s.w2
    && Schedule(block, t + 3) == s.w3 && Schedule(block, t + 4) == s.w4 && Schedule(block, t + 5) == s.w5
    && Schedule(block, t + 6) == s.w6 && Schedule(block, t + 7) == s.w7 && Schedule(block, t + 8) == s.w8
    && Schedule(block, t + 9) == s.w9 && Schedule(block, t + 10) == s.w10 && Schedule(block, t + 11) == s.w11
    && Schedule(block, t + 12) == s.w12 && Schedule(block, t + 13) == s.w13 && Schedule(block, t + 14) == s.w14
    && Schedule(block, t + 15) == s.w15
  }

  const W0 := Sixteen(
    0x61626380, 0x00000000, 0x00000000, 0x00000000, 0x00000000, 0x00000000, 0x00000000, 0x00000000,
    0x00000000, 0x00000000, 0x00000000, 0x00000000, 0x00000000, 0x00000000, 0x00000000, 0x00000018)

  const W1 := Sixteen(
    0x61626380, 0x000F0000, 0x7DA86405, 0x600003C6, 0x3E9D7B78, 0x0183FC00, 0x12DCBFDB, 0xE2E2C38E,
    0xC8215C1A, 0xB73679A2, 0xE5BC3909, 0x32663C5B, 0x9D209D67, 0xEC8726CB, 0x702138A4, 0xD3B7973B)

  const W2 := Sixteen(
    0x93F5997F, 0x3B68BA73, 0xAFF4FFC1, 0xF10A5C62, 0x0A8B3996, 0x72AF830A, 0x9409E33E, 0x24641522,
    0x9F47BF94, 0xF0A64F5A, 0x3E246A79, 0x27333BA3, 0x0C4763F2, 0x840ABF27, 0x7A290D5D, 0x065C43DA)

  const W3 := Sixteen(
    0xFB3E89CB, 0xCC7617DB, 0xB9E66C34, 0xA9993667, 0x84BADEDD, 0xC21462BC, 0x1487472C, 0xB20F7A99,
    0xEF57B9CD, 0xEBE6B238, 0x9FE3095E, 0x78BC8D4B, 0xA43FCF15, 0x668B2FF8, 0xEEABA2CC, 0x12B1EDEB)

  lemma FirstWords(block: seq<octet>, t: nat)
    requires IsAbcBlock(block) && t == 0
    ensures Words(block, t, W0)
  {
    Word0(block);
    ZeroWords(block);
  }

  lemma Word0(block: seq<octet>)
    requires IsAbcBlock(block)
    ensures WordAt(block, 0) == 0x61626380 && WordAt(block, 15) == 0x00000018
  {
  }

  lemma ZeroWords(block: seq<octet>)
    requires IsAbcBlock(block)
    ensures forall i :: 0 < i < 15 ==> WordAt(block, i) == 0
  {
  }

  lemma NextWordIs(block: seq<octet>, t: nat, a: word, b: word, c: word, d: word, x: word)
    requires |block| == BLOCK && 16 <= t < ROUNDS
    requires Schedule(block, t - 2) == a && Schedule(block, t - 7) == b && Schedule(block, t - 15) == c && Schedule(block, t - 16) == d
    requires Sum4(SmallSigma1(a), b, SmallSigma0(c), d) == x
    ensures Schedule(block, t) == x
  {
  }

  lemma NextWords1(block: seq<octet>, t: nat)
    requires |block| == BLOCK && t == 0 && Words(block, t, W0)
    ensures Words(block, t + 16, W1)
  {
    NextWordIs(block, t + 16, 0x00000000, 0x00000000, 0x00000000, 0x61626380, 0x61626380);
    NextWordIs(block, t + 17, 0x00000018, 0x00000000, 0x00000000, 0x00000000, 0x000F0000);
    NextWordIs(block, t + 18, 0x61626380, 0x00000000, 0x00000000, 0x00000000, 0x7DA86405);
    NextWordIs(block, t + 19, 0x000F0000, 0x00000000, 0x00000000, 0x00000000, 0x600003C6);
    NextWordIs(block, t + 20, 0x7DA86405, 0x00000000, 0x00000000, 0x00000000, 0x3E9D7B78);
    NextWordIs(block, t + 21, 0x600003C6, 0x00000000, 0x00000000, 0x00000000, 0x0183FC00);
    NextWordIs(block, t + 22, 0x3E9D7B78, 0x00000018, 0x00000000, 0x00000000, 0x12DCBFDB);
    NextWordIs(block, t + 23, 0x0183FC00, 0x61626380, 0x00000000, 0x00000000, 0xE2E2C38E);
    NextWordIs(block, t + 24, 0x12DCBFDB, 0x000F0000, 0x00000000, 0x00000000, 0xC8215C1A);
    NextWordIs(block, t + 25, 0xE2E2C38E, 0x7DA86405, 0x00000000, 0x00000000, 0xB73679A2);
    NextWordIs(block, t + 26, 0xC8215C1A, 0x600003C6, 0x00000000, 0x00000000, 0xE5BC3909);
    NextWordIs(block, t + 27, 0xB73679A2, 0x3E9D7B78, 0x00000000, 0x00000000, 0x32663C5B);
    NextWordIs(block, t + 28, 0xE5BC3909, 0x0183FC00, 0x00000000, 0x00000000, 0x9D209D67);
    NextWordIs(block, t + 29, 0x32663C5B, 0x12DCBFDB, 0x00000000, 0x00000000, 0xEC8726CB);
    NextWordIs(block, t + 30, 0x9D209D67, 0xE2E2C38E, 0x00000018, 0x00000000, 0x702138A4);
    NextWordIs(block, t + 31, 0xEC8726CB, 0xC8215C1A, 0x61626380, 0x00000018, 0xD3B7973B);
  }

  lemma NextWords2(block: seq<octet>, t: nat)
    requires |block| == BLOCK && t == 16 && Words(block, t, W1)
    ensures Words(block, t + 16, W2)
  {
    NextWordIs(block, t + 16, 0x702138A4, 0xB73679A2, 0x000F0000, 0x61626380, 0x93F5997F);
    NextWordIs(block, t + 17, 0xD3B7973B, 0xE5BC3909, 0x7DA86405, 0x000F0000, 0x3B68BA73);
    NextWordIs(block, t + 18, 0x93F5997F, 0x32663C5B, 0x600003C6, 0x7DA86405, 0xAFF4FFC1);
    NextWordIs(block, t + 19, 0x3B68BA73, 0x9D209D67, 0x3E9D7B78, 0x600003C6, 0xF10A5C62);
    NextWordIs(block, t + 20, 0xAFF4FFC1, 0xEC8726CB, 0x0183FC00, 0x3E9D7B78, 0x0A8B3996);
    NextWordIs(block, t + 21, 0xF10A5C62, 0x702138A4, 0x12DCBFDB, 0x0183FC00, 0x72AF830A);
    NextWordIs(block, t + 22, 0x0A8B3996, 0xD3B7973B, 0xE2E2C38E, 0x12DCBFDB, 0x9409E33E);
    NextWordIs(block, t + 23, 0x72AF830A, 0x93F5997F, 0xC8215C1A, 0xE2E2C38E, 0x24641522);
    NextWordIs(block, t + 24, 0x9409E33E, 0x3B68BA73, 0xB73679A2, 0xC8215C1A, 0x9F47BF94);
    NextWordIs(block, t + 25, 0x24641522, 0xAFF4FFC1, 0xE5BC3909, 0xB73679A2, 0xF0A64F5A);
    NextWordIs(block, t + 26, 0x9F47BF94, 0xF10A5C62, 0x32663C5B, 0xE5BC3909, 0x3E246A79);
    NextWordIs(block, t + 27, 0xF0A64F5A, 0x0A8B3996, 0x9D209D67, 0x32663C5B, 0x27333BA3);
    NextWordIs(block, t + 28, 0x3E246A79, 0x72AF830A, 0xEC8726CB, 0x9D209D67, 0x0C4763F2);
    NextWordIs(block, t + 29, 0x27333BA3, 0x9409E33E, 0x702138A4, 0xEC8726CB, 0x840ABF27);
    NextWordIs(block, t + 30, 0x0C4763F2, 0x24641522, 0xD3B7973B, 0x702138A4, 0x7A290D5D);
    NextWordIs(block, t + 31, 0x840ABF27, 0x9F47BF94, 0x93F5997F, 0xD3B7973B, 0x065C43DA);
  }

  lemma NextWords3(block: seq<octet>, t: nat)
    requires |block| == BLOCK && t == 32 && Words(block, t, W2)
    ensures Words(block, t + 16, W3)
  {
    NextWordIs(block, t + 16, 0x7A290D5D, 0xF0A64F5A, 0x3B68BA73, 0x93F5997F, 0xFB3E89CB);
    NextWordIs(block, t + 17, 0x065C43DA, 0x3E246A79, 0xAFF4FFC1, 0x3B68BA73, 0xCC7617DB);
    NextWordIs(block, t + 18, 0xFB3E89CB, 0x27333BA3, 0xF10A5C62, 0xAFF4FFC1, 0xB9E66C34);
    NextWordIs(block, t + 19, 0xCC7617DB, 0x0C4763F2, 0x0A8B3996, 0xF10A5C62, 0xA9993667);
    NextWordIs(block, t + 20, 0xB9E66C34, 0x840ABF27, 0x72AF830A, 0x0A8B3996, 0x84BADEDD);
    NextWordIs(block, t + 21, 0xA9993667, 0x7A290D5D, 0x9409E33E, 0x72AF830A, 0xC21462BC);
    NextWordIs(block, t + 22, 0x84BADEDD, 0x065C43DA, 0x24641522, 0x9409E33E, 0x1487472C);
    NextWordIs(block, t + 23, 0xC21462BC, 0xFB3E89CB, 0x9F47BF94, 0x24641522, 0xB20F7A99);
    NextWordIs(block, t + 24, 0x1487472C, 0xCC7617DB, 0xF0A64F5A, 0x9F47BF94, 0xEF57B9CD);
    NextWordIs(block, t + 25, 0xB20F7A99, 0xB9E66C34, 0x3E246A79, 0xF0A64F5A, 0xEBE6B238);
    NextWordIs(block, t + 26, 0xEF57B9CD, 0xA9993667, 0x27333BA3, 0x3E246A79, 0x9FE3095E);
    NextWordIs(block, t + 27, 0xEBE6B238, 0x84BADEDD, 0x0C4763F2, 0x27333BA3, 0x78BC8D4B);
    NextWordIs(block, t + 28, 0x9FE3095E, 0xC21462BC, 0x840ABF27, 0x0C4763F2, 0xA43FCF15);
    NextWordIs(block, t + 29, 0x78BC8D4B, 0x1487472C, 0x7A290D5D, 0x840ABF27, 0x668B2FF8);
    NextWordIs(block, t + 30, 0xA43FCF15, 0xB20F7A99, 0x065C43DA, 0x7A290D5D, 0xEEABA2CC);
    NextWordIs(block, t + 31, 0x668B2FF8, 0xEF57B9CD, 0xFB3E89CB, 0x065C43DA, 0x12B1EDEB);
  }

  // ---------------------------------------------------------------------------
  // The rounds
  // ---------------------------------------------------------------------------

  ghost predicate Stands(block: seq<octet>, t: nat, v: Working) {
    |block| == BLOCK && t <= ROUNDS && Rounds(InitialHash, block, t) == v
  }

  lemma NextRound(block: seq<octet>, t: nat, v: Working, k: word, w: word, next: Working)
    requires Stands(block, t, v) && t < ROUNDS && RoundConstant(t) == k && Schedule(block, t) == w && Round(v, k, w) == next
    ensures Stands(block, t + 1, next)
  {
  }

  lemma Rounds0(block: seq<octet>, t: nat)
    requires |block| == BLOCK && t == 0 && Words(block, t, W0)
    requires Stands(block, t, Working(0x6A09E667, 0xBB67AE85, 0x3C6EF372, 0xA54FF53A, 0x510E527F, 0x9B05688C, 0x1F83D9AB, 0x5BE0CD19))
    ensures Stands(block, t + 8, Working(0x85A07B5F, 0xE5030380, 0x2B4209F5, 0x04409A6A, 0x0C657A79, 0x9B27A401, 0x714260AD, 0x43ADA245))
  {
    Constants0(t);
    NextRound(block, t + 0, Working(0x6A09E667, 0xBB67AE85, 0x3C6EF372, 0xA54FF53A, 0x510E527F, 0x9B05688C, 0x1F83D9AB, 0x5BE0CD19), 0x428A2F98, 0x61626380,
              Working(0x5D6AEBCD, 0x6A09E667, 0xBB67AE85, 0x3C6EF372, 0xFA2A4622, 0x510E527F, 0x9B05688C, 0x1F83D9AB));
    NextRound(block, t + 1, Working(0x5D6AEBCD, 0x6A09E667, 0xBB67AE85, 0x3C6EF372, 0xFA2A4622, 0x510E527F, 0x9B05688C, 0x1F83D9AB), 0x71374491, 0x00000000,
              Working(0x5A6AD9AD, 0x5D6AEBCD, 0x6A09E667, 0xBB67AE85, 0x78CE7989, 0xFA2A4622, 0x510E527F, 0x9B05688C));
    NextRound(block, t + 2, Working(0x5A6AD9AD, 0x5D6AEBCD, 0x6A09E667, 0xBB67AE85, 0x78CE7989, 0xFA2A4622, 0x510E527F, 0x9B05688C), 0xB5C0FBCF, 0x00000000,
              Working(0xC8C347A7, 0x5A6AD9AD, 0x5D6AEBCD, 0x6A09E667, 0xF92939EB, 0x78CE7989, 0xFA2A4622, 0x510E527F));
    NextRound(block, t + 3, Working(0xC8C347A7, 0x5A6AD9AD, 0x5D6AEBCD, 0x6A09E667, 0xF92939EB, 0x78CE7989, 0xFA2A4622, 0x510E527F), 0xE9B5DBA5, 0x00000000,
              Working(0xD550F666, 0xC8C347A7, 0x5A6AD9AD, 0x5D6AEBCD, 0x24E00850, 0xF92939EB, 0x78CE7989, 0xFA2A4622));
    NextRound(block, t + 4, Working(0xD550F666, 0xC8C347A7, 0x5A6AD9AD, 0x5D6AEBCD, 0x24E00850, 0xF92939EB, 0x78CE7989, 0xFA2A4622), 0x3956C25B, 0x00000000,
              Working(0x04409A6A, 0xD550F666, 0xC8C347A7, 0x5A6AD9AD, 0x43ADA245, 0x24E00850, 0xF92939EB, 0x78CE7989));
    NextRound(block, t + 5, Working(0x04409A6A, 0xD550F666, 0xC8C347A7, 0x5A6AD9AD, 0x43ADA245, 0x24E00850, 0xF92939EB, 0x78CE7989), 0x59F111F1, 0x00000000,
              Working(0x2B4209F5, 0x04409A6A, 0xD550F666, 0xC8C347A7, 0x714260AD, 0x43ADA245, 0x24E00850, 0xF92939EB));
    NextRound(block, t + 6, Working(0x2B4209F5, 0x04409A6A, 0xD550F666, 0xC8C347A7, 0x714260AD, 0x43ADA245, 0x24E00850, 0xF92939EB), 0x923F82A4, 0x00000000,
              Working(0xE5030380, 0x2B4209F5, 0x04409A6A, 0xD550F666, 0x9B27A401, 0x714260AD, 0x43ADA245, 0x24E00850));
    NextRound(block, t + 7, Working(0xE5030380, 0x2B4209F5, 0x04409A6A, 0xD550F666, 0x9B27A401, 0x714260AD, 0x43ADA245, 0x24E00850), 0xAB1C5ED5, 0x00000000,
              Working(0x85A07B5F, 0xE5030380, 0x2B4209F5, 0x04409A6A, 0x0C657A79, 0x9B27A401, 0x714260AD, 0x43ADA245));
  }

  lemma Constants0(t: nat)
    requires t == 0
    ensures RoundConstant(t) == 0x428A2F98 && RoundConstant(t + 1) == 0x71374491 && RoundConstant(t + 2) == 0xB5C0FBCF && RoundConstant(t + 3) == 0xE9B5DBA5
    ensures RoundConstant(t + 4) == 0x3956C25B && RoundConstant(t + 5) == 0x59F111F1 && RoundConstant(t + 6) == 0x923F82A4 && RoundConstant(t + 7) == 0xAB1C5ED5
  {
    NthIsIndex(K, t + 0);
    NthIsIndex(K, t + 1);
    NthIsIndex(K, t + 2);
    NthIsIndex(K, t + 3);
    NthIsIndex(K, t + 4);
    NthIsIndex(K, t + 5);
    NthIsIndex(K, t + 6);
    NthIsIndex(K, t + 7);
  }

  lemma Rounds1(block: seq<octet>, t: nat)
    requires |block| == BLOCK && t == 8 && Words(block, t - 8, W0)
    requires Stands(block, t, Working(0x85A07B5F, 0xE5030380, 0x2B4209F5, 0x04409A6A, 0x0C657A79, 0x9B27A401, 0x714260AD, 0x43ADA245))
    ensures Stands(block, t + 8, Working(0xB0FA238E, 0xC0645FDE, 0xD932EB16, 0x87912990, 0x07590DCD, 0x0B92F20C, 0x745A48DE, 0x1E578218))
  {
    Constants1(t);
    NextRound(block, t + 0, Working(0x85A07B5F, 0xE5030380, 0x2B4209F5, 0x04409A6A, 0x0C657A79, 0x9B27A401, 0x714260AD, 0x43ADA245), 0xD807AA98, 0x00000000,
              Working(0x8E04ECB9, 0x85A07B5F, 0xE5030380, 0x2B4209F5, 0x32CA2D8C, 0x0C657A79, 0x9B27A401, 0x714260AD));
    NextRound(block, t + 1, Working(0x8E04ECB9, 0x85A07B5F, 0xE5030380, 0x2B4209F5, 0x32CA2D8C, 0x0C657A79, 0x9B27A401, 0x714260AD), 0x12835B01, 0x00000000,
              Working(0x8C87346B, 0x8E04ECB9, 0x85A07B5F, 0xE5030380, 0x1CC92596, 0x32CA2D8C, 0x0C657A79, 0x9B27A401));
    NextRound(block, t + 2, Working(0x8C87346B, 0x8E04ECB9, 0x85A07B5F, 0xE5030380, 0x1CC92596, 0x32CA2D8C, 0x0C657A79, 0x9B27A401), 0x243185BE, 0x00000000,
              Working(0x4798A3F4, 0x8C87346B, 0x8E04ECB9, 0x85A07B5F, 0x436B23E8, 0x1CC92596, 0x32CA2D8C, 0x0C657A79));
    NextRound(block, t + 3, Working(0x4798A3F4, 0x8C87346B, 0x8E04ECB9, 0x85A07B5F, 0x436B23E8, 0x1CC92596, 0x32CA2D8C, 0x0C657A79), 0x550C7DC3, 0x00000000,
              Working(0xF71FC5A9, 0x4798A3F4, 0x8C87346B, 0x8E04ECB9, 0x816FD6E9, 0x436B23E8, 0x1CC92596, 0x32CA2D8C));
    NextRound(block, t + 4, Working(0xF71FC5A9, 0x4798A3F4, 0x8C87346B, 0x8E04ECB9, 0x816FD6E9, 0x436B23E8, 0x1CC92596, 0x32CA2D8C), 0x72BE5D74, 0x00000000,
              Working(0x87912990, 0xF71FC5A9, 0x4798A3F4, 0x8C87346B, 0x1E578218, 0x816FD6E9, 0x436B23E8, 0x1CC92596));
    NextRound(block, t + 5, Working(0x87912990, 0xF71FC5A9, 0x4798A3F4, 0x8C87346B, 0x1E578218, 0x816FD6E9, 0x436B23E8, 0x1CC92596), 0x80DEB1FE, 0x00000000,
              Working(0xD932EB16, 0x87912990, 0xF71FC5A9, 0x4798A3F4, 0x745A48DE, 0x1E578218, 0x816FD6E9, 0x436B23E8));
    NextRound(block, t + 6, Working(0xD932EB16, 0x87912990, 0xF71FC5A9, 0x4798A3F4, 0x745A48DE, 0x1E578218, 0x816FD6E9, 0x436B23E8), 0x9BDC06A7, 0x00000000,
              Working(0xC0645FDE, 0xD932EB16, 0x87912990, 0xF71FC5A9, 0x0B92F20C, 0x745A48DE, 0x1E578218, 0x816FD6E9));
    NextRound(block, t + 7, Working(0xC0645FDE, 0xD932EB16, 0x87912990, 0xF71FC5A9, 0x0B92F20C, 0x745A48DE, 0x1E578218, 0x816FD6E9), 0xC19BF174, 0x00000018,
              Working(0xB0FA238E, 0xC0645FDE, 0xD932EB16, 0x87912990, 0x07590DCD, 0x0B92F20C, 0x745A48DE, 0x1E578218));
  }

  lemma Constants1(t: nat)
    requires t == 8
    ensures RoundConstant(t) == 0xD807AA98 && RoundConstant(t + 1) == 0x12835B01 && RoundConstant(t + 2) == 0x243185BE && RoundConstant(t + 3) == 0x550C7DC3
    ensures RoundConstant(t + 4) == 0x72BE5D74 && RoundConstant(t + 5) == 0x80DEB1FE && RoundConstant(t + 6) == 0x9BDC06A7 && RoundConstant(t + 7) == 0xC19BF174
  {
    NthIsIndex(K, t + 0);
    NthIsIndex(K, t + 1);
    NthIsIndex(K, t + 2);
    NthIsIndex(K, t + 3);
    NthIsIndex(K, t + 4);
    NthIsIndex(K, t + 5);
    NthIsIndex(K, t + 6);
    NthIsIndex(K, t + 7);
  }

  lemma Rounds2(block: seq<octet>, t: nat)
    requires |block| == BLOCK && t == 16 && Words(block, t, W1)
    requires Stands(block, t, Working(0xB0FA238E, 0xC0645FDE, 0xD932EB16, 0x87912990, 0x07590DCD, 0x0B92F20C, 0x745A48DE, 0x1E578218))
    ensures Stands(block, t + 8, Working(0xC5D53D8D, 0xA7A3623F, 0xC2606D6D, 0x9DC68B63, 0xAA47C347, 0x49F5114A, 0xE1257970, 0x8ADA8930))
  {
    Constants2(t);
    NextRound(block, t + 0, Working(0xB0FA238E, 0xC0645FDE, 0xD932EB16, 0x87912990, 0x07590DCD, 0x0B92F20C, 0x745A48DE, 0x1E578218), 0xE49B69C1, 0x61626380,
              Working(0x21DA9A9B, 0xB0FA238E, 0xC0645FDE, 0xD932EB16, 0x8034229C, 0x07590DCD, 0x0B92F20C, 0x745A48DE));
    NextRound(block, t + 1, Working(0x21DA9A9B, 0xB0FA238E, 0xC0645FDE, 0xD932EB16, 0x8034229C, 0x07590DCD, 0x0B92F20C, 0x745A48DE), 0xEFBE4786, 0x000F0000,
              Working(0xC2FBD9D1, 0x21DA9A9B, 0xB0FA238E, 0xC0645FDE, 0x846EE454, 0x8034229C, 0x07590DCD, 0x0B92F20C));
    NextRound(block, t + 2, Working(0xC2FBD9D1, 0x21DA9A9B, 0xB0FA238E, 0xC0645FDE, 0x846EE454, 0x8034229C, 0x07590DCD, 0x0B92F20C), 0x0FC19DC6, 0x7DA86405,
              Working(0xFE777BBF, 0xC2FBD9D1, 0x21DA9A9B, 0xB0FA238E, 0xCC899961, 0x846EE454, 0x8034229C, 0x07590DCD));
    NextRound(block, t + 3, Working(0xFE777BBF, 0xC2FBD9D1, 0x21DA9A9B, 0xB0FA238E, 0xCC899961, 0x846EE454, 0x8034229C, 0x07590DCD), 0x240CA1CC, 0x600003C6,
              Working(0xE1F20C33, 0xFE777BBF, 0xC2FBD9D1, 0x21DA9A9B, 0xB0638179, 0xCC899961, 0x846EE454, 0x8034229C));
    NextRound(block, t + 4, Working(0xE1F20C33, 0xFE777BBF, 0xC2FBD9D1, 0x21DA9A9B, 0xB0638179, 0xCC899961, 0x846EE454, 0x8034229C), 0x2DE92C6F, 0x3E9D7B78,
              Working(0x9DC68B63, 0xE1F20C33, 0xFE777BBF, 0xC2FBD9D1, 0x8ADA8930, 0xB0638179, 0xCC899961, 0x846EE454));
    NextRound(block, t + 5, Working(0x9DC68B63, 0xE1F20C33, 0xFE777BBF, 0xC2FBD9D1, 0x8ADA8930, 0xB0638179, 0xCC899961, 0x846EE454), 0x4A7484AA, 0x0183FC00,
              Working(0xC2606D6D, 0x9DC68B63, 0xE1F20C33, 0xFE777BBF, 0xE1257970, 0x8ADA8930, 0xB0638179, 0xCC899961));
    NextRound(block, t + 6, Working(0xC2606D6D, 0x9DC68B63, 0xE1F20C33, 0xFE777BBF, 0xE1257970, 0x8ADA8930, 0xB0638179, 0xCC899961), 0x5CB0A9DC, 0x12DCBFDB,
              Working(0xA7A3623F, 0xC2606D6D, 0x9DC68B63, 0xE1F20C33, 0x49F5114A, 0xE1257970, 0x8ADA8930, 0xB0638179));
    NextRound(block, t + 7, Working(0xA7A3623F, 0xC2606D6D, 0x9DC68B63, 0xE1F20C33, 0x49F5114A, 0xE1257970, 0x8ADA8930, 0xB0638179), 0x76F988DA, 0xE2E2C38E,
              Working(0xC5D53D8D, 0xA7A3623F, 0xC2606D6D, 0x9DC68B63, 0xAA47C347, 0x49F5114A, 0xE1257970, 0x8ADA8930));
  }

  lemma Constants2(t: nat)
    requires t == 16
    ensures RoundConstant(t) == 0xE49B69C1 && RoundConstant(t + 1) == 0xEFBE4786 && RoundConstant(t + 2) == 0x0FC19DC6 && RoundConstant(t + 3) == 0x240CA1CC
    ensures RoundConstant(t + 4) == 0x2DE92C6F && RoundConstant(t + 5) == 0x4A7484AA && RoundConstant(t + 6) == 0x5CB0A9DC && RoundConstant(t + 7) == 0x76F988DA
  {
    NthIsIndex(K, t + 0);
    NthIsIndex(K, t + 1);
    NthIsIndex(K, t + 2);
    NthIsIndex(K, t + 3);
    NthIsIndex(K, t + 4);
    NthIsIndex(K, t + 5);
    NthIsIndex(K, t + 6);
    NthIsIndex(K, t + 7);
  }

  lemma Rounds3(block: seq<octet>, t: nat)
    requires |block| == BLOCK && t == 24 && Words(block, t - 8, W1)
    requires Stands(block, t, Working(0xC5D53D8D, 0xA7A3623F, 0xC2606D6D, 0x9DC68B63, 0xAA47C347, 0x49F5114A, 0xE1257970, 0x8ADA8930))
    ensures Stands(block, t + 8, Working(0x73B33BF5, 0xEA992A22, 0xA0060B30, 0x363482C9, 0xBA591112, 0x0109AB3A, 0xADE79437, 0x6112A3B7))
  {
    Constants3(t);
    NextRound(block, t + 0, Working(0xC5D53D8D, 0xA7A3623F, 0xC2606D6D, 0x9DC68B63, 0xAA47C347, 0x49F5114A, 0xE1257970, 0x8ADA8930), 0x983E5152, 0xC8215C1A,
              Working(0x1C2C2838, 0xC5D53D8D, 0xA7A3623F, 0xC2606D6D, 0x2823EF91, 0xAA47C347, 0x49F5114A, 0xE1257970));
    NextRound(block, t + 1, Working(0x1C2C2838, 0xC5D53D8D, 0xA7A3623F, 0xC2606D6D, 0x2823EF91, 0xAA47C347, 0x49F5114A, 0xE1257970), 0xA831C66D, 0xB73679A2,
              Working(0xCDE8037D, 0x1C2C2838, 0xC5D53D8D, 0xA7A3623F, 0x14383D8E, 0x2823EF91, 0xAA47C347, 0x49F5114A));
    NextRound(block, t + 2, Working(0xCDE8037D, 0x1C2C2838, 0xC5D53D8D, 0xA7A3623F, 0x14383D8E, 0x2823EF91, 0xAA47C347, 0x49F5114A), 0xB00327C8, 0xE5BC3909,
              Working(0xB62EC4BC, 0xCDE8037D, 0x1C2C2838, 0xC5D53D8D, 0xC74C6516, 0x14383D8E, 0x2823EF91, 0xAA47C347));
    NextRound(block, t + 3, Working(0xB62EC4BC, 0xCDE8037D, 0x1C2C2838, 0xC5D53D8D, 0xC74C6516, 0x14383D8E, 0x2823EF91, 0xAA47C347), 0xBF597FC7, 0x32663C5B,
              Working(0x77D37528, 0xB62EC4BC, 0xCDE8037D, 0x1C2C2838, 0xEDFFBFF8, 0xC74C6516, 0x14383D8E, 0x2823EF91));
    NextRound(block, t + 4, Working(0x77D37528, 0xB62EC4BC, 0xCDE8037D, 0x1C2C2838, 0xEDFFBFF8, 0xC74C6516, 0x14383D8E, 0x2823EF91), 0xC6E00BF3, 0x9D209D67,
              Working(0x363482C9, 0x77D37528, 0xB62EC4BC, 0xCDE8037D, 0x6112A3B7, 0xEDFFBFF8, 0xC74C6516, 0x14383D8E));
    NextRound(block, t + 5, Working(0x363482C9, 0x77D37528, 0xB62EC4BC, 0xCDE8037D, 0x6112A3B7, 0xEDFFBFF8, 0xC74C6516, 0x14383D8E), 0xD5A79147, 0xEC8726CB,
              Working(0xA0060B30, 0x363482C9, 0x77D37528, 0xB62EC4BC, 0xADE79437, 0x6112A3B7, 0xEDFFBFF8, 0xC74C6516));
    NextRound(block, t + 6, Working(0xA0060B30, 0x363482C9, 0x77D37528, 0xB62EC4BC, 0xADE79437, 0x6112A3B7, 0xEDFFBFF8, 0xC74C6516), 0x06CA6351, 0x702138A4,
              Working(0xEA992A22, 0xA0060B30, 0x363482C9, 0x77D37528, 0x0109AB3A, 0xADE79437, 0x6112A3B7, 0xEDFFBFF8));
    NextRound(block, t + 7, Working(0xEA992A22, 0xA0060B30, 0x363482C9, 0x77D37528, 0x0109AB3A, 0xADE79437, 0x6112A3B7, 0xEDFFBFF8), 0x14292967, 0xD3B7973B,
              Working(0x73B33BF5, 0xEA992A22, 0xA0060B30, 0x363482C9, 0xBA591112, 0x0109AB3A, 0xADE79437, 0x6112A3B7));
  }

  lemma Constants3(t: nat)
    requires t == 24
    ensures RoundConstant(t) == 0x983E5152 && RoundConstant(t + 1) == 0xA831C66D && RoundConstant(t + 2) == 0xB00327C8 && RoundConstant(t + 3) == 0xBF597FC7
    ensures RoundConstant(t + 4) == 0xC6E00BF3 && RoundConstant(t + 5) == 0xD5A79147 && RoundConstant(t + 6) == 0x06CA6351 && RoundConstant(t + 7) == 0x14292967
  {
    NthIsIndex(K, t + 0);
    NthIsIndex(K, t + 1);
    NthIsIndex(K, t + 2);
    NthIsIndex(K, t + 3);
    NthIsIndex(K, t + 4);
    NthIsIndex(K, t + 5);
    NthIsIndex(K, t + 6);
    NthIsIndex(K, t + 7);
  }

  lemma Rounds4(block: seq<octet>, t: nat)
    requires |block| == BLOCK && t == 32 && Words(block, t, W2)
    requires Stands(block, t, Working(0x73B33BF5, 0xEA992A22, 0xA0060B30, 0x363482C9, 0xBA591112, 0x0109AB3A, 0xADE79437, 0x6112A3B7))
    ensures Stands(block, t + 8, Working(0x79EA687A, 0x6DC57A8A, 0x34DF1604, 0x41A65CB1, 0x1EFBC0A0, 0xF0781BC8, 0xA507A53D, 0x0772A26B))
  {
    Constants4(t);
    NextRound(block, t + 0, Working(0x73B33BF5, 0xEA992A22, 0xA0060B30, 0x363482C9, 0xBA591112, 0x0109AB3A, 0xADE79437, 0x6112A3B7), 0x27B70A85, 0x93F5997F,
              Working(0x98E12507, 0x73B33BF5, 0xEA992A22, 0xA0060B30, 0x9CD9F5F6, 0xBA591112, 0x0109AB3A, 0xADE79437));
    NextRound(block, t + 1, Working(0x98E12507, 0x73B33BF5, 0xEA992A22, 0xA0060B30, 0x9CD9F5F6, 0xBA591112, 0x0109AB3A, 0xADE79437), 0x2E1B2138, 0x3B68BA73,
              Working(0xFE604DF5, 0x98E12507, 0x73B33BF5, 0xEA992A22, 0x59249DD3, 0x9CD9F5F6, 0xBA591112, 0x0109AB3A));
    NextRound(block, t + 2, Working(0xFE604DF5, 0x98E12507, 0x73B33BF5, 0xEA992A22, 0x59249DD3, 0x9CD9F5F6, 0xBA591112, 0x0109AB3A), 0x4D2C6DFC, 0xAFF4FFC1,
              Working(0xA9A7738C, 0xFE604DF5, 0x98E12507, 0x73B33BF5, 0x085F3833, 0x59249DD3, 0x9CD9F5F6, 0xBA591112));
    NextRound(block, t + 3, Working(0xA9A7738C, 0xFE604DF5, 0x98E12507, 0x73B33BF5, 0x085F3833, 0x59249DD3, 0x9CD9F5F6, 0xBA591112), 0x53380D13, 0xF10A5C62,
              Working(0x65A0CFE4, 0xA9A7738C, 0xFE604DF5, 0x98E12507, 0xF4B002D6, 0x085F3833, 0x59249DD3, 0x9CD9F5F6));
    NextRound(block, t + 4, Working(0x65A0CFE4, 0xA9A7738C, 0xFE604DF5, 0x98E12507, 0xF4B002D6, 0x085F3833, 0x59249DD3, 0x9CD9F5F6), 0x650A7354, 0x0A8B3996,
              Working(0x41A65CB1, 0x65A0CFE4, 0xA9A7738C, 0xFE604DF5, 0x0772A26B, 0xF4B002D6, 0x085F3833, 0x59249DD3));
    NextRound(block, t + 5, Working(0x41A65CB1, 0x65A0CFE4, 0xA9A7738C, 0xFE604DF5, 0x0772A26B, 0xF4B002D6, 0x085F3833, 0x59249DD3), 0x766A0ABB, 0x72AF830A,
              Working(0x34DF1604, 0x41A65CB1, 0x65A0CFE4, 0xA9A7738C, 0xA507A53D, 0x0772A26B, 0xF4B002D6, 0x085F3833));
    NextRound(block, t + 6, Working(0x34DF1604, 0x41A65CB1, 0x65A0CFE4, 0xA9A7738C, 0xA507A53D, 0x0772A26B, 0xF4B002D6, 0x085F3833), 0x81C2C92E, 0x9409E33E,
              Working(0x6DC57A8A, 0x34DF1604, 0x41A65CB1, 0x65A0CFE4, 0xF0781BC8, 0xA507A53D, 0x0772A26B, 0xF4B002D6));
    NextRound(block, t + 7, Working(0x6DC57A8A, 0x34DF1604, 0x41A65CB1, 0x65A0CFE4, 0xF0781BC8, 0xA507A53D, 0x0772A26B, 0xF4B002D6), 0x92722C85, 0x24641522,
              Working(0x79EA687A, 0x6DC57A8A, 0x34DF1604, 0x41A65CB1, 0x1EFBC0A0, 0xF0781BC8, 0xA507A53D, 0x0772A26B));
  }

  lemma Constants4(t: nat)
    requires t == 32
    ensures RoundConstant(t) == 0x27B70A85 && RoundConstant(t + 1) == 0x2E1B2138 && RoundConstant(t + 2) == 0x4D2C6DFC && RoundConstant(t + 3) == 0x53380D13
    ensures RoundConstant(t + 4) == 0x650A7354 && RoundConstant(t + 5) == 0x766A0ABB && RoundConstant(t + 6) == 0x81C2C92E && RoundConstant(t + 7) == 0x92722C85
  {
    NthIsIndex(K, t + 0);
    NthIsIndex(K, t + 1);
    NthIsIndex(K, t + 2);
    NthIsIndex(K, t + 3);
    NthIsIndex(K, t + 4);
    NthIsIndex(K, t + 5);
    NthIsIndex(K, t + 6);
    NthIsIndex(K, t + 7);
  }

  lemma Rounds5(block: seq<octet>, t: nat)
    requires |block| == BLOCK && t == 40 && Words(block, t - 8, W2)
    requires Stands(block, t, Working(0x79EA687A, 0x6DC57A8A, 0x34DF1604, 0x41A65CB1, 0x1EFBC0A0, 0xF0781BC8, 0xA507A53D, 0x0772A26B))
    ensures Stands(block, t + 8, Working(0x4172328D, 0xA14C14B0, 0x72AB4B91, 0x26628815, 0xFECF0BC6, 0xD57B94A9, 0xB7755DA1, 0xA80F11F0))
  {
    Constants5(t);
    NextRound(block, t + 0, Working(0x79EA687A, 0x6DC57A8A, 0x34DF1604, 0x41A65CB1, 0x1EFBC0A0, 0xF0781BC8, 0xA507A53D, 0x0772A26B), 0xA2BFE8A1, 0x9F47BF94,
              Working(0xD6670766, 0x79EA687A, 0x6DC57A8A, 0x34DF1604, 0x26352D63, 0x1EFBC0A0, 0xF0781BC8, 0xA507A53D));
    NextRound(block, t + 1, Working(0xD6670766, 0x79EA687A, 0x6DC57A8A, 0x34DF1604, 0x26352D63, 0x1EFBC0A0, 0xF0781BC8, 0xA507A53D), 0xA81A664B, 0xF0A64F5A,
              Working(0xDF46652F, 0xD6670766, 0x79EA687A, 0x6DC57A8A, 0x838B2711, 0x26352D63, 0x1EFBC0A0, 0xF0781BC8));
    NextRound(block, t + 2, Working(0xDF46652F, 0xD6670766, 0x79EA687A, 0x6DC57A8A, 0x838B2711, 0x26352D63, 0x1EFBC0A0, 0xF0781BC8), 0xC24B8B70, 0x3E246A79,
              Working(0x17AA0DFE, 0xDF46652F, 0xD6670766, 0x79EA687A, 0xDECD4715, 0x838B2711, 0x26352D63, 0x1EFBC0A0));
    NextRound(block, t + 3, Working(0x17AA0DFE, 0xDF46652F, 0xD6670766, 0x79EA687A, 0xDECD4715, 0x838B2711, 0x26352D63, 0x1EFBC0A0), 0xC76C51A3, 0x27333BA3,
              Working(0x9D4BAF93, 0x17AA0DFE, 0xDF46652F, 0xD6670766, 0xFDA24C2E, 0xDECD4715, 0x838B2711, 0x26352D63));
    NextRound(block, t + 4, Working(0x9D4BAF93, 0x17AA0DFE, 0xDF46652F, 0xD6670766, 0xFDA24C2E, 0xDECD4715, 0x838B2711, 0x26352D63), 0xD192E819, 0x0C4763F2,
              Working(0x26628815, 0x9D4BAF93, 0x17AA0DFE, 0xDF46652F, 0xA80F11F0, 0xFDA24C2E, 0xDECD4715, 0x838B2711));
    NextRound(block, t + 5, Working(0x26628815, 0x9D4BAF93, 0x17AA0DFE, 0xDF46652F, 0xA80F11F0, 0xFDA24C2E, 0xDECD4715, 0x838B2711), 0xD6990624, 0x840ABF27,
              Working(0x72AB4B91, 0x26628815, 0x9D4BAF93, 0x17AA0DFE, 0xB7755DA1, 0xA80F11F0, 0xFDA24C2E, 0xDECD4715));
    NextRound(block, t + 6, Working(0x72AB4B91, 0x26628815, 0x9D4BAF93, 0x17AA0DFE, 0xB7755DA1, 0xA80F11F0, 0xFDA24C2E, 0xDECD4715), 0xF40E3585, 0x7A290D5D,
              Working(0xA14C14B0, 0x72AB4B91, 0x26628815, 0x9D4BAF93, 0xD57B94A9, 0xB7755DA1, 0xA80F11F0, 0xFDA24C2E));
    NextRound(block, t + 7, Working(0xA14C14B0, 0x72AB4B91, 0x26628815, 0x9D4BAF93, 0xD57B94A9, 0xB7755DA1, 0xA80F11F0, 0xFDA24C2E), 0x106AA070, 0x065C43DA,
              Working(0x4172328D, 0xA14C14B0, 0x72AB4B91, 0x26628815, 0xFECF0BC6, 0xD57B94A9, 0xB7755DA1, 0xA80F11F0));
  }

  lemma Constants5(t: nat)
    requires t == 40
    ensures RoundConstant(t) == 0xA2BFE8A1 && RoundConstant(t + 1) == 0xA81A664B && RoundConstant(t + 2) == 0xC24B8B70 && RoundConstant(t + 3) == 0xC76C51A3
    ensures RoundConstant(t + 4) == 0xD192E819 && RoundConstant(t + 5) == 0xD6990624 && RoundConstant(t + 6) == 0xF40E3585 && RoundConstant(t + 7) == 0x106AA070
  {
    NthIsIndex(K, t + 0);
    NthIsIndex(K, t + 1);
    NthIsIndex(K, t + 2);
    NthIsIndex(K, t + 3);
    NthIsIndex(K, t + 4);
    NthIsIndex(K, t + 5);
    NthIsIndex(K, t + 6);
    NthIsIndex(K, t + 7);
  }

  lemma Rounds6(block: seq<octet>, t: nat)
    requires |block| == BLOCK && t == 48 && Words(block, t, W3)
    requires Stands(block, t, Working(0x4172328D, 0xA14C14B0, 0x72AB4B91, 0x26628815, 0xFECF0BC6, 0xD57B94A9, 0xB7755DA1, 0xA80F11F0))
    ensures Stands(block, t + 8, Working(0x38CC9913, 0x3EC45CDB, 0xF5702FDB, 0x101FD28F, 0x54CB266B, 0xE50E1B4F, 0x9F4787C3, 0x529E7D00))
  {
    Constants6(t);
    NextRound(block, t + 0, Working(0x4172328D, 0xA14C14B0, 0x72AB4B91, 0x26628815, 0xFECF0BC6, 0xD57B94A9, 0xB7755DA1, 0xA80F11F0), 0x19A4C116, 0xFB3E89CB,
              Working(0x05757CEB, 0x4172328D, 0xA14C14B0, 0x72AB4B91, 0xBD714038, 0xFECF0BC6, 0xD57B94A9, 0xB7755DA1));
    NextRound(block, t + 1, Working(0x05757CEB, 0x4172328D, 0xA14C14B0, 0x72AB4B91, 0xBD714038, 0xFECF0BC6, 0xD57B94A9, 0xB7755DA1), 0x1E376C08, 0xCC7617DB,
              Working(0xF11BFAA8, 0x05757CEB, 0x4172328D, 0xA14C14B0, 0x6E5C390C, 0xBD714038, 0xFECF0BC6, 0xD57B94A9));
    NextRound(block, t + 2, Working(0xF11BFAA8, 0x05757CEB, 0x4172328D, 0xA14C14B0, 0x6E5C390C, 0xBD714038, 0xFECF0BC6, 0xD57B94A9), 0x2748774C, 0xB9E66C34,
              Working(0x7A0508A1, 0xF11BFAA8, 0x05757CEB, 0x4172328D, 0x52F1CCF7, 0x6E5C390C, 0xBD714038, 0xFECF0BC6));
    NextRound(block, t + 3, Working(0x7A0508A1, 0xF11BFAA8, 0x05757CEB, 0x4172328D, 0x52F1CCF7, 0x6E5C390C, 0xBD714038, 0xFECF0BC6), 0x34B0BCB5, 0xA9993667,
              Working(0x886E7A22, 0x7A0508A1, 0xF11BFAA8, 0x05757CEB, 0x49231C1E, 0x52F1CCF7, 0x6E5C390C, 0xBD714038));
    NextRound(block, t + 4, Working(0x886E7A22, 0x7A0508A1, 0xF11BFAA8, 0x05757CEB, 0x49231C1E, 0x52F1CCF7, 0x6E5C390C, 0xBD714038), 0x391C0CB3, 0x84BADEDD,
              Working(0x101FD28F, 0x886E7A22, 0x7A0508A1, 0xF11BFAA8, 0x529E7D00, 0x49231C1E, 0x52F1CCF7, 0x6E5C390C));
    NextRound(block, t + 5, Working(0x101FD28F, 0x886E7A22, 0x7A0508A1, 0xF11BFAA8, 0x529E7D00, 0x49231C1E, 0x52F1CCF7, 0x6E5C390C), 0x4ED8AA4A, 0xC21462BC,
              Working(0xF5702FDB, 0x101FD28F, 0x886E7A22, 0x7A0508A1, 0x9F4787C3, 0x529E7D00, 0x49231C1E, 0x52F1CCF7));
    NextRound(block, t + 6, Working(0xF5702FDB, 0x101FD28F, 0x886E7A22, 0x7A0508A1, 0x9F4787C3, 0x529E7D00, 0x49231C1E, 0x52F1CCF7), 0x5B9CCA4F, 0x1487472C,
              Working(0x3EC45CDB, 0xF5702FDB, 0x101FD28F, 0x886E7A22, 0xE50E1B4F, 0x9F4787C3, 0x529E7D00, 0x49231C1E));
    NextRound(block, t + 7, Working(0x3EC45CDB, 0xF5702FDB, 0x101FD28F, 0x886E7A22, 0xE50E1B4F, 0x9F4787C3, 0x529E7D00, 0x49231C1E), 0x682E6FF3, 0xB20F7A99,
              Working(0x38CC9913, 0x3EC45CDB, 0xF5702FDB, 0x101FD28F, 0x54CB266B, 0xE50E1B4F, 0x9F4787C3, 0x529E7D00));
  }

  lemma Constants6(t: nat)
    requires t == 48
    ensures RoundConstant(t) == 0x19A4C116 && RoundConstant(t + 1) == 0x1E376C08 && RoundConstant(t + 2) == 0x2748774C && RoundConstant(t + 3) == 0x34B0BCB5
    ensures RoundConstant(t + 4) == 0x391C0CB3 && RoundConstant(t + 5) == 0x4ED8AA4A && RoundConstant(t + 6) == 0x5B9CCA4F && RoundConstant(t + 7) == 0x682E6FF3
  {
    NthIsIndex(K, t + 0);
    NthIsIndex(K, t + 1);
    NthIsIndex(K, t + 2);
    NthIsIndex(K, t + 3);
    NthIsIndex(K, t + 4);
    NthIsIndex(K, t + 5);
    NthIsIndex(K, t + 6);
    NthIsIndex(K, t + 7);
  }

  lemma Rounds7(block: seq<octet>, t: nat)
    requires |block| == BLOCK && t == 56 && Words(block, t - 8, W3)
    requires Stands(block, t, Working(0x38CC9913, 0x3EC45CDB, 0xF5702FDB, 0x101FD28F, 0x54CB266B, 0xE50E1B4F, 0x9F4787C3, 0x529E7D00))
    ensures Stands(block, t + 8, Working(0x506E3058, 0xD39A2165, 0x04D24D6C, 0xB85E2CE9, 0x5EF50F24, 0xFB121210, 0x948D25B6, 0x961F4894))
  {
    Constants7(t);
    NextRound(block, t + 0, Working(0x38CC9913, 0x3EC45CDB, 0xF5702FDB, 0x101FD28F, 0x54CB266B, 0xE50E1B4F, 0x9F4787C3, 0x529E7D00), 0x748F82EE, 0xEF57B9CD,
              Working(0xFCD1887B, 0x38CC9913, 0x3EC45CDB, 0xF5702FDB, 0x9B5E906C, 0x54CB266B, 0xE50E1B4F, 0x9F4787C3));
    NextRound(block, t + 1, Working(0xFCD1887B, 0x38CC9913, 0x3EC45CDB, 0xF5702FDB, 0x9B5E906C, 0x54CB266B, 0xE50E1B4F, 0x9F4787C3), 0x78A5636F, 0xEBE6B238,
              Working(0xC062D46F, 0xFCD1887B, 0x38CC9913, 0x3EC45CDB, 0x7E44008E, 0x9B5E906C, 0x54CB266B, 0xE50E1B4F));
    NextRound(block, t + 2, Working(0xC062D46F, 0xFCD1887B, 0x38CC9913, 0x3EC45CDB, 0x7E44008E, 0x9B5E906C, 0x54CB266B, 0xE50E1B4F), 0x84C87814, 0x9FE3095E,
              Working(0xFFB70472, 0xC062D46F, 0xFCD1887B, 0x38CC9913, 0x6D83BFC6, 0x7E44008E, 0x9B5E906C, 0x54CB266B));
    NextRound(block, t + 3, Working(0xFFB70472, 0xC062D46F, 0xFCD1887B, 0x38CC9913, 0x6D83BFC6, 0x7E44008E, 0x9B5E906C, 0x54CB266B), 0x8CC70208, 0x78BC8D4B,
              Working(0xB6AE8FFF, 0xFFB70472, 0xC062D46F, 0xFCD1887B, 0xB21BAD3D, 0x6D83BFC6, 0x7E44008E, 0x9B5E906C));
    NextRound(block, t + 4, Working(0xB6AE8FFF, 0xFFB70472, 0xC062D46F, 0xFCD1887B, 0xB21BAD3D, 0x6D83BFC6, 0x7E44008E, 0x9B5E906C), 0x90BEFFFA, 0xA43FCF15,
              Working(0xB85E2CE9, 0xB6AE8FFF, 0xFFB70472, 0xC062D46F, 0x961F4894, 0xB21BAD3D, 0x6D83BFC6, 0x7E44008E));
    NextRound(block, t + 5, Working(0xB85E2CE9, 0xB6AE8FFF, 0xFFB70472, 0xC062D46F, 0x961F4894, 0xB21BAD3D, 0x6D83BFC6, 0x7E44008E), 0xA4506CEB, 0x668B2FF8,
              Working(0x04D24D6C, 0xB85E2CE9, 0xB6AE8FFF, 0xFFB70472, 0x948D25B6, 0x961F4894, 0xB21BAD3D, 0x6D83BFC6));
    NextRound(block, t + 6, Working(0x04D24D6C, 0xB85E2CE9, 0xB6AE8FFF, 0xFFB70472, 0x948D25B6, 0x961F4894, 0xB21BAD3D, 0x6D83BFC6), 0xBEF9A3F7, 0xEEABA2CC,
              Working(0xD39A2165, 0x04D24D6C, 0xB85E2CE9, 0xB6AE8FFF, 0xFB121210, 0x948D25B6, 0x961F4894, 0xB21BAD3D));
    NextRound(block, t + 7, Working(0xD39A2165, 0x04D24D6C, 0xB85E2CE9, 0xB6AE8FFF, 0xFB121210, 0x948D25B6, 0x961F4894, 0xB21BAD3D), 0xC67178F2, 0x12B1EDEB,
              Working(0x506E3058, 0xD39A2165, 0x04D24D6C, 0xB85E2CE9, 0x5EF50F24, 0xFB121210, 0x948D25B6, 0x961F4894));
  }

  lemma Constants7(t: nat)
    requires t == 56
    ensures RoundConstant(t) == 0x748F82EE && RoundConstant(t + 1) == 0x78A5636F && RoundConstant(t + 2) == 0x84C87814 && RoundConstant(t + 3) == 0x8CC70208
    ensures RoundConstant(t + 4) == 0x90BEFFFA && RoundConstant(t + 5) == 0xA4506CEB && RoundConstant(t + 6) == 0xBEF9A3F7 && RoundConstant(t + 7) == 0xC67178F2
  {
    NthIsIndex(K, t + 0);
    NthIsIndex(K, t + 1);
    NthIsIndex(K, t + 2);
    NthIsIndex(K, t + 3);
    NthIsIndex(K, t + 4);
    NthIsIndex(K, t + 5);
    NthIsIndex(K, t + 6);
    NthIsIndex(K, t + 7);
  }

  lemma AbcRounds(block: seq<octet>, t: nat)
    requires IsAbcBlock(block) && t == 0
    ensures Stands(block, t + 64, Working(0x506E3058, 0xD39A2165, 0x04D24D6C, 0xB85E2CE9, 0x5EF50F24, 0xFB121210, 0x948D25B6, 0x961F4894))
  {
    FirstWords(block, t);
    NextWords1(block, t);
    NextWords2(block, t + 16);
    NextWords3(block, t + 32);
    Rounds0(block, t);
    Rounds1(block, t + 8);
    Rounds2(block, t + 16);
    Rounds3(block, t + 24);
    Rounds4(block, t + 32);
    Rounds5(block, t + 40);
    Rounds6(block, t + 48);
    Rounds7(block, t + 56);
  }

  // ---------------------------------------------------------------------------
  // The digest
  // ---------------------------------------------------------------------------

  const AbcHash: seq<word> := [
    0xBA7816BF, 0x8F01CFEA, 0x414140DE, 0x5DAE2223, 0xB00361A3, 0x96177A9C, 0xB410FF61, 0xF20015AD]

  const AbcDigest: seq<octet> := AbcDigest0 + AbcDigest1
  const AbcDigest0: seq<octet> := [
    0xBA, 0x78, 0x16, 0xBF, 0x8F, 0x01, 0xCF, 0xEA, 0x41, 0x41, 0x40, 0xDE, 0x5D, 0xAE, 0x22, 0x23]
  const AbcDigest1: seq<octet> := [
    0xB0, 0x03, 0x61, 0xA3, 0x96, 0x17, 0x7A, 0x9C, 0xB4, 0x10, 0xFF, 0x61, 0xF2, 0x00, 0x15, 0xAD]

  lemma AddHashIs(v: Working, hash: seq<word>, sum: seq<word>)
    requires |hash| == 8 == |sum|
    requires Plus(v.a, hash[0]) == sum[0] && Plus(v.b, hash[1]) == sum[1] && Plus(v.c, hash[2]) == sum[2] && Plus(v.d, hash[3]) == sum[3]
    requires Plus(v.e, hash[4]) == sum[4] && Plus(v.f, hash[5]) == sum[5] && Plus(v.g, hash[6]) == sum[6] && Plus(v.h, hash[7]) == sum[7]
    ensures AddHash([v.a, v.b, v.c, v.d, v.e, v.f, v.g, v.h], hash) == sum
  {
  }

  lemma AbcCompressed(block: seq<octet>, t: nat)
    requires IsAbcBlock(block) && t == 0
    ensures Compress(InitialHash, block) == AbcHash
  {
    AbcRounds(block, t);
    AddHashIs(Working(0x506E3058, 0xD39A2165, 0x04D24D6C, 0xB85E2CE9, 0x5EF50F24, 0xFB121210, 0x948D25B6, 0x961F4894), InitialHash, AbcHash);
  }

  /** The published digest. */
  lemma DigestOfAbc()
    ensures Digest([0x61, 0x62, 0x63]) == AbcDigest
  {
    var padded := Pad(Abc);
    PadAbc();
    AbcCompressed(padded, 0);
    assert padded[..|padded| - BLOCK] == [] && padded[|padded| - BLOCK..] == padded;
    assert HashBlocks(padded) == AbcHash;
    AbcOctets0(AbcHash);
    AbcOctets1(AbcHash);
    assert Octets(AbcHash) == Octets(AbcHash)[..16] + Octets(AbcHash)[16..];
  }

  lemma {:induction false} OctetsAt(hash: seq<word>, i: nat)
    requires i < |hash|
    ensures Octets(hash)[4 * i..4 * i + 4] == WordOctets(hash[i])
  {
    var front := hash[..|hash| - 1];
    if i < |front| {
      OctetsAt(front, i);
      assert Octets(hash)[4 * i..4 * i + 4] == Octets(front)[4 * i..4 * i + 4];
    }
  }

  lemma WordIs(hash: seq<word>, i: nat, w: word, octets: seq<octet>)
    requires i < |hash| && hash[i] == w && WordOctets(w) == octets
    ensures Octets(hash)[4 * i] == octets[0] && Octets(hash)[4 * i + 1] == octets[1]
    ensures Octets(hash)[4 * i + 2] == octets[2] && Octets(hash)[4 * i + 3] == octets[3]
  {
    OctetsAt(hash, i);
    var four := Octets(hash)[4 * i..4 * i + 4];
    assert four[0] == octets[0] && four[1] == octets[1] && four[2] == octets[2] && four[3] == octets[3];
  }

  lemma AbcOctets0(hash: seq<word>)
    requires hash == AbcHash
    ensures Octets(hash)[..16] == AbcDigest0
  {
    WordIs(hash, 0, 0xBA7816BF, [0xBA, 0x78, 0x16, 0xBF]);
    WordIs(hash, 1, 0x8F01CFEA, [0x8F, 0x01, 0xCF, 0xEA]);
    WordIs(hash, 2, 0x414140DE, [0x41, 0x41, 0x40, 0xDE]);
    WordIs(hash, 3, 0x5DAE2223, [0x5D, 0xAE, 0x22, 0x23]);
  }

  lemma AbcOctets1(hash: seq<word>)
    requires hash == AbcHash
    ensures Octets(hash)[16..] == AbcDigest1
  {
    WordIs(hash, 4, 0xB00361A3, [0xB0, 0x03, 0x61, 0xA3]);
    WordIs(hash, 5, 0x96177A9C, [0x96, 0x17, 0x7A, 0x9C]);
    WordIs(hash, 6, 0xB410FF61, [0xB4, 0x10, 0xFF, 0x61]);
    WordIs(hash, 7, 0xF20015AD, [0xF2, 0x00, 0x15, 0xAD]);
  }
}
