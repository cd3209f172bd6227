/** SHA-256 (FIPS 180-4) and HMAC (RFC 2104) as the standards define them on whole messages,
    and the streaming code that has to compute the same. */
module Sha256 {
  import Common

  type octet = bv8
  type word = bv32

  const BLOCK := 64
  const U64 := 0x1_0000_0000_0000_0000

  // ---------------------------------------------------------------------------
  // FIPS 180-4
  // ---------------------------------------------------------------------------

  const InitialHash: seq<word> := [
    0x6A09E667, 0xBB67AE85, 0x3C6EF372, 0xA54FF53A, 0x510E527F, 0x9B05688C, 0x1F83D9AB, 0x5BE0CD19]

  /** kShaRoundConstants, in rows of eight. */
  const K0: seq<word> := [
    0x428A2F98, 0x71374491, 0xB5C0FBCF, 0xE9B5DBA5, 0x3956C25B, 0x59F111F1, 0x923F82A4, 0xAB1C5ED5]
  const K1: seq<word> := [
    0xD807AA98, 0x12835B01, 0x243185BE, 0x550C7DC3, 0x72BE5D74, 0x80DEB1FE, 0x9BDC06A7, 0xC19BF174]
  const K2: seq<word> := [
    0xE49B69C1, 0xEFBE4786, 0x0FC19DC6, 0x240CA1CC, 0x2DE92C6F, 0x4A7484AA, 0x5CB0A9DC, 0x76F988DA]
  const K3: seq<word> := [
    0x983E5152, 0xA831C66D, 0xB00327C8, 0xBF597FC7, 0xC6E00BF3, 0xD5A79147, 0x06CA6351, 0x14292967]
  const K4: seq<word> := [
    0x27B70A85, 0x2E1B2138, 0x4D2C6DFC, 0x53380D13, 0x650A7354, 0x766A0ABB, 0x81C2C92E, 0x92722C85]
  const K5: seq<word> := [
    0xA2BFE8A1, 0xA81A664B, 0xC24B8B70, 0xC76C51A3, 0xD192E819, 0xD6990624, 0xF40E3585, 0x106AA070]
  const K6: seq<word> := [
    0x19A4C116, 0x1E376C08, 0x2748774C, 0x34B0BCB5, 0x391C0CB3, 0x4ED8AA4A, 0x5B9CCA4F, 0x682E6FF3]
  const K7: seq<word> := [
    0x748F82EE, 0x78A5636F, 0x84C87814, 0x8CC70208, 0x90BEFFFA, 0xA4506CEB, 0xBEF9A3F7, 0xC67178F2]
  const K: seq<word> := K0 + K1 + K2 + K3 + K4 + K5 + K6 + K7

  const ROUNDS := 64

  /** s[t], found step by step. */
  function Nth(s: seq<word>, t: nat): word
    requires t < |s|
  {
    if t == 0 then s[0] else Nth(s[1..], t - 1)
  }

  lemma {:induction false} NthIsIndex(s: seq<word>, t: nat)
    requires t < |s|
    ensures Nth(s, t) == s[t]
  {
    if t > 0 { NthIsIndex(s[1..], t - 1); }
  }

  function RoundConstant(t: nat): word
    requires t < ROUNDS
  {
    Nth(K, t)
  }

  // The six logical functions of section 4.1.2, with rotate_right written out.
  function Ch(x: word, y: word, z: word): word { (x & y) ^ (!x & z) }
  function Maj(x: word, y: word, z: word): word { (x & y) ^ (x & z) ^ (y & z) }
  function BigSigma0(x: word): word { ((x >> 2) | (x << 30)) ^ ((x >> 13) | (x << 19)) ^ ((x >> 22) | (x << 10)) }
  function BigSigma1(x: word): word { ((x >> 6) | (x << 26)) ^ ((x >> 11) | (x << 21)) ^ ((x >> 25) | (x << 7)) }
  function SmallSigma0(x: word): word { ((x >> 7) | (x << 25)) ^ ((x >> 18) | (x << 14)) ^ (x >> 3) }
  function SmallSigma1(x: word): word { ((x >> 17) | (x << 15)) ^ ((x >> 19) | (x << 13)) ^ (x >> 10) }

  function WordAt(block: seq<octet>, t: nat): word
    requires |block| == BLOCK && t < 16
  {
    ((block[4 * t] as word) << 24) | ((block[4 * t + 1] as word) << 16)
      | ((block[4 * t + 2] as word) << 8) | (block[4 * t + 3] as word)
  }

  /** Addition modulo 2^32. */
  function Plus(a: word, b: word): word { a + b }

  function Sum4(a: word, b: word, c: word, d: word): word {
    a + b + c + d
  }

  /** The code adds the words of a schedule step in the opposite order. */
  lemma SumOrder(a: word, b: word, c: word, d: word)
    ensures Sum4(a, b, c, d) == Sum4(d, c, b, a)
  {
  }

  /** The message schedule of section 6.2.2, step 1. */
  function Schedule(block: seq<octet>, t: nat): word
    requires |block| == BLOCK && t < 64
  {
    if t < 16 then WordAt(block, t)
    else Sum4(SmallSigma1(Schedule(block, t - 2)), Schedule(block, t - 7),
              SmallSigma0(Schedule(block, t - 15)), Schedule(block, t - 16))
  }

  datatype Working = Working(a: word, b: word, c: word, d: word, e: word, f: word, g: word, h: word)

  function T1(v: Working, k: word, w: word): word {
    Plus(Plus(Plus(Plus(v.h, BigSigma1(v.e)), Ch(v.e, v.f, v.g)), k), w)
  }

  function T2(v: Working): word {
    Plus(BigSigma0(v.a), Maj(v.a, v.b, v.c))
  }

  /** Step 3 for one t. */
  function Round(v: Working, k: word, w: word): Working {
    Working(Plus(T1(v, k, w), T2(v)), v.a, v.b, v.c, Plus(v.d, T1(v, k, w)), v.e, v.f, v.g)
  }

  function Rounds(hash: seq<word>, block: seq<octet>, t: nat): Working
    requires |hash| == 8 && |block| == BLOCK && t <= 64
  {
    if t == 0 then Working(hash[0], hash[1], hash[2], hash[3], hash[4], hash[5], hash[6], hash[7])
    else Round(Rounds(hash, block, t - 1), RoundConstant(t - 1), Schedule(block, t - 1))
  }

  function AddHash(v: seq<word>, hash: seq<word>): (sum: seq<word>)
    requires |v| == |hash|
    ensures |sum| == |hash|
  {
    seq(|hash|, i requires 0 <= i < |hash| => Plus(v[i], hash[i]))
  }

  /** Step 4: the next intermediate hash value. */
  function Compress(hash: seq<word>, block: seq<octet>): (next: seq<word>)
    requires |hash| == 8 && |block| == BLOCK
    ensures |next| == 8
  {
    var v := Rounds(hash, block, ROUNDS);
    AddHash([v.a, v.b, v.c, v.d, v.e, v.f, v.g, v.h], hash)
  }

  /** The hash value after the blocks of `message`, whose length is a multiple of BLOCK. */
  function HashBlocks(message: seq<octet>): (hash: seq<word>)
    ensures |hash| == 8
  {
    if |message| < BLOCK then InitialHash
    else Compress(HashBlocks(message[..|message| - BLOCK]), message[|message| - BLOCK..])
  }

  function Zeros(count: nat): (zeros: seq<octet>)
    ensures |zeros| == count
  {
    seq(count, _ => 0 as octet)
  }

  /** How many zero octets stand between the octet 0x80 and the length. */
  function ZeroCount(size: nat): nat {
    if size % BLOCK < 56 then 55 - size % BLOCK else 119 - size % BLOCK
  }

  /** The number of zero octets is the smallest that leaves room for exactly the length. */
  lemma PaddingIsMinimal(size: nat)
    ensures (size + 1 + ZeroCount(size)) % BLOCK == BLOCK - 8
    ensures (size + 1 + ZeroCount(size) + 8) % BLOCK == 0
    ensures forall k: nat {:trigger Zeros(k)} :: k < ZeroCount(size) ==> (size + 1 + k) % BLOCK != BLOCK - 8
  {
    var q, r := size / BLOCK, size % BLOCK;
    forall k: nat {:trigger Zeros(k)} | k < ZeroCount(size)
      ensures (size + 1 + k) % BLOCK != BLOCK - 8
    {
      assert size + 1 + k == BLOCK * q + (r + 1 + k);
    }
  }

  /** Message length in bits, in the 64 bits the code keeps; FIPS 180-4 assumes it fits. */
  function LengthBits(size: nat): nat {
    (8 * size) % U64
  }

  /** Octet `i` of a 64-bit number, most significant first. */
  function LengthOctet(bits: nat, i: nat): octet
    requires i < 8
  {
    ((bits / Common.Pow256(7 - i)) % 256) as octet
  }

  function LengthField(size: nat): (field: seq<octet>)
    ensures |field| == 8
  {
    seq(8, i requires 0 <= i < 8 => LengthOctet(LengthBits(size), i))
  }

  /** The number that octets denote, most significant first. */
  ghost function BigEndian(octets: seq<octet>): nat {
    if octets == [] then 0 else 256 * BigEndian(octets[..|octets| - 1]) + octets[|octets| - 1] as nat
  }

  /** The length field holds the length in bits, modulo 2^64. */
  lemma LengthFieldHoldsLength(size: nat)
    ensures BigEndian(LengthField(size)) == (8 * size) % 0x1_0000_0000_0000_0000
  {
    LengthFieldPrefix(size, 8);
    assert LengthField(size)[..8] == LengthField(size);
    assert Common.Pow256(0) == 1;
  }

  lemma {:induction false} LengthFieldPrefix(size: nat, k: nat)
    requires k <= 8
    ensures BigEndian(LengthField(size)[..k]) == LengthBits(size) / Common.Pow256(8 - k)
  {
    if k == 0 {
      EightOctets(8 - k);
      Below(LengthBits(size), Common.Pow256(8 - k));
    } else {
      LengthFieldPrefix(size, k - 1);
      var field, power := LengthField(size), Common.Pow256(8 - k);
      assert field[..k][..k - 1] == field[..k - 1];
      OctetOf(LengthBits(size) / power);
      NextOctet(LengthBits(size), power);
    }
  }

  lemma EightOctets(n: nat)
    requires n == 8
    ensures Common.Pow256(n) == U64
  {
    FourMore(n - 4);
    FourMore(n - 8);
  }

  lemma FourMore(n: nat)
    ensures Common.Pow256(n + 4) == 0x1_0000_0000 * Common.Pow256(n)
  {
    assert Common.Pow256(n + 4) == 256 * Common.Pow256(n + 3);
    assert Common.Pow256(n + 2) == 256 * Common.Pow256(n + 1);
  }

  lemma Below(n: nat, divisor: nat)
    requires n < divisor
    ensures n / divisor == 0
  {
  }

  lemma OctetOf(n: nat)
    ensures (n % 256) as octet as nat == n % 256
  {
    SmallOctet(n % 256);
    assert n % 256 % 256 == n % 256;
  }

  lemma SmallOctet(n: nat)
    requires n < 256
    ensures (n % 256) as octet as nat == n
  {
  }

  lemma NextOctet(n: nat, power: nat)
    requires power > 0
    ensures n / power == 256 * (n / (256 * power)) + (n / power) % 256
  {
    var quotient, rest := n / power, n % power;
    var high, low := quotient / 256, quotient % 256;
    calc {
      n;
      power * quotient + rest;
      power * (256 * high + low) + rest;
      (256 * power) * high + (power * low + rest);
    }
    Larger(power, low + 1, 256);
    assert power * (low + 1) == power * low + power;
    UniqueQuotient(n, 256 * power, high, power * low + rest);
  }

  lemma Larger(a: nat, b: nat, c: nat)
    requires b <= c
    ensures a * b <= a * c
  {
  }

  lemma UniqueQuotient(n: nat, d: nat, q: nat, r: nat)
    requires d > 0 && n == d * q + r && r < d
    ensures n / d == q && n % d == r
  {
    var p, s := n / d, n % d;
    assert n == d * p + s;
    if p < q { Larger(d, p + 1, q); }
    if q < p { Larger(d, q + 1, p); }
  }

  /** Padding, section 5.1.1. */
  function Pad(message: seq<octet>): (padded: seq<octet>) {
    message + [0x80] + Zeros(ZeroCount(|message|)) + LengthField(|message|)
  }

  lemma PadFillsBlocks(message: seq<octet>)
    ensures |Pad(message)| % BLOCK == 0
  {
  }

  function WordOctets(w: word): (octets: seq<octet>)
    ensures |octets| == 4
  {
    [((w >> 24) & 0xFF) as octet, ((w >> 16) & 0xFF) as octet, ((w >> 8) & 0xFF) as octet, (w & 0xFF) as octet]
  }

  function Octets(hash: seq<word>): (octets: seq<octet>)
    ensures |octets| == 4 * |hash|
  {
    if hash == [] then [] else Octets(hash[..|hash| - 1]) + WordOctets(hash[|hash| - 1])
  }

  /** SHA-256 of a whole message. */
  function Digest(message: seq<octet>): (digest: seq<octet>)
    ensures |digest| == 32
  {
    Octets(HashBlocks(Pad(message)))
  }

  // ---------------------------------------------------------------------------
  // RFC 2104, section 2
  // ---------------------------------------------------------------------------

  function XorAll(key: seq<octet>, value: octet): (pad: seq<octet>)
    ensures |pad| == |key|
  {
    seq(|key|, i requires 0 <= i < |key| => key[i] ^ value)
  }

  function BlockKey(key: seq<octet>): (block: seq<octet>)
    ensures |block| == BLOCK
  {
    var short := if |key| > BLOCK then Digest(key) else key;
    short + Zeros(BLOCK - |short|)
  }

  function Hmac(key: seq<octet>, text: seq<octet>): (tag: seq<octet>)
    ensures |tag| == 32
  {
    Digest(XorAll(BlockKey(key), 0x5C) + Digest(XorAll(BlockKey(key), 0x36) + text))
  }

  /** With the key, or its digest if it is longer than a block, filled up with zeros. */
  lemma HmacIsNested(key: seq<octet>, text: seq<octet>, short: seq<octet>, inner: seq<octet>, outer: seq<octet>)
    requires short == if |key| > 64 then Digest(key) else key
    requires |inner| == |outer| == 64
    requires forall i :: 0 <= i < 64 ==> inner[i] == (if i < |short| then short[i] else 0) ^ 0x36
    requires forall i :: 0 <= i < 64 ==> outer[i] == (if i < |short| then short[i] else 0) ^ 0x5C
    ensures Hmac(key, text) == Digest(outer + Digest(inner + text))
  {
    assert XorAll(BlockKey(key), 0x36) == inner;
    assert XorAll(BlockKey(key), 0x5C) == outer;
  }

  // ---------------------------------------------------------------------------
  // The streaming code
  // ---------------------------------------------------------------------------

  lemma HashOneMore(message: seq<octet>, block: seq<octet>)
    requires |block| == BLOCK
    ensures HashBlocks(message + block) == Compress(HashBlocks(message), block)
  {
  }

  method LoadWord(block: seq<octet>, i: nat) returns (x: word)
    requires |block| == BLOCK && i < 16
    ensures x == Schedule(block, i)
  {
    x := ((block[i * 4] as word) << 24) | ((block[i * 4 + 1] as word) << 16)
         | ((block[i * 4 + 2] as word) << 8) | (block[i * 4 + 3] as word);
  }

  method NextWord(w: seq<word>, i: nat, ghost block: seq<octet>) returns (x: word)
    requires |block| == BLOCK && 16 <= i == |w| < ROUNDS
    requires w[i - 16] == Schedule(block, i - 16) && w[i - 15] == Schedule(block, i - 15)
    requires w[i - 7] == Schedule(block, i - 7) && w[i - 2] == Schedule(block, i - 2)
    ensures x == Schedule(block, i)
  {
    var s0 := SmallSigma0(w[i - 15]);
    var s1 := SmallSigma1(w[i - 2]);
    x := Sum4(w[i - 16], s0, w[i - 7], s1);
    SumOrder(w[i - 16], s0, w[i - 7], s1);
  }

  /** The first words of the schedule. */
  ghost predicate Scheduled(block: seq<octet>, w: seq<word>)
    requires |block| == BLOCK
  {
    |w| <= ROUNDS && forall j :: 0 <= j < |w| ==> w[j] == Schedule(block, j)
  }

  lemma ScheduledNext(block: seq<octet>, w: seq<word>, x: word)
    requires |block| == BLOCK && Scheduled(block, w) && |w| < ROUNDS && x == Schedule(block, |w|)
    ensures Scheduled(block, w + [x])
  {
  }

  method LoadWords(block: seq<octet>) returns (w: seq<word>)
    requires |block| == BLOCK
    ensures |w| == 16 && Scheduled(block, w)
  {
    w := [];
    for i := 0 to 16
      invariant |w| == i && Scheduled(block, w)
    {
      var x := LoadWord(block, i);
      ScheduledNext(block, w, x);
      w := w + [x];
    }
  }

  /** The first two loops of sha256_compress. */
  method ExpandBlock(block: seq<octet>) returns (w: seq<word>)
    requires |block| == BLOCK
    ensures |w| == ROUNDS && Scheduled(block, w)
  {
    w := LoadWords(block);
    for i := 16 to ROUNDS
      invariant |w| == i && Scheduled(block, w)
    {
      var x := NextWord(w, i, block);
      ScheduledNext(block, w, x);
      w := w + [x];
    }
  }

  /** The third loop of sha256_compress. */
  method RunRounds(hash: seq<word>, w: seq<word>, ghost block: seq<octet>) returns (v: Working)
    requires |hash| == 8 && |block| == BLOCK && |w| == 64
    requires forall j :: 0 <= j < 64 ==> w[j] == Schedule(block, j)
    ensures v == Rounds(hash, block, ROUNDS)
  {
    var a, b, c, d := hash[0], hash[1], hash[2], hash[3];
    var e, f, g, h := hash[4], hash[5], hash[6], hash[7];
    for i := 0 to ROUNDS
      invariant Working(a, b, c, d, e, f, g, h) == Rounds(hash, block, i)
    {
      ghost var v0 := Working(a, b, c, d, e, f, g, h);
      var t1 := Plus(Plus(Plus(Plus(h, BigSigma1(e)), Ch(e, f, g)), RoundConstant(i)), w[i]);
      var t2 := Plus(BigSigma0(a), Maj(a, b, c));
      h := g;
      g := f;
      f := e;
      e := Plus(d, t1);
      d := c;
      c := b;
      b := a;
      a := Plus(t1, t2);
      assert Working(a, b, c, d, e, f, g, h) == Round(v0, RoundConstant(i), w[i]);
    }
    v := Working(a, b, c, d, e, f, g, h);
  }

  class Sha256 {
    const state: array<word>
    const block: array<octet>
    var pending: nat
    var total: nat
    ghost var hashed: seq<octet>  // the octets already compressed into state
    ghost var blocks: nat         // how many blocks they make up

    ghost predicate Shaped()
      reads this, state, block
    {
      && state.Length == 8 && block.Length == BLOCK && pending < BLOCK
      && |hashed| == BLOCK * blocks && state[..] == HashBlocks(hashed)
    }

    /** Everything fed so far. */
    ghost function Fed(): seq<octet>
      reads this, block
      requires pending <= block.Length
    {
      hashed + block[..pending]
    }

    ghost predicate Valid()
      reads this, state, block
    {
      Shaped() && total == |Fed()| % U64
    }

    constructor ()
      ensures Valid() && Fed() == [] && fresh(state) && fresh(block)
    {
      state := new word[8](i requires 0 <= i < 8 => InitialHash[i]);
      block := new octet[BLOCK](_ => 0);
      pending, total, hashed, blocks := 0, 0, [], 0;
      new;
      assert state[..] == InitialHash;
    }

    /** sha256_compress. */
    method CompressBlock()
      requires state.Length == 8 && block.Length == BLOCK
      modifies state
      ensures state[..] == Compress(old(state[..]), block[..])
    {
      var w := ExpandBlock(block[..]);
      var v := RunRounds(state[..], w, block[..]);
      AddInto([v.a, v.b, v.c, v.d, v.e, v.f, v.g, v.h]);
    }

    method AddInto(v: seq<word>)
      requires state.Length == 8 && |v| == 8
      modifies state
      ensures state[..] == AddHash(v, old(state[..]))
    {
      for i := 0 to 8
        invariant forall j :: 0 <= j < 8 ==> state[j] == if j < i then Plus(v[j], old(state[j])) else old(state[j])
      {
        state[i] := Plus(v[i], state[i]);
      }
    }

    method HashBlock(ghost next: seq<octet>)
      requires state.Length == 8 && block.Length == BLOCK && state[..] == HashBlocks(hashed)
      requires next == hashed + block[..]
      modifies state
      ensures state[..] == HashBlocks(next)
    {
      CompressBlock();
      HashOneMore(hashed, block[..]);
    }

    /** The block is full: compresses it and empties it. */
    method Roll()
      requires state.Length == 8 && block.Length == BLOCK == pending
      requires |hashed| == BLOCK * blocks && state[..] == HashBlocks(hashed)
      modifies this`pending, this`hashed, this`blocks, state
      ensures Shaped() && pending == 0 && hashed == old(hashed + block[..])
    {
      ghost var next := hashed + block[..];
      HashBlock(next);
      hashed, blocks := next, blocks + 1;
      pending := 0;
    }

    /** One octet of sha256_update's loop. */
    method Push(x: octet)
      requires Shaped()
      modifies this`pending, this`hashed, this`blocks, state, block
      ensures Shaped() && Fed() == old(Fed()) + [x]
    {
      block[pending] := x;
      pending := pending + 1;
      assert hashed + block[..pending] == old(Fed()) + [x];
      if pending == BLOCK {
        assert block[..pending] == block[..];
        Roll();
        assert Fed() == hashed;
      }
    }

    method AddTotal(size: nat, ghost fed: nat)
      requires total == fed % U64
      modifies this`total
      ensures total == (fed + size) % U64
    {
      TotalGrows(total, fed, size);
      total := (total + size) % U64;
    }

    /** sha256_update. */
    method Update(data: seq<octet>)
      requires Valid()
      modifies this, state, block
      ensures Valid() && Fed() == old(Fed()) + data
    {
      ghost var fed := Fed();
      AddTotal(|data|, |fed|);
      for i := 0 to |data|
        invariant Shaped() && Fed() == fed + data[..i]
        invariant total == (|fed| + |data|) % U64
      {
        Push(data[i]);
        Grow(fed, data, i);
      }
      assert data[..|data|] == data;
      assert |fed + data| == |fed| + |data|;
    }

    /** The first half of sha256_finish: the octet 0x80 and the zeros. */
    method PadZeros(ghost message: seq<octet>)
      requires Valid() && Fed() == message
      modifies this, state, block
      ensures Valid() && pending == BLOCK - 8
      ensures Fed() == message + [0x80] + Zeros(ZeroCount(|message|))
    {
      Update([0x80]);
      ghost var k, start := 0, message + [0x80];
      ZerosGrow(start, 0);
      RoomForLength(|message|, k, blocks, pending);
      while pending != BLOCK - 8
        invariant Valid() && k <= ZeroCount(|message|) && Fed() == start + Zeros(k)
        invariant pending == BLOCK - 8 <==> k == ZeroCount(|message|)
        decreases ZeroCount(|message|) - k
      {
        Update([0]);
        ZerosGrow(start, k);
        k := k + 1;
        RoomForLength(|message|, k, blocks, pending);
      }
    }

    /** The last eight octets of the last block. */
    method WriteLength(bits: nat, ghost message: seq<octet>)
      requires block.Length == BLOCK && bits == LengthBits(|message|)
      modifies block
      ensures block[..] == old(block[..])[..BLOCK - 8] + LengthField(|message|)
    {
      for i := 0 to 8
        invariant block[..BLOCK - 8] == old(block[..])[..BLOCK - 8]
        invariant forall j :: 0 <= j < i ==> block[BLOCK - 8 + j] == LengthOctet(bits, j)
      {
        block[BLOCK - 8 + i] := LengthOctet(bits, i);
      }
      assert block[..] == block[..BLOCK - 8] + LengthField(|message|);
    }

    /** sha256_finish: the digest of everything fed, however it was split. */
    method Finish() returns (digest: seq<octet>)
      requires Valid()
      modifies this, state, block
      ensures digest == Digest(old(Fed()))
    {
      ghost var message := Fed();
      var bits := (total * 8) % U64;
      LengthFieldOf(total, |message|);
      PadZeros(message);
      WriteLength(bits, message);
      assert hashed + block[..] == Pad(message);
      pending := BLOCK;
      Roll();
      digest := Emit();
    }

    /** The output loop of sha256_finish. */
    method Emit() returns (digest: seq<octet>)
      requires state.Length == 8
      ensures digest == Octets(state[..])
    {
      digest := [];
      for i := 0 to 8
        invariant digest == Octets(state[..i])
      {
        assert state[..i + 1][..i] == state[..i];
        digest := digest + WordOctets(state[i]);
      }
      assert state[..8] == state[..];
    }
  }

  lemma LengthFieldOf(total: nat, size: nat)
    requires total == size % U64
    ensures (total * 8) % U64 == LengthBits(size)
  {
  }

  lemma ZerosGrow(start: seq<octet>, k: nat)
    ensures start + Zeros(0) == start
    ensures (start + Zeros(k)) + [0] == start + Zeros(k + 1)
    ensures |start + Zeros(k + 1)| == |start| + k + 1
  {
  }

  /** Room for exactly the length is left once all zeros are in, and not before. */
  lemma RoomForLength(size: nat, k: nat, blocks: nat, pending: nat)
    requires size + 1 + k == BLOCK * blocks + pending && pending < BLOCK && k <= ZeroCount(size)
    ensures pending == BLOCK - 8 <==> k == ZeroCount(size)
  {
  }

  lemma TotalGrows(total: nat, size: nat, more: nat)
    requires total == size % U64
    ensures (total + more) % U64 == (size + more) % U64
  {
  }

  lemma Grow(fed: seq<octet>, data: seq<octet>, i: nat)
    requires i < |data|
    ensures (fed + data[..i]) + [data[i]] == fed + data[..i + 1]
  {
  }

  function Concat(pieces: seq<seq<octet>>): seq<octet> {
    if pieces == [] then [] else Concat(pieces[..|pieces| - 1]) + pieces[|pieces| - 1]
  }

  /** However a message is cut into pieces for sha256_update, the digest is that of the message. */
  method HashPieces(pieces: seq<seq<octet>>) returns (digest: seq<octet>)
    ensures digest == Digest(Concat(pieces))
  {
    var sha := new Sha256();
    for i := 0 to |pieces|
      invariant sha.Valid() && fresh(sha) && fresh(sha.state) && fresh(sha.block)
      invariant sha.Fed() == Concat(pieces[..i])
    {
      assert pieces[..i + 1][..i] == pieces[..i];
      sha.Update(pieces[i]);
    }
    assert pieces[..|pieces|] == pieces;
    digest := sha.Finish();
  }

  method HashTwo(first: seq<octet>, second: seq<octet>) returns (digest: seq<octet>)
    ensures digest == Digest(first + second)
  {
    var sha := new Sha256();
    sha.Update(first);
    sha.Update(second);
    assert [] + first + second == first + second;
    digest := sha.Finish();
  }

  method XorPad(padded_key: seq<octet>, value: octet) returns (pad: seq<octet>)
    ensures pad == XorAll(padded_key, value)
  {
    pad := [];
    for i := 0 to |padded_key|
      invariant |pad| == i && forall j :: 0 <= j < i ==> pad[j] == padded_key[j] ^ value
    {
      pad := pad + [padded_key[i] ^ value];
    }
  }

  method PadKey(key: seq<octet>) returns (padded_key: seq<octet>)
    ensures padded_key == BlockKey(key)
  {
    if |key| > BLOCK {
      assert key + [] == key;
      var shrink := HashTwo(key, []);
      padded_key := shrink + Zeros(BLOCK - |shrink|);
    } else {
      padded_key := key + Zeros(BLOCK - |key|);
    }
  }

  /** hmac_sha256, for keys of any length. */
  method HmacSha256(key: seq<octet>, message: seq<octet>) returns (digest: seq<octet>)
    ensures digest == Hmac(key, message)
  {
    var padded_key := PadKey(key);
    var pad := XorPad(padded_key, 0x36);
    var inner_digest := HashTwo(pad, message);
    pad := XorPad(padded_key, 0x5C);
    digest := HashTwo(pad, inner_digest);
  }
}
