/** How settings are written as text and read back: numbers, and lines. */
module SettingsText {
  import opened Common

  // ---------------------------------------------------------------------------
  // Digits
  // ---------------------------------------------------------------------------

  predicate IsDigit(c: char) { '0' <= c <= '9' }

  function DigitChar(d: nat): (c: char)
    requires d < 10
    ensures IsDigit(c)
  {
    '0' + d as char
  }

  /** The value of a character as a digit, or 99. */
  function DigitValue(c: char): nat {
    if '0' <= c <= '9' then c as nat - '0' as nat
    else if 'a' <= c <= 'z' then c as nat - 'a' as nat + 10
    else if 'A' <= c <= 'Z' then c as nat - 'A' as nat + 10
    else 99
  }

  predicate InBase(s: string, base: nat) {
    forall i :: 0 <= i < |s| ==> DigitValue(s[i]) < base
  }

  function Number(s: string, base: nat): nat {
    if s == "" then 0 else Number(s[..|s| - 1], base) * base + DigitValue(s[|s| - 1])
  }

  /** Decimal notation without leading zeros. */
  function Decimal(n: nat): (s: string)
    ensures s != "" && InBase(s, 10) && (forall i :: 0 <= i < |s| ==> IsDigit(s[i]))
  {
    if n < 10 then [DigitChar(n)] else Decimal(n / 10) + [DigitChar(n % 10)]
  }

  lemma NumberSnoc(s: string, c: char, base: nat)
    ensures Number(s + [c], base) == Number(s, base) * base + DigitValue(c)
  {
  }

  lemma {:induction false} NumberOfDecimal(n: nat)
    ensures Number(Decimal(n), 10) == n
    ensures Decimal(n)[0] == '0' ==> n == 0 && |Decimal(n)| == 1
  {
    if n < 10 {
      NumberSnoc("", DigitChar(n), 10);
      assert "" + [DigitChar(n)] == [DigitChar(n)];
    } else {
      NumberOfDecimal(n / 10);
      NumberSnoc(Decimal(n / 10), DigitChar(n % 10), 10);
    }
  }

  function Pow10(k: nat): (p: nat)
    ensures p >= 1
  {
    if k == 0 then 1 else 10 * Pow10(k - 1)
  }

  lemma {:induction false} DecimalLength(n: nat, k: nat)
    requires n < Pow10(k) && k > 0
    ensures |Decimal(n)| <= k
  {
    if n >= 10 { DecimalLength(n / 10, k - 1); }
  }

  // ---------------------------------------------------------------------------
  // Integers in any notation (base 0)
  // ---------------------------------------------------------------------------

  predicate IsSpace(c: char) { c == ' ' || ('\t' <= c <= '\r') }

  function SkipSpace(s: string): string {
    if s != "" && IsSpace(s[0]) then SkipSpace(s[1..]) else s
  }

  lemma NoSpace(s: string)
    requires s != "" && !IsSpace(s[0])
    ensures SkipSpace(s) == s
  {
  }

  datatype Integer = Integer(negative: bool, magnitude: nat)

  /** The digits' base and the digits: 0x starts a hexadecimal, another leading 0 an octal number. */
  function Unsigned(s: string): Option<nat> {
    if |s| >= 3 && s[0] == '0' && (s[1] == 'x' || s[1] == 'X') then
      if InBase(s[2..], 16) then Some(Number(s[2..], 16)) else None
    else if s == "" then None
    else
      var base := if s[0] == '0' then 8 else 10;
      if InBase(s, base) then Some(Number(s, base)) else None
  }

  /** The whole text as one integer: blanks, a sign, digits, and nothing after. */
  function ReadInteger(text: string): Option<Integer> {
    var s := SkipSpace(text);
    var signed := s != "" && (s[0] == '-' || s[0] == '+');
    match Unsigned(if signed then s[1..] else s)
    case None => None
    case Some(m) => Some(Integer(signed && s[0] == '-', m))
  }

  const ULONG_MAX := 0xFFFF_FFFF
  const LONG_MAX := 0x7FFF_FFFF

  /** strtoul on 32-bit longs: too large saturates, negative wraps. */
  function ReadUnsigned(text: string): Option<nat> {
    match ReadInteger(text)
    case None => None
    case Some(n) =>
      if n.magnitude > ULONG_MAX then Some(ULONG_MAX)
      else if n.negative then Some((ULONG_MAX + 1 - n.magnitude) % (ULONG_MAX + 1))
      else Some(n.magnitude)
  }

  /** strtol on 32-bit longs: saturates both ways. */
  function ReadSigned(text: string): Option<int> {
    match ReadInteger(text)
    case None => None
    case Some(n) =>
      var m: int := n.magnitude;
      if n.negative then Some(if m > LONG_MAX then -LONG_MAX - 1 else -m)
      else Some(if m > LONG_MAX then LONG_MAX else m)
  }

  /** Digits without a leading zero are decimal; the one digit 0 is octal, and the same. */
  lemma UnsignedDigits(s: string)
    requires s != "" && (forall i :: 0 <= i < |s| ==> IsDigit(s[i])) && (s[0] == '0' ==> |s| == 1)
    ensures Unsigned(s) == Some(Number(s, 10))
  {
    if s[0] == '0' {
      assert s[..0] == "";
      assert Number(s, 8) == 0 && Number(s, 10) == 0;
    }
  }

  lemma ReadDigits(s: string)
    requires s != "" && (forall i :: 0 <= i < |s| ==> IsDigit(s[i])) && (s[0] == '0' ==> |s| == 1)
    ensures ReadInteger(s) == Some(Integer(false, Number(s, 10)))
  {
    NoSpace(s);
    UnsignedDigits(s);
  }

  /** A printed number is never read as octal, nor otherwise than as itself. */
  lemma ReadDecimal(n: nat)
    ensures ReadInteger(Decimal(n)) == Some(Integer(false, n))
    ensures n <= ULONG_MAX ==> ReadUnsigned(Decimal(n)) == Some(n)
    ensures n <= LONG_MAX ==> ReadSigned(Decimal(n)) == Some(n)
  {
    NumberOfDecimal(n);
    ReadDigits(Decimal(n));
  }

  /** A zero in front of a number's notation makes it octal: it is read as itself exactly below 8. */
  lemma LeadingZeroIsOctal(n: nat)
    requires n <= ULONG_MAX
    ensures ReadUnsigned("0" + Decimal(n)) == Some(n) <==> n < 8
  {
    NumberOfDecimal(n);
    ReadOctal(Decimal(n));
    OctalIsItself(n);
  }

  lemma OctalIsItself(n: nat)
    ensures InBase(Decimal(n), 8) ==> Number(Decimal(n), 8) <= n
    ensures InBase(Decimal(n), 8) && Number(Decimal(n), 8) == n <==> n < 8
  {
    var d := Decimal(n);
    NumberOfDecimal(n);
    OctalIsLess(d);
    if n < 8 { assert d == [DigitChar(n)]; }
  }

  lemma ReadOctal(d: string)
    requires d != "" && (forall i :: 0 <= i < |d| ==> IsDigit(d[i]))
    ensures ReadInteger("0" + d) == if InBase(d, 8) then Some(Integer(false, Number(d, 8))) else None
  {
    var s := "0" + d;
    assert s[0] == '0' && s[1] == d[0] && s[1..] == d;
    NoSpace(s);
    NumberZero(d, 8);
    InBaseZero(d);
  }

  lemma InBaseZero(d: string)
    ensures InBase("0" + d, 8) <==> InBase(d, 8)
  {
    var s := "0" + d;
    assert forall i :: 0 <= i < |d| ==> s[i + 1] == d[i];
    assert DigitValue(s[0]) == 0;
  }

  lemma {:induction false} NumberZero(s: string, base: nat)
    ensures Number("0" + s, base) == Number(s, base)
  {
    if s == "" {
      assert "0" + s == "0" && "0"[..0] == "";
      assert DigitValue('0') == 0;
    } else {
      NumberZero(s[..|s| - 1], base);
      assert ("0" + s)[..|s|] == "0" + s[..|s| - 1];
    }
  }

  /** Digits read in base 8 stand for less than in base 10, but for a single one. */
  lemma {:induction false} OctalIsLess(s: string)
    ensures Number(s, 8) <= Number(s, 10)
    ensures |s| == 1 ==> Number(s, 8) == Number(s, 10)
    ensures |s| > 1 && DigitValue(s[0]) > 0 ==> Number(s, 8) < Number(s, 10)
    ensures s != "" && DigitValue(s[0]) > 0 ==> Number(s, 8) > 0
  {
    if s != "" {
      var early := s[..|s| - 1];
      OctalIsLess(early);
      if early != "" { assert early[0] == s[0]; }
    }
  }

  /** Hexadecimal behind 0x; what is too large for 32 bits saturates. */
  lemma ReadLarge(n: nat, digits: string)
    requires digits != "" && InBase(digits, 16)
    ensures ReadUnsigned("0x" + digits) ==
      Some(if Number(digits, 16) <= 0xFFFF_FFFF then Number(digits, 16) else 0xFFFF_FFFF)
    ensures ReadUnsigned(Decimal(n)) == Some(if n <= 0xFFFF_FFFF then n else 0xFFFF_FFFF)
  {
    ReadHexadecimal(digits);
    ReadDecimal(n);
  }

  /** A minus counts down from 2^32 where no sign is kept. */
  lemma ReadMinusUnsigned(n: nat)
    requires n <= 0xFFFF_FFFF
    ensures ReadUnsigned("-" + Decimal(n)) == Some(if n == 0 then 0 else 0x1_0000_0000 - n)
  {
    ReadNegative(n);
  }

  /** Signed numbers saturate. */
  lemma ReadMinusSigned(n: nat, m: int)
    requires m == n
    ensures ReadSigned("-" + Decimal(n)) == Some(if m <= 0x8000_0000 then -m else -0x8000_0000)
  {
    ReadNegative(n);
  }

  /** Blanks in front are ignored, anything behind is refused. */
  lemma ReadAround(n: nat, blank: char, tail: char)
    requires IsSpace(blank) && DigitValue(tail) >= 10
    ensures ReadInteger([blank] + Decimal(n)) == Some(Integer(false, n))
    ensures n > 0 ==> ReadInteger(Decimal(n) + [tail]) == None
  {
    ReadDecimal(n);
    assert ([blank] + Decimal(n))[1..] == Decimal(n);
    if n > 0 { ReadTail(n, tail); }
  }

  lemma ReadHexadecimal(digits: string)
    requires digits != "" && InBase(digits, 16)
    ensures ReadInteger("0x" + digits) == Some(Integer(false, Number(digits, 16)))
  {
    var s := "0x" + digits;
    assert s[0] == '0' && s[1] == 'x' && s[2..] == digits && |s| >= 3;
    NoSpace(s);
  }

  lemma ReadNegative(n: nat)
    ensures ReadInteger("-" + Decimal(n)) == Some(Integer(true, n))
  {
    var s := "-" + Decimal(n);
    assert s[0] == '-' && s[1..] == Decimal(n);
    NoSpace(s);
    NumberOfDecimal(n);
    UnsignedDigits(Decimal(n));
  }

  lemma ReadTail(n: nat, tail: char)
    requires n > 0 && DigitValue(tail) >= 10
    ensures ReadInteger(Decimal(n) + [tail]) == None
  {
    var d := Decimal(n);
    var s := d + [tail];
    NumberOfDecimal(n);
    assert s[0] == d[0] && IsDigit(s[0]) && s[0] != '0';
    assert s[|d|] == tail;
    NoSpace(s);
  }

  // ---------------------------------------------------------------------------
  // Six-decimal fixed point
  // ---------------------------------------------------------------------------

  const MICRO := 1_000_000
  /** What a 32-byte buffer holds. */
  const BUFFER := 31

  /** Exactly k digits. */
  function Padded(n: nat, k: nat): (s: string)
    ensures |s| == k && InBase(s, 10) && (forall i :: 0 <= i < |s| ==> IsDigit(s[i]))
  {
    if k == 0 then "" else Padded(n / 10, k - 1) + [DigitChar(n % 10)]
  }

  lemma {:induction false} NumberOfPadded(n: nat, k: nat)
    requires n < Pow10(k)
    ensures Number(Padded(n, k), 10) == n
  {
    if k != 0 {
      NumberOfPadded(n / 10, k - 1);
      NumberSnoc(Padded(n / 10, k - 1), DigitChar(n % 10), 10);
    }
  }

  function Abs(m: int): nat {
    if m < 0 then -m else m
  }

  function Sign(m: int): string {
    if m < 0 then "-" else ""
  }

  function Whole(m: int): string {
    Decimal(Abs(m) / MICRO)
  }

  function Fraction(m: int): (f: string)
    ensures |f| == 6 && InBase(f, 10)
  {
    Padded(Abs(m) % MICRO, 6)
  }

  /** A value in millionths, as "%.6f" writes it. */
  function FloatText(m: int): string {
    Sign(m) + (Whole(m) + ['.'] + Fraction(m))
  }

  function Cut(s: string, n: nat): string {
    if |s| <= n then s else s[..n]
  }

  /** ... into a buffer of 32 bytes. */
  function Printed(m: int): string {
    Cut(FloatText(m), BUFFER)
  }

  /** Index of the first `c` in the text, or its length. */
  function IndexOf(s: string, c: char): (i: nat)
    ensures i <= |s| && (i < |s| ==> s[i] == c) && (forall k :: 0 <= k < i ==> s[k] != c)
  {
    if s == "" then 0 else if s[0] == c then 0 else 1 + IndexOf(s[1..], c)
  }

  lemma IndexOfFirst(a: string, c: char, b: string)
    requires c !in a
    ensures IndexOf(a + [c] + b, c) == |a|
  {
    var s := a + [c] + b;
    assert s[|a|] == c;
    assert forall k :: 0 <= k < |a| ==> s[k] == a[k] && a[k] != c;
  }

  lemma IndexOfNone(a: string, c: char)
    requires c !in a
    ensures IndexOf(a, c) == |a|
  {
  }

  function After(s: string, p: nat): string {
    if p < |s| then s[p + 1..] else ""
  }

  function Micros(whole: string, fraction: string): nat
    requires |fraction| <= 6
  {
    Number(whole, 10) * MICRO + Number(fraction, 10) * Pow10(6 - |fraction|)
  }

  /** A whole part and decimals, in millionths; decimals after the sixth are ignored. */
  function Fixed(whole: string, fraction: string): Option<nat> {
    if whole + fraction == "" || !InBase(whole, 10) || !InBase(fraction, 10) then None
    else
      var f := if |fraction| <= 6 then fraction else fraction[..6];
      Some(Micros(whole, f))
  }

  /** Digits, perhaps a point and further digits. */
  function ReadFixed(s: string): Option<nat> {
    var p := IndexOf(s, '.');
    Fixed(s[..p], After(s, p))
  }

  predicate HasSign(s: string) {
    s != "" && (s[0] == '-' || s[0] == '+')
  }

  function Body(s: string): string {
    if HasSign(s) then s[1..] else s
  }

  /** A sign and a number of millionths. */
  function Join(negative: bool, a: nat): int {
    var v: int := a; if negative then -v else v
  }

  function Signed(negative: bool, a: Option<nat>): Option<int> {
    match a
    case None => None
    case Some(n) => Some(Join(negative, n))
  }

  function ReadFloat(text: string): Option<int> {
    var s := SkipSpace(text);
    Signed(s != "" && s[0] == '-', ReadFixed(Body(s)))
  }

  /** How many decimals fit behind the sign, the whole part and the point. */
  function Decimals(m: int): int {
    var room := BUFFER - |Sign(m)| - |Whole(m)| - 1;
    if room > 6 then 6 else if room < 0 then 0 else room
  }

  /** The whole part fits the buffer, and the decimals that do not are zero. */
  predicate FitsBuffer(m: int) {
    && |Sign(m)| + |Whole(m)| <= BUFFER
    && (forall i :: Decimals(m) <= i < 6 ==> Fraction(m)[i] == '0')
  }

  lemma TimesTen(x: int, p: int, y: int)
    ensures (x * p + y) * 10 == x * (10 * p) + y * 10
  {
  }

  lemma {:induction false} NumberAppend(a: string, b: string)
    ensures Number(a + b, 10) == Number(a, 10) * Pow10(|b|) + Number(b, 10)
  {
    if b == "" {
      assert a + b == a;
      assert Number(a, 10) * 1 == Number(a, 10);
    } else {
      var early, c := b[..|b| - 1], b[|b| - 1];
      NumberAppend(a, early);
      NumberSnoc(a + early, c, 10);
      assert a + b == (a + early) + [c];
      TimesTen(Number(a, 10), Pow10(|early|), Number(early, 10));
    }
  }

  lemma {:induction false} ZeroDigits(s: string)
    requires InBase(s, 10)
    ensures Number(s, 10) == 0 <==> forall i :: 0 <= i < |s| ==> s[i] == '0'
  {
    if s != "" { ZeroDigits(s[..|s| - 1]); }
  }

  lemma Larger(x: int, p: int)
    requires x >= 1 && p >= 10
    ensures x * p >= 10 * x
  {
  }

  /** Cutting digits off a number without leading zeros makes it smaller. */
  lemma PrefixSmaller(s: string, k: nat)
    requires InBase(s, 10) && 0 < k < |s| && s[0] != '0'
    ensures Number(s[..k], 10) < Number(s, 10)
  {
    var a, b := s[..k], s[k..];
    NumberAppend(a, b);
    assert s == a + b;
    ZeroDigits(a);
    assert a[0] == s[0];
    assert Pow10(|b|) == 10 * Pow10(|b| - 1);
    Larger(Number(a, 10), Pow10(|b|));
  }

  /** A sign in front of digits. */
  lemma Unsign(m: int, u: string, a: nat)
    requires u != "" && IsDigit(u[0]) && ReadFixed(u) == Some(a)
    ensures ReadFloat(Sign(m) + u) == Some(Join(m < 0, a))
  {
    var s := Sign(m) + u;
    assert s[0] == '-' || s[0] == u[0];
    NoSpace(s);
    assert Body(s) == u;
  }

  lemma NoPoint(a: string)
    requires InBase(a, 10)
    ensures '.' !in a
  {
  }

  lemma FixedOf(w: string, f: string)
    requires w != "" && InBase(w, 10) && InBase(f, 10) && |f| <= 6
    ensures Fixed(w, f) == Some(Micros(w, f))
  {
  }

  lemma ReadSplit(w: string, f: string)
    requires '.' !in w
    ensures ReadFixed(w + ['.'] + f) == Fixed(w, f)
  {
    IndexOfFirst(w, '.', f);
    var s := w + ['.'] + f;
    assert s[..|w|] == w && s[|w| + 1..] == f;
  }

  /** Reading a whole part and at most six decimals, or a whole part alone. */
  lemma ReadParts(w: string, f: string)
    requires w != "" && InBase(w, 10) && InBase(f, 10) && |f| <= 6
    ensures ReadFixed(w + ['.'] + f) == Some(Micros(w, f))
  {
    NoPoint(w);
    FixedOf(w, f);
    ReadSplit(w, f);
  }

  lemma ReadWhole(w: string)
    requires w != "" && InBase(w, 10)
    ensures ReadFixed(w) == Some(Number(w, 10) * MICRO)
  {
    NoPoint(w);
    IndexOfNone(w, '.');
    assert w[..|w|] == w;
    assert ReadFixed(w) == Fixed(w, "");
    assert Number("", 10) * Pow10(6) == 0;
  }

  lemma PlaceValue(m: int)
    ensures Number(Whole(m), 10) * MICRO + Number(Fraction(m), 10) == Abs(m)
    ensures Whole(m)[0] == '0' ==> |Whole(m)| == 1
  {
    NumberOfDecimal(Abs(m) / MICRO);
    assert Pow10(6) == MICRO;
    NumberOfPadded(Abs(m) % MICRO, 6);
  }

  lemma DroppedDecimals(f: string, k: nat)
    requires |f| == 6 && InBase(f, 10) && k <= 6
    ensures Number(f[..k], 10) * Pow10(6 - k) == Number(f, 10) <==> forall i :: k <= i < 6 ==> f[i] == '0'
  {
    var a, b := f[..k], f[k..];
    assert f == a + b;
    NumberAppend(a, b);
    ZeroDigits(b);
    assert forall i :: k <= i < 6 ==> f[i] == b[i - k];
    assert forall i :: 0 <= i < |b| ==> b[i] == f[i + k];
  }

  lemma MicrosBack(w: string, f: string, k: nat)
    requires |f| == 6 && InBase(f, 10) && k <= 6
    ensures Micros(w, f[..k]) == Number(w, 10) * MICRO + Number(f, 10) <==> forall i :: k <= i < 6 ==> f[i] == '0'
  {
    DroppedDecimals(f, k);
  }

  lemma PrintedIs(m: int)
    ensures |Sign(m)| + |Whole(m)| >= BUFFER ==> Printed(m) == Sign(m) + Whole(m)[..BUFFER - |Sign(m)|]
    ensures |Sign(m)| + |Whole(m)| < BUFFER ==> Printed(m) == Sign(m) + (Whole(m) + ['.'] + Fraction(m)[..Decimals(m)])
  {
  }

  /** The whole part that fits, and the magnitude of what is read back. */
  function Head(m: int): string {
    if |Sign(m)| + |Whole(m)| >= BUFFER then Whole(m)[..BUFFER - |Sign(m)|] else Whole(m)
  }

  function Kept(m: int): nat {
    if |Sign(m)| + |Whole(m)| >= BUFFER then Number(Head(m), 10) * MICRO else Micros(Whole(m), Fraction(m)[..Decimals(m)])
  }

  lemma HeadDigits(m: int)
    ensures Head(m) != "" && (forall i :: 0 <= i < |Head(m)| ==> IsDigit(Head(m)[i])) && InBase(Head(m), 10)
    ensures Head(m)[0] == '0' ==> |Whole(m)| == 1
  {
    PlaceValue(m);
    assert forall i :: 0 <= i < |Head(m)| ==> Head(m)[i] == Whole(m)[i] && IsDigit(Whole(m)[i]);
  }

  /** What is read back from a printed float. */
  lemma ReadBack(m: int)
    ensures ReadFloat(Printed(m)) == Some(Join(m < 0, Kept(m)))
  {
    PrintedIs(m);
    HeadDigits(m);
    if |Sign(m)| + |Whole(m)| >= BUFFER {
      ReadBackWhole(m, Head(m));
    } else {
      ReadBackParts(m, Whole(m), Fraction(m)[..Decimals(m)]);
    }
  }

  lemma ReadBackWhole(m: int, w: string)
    requires w != "" && IsDigit(w[0]) && InBase(w, 10)
    ensures ReadFloat(Sign(m) + w) == Some(Join(m < 0, Number(w, 10) * MICRO))
  {
    ReadWhole(w);
    Unsign(m, w, Number(w, 10) * MICRO);
  }

  lemma ReadBackParts(m: int, w: string, f: string)
    requires w != "" && IsDigit(w[0]) && InBase(w, 10) && InBase(f, 10) && |f| <= 6
    ensures ReadFloat(Sign(m) + (w + ['.'] + f)) == Some(Join(m < 0, Micros(w, f)))
  {
    ReadParts(w, f);
    assert (w + ['.'] + f)[0] == w[0];
    Unsign(m, w + ['.'] + f, Micros(w, f));
  }

  lemma KeptWhole(m: int)
    requires |Sign(m)| + |Whole(m)| >= BUFFER
    ensures Kept(m) == Abs(m) <==> FitsBuffer(m)
  {
    var w, f, n := Whole(m), Fraction(m), BUFFER - |Sign(m)|;
    PlaceValue(m);
    if n < |w| {
      PrefixSmaller(w, n);
    } else {
      assert Head(m) == w;
      ZeroDigits(f);
    }
  }

  lemma KeptParts(m: int)
    requires |Sign(m)| + |Whole(m)| < BUFFER
    ensures Kept(m) == Abs(m) <==> FitsBuffer(m)
  {
    PlaceValue(m);
    MicrosBack(Whole(m), Fraction(m), Decimals(m));
  }

  /** Writing a float and reading it back gives it again exactly when it fits the buffer. */
  lemma PrintedRestored(m: int)
    ensures ReadFloat(Printed(m)) == Some(m) <==> FitsBuffer(m)
    ensures ReadFloat(Printed(m)).Some?
  {
    ReadBack(m);
    if |Sign(m)| + |Whole(m)| >= BUFFER { KeptWhole(m); } else { KeptParts(m); }
  }

  // ---------------------------------------------------------------------------
  // Printing again
  // ---------------------------------------------------------------------------

  lemma DigitAgain(c: char)
    requires IsDigit(c)
    ensures DigitChar(DigitValue(c)) == c
  {
  }

  /** Digits are the notation of their own number, with leading zeros ... */
  lemma {:induction false} PaddedOfNumber(s: string)
    requires forall i :: 0 <= i < |s| ==> IsDigit(s[i])
    ensures Padded(Number(s, 10), |s|) == s
  {
    if s != "" {
      var n, c := Number(s[..|s| - 1], 10), s[|s| - 1];
      PaddedOfNumber(s[..|s| - 1]);
      DigitAgain(c);
      LastDigit(n, DigitValue(c));
    }
  }

  lemma LastDigit(n: nat, d: nat)
    requires d < 10
    ensures (n * 10 + d) / 10 == n && (n * 10 + d) % 10 == d
  {
  }

  /** ... and, without leading zeros, in the shortest form. */
  lemma {:induction false} DecimalOfNumber(s: string)
    requires s != "" && (forall i :: 0 <= i < |s| ==> IsDigit(s[i])) && (|s| > 1 ==> s[0] != '0')
    ensures Decimal(Number(s, 10)) == s
  {
    var early, c := s[..|s| - 1], s[|s| - 1];
    var n := Number(early, 10);
    DigitAgain(c);
    LastDigit(n, DigitValue(c));
    if early != "" {
      DecimalOfNumber(early);
      ZeroDigits(early);
      assert early[0] == s[0];
    }
  }

  lemma PowStep(x: int, j: nat)
    requires j > 0
    ensures x * Pow10(j) == x * Pow10(j - 1) * 10 + 0
  {
    TimesTen(x, Pow10(j - 1), 0);
  }

  lemma FirstDigits(a: string, c: char, k: nat)
    requires k <= |a|
    ensures (a + [c])[..k] == a[..k]
  {
  }

  /** Further zeros do not change the first digits. */
  lemma {:induction false} PaddedTail(x: nat, k: nat, j: nat, y: nat)
    requires y == x * Pow10(j)
    ensures Padded(y, k + j)[..k] == Padded(x, k)
  {
    if j > 0 {
      var z: nat := y / 10;
      PowStep(x, j);
      PaddedTail(x, k, j - 1, z);
      FirstDigits(Padded(z, k + j - 1), DigitChar(y % 10), k);
    }
  }

  lemma SameParts(m: int, v: int)
    requires Sign(v) == Sign(m) && Whole(v) == Whole(m) && |Sign(m)| + |Whole(m)| < BUFFER
    requires Fraction(v)[..Decimals(m)] == Fraction(m)[..Decimals(m)]
    ensures Printed(v) == Printed(m)
  {
    PrintedIs(m);
    PrintedIs(v);
  }

  lemma DivModOf(a: nat, b: nat)
    requires b < MICRO
    ensures (a * MICRO + b) / MICRO == a && (a * MICRO + b) % MICRO == b
  {
  }

  lemma {:induction false} NumberBound(s: string)
    requires InBase(s, 10)
    ensures Number(s, 10) < Pow10(|s|)
  {
    if s != "" { NumberBound(s[..|s| - 1]); }
  }

  /** The text of a whole number of units and further millionths. */
  lemma PartsOf(negative: bool, n: nat, b: nat)
    requires b < MICRO && n + b > 0
    ensures var v := Join(negative, n * MICRO + b);
      Sign(v) == (if negative then "-" else "") && Whole(v) == Decimal(n) && Fraction(v) == Padded(b, 6)
  {
    DivModOf(n, b);
    assert Abs(Join(negative, n * MICRO + b)) == n * MICRO + b;
  }

  /** The buffer cuts within or right after the whole part. */
  lemma PrintedAgainWhole(m: int)
    requires |Sign(m)| + |Whole(m)| >= BUFFER
    ensures Printed(Join(m < 0, Kept(m))) == Printed(m)
  {
    var head := Head(m);
    var a := Number(head, 10);
    HeadDigits(m);
    DecimalOfNumber(head);
    ZeroDigits(head);
    PartsOf(m < 0, a, 0);
    PrintedIs(m);
    PrintedIs(Join(m < 0, a * MICRO));
    assert head[..|head|] == head;
  }

  /** The first k decimals, followed by zeros. */
  lemma KeptDecimals(f: string, k: nat) returns (b: nat)
    requires |f| == 6 && (forall i :: 0 <= i < 6 ==> IsDigit(f[i])) && k <= 6
    ensures b == Number(f[..k], 10) * Pow10(6 - k) && b < MICRO && Padded(b, 6)[..k] == f[..k]
  {
    var a := f[..k];
    b := Number(a, 10) * Pow10(6 - k);
    assert forall i :: 0 <= i < k ==> a[i] == f[i];
    PaddedOfNumber(a);
    PaddedTail(Number(a, 10), k, 6 - k, b);
    KeptBelow(f, k);
  }

  lemma KeptBelow(f: string, k: nat)
    requires |f| == 6 && (forall i :: 0 <= i < 6 ==> IsDigit(f[i])) && k <= 6
    ensures Number(f[..k], 10) * Pow10(6 - k) < MICRO
  {
    NumberBound(f);
    NumberAppend(f[..k], f[k..]);
    assert f == f[..k] + f[k..];
    assert Pow10(6) == MICRO;
  }

  /** The buffer cuts after k decimals, or not at all. */
  lemma PrintedAgainParts(m: int, k: nat)
    requires k == Decimals(m) && |Sign(m)| + |Whole(m)| < BUFFER
    ensures Printed(Join(m < 0, Kept(m))) == Printed(m)
  {
    var b := KeptDecimals(Fraction(m), k);
    var n := Abs(m) / MICRO;
    NumberOfDecimal(n);
    assert Kept(m) == n * MICRO + b;
    if n + b > 0 {
      PartsOf(m < 0, n, b);
      SameParts(m, Join(m < 0, n * MICRO + b));
    } else {
      NothingLost(m);
    }
  }

  lemma NothingLost(m: int)
    requires Abs(m) < MICRO
    ensures Kept(m) == Abs(m) && Join(m < 0, Kept(m)) == m
  {
    PlaceValue(m);
    assert Fraction(m)[..6] == Fraction(m);
  }

  /** A float read back from its text prints as that text again, whatever the buffer cut off. */
  lemma PrintedAgain(m: int)
    ensures ReadFloat(Printed(m)).Some? && Printed(ReadFloat(Printed(m)).value) == Printed(m)
  {
    ReadBack(m);
    if |Sign(m)| + |Whole(m)| >= BUFFER { PrintedAgainWhole(m); } else { PrintedAgainParts(m, Decimals(m)); }
  }

  /** Ten to the 31st has 32 digits: it is not read back, though it prints the same. */
  lemma TenToThe31IsLost()
    ensures var m := Pow10(31) * MICRO;
      ReadFloat(Printed(m)).Some? && ReadFloat(Printed(m)).value != m && Printed(ReadFloat(Printed(m)).value) == Printed(m)
  {
    LongFloatIsLost(Pow10(31), 31);
  }

  lemma LongFloatIsLost(p: nat, k: nat)
    requires p == Pow10(k) && k + 1 > BUFFER
    ensures var m := p * MICRO;
      ReadFloat(Printed(m)).Some? && ReadFloat(Printed(m)).value != m && Printed(ReadFloat(Printed(m)).value) == Printed(m)
  {
    LongDecimal(k);
    assert Whole(p * MICRO) == Decimal(p);
    PrintedRestored(p * MICRO);
    PrintedAgain(p * MICRO);
  }

  lemma {:induction false} LongDecimal(k: nat)
    ensures |Decimal(Pow10(k))| == k + 1
  {
    if k > 0 { LongDecimal(k - 1); }
  }
}
