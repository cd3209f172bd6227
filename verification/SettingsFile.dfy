/** The settings file: one line a setting under its module's heading, and the parser that reads it. */
module SettingsFile {
  import opened Common
  import opened SettingsText

  // ---------------------------------------------------------------------------
  // Settings
  // ---------------------------------------------------------------------------

  datatype Kind = U32 | U8 | Float | Pin | Str

  /** One setting: where it is filed, its type, and for strings the size of its buffer. */
  datatype Row = Row(module_: string, key: string, kind: Kind, size: nat)

  /** A float is held in millionths. */
  datatype Value = Unsigned(n: nat) | Real(micro: int) | PinNumber(pin: int) | Text(s: string)

  /** The pins of an ESP32-S3. */
  predicate ValidPin(p: int) {
    0 <= p <= 48 && !(22 <= p <= 25)
  }

  predicate Typed(row: Row, v: Value) {
    match row.kind
    case U32 => v.Unsigned? && v.n <= ULONG_MAX
    case U8 => v.Unsigned? && v.n <= 255
    case Float => v.Real?
    case Pin => v.PinNumber? && ValidPin(v.pin)
    case Str => v.Text? && |v.s| < row.size && '\0' !in v.s
  }

  function Format(v: Value): string {
    match v
    case Unsigned(n) => Decimal(n)
    case Real(m) => Printed(m)
    case PinNumber(p) => if p < 0 then "-" + Decimal(-p) else Decimal(p)
    case Text(s) => s
  }

  /** The value a text denotes for this row, if it is acceptable. */
  function Parse(row: Row, text: string): (r: Option<Value>)
    ensures r.Some? && '\0' !in text ==> Typed(row, r.value)
  {
    if text == "" then None
    else
      match row.kind
      case U32 => (match ReadUnsigned(text) case None => None case Some(n) => Some(Unsigned(n)))
      case U8 => (match ReadUnsigned(text) case None => None case Some(n) => if n > 255 then None else Some(Unsigned(n)))
      case Float => (match ReadFloat(text) case None => None case Some(m) => Some(Real(m)))
      case Pin => (match ReadSigned(text) case None => None case Some(p) => if ValidPin(p) then Some(PinNumber(p)) else None)
      case Str => if |text| >= row.size then None else Some(Text(text))
  }

  /** Every value is read back from its own text, but for the empty string and for floats too long for
      the buffer. */
  lemma ParseFormat(row: Row, v: Value)
    requires Typed(row, v)
    ensures Parse(row, Format(v)) == Some(v) <==> v != Text("") && (v.Real? ==> FitsBuffer(v.micro))
    ensures v.Real? ==> Parse(row, Format(v)).Some?
    ensures v != Text("") ==> Format(v) != ""
    ensures !v.Text? ==> Plain(Format(v))
  {
    match v
    case Unsigned(n) => ReadDecimal(n);
    case PinNumber(p) => ReadDecimal(p);
    case Real(m) => PrintedRestored(m); PrintedPlain(m);
    case Text(s) =>
  }

  /** Which numbers and texts the kinds take. */
  lemma ParseAccepts(m: string, k: string, size: nat, n: nat, s: string)
    ensures Parse(Row(m, k, U32, size), Decimal(n)) == Some(Unsigned(if n <= 0xFFFF_FFFF then n else 0xFFFF_FFFF))
    ensures Parse(Row(m, k, U8, size), Decimal(n)) == if n <= 255 then Some(Unsigned(n)) else None
    ensures Parse(Row(m, k, Pin, size), Decimal(n)) == if n <= 21 || 26 <= n <= 48 then Some(PinNumber(n)) else None
    ensures Parse(Row(m, k, Str, size), s) == if 0 < |s| < size then Some(Text(s)) else None
  {
    ReadDecimal(n);
  }

  /** Text without line ends. */
  predicate Plain(s: string) {
    '\r' !in s && '\n' !in s
  }

  lemma PrintedPlain(m: int)
    ensures Printed(m) != "" && Plain(Printed(m))
  {
  }

  // ---------------------------------------------------------------------------
  // Lines
  // ---------------------------------------------------------------------------

  predicate IsLineEnd(c: char) { c == '\r' || c == '\n' }

  /** The non-empty lines of the text, the first of which begins with `started`. */
  function Lines(text: string, started: string): seq<string> {
    if text == "" then if started == "" then [] else [started]
    else if IsLineEnd(text[0]) then (if started == "" then [] else [started]) + Lines(text[1..], "")
    else Lines(text[1..], started + [text[0]])
  }

  lemma {:induction false} LinesOfPlain(a: string, rest: string, started: string)
    requires Plain(a)
    ensures Lines(a + rest, started) == Lines(rest, started + a)
  {
    if a == "" {
      assert a + rest == rest && started + a == started;
    } else {
      LinesOfPlain(a[1..], rest, started + [a[0]]);
      assert (a + rest)[1..] == a[1..] + rest;
      assert (started + [a[0]]) + a[1..] == started + a;
    }
  }

  /** A line of its own is one token. */
  lemma LinesCons(line: string, rest: string)
    requires Plain(line) && line != ""
    ensures Lines(line + "\n" + rest, "") == [line] + Lines(rest, "")
  {
    LinesOfPlain(line, "\n" + rest, "");
    assert line + "\n" + rest == line + ("\n" + rest);
    assert ("\n" + rest)[1..] == rest;
    assert "" + line == line;
  }

  /** No line holds a line end. */
  lemma {:induction false} LinesArePlain(text: string, started: string)
    requires Plain(started)
    ensures forall i :: 0 <= i < |Lines(text, started)| ==> Plain(Lines(text, started)[i])
  {
    if text != "" {
      if IsLineEnd(text[0]) {
        LinesArePlain(text[1..], "");
      } else {
        LinesArePlain(text[1..], started + [text[0]]);
      }
    }
  }

  // ---------------------------------------------------------------------------
  // The table
  // ---------------------------------------------------------------------------

  const MAX_MODULE := 31

  predicate NameChar(c: char) {
    'a' <= c <= 'z' || '0' <= c <= '9' || c == '_'
  }

  predicate Name(s: string) {
    0 < |s| <= MAX_MODULE && forall i :: 0 <= i < |s| ==> NameChar(s[i])
  }

  /** No two rows share module and key, and names are words. */
  predicate Good(table: seq<Row>) {
    && (forall i :: 0 <= i < |table| ==> Name(table[i].module_) && Name(table[i].key) && table[i].size <= 64)
    && (forall i, j :: 0 <= i < j < |table| ==> table[i].module_ != table[j].module_ || table[i].key != table[j].key)
  }

  predicate AllTyped(table: seq<Row>, values: seq<Value>) {
    |values| == |table| && forall i :: 0 <= i < |table| ==> Typed(table[i], values[i])
  }

  /** Index of the row, or the table's length. */
  function Find(table: seq<Row>, module_: string, key: string): (i: nat)
    ensures i <= |table| && (i < |table| ==> table[i].module_ == module_ && table[i].key == key)
    ensures forall k :: 0 <= k < i ==> table[k].module_ != module_ || table[k].key != key
  {
    if table == [] then 0
    else if table[0].module_ == module_ && table[0].key == key then 0
    else 1 + Find(table[1..], module_, key)
  }

  lemma FindRow(table: seq<Row>, i: nat)
    requires Good(table) && i < |table|
    ensures Find(table, table[i].module_, table[i].key) == i
  {
  }

  // ---------------------------------------------------------------------------
  // Reading
  // ---------------------------------------------------------------------------

  /** Where the parser is: the current module, the values so far, how many lines it gave up on. */
  datatype State = State(module_: string, values: seq<Value>, skipped: nat)

  function SkipBlank(s: string): string {
    if s != "" && (s[0] == ' ' || s[0] == '\t') then SkipBlank(s[1..]) else s
  }

  function Heading(st: State, line: string): State
    requires line != ""
  {
    var close := IndexOf(line, ']');
    if close < |line| && close > 1 then st.(module_ := Cut(line[1..close], MAX_MODULE)) else st
  }

  function Assignment(table: seq<Row>, st: State, line: string): State
    requires |st.values| == |table|
  {
    var equals := IndexOf(line, '=');
    if equals == |line| then st.(skipped := st.skipped + 1)
    else
      var i := Find(table, st.module_, line[..equals]);
      if i == |table| then st.(skipped := st.skipped + 1)
      else
        match Parse(table[i], line[equals + 1..])
        case None => st.(skipped := st.skipped + 1)
        case Some(v) => st.(values := st.values[i := v])
  }

  function ReadLine(table: seq<Row>, st: State, raw: string): (r: State)
    requires |st.values| == |table|
    ensures |r.values| == |table|
  {
    var line := SkipBlank(raw);
    if line == "" || line[0] == '#' || line[0] == ';' then st
    else if line[0] == '[' then Heading(st, line)
    else Assignment(table, st, line)
  }

  function ReadLines(table: seq<Row>, st: State, lines: seq<string>): (r: State)
    requires |st.values| == |table|
    ensures |r.values| == |table|
    decreases |lines|
  {
    if lines == [] then st else ReadLines(table, ReadLine(table, st, lines[0]), lines[1..])
  }

  /** A C string ends at its first zero byte. */
  function CString(text: string): string {
    text[..IndexOf(text, '\0')]
  }

  /** The values after reading `text` onto `base`. */
  function ReadText(table: seq<Row>, base: seq<Value>, text: string): State
    requires |base| == |table|
  {
    ReadLines(table, State("", base, 0), Lines(CString(text), ""))
  }

  // ---------------------------------------------------------------------------
  // Writing
  // ---------------------------------------------------------------------------

  /** The heading is written where the module changes, after an empty line unless it is the first. */
  function HeadingText(table: seq<Row>, i: nat): string
    requires i < |table|
  {
    if i == 0 then HeadingLine(table[0].module_)
    else if table[i].module_ != table[i - 1].module_ then "\n" + HeadingLine(table[i].module_)
    else ""
  }

  function RowLine(row: Row, v: Value): string {
    row.key + ['='] + Format(v)
  }

  /** What is written for row i. */
  function Piece(table: seq<Row>, values: seq<Value>, i: nat): string
    requires |values| == |table| && i < |table|
  {
    HeadingText(table, i) + (RowLine(table[i], values[i]) + "\n")
  }

  function Pieces(table: seq<Row>, values: seq<Value>): (pieces: seq<string>)
    requires |values| == |table|
    ensures |pieces| == |table|
  {
    seq(|table|, i requires 0 <= i < |table| => Piece(table, values, i))
  }

  function SavedText(table: seq<Row>, values: seq<Value>): string
    requires |values| == |table|
  {
    Flatten(Pieces(table, values))
  }

  // ---------------------------------------------------------------------------
  // Round trip
  // ---------------------------------------------------------------------------

  predicate PlainText(v: Value) {
    v.Text? ==> Plain(v.s)
  }

  predicate AllPlain(values: seq<Value>) {
    forall i :: 0 <= i < |values| ==> PlainText(values[i])
  }

  predicate AllFit(values: seq<Value>) {
    forall i :: 0 <= i < |values| ==> values[i].Real? ==> FitsBuffer(values[i].micro)
  }

  /** What becomes of a value that is written and read onto `base`. */
  function Restored(row: Row, v: Value, base: Value): Value {
    match Parse(row, Format(v))
    case None => base
    case Some(w) => w
  }

  lemma SkipNothing(s: string)
    requires s == "" || (s[0] != ' ' && s[0] != '\t')
    ensures SkipBlank(s) == s
  {
  }

  /** Blank lines and comments change nothing, whatever blanks are in front. */
  lemma ReadNothing(table: seq<Row>, st: State, blanks: string, c: char, rest: string)
    requires |st.values| == |table| && (c == '#' || c == ';')
    requires forall i :: 0 <= i < |blanks| ==> blanks[i] == ' ' || blanks[i] == '\t'
    ensures ReadLine(table, st, blanks) == st && ReadLine(table, st, blanks + [c] + rest) == st
  {
    SkipAll(blanks, "");
    SkipAll(blanks, [c] + rest);
    assert blanks + "" == blanks && blanks + [c] + rest == blanks + ([c] + rest);
  }

  lemma {:induction false} SkipAll(blanks: string, s: string)
    requires forall i :: 0 <= i < |blanks| ==> blanks[i] == ' ' || blanks[i] == '\t'
    requires s == "" || (s[0] != ' ' && s[0] != '\t')
    ensures SkipBlank(blanks + s) == s
  {
    if blanks == "" {
      assert blanks + s == s;
    } else {
      SkipAll(blanks[1..], s);
      assert (blanks + s)[1..] == blanks[1..] + s;
    }
  }

  /** The characters that begin another kind of line. */
  predicate Special(c: char) {
    c == ' ' || c == '\t' || c == '#' || c == ';' || c == '['
  }

  /** Any other line sets the named row of the current module if there is one and takes the text, and is
      otherwise counted as skipped. */
  lemma ReadSetting(table: seq<Row>, st: State, key: string, text: string)
    requires |st.values| == |table| && key != "" && !Special(key[0]) && '=' !in key
    ensures ReadLine(table, st, key) == st.(skipped := st.skipped + 1)
    ensures var i := Find(table, st.module_, key);
      ReadLine(table, st, key + ['='] + text) ==
        if i < |table| && Parse(table[i], text).Some? then st.(values := st.values[i := Parse(table[i], text).value])
        else st.(skipped := st.skipped + 1)
  {
    var line := key + ['='] + text;
    assert line[0] == key[0];
    SkipNothing(key);
    SkipNothing(line);
    IndexOfNone(key, '=');
    IndexOfFirst(key, '=', text);
    assert line[..|key|] == key && line[|key| + 1..] == text;
  }

  /** How a saved file looks. */
  lemma SavedLooks(table: seq<Row>, values: seq<Value>)
    requires table == [Row("identity", "name", Str, 16), Row("timers", "slow_ms", U32, 0), Row("timers", "gain", Float, 0)]
    requires values == [Text("bally"), Unsigned(250), Real(-1_500_000)]
    ensures SavedText(table, values) == "[identity]\nname=bally\n" + "\n[timers]\nslow_ms=250\n" + "gain=-1.500000\n"
  {
    FirstPiece(table, values);
    SecondPiece(table, values);
    ThirdPiece(table, values);
    var pieces := Pieces(table, values);
    assert pieces == [pieces[0], pieces[1], pieces[2]];
    FlattenThree(pieces[0], pieces[1], pieces[2]);
  }

  lemma FirstPiece(table: seq<Row>, values: seq<Value>)
    requires |table| == |values| > 0 && table[0] == Row("identity", "name", Str, 16) && values[0] == Text("bally")
    ensures Piece(table, values, 0) == "[identity]\nname=bally\n"
  {
  }

  lemma SecondPiece(table: seq<Row>, values: seq<Value>)
    requires |table| == |values| > 1 && table[0].module_ == "identity" && table[1] == Row("timers", "slow_ms", U32, 0)
    requires values[1] == Unsigned(250)
    ensures Piece(table, values, 1) == "\n[timers]\nslow_ms=250\n"
  {
    SecondHeading(table);
    Digits250(values[1].n);
    assert RowLine(table[1], values[1]) == "slow_ms=250";
  }

  lemma SecondHeading(table: seq<Row>)
    requires |table| > 1 && table[0].module_ == "identity" && table[1].module_ == "timers"
    ensures HeadingText(table, 1) == "\n[timers]\n"
  {
    assert table[1].module_[0] != table[0].module_[0];
  }

  lemma ThirdPiece(table: seq<Row>, values: seq<Value>)
    requires |table| == |values| > 2 && table[1].module_ == "timers" && table[2] == Row("timers", "gain", Float, 0)
    requires values[2] == Real(-1_500_000)
    ensures Piece(table, values, 2) == "gain=-1.500000\n"
  {
    FloatLooks(values[2].micro);
  }

  lemma FlattenThree(a: string, b: string, c: string)
    ensures Flatten([a, b, c]) == a + b + c
  {
    FlattenSnoc([], a);
    FlattenSnoc([a], b);
    FlattenSnoc([a, b], c);
    assert [] + [a] == [a] && [a] + [b] == [a, b] && [a, b] + [c] == [a, b, c];
  }

  lemma Digits250(n: nat)
    requires n == 250
    ensures Decimal(n) == "250"
  {
    assert Decimal(n) == Decimal(n / 10) + "0";
    assert Decimal(n / 10) == Decimal(n / 10 / 10) + "5";
  }

  lemma FloatLooks(m: int)
    requires m == -1_500_000
    ensures Printed(m) == "-1.500000"
  {
    var whole, part := Abs(m) / MICRO, Abs(m) % MICRO;
    assert Decimal(whole) == "1";
    FiveAndZeros(part);
    assert FloatText(m) == "-" + ("1" + ['.'] + "500000");
  }

  lemma FiveAndZeros(n: nat)
    requires n == 500_000
    ensures Padded(n, 6) == "500000"
  {
    ThreeZeros(n, 3);
    PaddedIs(500, 3);
    PaddedIs(50, 2);
    PaddedIs(5, 1);
  }

  lemma ThreeZeros(n: nat, k: nat)
    requires n % 1000 == 0
    ensures Padded(n, k + 3) == Padded(n / 1000, k) + "000"
  {
    PaddedIs(n, k + 3);
    PaddedIs(n / 10, k + 2);
    PaddedIs(n / 100, k + 1);
  }

  lemma PaddedIs(n: nat, k: nat)
    requires k > 0
    ensures Padded(n, k) == Padded(n / 10, k - 1) + [DigitChar(n % 10)]
    ensures Padded(n, 0) == ""
  {
  }

  lemma ReadHeading(table: seq<Row>, st: State, m: string)
    requires |st.values| == |table| && Name(m)
    ensures ReadLine(table, st, "[" + m + "]") == st.(module_ := m)
    ensures Plain("[" + m + "]")
  {
    var line := "[" + m + "]";
    SkipNothing(line);
    assert forall i :: 0 <= i < |m| ==> NameChar(m[i]) && line[i + 1] == m[i];
    assert line == ("[" + m) + [']'] + "";
    assert ']' !in "[" + m;
    IndexOfFirst("[" + m, ']', "");
    assert line[1..|m| + 1] == m;
  }

  lemma ReadAssignment(table: seq<Row>, st: State, i: nat, v: Value)
    requires Good(table) && |st.values| == |table| && i < |table| && st.module_ == table[i].module_
    ensures ReadLine(table, st, RowLine(table[i], v)).values == st.values[i := Restored(table[i], v, st.values[i])]
    ensures ReadLine(table, st, RowLine(table[i], v)).module_ == st.module_
    ensures Plain(Format(v)) ==> Plain(RowLine(table[i], v))
  {
    var key, text := table[i].key, Format(v);
    var line := RowLine(table[i], v);
    assert NameChar(key[0]) && line[0] == key[0];
    assert forall k :: 0 <= k < |key| ==> NameChar(key[k]);
    SkipNothing(line);
    IndexOfFirst(key, '=', text);
    assert line[..|key|] == key && line[|key| + 1..] == text;
    FindRow(table, i);
    assert st.values[i := st.values[i]] == st.values;
  }

  ghost function AllRestored(table: seq<Row>, values: seq<Value>, base: seq<Value>): (r: seq<Value>)
    requires |values| == |base| == |table|
    ensures |r| == |table|
  {
    seq(|table|, j requires 0 <= j < |table| => Restored(table[j], values[j], base[j]))
  }

  /** The parser stands before row i: earlier rows are restored, later ones untouched. */
  ghost predicate Before(table: seq<Row>, values: seq<Value>, base: seq<Value>, i: nat, st: State) {
    && |values| == |base| == |st.values| == |table| && i <= |table|
    && st.module_ == (if i == 0 then "" else table[i - 1].module_)
    && (forall j :: 0 <= j < |table| ==> st.values[j] == if j < i then Restored(table[j], values[j], base[j]) else base[j])
  }

  lemma ReadHeadingLine(table: seq<Row>, st: State, m: string, rest: string)
    requires |st.values| == |table| && Name(m)
    ensures ReadLines(table, st, Lines(HeadingLine(m) + rest, ""))
         == ReadLines(table, st.(module_ := m), Lines(rest, ""))
  {
    ReadHeading(table, st, m);
    LinesCons("[" + m + "]", rest);
    ReadFirst(table, st, "[" + m + "]", Lines(rest, ""));
  }

  lemma EmptyLine(rest: string)
    ensures Lines("\n" + rest, "") == Lines(rest, "")
  {
  }

  function HeadingLine(m: string): string {
    "[" + m + "]" + "\n"
  }

  lemma HeadingTextCases(table: seq<Row>, i: nat, rest: string)
    requires i < |table|
    ensures i == 0 ==> HeadingText(table, i) + rest == HeadingLine(table[i].module_) + rest
    ensures i > 0 && table[i].module_ != table[i - 1].module_ ==>
      HeadingText(table, i) + rest == "\n" + (HeadingLine(table[i].module_) + rest)
    ensures i > 0 && table[i].module_ == table[i - 1].module_ ==> HeadingText(table, i) + rest == rest
  {
  }

  /** Reading a heading, where there is one, puts the parser in the row's module. */
  lemma ReadHeadingText(table: seq<Row>, i: nat, st: State, rest: string)
    requires Good(table) && i < |table| && |st.values| == |table|
    requires i > 0 ==> st.module_ == table[i - 1].module_
    ensures ReadLines(table, st, Lines(HeadingText(table, i) + rest, ""))
         == ReadLines(table, st.(module_ := table[i].module_), Lines(rest, ""))
  {
    HeadingTextCases(table, i, rest);
    if i == 0 || table[i].module_ != table[i - 1].module_ {
      ReadHeadingLine(table, st, table[i].module_, rest);
      if i > 0 { EmptyLine(HeadingLine(table[i].module_) + rest); }
    }
  }

  lemma ReadFirst(table: seq<Row>, st: State, line: string, lines: seq<string>)
    requires |st.values| == |table|
    ensures ReadLines(table, st, [line] + lines) == ReadLines(table, ReadLine(table, st, line), lines)
  {
  }

  ghost predicate AllWritable(values: seq<Value>) {
    forall j :: 0 <= j < |values| ==> Plain(Format(values[j]))
  }

  lemma AllPlainWritable(table: seq<Row>, values: seq<Value>)
    requires AllTyped(table, values) && AllPlain(values)
    ensures AllWritable(values)
  {
    forall j | 0 <= j < |values| ensures Plain(Format(values[j])) {
      ParseFormat(table[j], values[j]);
    }
  }

  /** Whatever follows, reading this piece takes the parser from `s` to `next`. */
  ghost predicate Consumes(table: seq<Row>, piece: string, s: State, next: State) {
    && |s.values| == |next.values| == |table|
    && (forall rest: string :: ReadLines(table, s, Lines(piece + rest, "")) == ReadLines(table, next, Lines(rest, "")))
  }

  /** The states between the first pieces. */
  ghost predicate Between(table: seq<Row>, pieces: seq<string>, states: seq<State>) {
    && 0 < |states| <= |pieces| + 1
    && (forall k :: 0 <= k < |states| - 1 ==> Consumes(table, pieces[k], states[k], states[k + 1]))
  }

  lemma BetweenOneMore(table: seq<Row>, pieces: seq<string>, states: seq<State>, next: State)
    requires Between(table, pieces, states) && |states| <= |pieces|
    requires Consumes(table, pieces[|states| - 1], states[|states| - 1], next)
    ensures Between(table, pieces, states + [next])
  {
  }

  lemma {:induction false} ReadPieces(table: seq<Row>, pieces: seq<string>, states: seq<State>)
    requires Between(table, pieces, states) && |states| == |pieces| + 1 && |states[0].values| == |table|
    ensures ReadLines(table, states[0], Lines(Flatten(pieces), "")) == states[|pieces|]
  {
    if pieces != [] {
      assert pieces == [pieces[0]] + pieces[1..];
      FlattenCons(pieces[0], pieces[1..]);
      assert Consumes(table, pieces[0], states[0], states[1]);
      ReadPieces(table, pieces[1..], states[1..]);
    }
  }

  lemma RestoreRow(table: seq<Row>, values: seq<Value>, base: seq<Value>, i: nat, st: State) returns (next: State)
    requires Good(table) && i < |table| && Before(table, values, base, i, st) && Plain(Format(values[i]))
    ensures Before(table, values, base, i + 1, next)
    ensures Consumes(table, Piece(table, values, i), st, next)
  {
    var line := RowLine(table[i], values[i]);
    var inside := st.(module_ := table[i].module_);
    ReadAssignment(table, inside, i, values[i]);
    next := ReadLine(table, inside, line);
    RowLineNotEmpty(table[i], values[i]);
    forall rest: string
      ensures ReadLines(table, st, Lines(Piece(table, values, i) + rest, "")) == ReadLines(table, next, Lines(rest, ""))
    {
      Assoc(HeadingText(table, i), line + "\n", rest);
      ReadHeadingText(table, i, st, line + "\n" + rest);
      LinesCons(line, rest);
      ReadFirst(table, inside, line, Lines(rest, ""));
    }
  }

  lemma RowLineNotEmpty(row: Row, v: Value)
    ensures RowLine(row, v) != ""
  {
  }

  /** The parser's states between the first i rows. */
  lemma {:induction false} RestoreStates(table: seq<Row>, values: seq<Value>, base: seq<Value>, i: nat) returns (states: seq<State>)
    requires Good(table) && |values| == |base| == |table| && AllWritable(values) && i <= |table|
    ensures |states| == i + 1 && states[0] == State("", base, 0) && Before(table, values, base, i, states[i])
    ensures Between(table, Pieces(table, values), states)
  {
    if i == 0 {
      states := [State("", base, 0)];
    } else {
      var early := RestoreStates(table, values, base, i - 1);
      var next := RestoreRow(table, values, base, i - 1, early[i - 1]);
      BetweenOneMore(table, Pieces(table, values), early, next);
      states := early + [next];
    }
  }

  /** Reading a saved file onto `base` restores every setting that can be read back from its text, and
      leaves the others as in `base`, provided no string holds a line end or a zero byte. */
  lemma SavedIsRestored(table: seq<Row>, values: seq<Value>, base: seq<Value>)
    requires Good(table) && AllTyped(table, values) && |base| == |table| && AllPlain(values)
    ensures ReadText(table, base, SavedText(table, values)).values == AllRestored(table, values, base)
  {
    SavedIsCString(table, values);
    AllPlainWritable(table, values);
    var states := RestoreStates(table, values, base, |table|);
    ReadPieces(table, Pieces(table, values), states);
  }

  lemma SavedIsCString(table: seq<Row>, values: seq<Value>)
    requires Good(table) && AllTyped(table, values)
    ensures CString(SavedText(table, values)) == SavedText(table, values)
  {
    var pieces := Pieces(table, values);
    forall k | 0 <= k < |pieces| ensures '\0' !in pieces[k] {
      RowHasNoZero(table, values, k);
    }
    FlattenAvoids(pieces, '\0');
    IndexOfNone(Flatten(pieces), '\0');
    assert Flatten(pieces)[..|Flatten(pieces)|] == Flatten(pieces);
  }

  lemma {:induction false} FlattenAvoids(pieces: seq<string>, c: char)
    requires forall k :: 0 <= k < |pieces| ==> c !in pieces[k]
    ensures c !in Flatten(pieces)
  {
    if pieces != [] { FlattenAvoids(pieces[..|pieces| - 1], c); }
  }

  lemma RowHasNoZero(table: seq<Row>, values: seq<Value>, i: nat)
    requires Good(table) && AllTyped(table, values) && i < |table|
    ensures '\0' !in Piece(table, values, i)
  {
    assert forall k :: 0 <= k < |table[i].key| ==> NameChar(table[i].key[k]);
    assert forall k :: 0 <= k < |table[i].module_| ==> NameChar(table[i].module_[k]);
    assert '\0' !in table[i].key && '\0' !in table[i].module_;
    FormatHasNoZero(table[i], values[i]);
  }

  lemma FormatHasNoZero(row: Row, v: Value)
    requires Typed(row, v)
    ensures '\0' !in Format(v)
  {
  }

  // ---------------------------------------------------------------------------
  // Onto the factory settings
  // ---------------------------------------------------------------------------

  /** A setting is only empty where the factory setting is. */
  ghost predicate Settled(table: seq<Row>, values: seq<Value>, defaults: seq<Value>) {
    && AllTyped(table, values) && |defaults| == |table|
    && (forall i :: 0 <= i < |table| && values[i] == Text("") ==> defaults[i] == Text(""))
  }

  lemma RestoredExactly(row: Row, v: Value, base: Value)
    requires Typed(row, v) && (v == Text("") ==> base == Text(""))
    ensures Restored(row, v, base) == v <==> (v.Real? ==> FitsBuffer(v.micro))
  {
    ParseFormat(row, v);
  }

  lemma {:induction false} LinesAvoid(text: string, started: string, c: char)
    requires c !in text && c !in started
    ensures forall i :: 0 <= i < |Lines(text, started)| ==> c !in Lines(text, started)[i]
  {
    if text != "" {
      LinesAvoid(text[1..], if IsLineEnd(text[0]) then "" else started + [text[0]], c);
    }
  }

  lemma {:induction false} SkipBlankSuffix(s: string) returns (n: nat)
    ensures n <= |s| && SkipBlank(s) == s[n..]
  {
    n := 0;
    if s != "" && (s[0] == ' ' || s[0] == '\t') {
      n := SkipBlankSuffix(s[1..]);
      n := n + 1;
    }
  }

  /** A line without line ends or zero bytes leaves typed, settled, plain values so. */
  lemma ReadLineKeeps(table: seq<Row>, defaults: seq<Value>, st: State, line: string)
    requires Settled(table, st.values, defaults) && Plain(line) && '\0' !in line
    ensures Settled(table, ReadLine(table, st, line).values, defaults)
    ensures AllPlain(st.values) ==> AllPlain(ReadLine(table, st, line).values)
  {
    var n := SkipBlankSuffix(line);
    assert Plain(line[n..]) && '\0' !in line[n..];
  }

  lemma {:induction false} ReadLinesKeeps(table: seq<Row>, defaults: seq<Value>, st: State, lines: seq<string>)
    requires Settled(table, st.values, defaults)
    requires forall i :: 0 <= i < |lines| ==> Plain(lines[i]) && '\0' !in lines[i]
    ensures Settled(table, ReadLines(table, st, lines).values, defaults)
    ensures AllPlain(st.values) ==> AllPlain(ReadLines(table, st, lines).values)
    decreases |lines|
  {
    if lines != [] {
      ReadLineKeeps(table, defaults, st, lines[0]);
      ReadLinesKeeps(table, defaults, ReadLine(table, st, lines[0]), lines[1..]);
    }
  }

  /** Whatever the file holds. */
  lemma ReadTextKeeps(table: seq<Row>, defaults: seq<Value>, base: seq<Value>, text: string)
    requires Settled(table, base, defaults)
    ensures Settled(table, ReadText(table, base, text).values, defaults)
    ensures AllPlain(base) ==> AllPlain(ReadText(table, base, text).values)
  {
    LinesAvoid(CString(text), "", '\0');
    LinesArePlain(CString(text), "");
    ReadLinesKeeps(table, defaults, State("", base, 0), Lines(CString(text), ""));
  }

  /** Reading what was saved onto the factory settings gives the saved settings exactly when no string
      holds a line end and every float fits the buffer it is written through. */
  lemma SaveThenRead(table: seq<Row>, values: seq<Value>, defaults: seq<Value>)
    requires Good(table) && Settled(table, values, defaults) && Settled(table, defaults, defaults) && AllPlain(defaults)
    ensures ReadText(table, defaults, SavedText(table, values)).values == values <==> AllPlain(values) && AllFit(values)
  {
    ReadTextKeeps(table, defaults, defaults, SavedText(table, values));
    if AllPlain(values) {
      SavedIsRestored(table, values, defaults);
      forall i | 0 <= i < |table| ensures Restored(table[i], values[i], defaults[i]) == values[i] <==> (values[i].Real? ==> FitsBuffer(values[i].micro)) {
        RestoredExactly(table[i], values[i], defaults[i]);
      }
      RestoredAlike(table, values, defaults);
    }
  }

  lemma RestoredAlike(table: seq<Row>, values: seq<Value>, base: seq<Value>)
    requires |table| == |values| == |base|
    ensures AllRestored(table, values, base) == values <==> forall i :: 0 <= i < |table| ==> Restored(table[i], values[i], base[i]) == values[i]
  {
  }

  // ---------------------------------------------------------------------------
  // Size
  // ---------------------------------------------------------------------------

  lemma FormatLength(row: Row, v: Value)
    requires Typed(row, v) && row.size <= 64
    ensures |Format(v)| <= 63
  {
    match v
    case Unsigned(n) => assert Pow10(10) > ULONG_MAX; DecimalLength(n, 10);
    case PinNumber(p) => assert Pow10(2) == 100; DecimalLength(p, 2);
    case _ =>
  }

  lemma RowFits(table: seq<Row>, values: seq<Value>, i: nat)
    requires Good(table) && AllTyped(table, values) && i < |table|
    ensures |HeadingText(table, i)| <= MAX_MODULE + 4
    ensures |RowLine(table[i], values[i])| <= MAX_MODULE + 1 + 63
  {
    FormatLength(table[i], values[i]);
  }

  lemma {:induction false} FlattenLength(pieces: seq<string>, n: nat)
    requires forall k :: 0 <= k < |pieces| ==> |pieces[k]| <= n
    ensures |Flatten(pieces)| <= n * |pieces|
  {
    if pieces != [] {
      FlattenLength(pieces[..|pieces| - 1], n);
      assert n * |pieces| == n * (|pieces| - 1) + n;
    }
  }

  /** The saved text fits the read limit as long as the table has at most 57 rows. */
  lemma SavedFits(table: seq<Row>, values: seq<Value>)
    requires Good(table) && AllTyped(table, values)
    ensures |SavedText(table, values)| <= 131 * |table|
  {
    var pieces := Pieces(table, values);
    forall k | 0 <= k < |pieces| ensures |pieces[k]| <= 131 {
      RowFits(table, values, k);
    }
    FlattenLength(pieces, 131);
  }
}
