/** The robot's settings in memory and on its card. */
module RobotSettings {
  import opened Common
  import opened SettingsText
  import opened SettingsFile
  import SettingsTable

  /** ROBOT_SETTINGS_FILE_MAX_BYTES less the terminator. */
  const READ_LIMIT := 8191

  /** The card, or its absence; and the settings file, or its absence. */
  class Card {
    var mounted: bool
    var file: Option<string>

    constructor (mounted: bool, file: Option<string>)
      ensures this.mounted == mounted && this.file == file
    {
      this.mounted, this.file := mounted, file;
    }
  }

  /** The settings as they are printed. */
  function Printouts(values: seq<Value>): (texts: seq<string>)
    ensures |texts| == |values|
  {
    seq(|values|, i requires 0 <= i < |values| => Format(values[i]))
  }

  /** In how many places two lists differ. */
  ghost function Unequal(a: seq<string>, b: seq<string>): nat
    requires |a| == |b|
  {
    if a == [] then 0
    else
      var n := |a| - 1;
      Unequal(a[..n], b[..n]) + (if a[n] != b[n] then 1 else 0)
  }

  lemma {:induction false} NoneUnequal(a: seq<string>, b: seq<string>)
    requires |a| == |b|
    ensures Unequal(a, b) == 0 <==> a == b
  {
    if a != [] {
      NoneUnequal(a[..|a| - 1], b[..|b| - 1]);
      assert a == a[..|a| - 1] + [a[|a| - 1]] && b == b[..|b| - 1] + [b[|b| - 1]];
    }
  }

  /** How many settings print differently. */
  ghost function Differences(a: seq<Value>, b: seq<Value>): nat
    requires |a| == |b|
  {
    Unequal(Printouts(a), Printouts(b))
  }

  /** What was saved prints the same after it is read onto the factory settings, if and only if no string
      holds a line end. Digits a float has lost do not show. */
  lemma SavedPrintsAlike(table: seq<Row>, values: seq<Value>, defaults: seq<Value>)
    requires Good(table) && Settled(table, values, defaults) && Settled(table, defaults, defaults) && AllPlain(defaults)
    ensures var r := ReadText(table, defaults, SavedText(table, values)).values;
      |r| == |values| && (Differences(values, r) == 0 <==> AllPlain(values))
  {
    var r := ReadText(table, defaults, SavedText(table, values)).values;
    ReadTextKeeps(table, defaults, defaults, SavedText(table, values));
    NoneUnequal(Printouts(values), Printouts(r));
    if AllPlain(values) {
      SavedIsRestored(table, values, defaults);
      forall i | 0 <= i < |table| ensures Printouts(r)[i] == Printouts(values)[i] {
        RestoredPrintsAlike(table[i], values[i], defaults[i]);
      }
    } else {
      var i :| 0 <= i < |values| && !PlainText(values[i]);
      PlainPrintsPlain(table[i], values[i], r[i]);
      assert Printouts(values)[i] != Printouts(r)[i];
    }
  }

  lemma RestoredPrintsAlike(row: Row, v: Value, base: Value)
    requires Typed(row, v) && (v == Text("") ==> base == Text(""))
    ensures Format(Restored(row, v, base)) == Format(v)
  {
    ParseFormat(row, v);
    if v.Real? { PrintedAgain(v.micro); }
  }

  lemma PlainPrintsPlain(row: Row, v: Value, r: Value)
    requires Typed(row, v) && Typed(row, r) && PlainText(r) && !PlainText(v)
    ensures Format(v) != Format(r)
  {
  }

  // ---------------------------------------------------------------------------
  // Cutting the text into lines
  // ---------------------------------------------------------------------------

  lemma SkipLineEnd(s: string, p: nat)
    requires p < |s| && IsLineEnd(s[p])
    ensures Lines(s[p..], "") == Lines(s[p + 1..], "")
  {
  }

  lemma LineAt(s: string, p: nat, q: nat)
    requires p < q <= |s| && Plain(s[p..q]) && (q < |s| ==> IsLineEnd(s[q]))
    ensures Lines(s[p..], "") == [s[p..q]] + Lines(s[q..], "")
  {
    var line, rest := s[p..q], s[q..];
    assert s[p..] == line + rest;
    LinesOfPlain(line, rest, "");
    assert "" + line == line;
    if rest != "" { assert rest[0] == s[q]; }
  }

  lemma ReadLineAt(table: seq<Row>, st: State, s: string, p: nat, q: nat)
    requires |st.values| == |table|
    requires p < q <= |s| && Plain(s[p..q]) && (q < |s| ==> IsLineEnd(s[q]))
    ensures ReadLines(table, st, Lines(s[p..], "")) == ReadLines(table, ReadLine(table, st, s[p..q]), Lines(s[q..], ""))
  {
    LineAt(s, p, q);
    ReadFirst(table, st, s[p..q], Lines(s[q..], ""));
  }

  /** The first `n` pieces put end to end. */
  ghost function First(pieces: seq<string>, n: nat): string
    requires n <= |pieces|
  {
    if n == 0 then "" else First(pieces, n - 1) + pieces[n - 1]
  }

  lemma {:induction false} FirstIsFlatten(pieces: seq<string>, n: nat)
    requires n <= |pieces|
    ensures First(pieces, n) == Flatten(pieces[..n])
  {
    if n > 0 {
      FirstIsFlatten(pieces, n - 1);
      assert pieces[..n] == pieces[..n - 1] + [pieces[n - 1]];
      FlattenSnoc(pieces[..n - 1], pieces[n - 1]);
    }
  }

  class RobotSettings {
    const table: seq<Row>
    const defaults: seq<Value>
    var values: seq<Value>
    var save_revision: nat

    ghost predicate Valid()
      reads this
    {
      && Good(table) && |table| <= 57
      && Settled(table, defaults, defaults) && AllPlain(defaults)
      && Settled(table, values, defaults)
    }

    constructor (rows: seq<Row>, factory: seq<Value>)
      requires Good(rows) && |rows| <= 57 && AllTyped(rows, factory) && AllPlain(factory)
      ensures Valid() && table == rows && defaults == factory && values == factory && save_revision == 0
    {
      table, defaults, values, save_revision := rows, factory, factory, 0;
    }

    method FindEntry(module_: string, key: string) returns (i: nat)
      ensures i == Find(table, module_, key)
    {
      i := 0;
      while i < |table| && !(table[i].module_ == module_ && table[i].key == key)
        invariant i <= |table|
        invariant Find(table, module_, key) == i + Find(table[i..], module_, key)
      {
        assert table[i..][1..] == table[i + 1..];
        i := i + 1;
      }
    }

    method Get(module_: string, key: string) returns (text: Option<string>)
      requires Valid()
      ensures var i := Find(table, module_, key);
        text == if i < |table| then Some(Format(values[i])) else None
    {
      var i := FindEntry(module_, key);
      text := if i < |table| then Some(Format(values[i])) else None;
    }

    /** A value is taken if the setting exists and the text is acceptable to it, and changes nothing else. */
    method Set(module_: string, key: string, text: string) returns (ok: bool)
      requires Valid() && '\0' !in text
      modifies this`values
      ensures Valid()
      ensures var i := Find(table, module_, key);
        && ok == (i < |table| && Parse(table[i], text).Some?)
        && values == if ok then old(values)[i := Parse(table[i], text).value] else old(values)
    {
      var i := FindEntry(module_, key);
      ok := false;
      if i < |table| {
        var v := Parse(table[i], text);
        if v.Some? {
          values := values[i := v.value];
          ok := true;
        }
      }
    }

    method ResetAll()
      requires Valid()
      modifies this`values
      ensures Valid() && values == defaults
    {
      values := defaults;
    }

    method ResetModule(module_: string) returns (found: bool)
      requires Valid()
      modifies this`values
      ensures Valid()
      ensures found <==> module_ != "" && exists i :: 0 <= i < |table| && table[i].module_ == module_
      ensures forall i :: 0 <= i < |table| ==>
        values[i] == if table[i].module_ == module_ && module_ != "" then defaults[i] else old(values[i])
    {
      found := false;
      if module_ == "" { return; }
      var i := 0;
      while i < |table|
        invariant i <= |table| && Valid()
        invariant found <==> exists k :: 0 <= k < i && table[k].module_ == module_
        invariant forall k :: 0 <= k < |table| ==> values[k] == if k < i && table[k].module_ == module_ then defaults[k] else old(values[k])
      {
        if table[i].module_ == module_ {
          found := true;
          values := values[i := defaults[i]];
        }
        i := i + 1;
      }
    }

    // -------------------------------------------------------------------------
    // The file
    // -------------------------------------------------------------------------

    /** Adds one row, under a heading if its module is not the current one. */
    method WriteRow(buffer: string, current_module: string, i: nat) returns (longer: string)
      requires Valid() && i < |table| && current_module == if i == 0 then "" else table[i - 1].module_
      ensures longer == buffer + Pieces(table, values)[i]
    {
      var heading := "";
      assert Name(table[i].module_);
      if current_module != table[i].module_ {
        heading := HeadingLine(table[i].module_);
        if i != 0 { heading := "\n" + heading; }
      }
      longer := buffer + (heading + (RowLine(table[i], values[i]) + "\n"));
    }

    method SaveText() returns (buffer: string)
      requires Valid()
      ensures buffer == SavedText(table, values)
    {
      buffer := "";
      var current_module := "";
      var i := 0;
      ghost var pieces := Pieces(table, values);
      while i < |table|
        invariant i <= |table|
        invariant current_module == if i == 0 then "" else table[i - 1].module_
        invariant buffer == First(pieces, i)
      {
        buffer := WriteRow(buffer, current_module, i);
        current_module := table[i].module_;
        i := i + 1;
      }
      FirstIsFlatten(pieces, i);
      assert pieces[..i] == pieces;
    }

    method Save(card: Card, writes: bool) returns (written: bool)
      requires Valid()
      modifies card`file, this`save_revision
      ensures written == (card.mounted && writes)
      ensures card.file == if written then Some(SavedText(table, values)) else old(card.file)
      ensures save_revision == if written then old(save_revision) + 1 else old(save_revision)
    {
      written := false;
      if card.mounted {
        var buffer := SaveText();
        if writes {
          card.file := Some(buffer);
          save_revision := save_revision + 1;
          written := true;
        }
      }
    }

    /** One line of the file. */
    method ParseLine(st: State, raw: string) returns (next: State)
      requires |st.values| == |table|
      ensures next == ReadLine(table, st, raw)
    {
      next := st;
      var n := 0;
      while n < |raw| && (raw[n] == ' ' || raw[n] == '\t')
        invariant n <= |raw| && SkipBlank(raw) == SkipBlank(raw[n..])
      {
        assert raw[n..][1..] == raw[n + 1..];
        n := n + 1;
      }
      var line := raw[n..];
      assert line == SkipBlank(raw);
      if line == "" || line[0] == '#' || line[0] == ';' { return; }
      if line[0] == '[' {
        next := Heading(st, line);
      } else {
        next := Assign(st, line);
      }
    }

    method Assign(st: State, line: string) returns (next: State)
      requires |st.values| == |table|
      ensures next == Assignment(table, st, line)
    {
      var equals := IndexOf(line, '=');
      next := st.(skipped := st.skipped + 1);
      if equals < |line| {
        var i := FindEntry(st.module_, line[..equals]);
        if i < |table| {
          var v := Parse(table[i], line[equals + 1..]);
          if v.Some? { next := st.(values := st.values[i := v.value]); }
        }
      }
    }

    method LineEnd(s: string, p: nat) returns (q: nat)
      requires p < |s| && !IsLineEnd(s[p])
      ensures p < q <= |s| && Plain(s[p..q]) && (q < |s| ==> IsLineEnd(s[q]))
    {
      q := p + 1;
      while q < |s| && !IsLineEnd(s[q])
        invariant p < q <= |s| && Plain(s[p..q])
      {
        q := q + 1;
      }
    }

    /** Reads the text onto `base`, line by line. */
    method ParseText(base: seq<Value>, text: string) returns (st: State)
      requires |base| == |table|
      ensures st == ReadText(table, base, text)
    {
      var s := CString(text);
      st := State("", base, 0);
      ghost var goal := ReadText(table, base, text);
      assert s[0..] == s;
      var p := 0;
      while p < |s|
        invariant p <= |s| && |st.values| == |table|
        invariant ReadLines(table, st, Lines(s[p..], "")) == goal
      {
        if IsLineEnd(s[p]) {
          SkipLineEnd(s, p);
          p := p + 1;
        } else {
          var q := LineEnd(s, p);
          ReadLineAt(table, st, s, p, q);
          st := ParseLine(st, s[p..q]);
          p := q;
        }
      }
      assert s[p..] == "";
    }

    /** The values the file on the card gives, on top of `base`; None if there is no readable file. */
    method ParseFile(card: Card, base: seq<Value>) returns (st: Option<State>)
      requires |base| == |table|
      ensures st == if card.mounted && card.file.Some? then Some(ReadText(table, base, Cut(card.file.value, 8191))) else None
    {
      st := None;
      if card.mounted && card.file.Some? {
        var r := ParseText(base, Cut(card.file.value, READ_LIMIT));
        st := Some(r);
      }
    }

    /** A missing file is written with the values in memory; a present one changes them. */
    method Load(card: Card, writes: bool) returns (ok: bool, skipped: nat)
      requires Valid()
      modifies card`file, this`values, this`save_revision
      ensures Valid()
      ensures !card.mounted ==> !ok && values == old(values) && card.file == old(card.file)
      ensures card.mounted && old(card.file).None? ==>
        && values == old(values) && ok == writes
        && card.file == (if writes then Some(SavedText(table, values)) else None)
      ensures card.mounted && old(card.file).Some? ==>
        && ok && card.file == old(card.file)
        && values == ReadText(table, old(values), Cut(card.file.value, READ_LIMIT)).values
        && skipped == ReadText(table, old(values), Cut(card.file.value, READ_LIMIT)).skipped
      ensures old(AllPlain(values)) ==> AllPlain(values)
    {
      ok, skipped := false, 0;
      var st := ParseFile(card, values);
      if st.Some? {
        ReadTextKeeps(table, defaults, values, Cut(card.file.value, READ_LIMIT));
        ok, skipped := true, st.value.skipped;
        values := st.value.values;
      } else if card.mounted {
        ok := Save(card, writes);
      }
    }

    /** How the values in memory differ from what the next boot would read. */
    method Diff(card: Card) returns (differences: Option<nat>)
      requires Valid()
      ensures differences == if card.mounted && card.file.Some?
        then Some(Differences(values, ReadText(table, defaults, Cut(card.file.value, READ_LIMIT)).values)) else None
    {
      differences := None;
      var st := ParseFile(card, defaults);
      if st.Some? {
        var on_card, n, i := st.value.values, 0, 0;
        ghost var mine, theirs := Printouts(values), Printouts(on_card);
        while i < |table|
          invariant i <= |table| && n == Unequal(mine[..i], theirs[..i])
        {
          assert mine[..i + 1][..i] == mine[..i] && theirs[..i + 1][..i] == theirs[..i];
          if Format(values[i]) != Format(on_card[i]) { n := n + 1; }
          i := i + 1;
        }
        assert mine[..i] == mine && theirs[..i] == theirs;
        differences := Some(n);
      }
    }

    /** What was saved fits the reader's buffer. */
    lemma SavedWhole()
      requires Valid()
      ensures Cut(SavedText(table, values), READ_LIMIT) == SavedText(table, values)
    {
      SavedFits(table, values);
    }
  }

  /** Saving, then booting with the file, gives the same settings exactly when no string holds a line
      end and every float fits the buffer it is printed into. A diff right after the save finds no
      difference exactly when no string holds a line end: it is blind to the digits a float has lost.
      Every reachable state is covered: Set, Load and the resets keep Valid. */
  method SaveAndReboot(settings: RobotSettings, card: Card) returns (fresh_boot: RobotSettings, differences: Option<nat>)
    requires settings.Valid() && card.mounted
    modifies card`file, settings`save_revision
    ensures settings.Valid() && fresh_boot.Valid() && fresh_boot.table == settings.table
    ensures fresh_boot.values == settings.values <==> AllPlain(settings.values) && AllFit(settings.values)
    ensures differences == Some(0) <==> AllPlain(settings.values)
    ensures differences == Some(0) && fresh_boot.values != settings.values <==> AllPlain(settings.values) && !AllFit(settings.values)
  {
    var written := settings.Save(card, true);
    differences := settings.Diff(card);
    fresh_boot := new RobotSettings(settings.table, settings.defaults);
    var ok, skipped := fresh_boot.Load(card, true);
    settings.SavedWhole();
    SaveThenRead(settings.table, settings.values, settings.defaults);
    SavedPrintsAlike(settings.table, settings.values, settings.defaults);
  }

  /** The robot as it comes from the factory. */
  method FactoryRobot() returns (robot: RobotSettings)
    ensures robot.Valid() && robot.table == SettingsTable.Table && robot.values == SettingsTable.Defaults
  {
    SettingsTable.TableIsGood();
    robot := new RobotSettings(SettingsTable.Table, SettingsTable.Defaults);
  }

  /** The condition on strings is needed: a line end is lost with what follows it. */
  lemma LineEndIsLost(table: seq<Row>, values: seq<Value>, defaults: seq<Value>, i: nat)
    requires Good(table) && Settled(table, values, defaults) && Settled(table, defaults, defaults) && AllPlain(defaults)
    requires i < |table| && values[i] == Text("a\nb")
    ensures ReadText(table, defaults, SavedText(table, values)).values != values
  {
    SaveThenRead(table, values, defaults);
    assert "a\nb"[1] == '\n';
    assert !PlainText(values[i]);
  }
}
