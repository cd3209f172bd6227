/** The robot's own settings: every module, key, type and factory value. */
module SettingsTable {
  import opened Common
  import opened SettingsText
  import opened SettingsFile

  datatype Field = Field(key: string, kind: Kind, size: nat, factory: Value)

  /** A field of the right shape, with a factory value of its type. */
  predicate FieldOk(f: Field) {
    && Name(f.key) && f.size <= 64 && Typed(Row("", f.key, f.kind, f.size), f.factory) && PlainText(f.factory)
  }

  type GoodField = f: Field | FieldOk(f) witness Field("k", U8, 1, Unsigned(0))

  datatype Section = Section(name: string, fields: seq<GoodField>)

  /** No two fields share a key. */
  predicate SectionOk(s: Section) {
    && Name(s.name)
    && (forall i, j :: 0 <= i < j < |s.fields| ==> s.fields[i].key != s.fields[j].key)
  }

  type GoodSection = s: Section | SectionOk(s) witness Section("m", [])

  function Count(key: string, factory: nat): GoodField
    requires Name(key) && factory <= ULONG_MAX
  {
    Field(key, U32, 4, Unsigned(factory))
  }

  function Byte(key: string, factory: nat): GoodField
    requires Name(key) && factory <= 255
  {
    Field(key, U8, 1, Unsigned(factory))
  }

  function Millionths(key: string, factory: int): GoodField
    requires Name(key)
  {
    Field(key, Float, 4, Real(factory))
  }

  function PinField(key: string, factory: int): GoodField
    requires Name(key) && ValidPin(factory)
  {
    Field(key, Pin, 4, PinNumber(factory))
  }

  function Words(key: string, size: nat, factory: string): GoodField
    requires Name(key) && |factory| < size <= 64 && Plain(factory) && '\0' !in factory
  {
    Field(key, Str, size, Text(factory))
  }

  const Identity: GoodSection := Section("identity", [
    Words("name", 32, ""),
    Words("description", 64, "")])

  const Timers: GoodSection := Section("timers", [
    Count("sample_micros", 1000),
    Count("delay_flags", 250),
    Words("timezone", 16, "BRT3")])

  const Sensor: GoodSection := Section("sensor", [
    Byte("len_sensor", 8),
    Byte("samples", 30),
    Byte("delay_sample", 100)])

  const EkfNoise: GoodSection := Section("ekf_noise", [
    Millionths("v_noise", 100_000),
    Millionths("w_noise", 100_000),
    Millionths("b_noise", 100),
    Millionths("initial_p", 100_000),
    Millionths("enc_noise", 500_000),
    Millionths("accel_noise", 500_000),
    Millionths("gyro_noise", 1000)])

  const Kinematics: GoodSection := Section("kinematics", [
    Millionths("encoder_ppr", 70_000_000),
    Millionths("wheel_radius", 32500)])

  const Logger: GoodSection := Section("logger", [
    Count("logger_mutex_timeout_ms", 100),
    Count("max_chunks_per_flush", 10),
    Count("block_size", 16)])

  const PinsLed: GoodSection := Section("pins_led", [
    PinField("led0", 45),
    PinField("led1", 46),
    PinField("led2", 43),
    PinField("led3", 44)])

  const PinsHbridge: GoodSection := Section("pins_hbridge", [
    PinField("ain1", 21),
    PinField("ain2", 47),
    PinField("bin1", 3),
    PinField("bin2", 9),
    PinField("current_a", 14),
    PinField("current_b", 8)])

  const PinsEncoder: GoodSection := Section("pins_encoder", [
    PinField("enc_a0", 41),
    PinField("enc_a1", 42),
    PinField("enc_b0", 39),
    PinField("enc_b1", 40)])

  const PinsButton: GoodSection := Section("pins_button", [
    PinField("btn0", 0),
    PinField("btn1", 4),
    PinField("btn2", 5)])

  const PinsSideSensor: GoodSection := Section("pins_side_sensor", [
    PinField("left", 1),
    PinField("right", 48)])

  const PinsBuzzer: GoodSection := Section("pins_buzzer", [
    PinField("bzr", 38)])

  const PinsMux: GoodSection := Section("pins_mux", [
    PinField("s0", 12),
    PinField("s1", 11),
    PinField("s2", 10),
    PinField("sig", 13)])

  const PinsI2c: GoodSection := Section("pins_i2c", [
    PinField("sda_pin", 18),
    PinField("scl_pin", 17)])

  const OtaLeds: seq<GoodField> := [
    Count("ota_led_step_ms", 150),
    Count("ota_led_hold_ms", 200),
    Count("ota_led_fail_hold_ms", 800)]

  const OtaLink: seq<GoodField> := [
    Count("ota_connect_timeout_ms", 10000),
    Count("ota_retry_scan_ms", 5000),
    Byte("espnow_channel", 11)]

  const Hostname := Words("ota_hostname", 33, "ballyrobot")
  const InstanceName := Words("ota_instance_name", 33, "BallyRobot OTA")
  const Password := Words("ota_password", 33, "657585")

  const Ota: GoodSection := Section("ota", OtaLeds + OtaLink + [Hostname, InstanceName, Password])

  const Comm: GoodSection := Section("comm", [
    Byte("comm_mode", 0)])

  const Error: GoodSection := Section("error", [
    Count("error_blink_ms", 250)])

  const General := [Identity, Timers, Sensor, EkfNoise, Kinematics, Logger]
  const Pins := [PinsLed, PinsHbridge, PinsEncoder, PinsButton, PinsSideSensor, PinsBuzzer, PinsMux]
  const Links := [PinsI2c, Ota, Comm, Error]
  const Sections := General + (Pins + Links)

  // ---------------------------------------------------------------------------
  // As one table
  // ---------------------------------------------------------------------------

  function SectionRows(s: Section): (rows: seq<Row>)
    ensures |rows| == |s.fields|
  {
    seq(|s.fields|, i requires 0 <= i < |s.fields| => Row(s.name, s.fields[i].key, s.fields[i].kind, s.fields[i].size))
  }

  function SectionFactory(s: Section): (values: seq<Value>)
    ensures |values| == |s.fields|
  {
    seq(|s.fields|, i requires 0 <= i < |s.fields| => s.fields[i].factory)
  }

  function Rows(sections: seq<Section>): seq<Row> {
    if sections == [] then [] else SectionRows(sections[0]) + Rows(sections[1..])
  }

  function Factory(sections: seq<Section>): (values: seq<Value>)
    ensures |values| == |Rows(sections)|
  {
    if sections == [] then [] else SectionFactory(sections[0]) + Factory(sections[1..])
  }

  const Table := Rows(Sections)
  const Defaults := Factory(Sections)

  // ---------------------------------------------------------------------------
  // It is a good table
  // ---------------------------------------------------------------------------

  predicate DistinctNames(sections: seq<Section>) {
    forall i, j :: 0 <= i < j < |sections| ==> sections[i].name != sections[j].name
  }

  predicate SectionsOk(sections: seq<Section>) {
    DistinctNames(sections) && forall i :: 0 <= i < |sections| ==> SectionOk(sections[i])
  }

  lemma {:induction false} RowsFrom(sections: seq<Section>, k: nat) returns (i: nat)
    requires k < |Rows(sections)|
    ensures i < |sections| && Rows(sections)[k].module_ == sections[i].name
  {
    if k < |sections[0].fields| {
      i := 0;
    } else {
      i := RowsFrom(sections[1..], k - |sections[0].fields|);
      i := i + 1;
    }
  }

  /** Two good tables whose modules differ make one. */
  lemma GoodTogether(a: seq<Row>, b: seq<Row>)
    requires Good(a) && Good(b)
    requires forall i, j :: 0 <= i < |a| && 0 <= j < |b| ==> a[i].module_ != b[j].module_
    ensures Good(a + b)
  {
  }

  lemma TypedTogether(a: seq<Row>, u: seq<Value>, b: seq<Row>, v: seq<Value>)
    requires AllTyped(a, u) && AllTyped(b, v) && AllPlain(u) && AllPlain(v)
    ensures AllTyped(a + b, u + v) && AllPlain(u + v)
  {
  }

  lemma SectionMakesGoodTable(s: Section)
    requires SectionOk(s)
    ensures Good(SectionRows(s)) && AllTyped(SectionRows(s), SectionFactory(s)) && AllPlain(SectionFactory(s))
  {
  }

  lemma {:induction false} SectionsMakeGoodTable(sections: seq<Section>)
    requires SectionsOk(sections)
    ensures Good(Rows(sections)) && AllTyped(Rows(sections), Factory(sections)) && AllPlain(Factory(sections))
  {
    if sections != [] {
      var first, rest := SectionRows(sections[0]), Rows(sections[1..]);
      SectionMakesGoodTable(sections[0]);
      SectionsMakeGoodTable(sections[1..]);
      forall i, j | 0 <= i < |first| && 0 <= j < |rest| ensures first[i].module_ != rest[j].module_ {
        var k := RowsFrom(sections[1..], j);
        assert sections[1..][k] == sections[k + 1];
      }
      GoodTogether(first, rest);
      TypedTogether(first, SectionFactory(sections[0]), rest, Factory(sections[1..]));
    }
  }

  /** How many fields the first `n` sections have. */
  ghost function FieldCount(sections: seq<Section>, n: nat): nat
    requires n <= |sections|
  {
    if n == 0 then 0 else FieldCount(sections, n - 1) + |sections[n - 1].fields|
  }

  lemma {:induction false} RowsCounted(sections: seq<Section>, n: nat)
    requires n <= |sections|
    ensures |Rows(sections[..n])| == FieldCount(sections, n)
  {
    if n > 0 {
      RowsCounted(sections, n - 1);
      var last := sections[n - 1];
      assert sections[..n] == sections[..n - 1] + [last];
      RowsTogether(sections[..n - 1], [last]);
      assert [last][1..] == [];
    }
  }

  lemma {:induction false} RowsTogether(a: seq<Section>, b: seq<Section>)
    ensures Rows(a + b) == Rows(a) + Rows(b)
  {
    if a == [] {
      assert a + b == b;
    } else {
      RowsTogether(a[1..], b);
      assert (a + b)[1..] == a[1..] + b;
      Assoc(SectionRows(a[0]), Rows(a[1..]), Rows(b));
    }
  }

  predicate Apart(a: seq<Section>, b: seq<Section>) {
    forall i, j :: 0 <= i < |a| && 0 <= j < |b| ==> a[i].name != b[j].name
  }

  lemma SectionsTogether(a: seq<Section>, b: seq<Section>)
    requires SectionsOk(a) && SectionsOk(b) && Apart(a, b)
    ensures SectionsOk(a + b)
  {
  }

  lemma GeneralOk()
    ensures SectionsOk(General)
  {
  }

  lemma GeneralLength()
    ensures |Rows(General)| == 20
  {
    assert FieldCount(General, 1) == 2;
    assert FieldCount(General, 2) == 5;
    assert FieldCount(General, 3) == 8;
    assert FieldCount(General, 4) == 15;
    assert FieldCount(General, 5) == 17;
    assert FieldCount(General, 6) == 20;
    RowsCounted(General, 6);
    assert General[..6] == General;
  }

  lemma PinsOk()
    ensures SectionsOk(Pins)
  {
  }

  lemma PinsLength()
    ensures |Rows(Pins)| == 24
  {
    assert FieldCount(Pins, 1) == 4;
    assert FieldCount(Pins, 2) == 10;
    assert FieldCount(Pins, 3) == 14;
    assert FieldCount(Pins, 4) == 17;
    assert FieldCount(Pins, 5) == 19;
    assert FieldCount(Pins, 6) == 20;
    assert FieldCount(Pins, 7) == 24;
    RowsCounted(Pins, 7);
    assert Pins[..7] == Pins;
  }

  lemma LinksOk()
    ensures SectionsOk(Links)
  {
  }

  lemma LinksLength()
    ensures |Rows(Links)| == 13
  {
    assert FieldCount(Links, 1) == 2;
    assert FieldCount(Links, 2) == 11;
    assert FieldCount(Links, 3) == 12;
    assert FieldCount(Links, 4) == 13;
    RowsCounted(Links, 4);
    assert Links[..4] == Links;
  }

  lemma GroupsApart()
    ensures Apart(Pins, Links) && Apart(General, Pins) && Apart(General, Links)
  {
  }

  lemma ApartTogether(a: seq<Section>, b: seq<Section>, c: seq<Section>)
    requires Apart(a, b) && Apart(a, c)
    ensures Apart(a, b + c)
  {
  }

  /** The table above is a good one, of 57 rows, and its factory values are of their rows' types. */
  lemma TableIsGood()
    ensures Good(Table) && AllTyped(Table, Defaults) && AllPlain(Defaults) && |Table| == 57
  {
    GeneralOk();
    PinsOk();
    LinksOk();
    GroupsApart();
    SectionsTogether(Pins, Links);
    ApartTogether(General, Pins, Links);
    SectionsTogether(General, Pins + Links);
    SectionsMakeGoodTable(Sections);
    GeneralLength();
    PinsLength();
    LinksLength();
    RowsTogether(Pins, Links);
    RowsTogether(General, Pins + Links);
  }
}
