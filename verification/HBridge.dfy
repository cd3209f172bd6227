/** The motor bridge: two PWM pins written one at a time, any write of which may fail. */
module HBridge {

  const LIMIT := 100
  const MAX_DUTY := 2047

  datatype Movement = Forward | Backward | Stopped | Braking

  // ---------------------------------------------------------------------------
  // Commands and duties
  // ---------------------------------------------------------------------------

  function Saturate(command: int): (c: int)
    ensures -LIMIT <= c <= LIMIT
    ensures -LIMIT <= command <= LIMIT ==> c == command
    ensures command > 0 <==> c > 0
    ensures command < 0 <==> c < 0
  {
    if command > LIMIT then LIMIT else if command < -LIMIT then -LIMIT else command
  }

  function ChoiceDirection(command: int): Movement {
    if command > 0 then Forward else if command < 0 then Backward else Stopped
  }

  function Magnitude(command: int): (m: nat)
    ensures command != 0 <==> m > 0
    ensures -LIMIT <= command <= LIMIT ==> m <= LIMIT
  {
    if command < 0 then -command else command
  }

  /** A hundredth, rounded. */
  function Hundredth(x: int): int {
    (x + LIMIT / 2) / LIMIT
  }

  /** Percent of full duty: the dead zone, and the command's share of what is above it. */
  function Percent(magnitude: int, dead_zone: int): int {
    dead_zone + Hundredth(magnitude * (LIMIT - dead_zone))
  }

  function ConvertPWM(command: int, dead_zone: nat): int {
    if command == 0 then 0 else Hundredth(Percent(Magnitude(command), dead_zone) * MAX_DUTY)
  }

  lemma HundredthMonotone(a: int, b: int)
    requires a <= b
    ensures Hundredth(a) <= Hundredth(b)
  {
  }

  lemma PercentMonotone(m: int, n: int, dead_zone: int)
    requires 0 <= m <= n && dead_zone <= LIMIT
    ensures Percent(m, dead_zone) <= Percent(n, dead_zone)
  {
  }

  lemma PercentEnds(dead_zone: int)
    ensures Percent(0, dead_zone) == dead_zone && Percent(LIMIT, dead_zone) == LIMIT
  {
  }

  /** A larger command never gives a smaller duty. */
  lemma ConvertMonotone(a: int, b: int, dead_zone: nat)
    requires dead_zone <= LIMIT && Magnitude(a) <= Magnitude(b)
    ensures 0 <= ConvertPWM(a, dead_zone) <= ConvertPWM(b, dead_zone)
  {
    var m, n := Magnitude(a), Magnitude(b);
    PercentEnds(dead_zone);
    PercentMonotone(0, m, dead_zone);
    PercentMonotone(m, n, dead_zone);
    HundredthMonotone(0, Percent(m, dead_zone) * MAX_DUTY);
    HundredthMonotone(Percent(m, dead_zone) * MAX_DUTY, Percent(n, dead_zone) * MAX_DUTY);
  }

  /** The duty stays in range, and full command is full duty whatever the dead zone. */
  lemma ConvertInRange(command: int, dead_zone: nat)
    requires dead_zone <= LIMIT && -LIMIT <= command <= LIMIT
    ensures 0 <= ConvertPWM(command, dead_zone) <= MAX_DUTY
    ensures Magnitude(command) == LIMIT ==> ConvertPWM(command, dead_zone) == MAX_DUTY
  {
    PercentEnds(dead_zone);
    ConvertMonotone(command, LIMIT, dead_zone);
  }

  /** Any command but zero moves the motor: its duty is at least that of command 1, and positive. */
  lemma ConvertPositive(command: int, dead_zone: nat)
    requires dead_zone <= LIMIT && command != 0
    ensures ConvertPWM(command, dead_zone) >= ConvertPWM(1, dead_zone) > 0
  {
    ConvertMonotone(1, command, dead_zone);
    assert 1 * (LIMIT - dead_zone) == LIMIT - dead_zone;
    assert Percent(1, dead_zone) >= 1;
    HundredthMonotone(MAX_DUTY, Percent(1, dead_zone) * MAX_DUTY);
  }

  /** The duty is, up to the two roundings, 2047 times the dead zone plus the command's percentage of the rest. */
  lemma ConvertIsShare(command: int, dead_zone: nat, m: nat)
    requires dead_zone <= 100 && -100 <= command <= 100 && command != 0 && m == (if command > 0 then command else -command)
    ensures -107350 <= 10000 * ConvertPWM(command, dead_zone) - 2047 * (100 * dead_zone + m * (100 - dead_zone)) <= 107350
  {
    var share := m * (100 - dead_zone);
    HundredthIsNear(share);
    var percent := dead_zone + Hundredth(share);
    HundredthIsNear(percent * 2047);
  }

  lemma HundredthIsNear(x: int)
    ensures -50 <= 100 * Hundredth(x) - x <= 50
  {
  }

  // ---------------------------------------------------------------------------
  // Outputs
  // ---------------------------------------------------------------------------

  datatype Output = Output(d1: int, d2: int)

  /** Whenever the motor is driven at all, the driving pin is at full duty. */
  predicate Firm(o: Output) {
    && 0 <= o.d1 <= MAX_DUTY && 0 <= o.d2 <= MAX_DUTY
    && (o.d1 > o.d2 ==> o.d1 == MAX_DUTY) && (o.d2 > o.d1 ==> o.d2 == MAX_DUTY)
  }

  predicate Opposed(a: Output, b: Output) {
    (a.d1 > a.d2 && b.d1 < b.d2) || (a.d1 < a.d2 && b.d1 > b.d2)
  }

  /** A history of outputs without a direct reversal. */
  ghost predicate Smooth(outputs: seq<Output>) {
    && (forall i :: 0 <= i < |outputs| ==> Firm(outputs[i]))
    && (forall i :: 0 < i < |outputs| ==> !Opposed(outputs[i - 1], outputs[i]))
  }

  /** Between drive one way and drive the other way there was an output with both pins equal. */
  lemma {:induction false} NeutralBetween(outputs: seq<Output>, i: nat, j: nat) returns (k: nat)
    requires Smooth(outputs) && i < j < |outputs| && Opposed(outputs[i], outputs[j])
    ensures i < k < j && outputs[k].d1 == outputs[k].d2
  {
    k := j - 1;
    assert !Opposed(outputs[j - 1], outputs[j]);
    if outputs[k].d1 != outputs[k].d2 {
      k := NeutralBetween(outputs, i, j - 1);
    }
  }

  // ---------------------------------------------------------------------------
  // The bridge
  // ---------------------------------------------------------------------------

  datatype Command = ApplyPWM(value: int, writes: seq<bool>) | Brake(writes: seq<bool>) | Coast(writes: seq<bool>)

  predicate Reverses(mov: Movement, direction: Movement) {
    (mov == Forward && direction == Backward) || (mov == Backward && direction == Forward)
  }

  class HBridge {
    const dead_zone: nat
    var initialized: bool
    var pwm: int
    var mov: Movement
    var last_mov: Movement
    var duty: Output
    /** Every pair of duties the pins have shown. */
    ghost var outputs: seq<Output>

    ghost predicate Valid()
      reads this
    {
      && dead_zone <= LIMIT && (last_mov == Forward || last_mov == Backward)
      && -LIMIT <= pwm <= LIMIT
      && Safe() && outputs != [] && outputs[|outputs| - 1] == duty && Smooth(outputs)
    }

    /** A pin between its extremes belongs to the last direction driven, whose other pin is full. */
    predicate Safe()
      reads this
    {
      && Firm(duty)
      && (duty.d1 != 0 && duty.d1 != MAX_DUTY ==> last_mov == Backward && duty.d2 == MAX_DUTY)
      && (duty.d2 != 0 && duty.d2 != MAX_DUTY ==> last_mov == Forward && duty.d1 == MAX_DUTY)
    }

    /** The pins show what the fields say. */
    predicate InStep()
      reads this
    {
      match mov
      case Forward => pwm > 0 && duty == Output(MAX_DUTY, MAX_DUTY - ConvertPWM(pwm, dead_zone))
      case Backward => pwm < 0 && duty == Output(MAX_DUTY - ConvertPWM(pwm, dead_zone), MAX_DUTY)
      case Stopped => pwm == 0 && duty == Output(0, 0)
      case Braking => pwm == 0 && duty == Output(MAX_DUTY, MAX_DUTY)
    }

    constructor (zone: nat)
      ensures Valid() && !initialized && dead_zone == (if zone > LIMIT then LIMIT else zone) && outputs == [duty]
      ensures duty == Output(0, 0) && InStep()
    {
      dead_zone := if zone > LIMIT then LIMIT else zone;
      initialized, pwm, mov, last_mov, duty, outputs := false, 0, Stopped, Forward, Output(0, 0), [Output(0, 0)];
    }

    /** Writes one pin; a failed write leaves it. */
    method SetDuty(first: bool, d: int, ok: bool) returns (done: bool)
      requires dead_zone <= LIMIT && 0 <= d && outputs != [] && outputs[|outputs| - 1] == duty && Smooth(outputs)
      requires var next := if first then duty.(d1 := Clamp(d)) else duty.(d2 := Clamp(d));
        Firm(next) && !Opposed(duty, next)
      modifies this`duty, this`outputs
      ensures done == ok && duty == if !ok then old(duty) else if first then old(duty).(d1 := Clamp(d)) else old(duty).(d2 := Clamp(d))
      ensures outputs != [] && outputs[|outputs| - 1] == duty && Smooth(outputs) && old(outputs) <= outputs
    {
      var clamped := if d > MAX_DUTY then MAX_DUTY else d;
      done := ok;
      if ok {
        duty := if first then duty.(d1 := clamped) else duty.(d2 := clamped);
        outputs := outputs + [duty];
      }
    }

    method EnterBrakeState(writes: seq<bool>) returns (ok: bool)
      requires Valid() && |writes| >= 2
      modifies this`duty, this`outputs
      ensures Valid() && old(outputs) <= outputs
      ensures ok == (writes[0] && writes[1])
      ensures ok ==> duty == Output(MAX_DUTY, MAX_DUTY)
    {
      if mov == Backward || (mov == Stopped && last_mov == Backward) {
        ok := SetDuty(false, MAX_DUTY, writes[0]);
        if ok { ok := SetDuty(true, MAX_DUTY, writes[1]); }
      } else {
        ok := SetDuty(true, MAX_DUTY, writes[0]);
        if ok { ok := SetDuty(false, MAX_DUTY, writes[1]); }
      }
    }

    /** Drives one way, through the brake when that reverses the motor. */
    method Drive(direction: Movement, drive_duty: int, writes: seq<bool>) returns (ok: bool)
      requires Valid() && |writes| >= 4 && 0 < drive_duty <= MAX_DUTY
      modifies this`duty, this`outputs, this`mov, this`last_mov
      ensures Valid() && old(outputs) <= outputs
      ensures direction != Forward && direction != Backward ==> !ok && duty == old(duty)
      ensures ok ==> mov == direction == last_mov && (direction == Forward || direction == Backward)
      ensures ok ==> duty == if direction == Forward then Output(MAX_DUTY, MAX_DUTY - drive_duty) else Output(MAX_DUTY - drive_duty, MAX_DUTY)
      ensures !ok ==> mov == old(mov) && last_mov == old(last_mov)
      ensures Reverses(old(mov), direction) && writes[0] && writes[1] && !(writes[2] && writes[3]) ==>
        !ok && duty == Output(MAX_DUTY, MAX_DUTY)
      ensures (forall i :: 0 <= i < |writes| ==> writes[i]) && (direction == Forward || direction == Backward) ==> ok
    {
      ok := direction == Forward || direction == Backward;
      if !ok { return; }
      if Reverses(mov, direction) { ok := EnterBrakeState(writes); }
      if ok { ok := Engage(direction, drive_duty, writes[2], writes[3]); }
    }

    /** The two writes that set the duty of a direction; before a reversal the brake is on. */
    method Engage(direction: Movement, drive_duty: int, first: bool, second: bool) returns (ok: bool)
      requires Valid() && 0 < drive_duty <= MAX_DUTY && (direction == Forward || direction == Backward)
      requires Reverses(mov, direction) ==> duty == Output(MAX_DUTY, MAX_DUTY)
      modifies this`duty, this`outputs, this`mov, this`last_mov
      ensures Valid() && old(outputs) <= outputs && ok == (first && second)
      ensures ok ==> mov == direction == last_mov
      ensures ok ==> duty == if direction == Forward then Output(MAX_DUTY, MAX_DUTY - drive_duty) else Output(MAX_DUTY - drive_duty, MAX_DUTY)
      ensures !ok ==> mov == old(mov) && last_mov == old(last_mov)
      ensures !ok && old(duty) == Output(MAX_DUTY, MAX_DUTY) ==> duty == old(duty)
    {
      ok := SetDuty(direction == Forward, MAX_DUTY, first);
      if ok { ok := SetDuty(direction != Forward, MAX_DUTY - drive_duty, second); }
      if ok { mov, last_mov := direction, direction; }
    }

    method Brake(writes: seq<bool>) returns (ok: bool)
      requires Valid() && |writes| >= 2
      modifies this`duty, this`outputs, this`mov, this`pwm
      ensures Valid() && old(outputs) <= outputs
      ensures ok == (initialized && writes[0] && writes[1])
      ensures ok ==> mov == Braking && InStep()
      ensures !ok ==> mov == old(mov) && pwm == old(pwm)
    {
      ok := false;
      if initialized {
        ok := EnterBrakeState(writes);
        if ok { pwm, mov := 0, Braking; }
      }
    }

    method Coast(writes: seq<bool>) returns (ok: bool)
      requires Valid() && |writes| >= 2
      modifies this`duty, this`outputs, this`mov, this`pwm
      ensures Valid() && old(outputs) <= outputs
      ensures ok == (initialized && writes[0] && writes[1])
      ensures ok ==> mov == Stopped && InStep()
      ensures !ok ==> mov == old(mov) && pwm == old(pwm)
      ensures !initialized || !writes[0] ==> duty == old(duty)
      ensures initialized && writes[0] && !writes[1] ==>
        duty == if last_mov == Backward then old(duty).(d1 := 0) else old(duty).(d2 := 0)
    {
      ok := false;
      if initialized {
        ok := SetDuty(last_mov == Backward, 0, writes[0]);
        if ok { ok := SetDuty(last_mov != Backward, 0, writes[1]); }
        if ok { pwm, mov := 0, Stopped; }
      }
    }

    /** A command repeated while its direction is current writes nothing; every other accepted command
        puts the pins where the fields say. So after success they agree, unless the command was a
        repetition and a failed write had already put them apart. */
    method ApplyPWM(value: int, writes: seq<bool>) returns (ok: bool)
      requires Valid() && |writes| >= 4
      modifies this`duty, this`outputs, this`mov, this`last_mov, this`pwm
      ensures Valid() && old(outputs) <= outputs
      ensures !initialized ==> !ok && outputs == old(outputs)
      ensures ok ==> pwm == Saturate(value) && mov == (if value == 0 then Braking else ChoiceDirection(value))
      ensures ok ==> (InStep() <==> !(value != 0 && Saturate(value) == old(pwm) && ChoiceDirection(value) == old(mov)) || old(InStep()))
      ensures !ok ==> pwm == old(pwm) && mov == old(mov)
      ensures initialized && value != 0 && Saturate(value) == old(pwm) && ChoiceDirection(value) == old(mov) ==>
        ok && duty == old(duty)
      ensures initialized && Reverses(old(mov), ChoiceDirection(value)) && writes[0] && writes[1] && !(writes[2] && writes[3]) ==>
        !ok && duty == Output(MAX_DUTY, MAX_DUTY)
      ensures initialized && (forall i :: 0 <= i < |writes| ==> writes[i]) ==> ok
    {
      ok := false;
      if !initialized { return; }
      var command := Saturate(value);
      var direction := ChoiceDirection(command);
      if direction == Stopped {
        ok := Brake(writes);
      } else if command == pwm && direction == mov {
        ok := true;
      } else {
        ConvertInRange(command, dead_zone);
        ConvertPositive(command, dead_zone);
        ok := Drive(direction, ConvertPWM(command, dead_zone), writes);
        if ok { pwm := command; }
      }
    }

    /** The timer and both channels configured, or an error; then the motor coasts. */
    method Init(configured: bool, writes: seq<bool>) returns (ok: bool)
      requires Valid() && |writes| >= 2 && duty == Output(0, 0)
      modifies this
      ensures Valid() && old(outputs) <= outputs && initialized == (old(initialized) || configured)
      ensures ok == (old(initialized) || (configured && writes[0] && writes[1]))
      ensures !old(initialized) && ok ==> InStep() && mov == Stopped
    {
      if initialized { return true; }
      if !configured { return false; }
      initialized, pwm, mov, last_mov := true, 0, Stopped, Forward;
      ok := Coast(writes);
    }

    method Perform(command: Command) returns (ok: bool)
      requires Valid() && |command.writes| == 4
      modifies this`duty, this`outputs, this`mov, this`last_mov, this`pwm
      ensures Valid() && old(outputs) <= outputs
    {
      match command
      case ApplyPWM(value, writes) => ok := ApplyPWM(value, writes);
      case Brake(writes) => ok := Brake(writes);
      case Coast(writes) => ok := Coast(writes);
    }

    /** Whatever is commanded and whichever writes fail, the pins never reverse the motor directly and
        never drive it with both pins below full duty. */
    method Run(commands: seq<Command>)
      requires Valid() && forall i :: 0 <= i < |commands| ==> |commands[i].writes| == 4
      modifies this`duty, this`outputs, this`mov, this`last_mov, this`pwm
      ensures Valid() && old(outputs) <= outputs && Smooth(outputs)
    {
      var i := 0;
      while i < |commands|
        invariant i <= |commands| && Valid() && old(outputs) <= outputs
      {
        var ok := Perform(commands[i]);
        i := i + 1;
      }
    }
  }

  /** How the pins and the fields come apart: a reversal fails after its brake, and the old command,
      given again, is taken as already done while the motor stays braked. */
  method RepetitionAfterFailure(bridge: HBridge, v: int) returns (ok: bool)
    requires bridge.Valid() && bridge.initialized && bridge.mov == Forward && bridge.pwm == v && 0 < v <= LIMIT
    modifies bridge
    ensures ok && bridge.pwm == v && bridge.mov == Forward
    ensures bridge.duty == Output(MAX_DUTY, MAX_DUTY) && !bridge.InStep()
  {
    ok := bridge.ApplyPWM(-v, [true, true, false, false]);
    ok := bridge.ApplyPWM(v, [true, true, true, true]);
    ConvertPositive(v, bridge.dead_zone);
  }

  function Clamp(d: int): int {
    if d > MAX_DUTY then MAX_DUTY else d
  }
}
