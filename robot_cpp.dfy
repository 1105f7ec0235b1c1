/** The C++ rover. Its global obstacle flags and battery latch, and the
    `red` value the battery thread keeps across passes, are fields of one
    object; what the threads send to the motor driver and the LCD backlight
    is recorded in logs. Each thread body is one method call per pass. */
module RobotCpp {
  import opened Common
  import opened RoverRules

  /** The first LCD line `displayHeading` writes for a rounded heading, or
      None when the index is outside 0..36 and nothing is written. */
  function HeadingLine(hdg: int): (line: Option<string>)
    ensures line.Some? <==> -9 <= hdg <= 369
    ensures line.Some? ==> |line.value| == 5 + WINDOW && line.value[..5] == "HDG: "
  {
    var index := HeadingIndex(hdg);
    if index >= 0 && index <= MAX_HEADING_INDEX then Some("HDG: " + HeadingWindow(index)) else None
  }

  /** A heading that is a multiple of 90 degrees shows its compass point in
      the middle of the line. */
  lemma HeadingLineCardinal(hdg: int)
    requires hdg in {0, 90, 180, 270, 360}
    ensures HeadingLine(hdg).Some?
    ensures HeadingLine(hdg).value[5 + 5] == (if hdg == 90 then 'E' else if hdg == 180 then 'S'
                                              else if hdg == 270 then 'W' else 'N')
  {
    CardinalAtCentre();
  }

  /** The motor commands of one pass of the command loop: a `stop` or empty
      command stops without reading a speed; a speed that could not be read
      or lies outside 0..255 issues nothing; a move whose two sensors are not
      both blocked sets its directions and both speeds; anything else stops. */
  function Dispatched(command: string, speed: Option<int>,
                      fl: bool, fr: bool, rl: bool, rr: bool): (cmds: seq<MotorCommand>)
    ensures command == "stop" || command == "" ==> cmds == [Stop]
    ensures command != "stop" && command != "" && (speed.None? || !(0 <= speed.value <= 255)) ==>
              cmds == []
    ensures forall i :: 0 <= i < |cmds| ==> cmds[i].SetSpeeds? ==>
              cmds[i].leftSpeed == cmds[i].rightSpeed && 0 <= cmds[i].leftSpeed <= 255
  {
    if command == "stop" || command == "" then [Stop]
    else if speed.None? then []
    else if speed.value < 0 || speed.value > 255 then []
    else
      var s := speed.value;
      if command == "fwd" && (!fl || !fr) then [SetDirections(CCW, CW), SetSpeeds(s, s)]
      else if command == "left" && (!fl || !rl) then [SetDirections(CCW, CCW), SetSpeeds(s, s)]
      else if command == "right" && (!fr || !rr) then [SetDirections(CW, CW), SetSpeeds(s, s)]
      else if command == "rev" && (!rl || !rr) then [SetDirections(CW, CCW), SetSpeeds(s, s)]
      else [Stop]
  }

  /** A move is refused (the rover stops instead) exactly when both of its
      sensors are blocked; an unknown command always stops. */
  lemma MoveRefusedIffBothBlocked(command: string, s: int, fl: bool, fr: bool, rl: bool, rr: bool)
    requires 0 <= s <= 255
    ensures command == "fwd" ==>
              (Dispatched(command, Some(s), fl, fr, rl, rr) == [Stop] <==> fl && fr)
    ensures command == "left" ==>
              (Dispatched(command, Some(s), fl, fr, rl, rr) == [Stop] <==> fl && rl)
    ensures command == "right" ==>
              (Dispatched(command, Some(s), fl, fr, rl, rr) == [Stop] <==> fr && rr)
    ensures command == "rev" ==>
              (Dispatched(command, Some(s), fl, fr, rl, rr) == [Stop] <==> rl && rr)
    ensures command !in {"fwd", "left", "right", "rev"} ==>
              Dispatched(command, Some(s), fl, fr, rl, rr) == [Stop]
  {
  }

  /** Whenever directions are set, the command is one of the four moves with
      the direction pair that belongs to it, and one of its sensors is clear. */
  lemma DirectionsOnlyForClearMoves(command: string, speed: Option<int>,
                                    fl: bool, fr: bool, rl: bool, rr: bool)
    requires Dispatched(command, speed, fl, fr, rl, rr) != []
    requires Dispatched(command, speed, fl, fr, rl, rr)[0].SetDirections?
    ensures var d := Dispatched(command, speed, fl, fr, rl, rr)[0];
            (command == "fwd" && (!fl || !fr) && d == SetDirections(CCW, CW)) ||
            (command == "left" && (!fl || !rl) && d == SetDirections(CCW, CCW)) ||
            (command == "right" && (!fr || !rr) && d == SetDirections(CW, CW)) ||
            (command == "rev" && (!rl || !rr) && d == SetDirections(CW, CCW))
  {
  }

  /** The backlight colours a run of battery passes shows, from the red
      bits and latch it starts with: a low reading flashes the current red
      and toggles it; a reading that is not low turns the backlight green
      once, when the latch was set. */
  function BatteryColors(red: int, latch: bool, readings: seq<bool>): (colors: seq<Color>)
    requires 0 <= red < 256
    ensures |colors| <= |readings|
    decreases |readings|
  {
    if readings == [] then []
    else PassColors(red, latch, readings[0]) +
         BatteryColors(if readings[0] then Uint8Complement(red) else red, readings[0], readings[1..])
  }

  /** The colour one battery pass shows, if any. */
  function PassColors(red: int, latch: bool, low: bool): seq<Color>
  {
    if low then [Color(red, 0, 0)] else if latch then [Color(0, 0xCF, 0)] else []
  }

  /** While the voltage stays low the backlight flashes red and its
      complement by turns, one colour per pass. */
  lemma {:induction false} LowBatteryFlashesAlternately(red: int, latch: bool, readings: seq<bool>)
    requires 0 <= red < 256
    requires forall k :: 0 <= k < |readings| ==> readings[k]
    ensures |BatteryColors(red, latch, readings)| == |readings|
    ensures forall k :: 0 <= k < |readings| ==>
              BatteryColors(red, latch, readings)[k] ==
              Color(if k % 2 == 0 then red else Uint8Complement(red), 0, 0)
    decreases |readings|
  {
    if readings != [] {
      assert forall k :: 0 <= k < |readings[1..]| ==> readings[1..][k] == readings[k + 1];
      LowBatteryFlashesAlternately(Uint8Complement(red), true, readings[1..]);
      RedToggleInvolution(red);
    }
  }

  /** While the voltage stays fine the backlight turns green at most once:
      on the first pass, and only if the latch was set. */
  lemma {:induction false} FineBatteryGreenOnce(red: int, latch: bool, readings: seq<bool>)
    requires 0 <= red < 256
    requires forall k :: 0 <= k < |readings| ==> !readings[k]
    ensures BatteryColors(red, latch, readings) ==
            if latch && readings != [] then [Color(0, 0xCF, 0)] else []
    decreases |readings|
  {
    if readings != [] {
      assert forall k :: 0 <= k < |readings[1..]| ==> readings[1..][k] == readings[k + 1];
      FineBatteryGreenOnce(red, false, readings[1..]);
    }
  }

  class Rover {
    var blockedFL: bool
    var blockedFR: bool
    var blockedRL: bool
    var blockedRR: bool
    var batteryLow: bool
    /** The `uint8_t red` of the battery thread, kept across its passes. */
    var red: int
    var motorLog: seq<MotorCommand>
    var backlightLog: seq<Color>

    /** `red` only ever holds 0x3F or its complement 0xC0. */
    ghost predicate Valid()
      reads this
    {
      red == 0x3F || red == 0xC0
    }

    /** The globals at program start; the battery thread starts with red 0x3F. */
    constructor ()
      ensures Valid()
      ensures !blockedFL && !blockedFR && !blockedRL && !blockedRR
      ensures batteryLow && red == 0x3F
      ensures motorLog == [] && backlightLog == []
    {
      blockedFL, blockedFR, blockedRL, blockedRR := false, false, false, false;
      batteryLow := true;
      red := 0x3F;
      motorLog, backlightLog := [], [];
    }

    /** One pass of `displayBattery`; `low` is whether the voltage read is
        below the 7.2 V threshold. Low: set the latch, flash red, toggle the
        red bits. Not low: turn green if the latch was set, then clear it. */
    method BatteryPass(low: bool)
      requires Valid()
      modifies this`batteryLow, this`red, this`backlightLog
      ensures Valid()
      ensures low ==> batteryLow && red == Uint8Complement(old(red)) &&
                      backlightLog == old(backlightLog) + [Color(old(red), 0, 0)]
      ensures !low ==> !batteryLow && red == old(red) &&
                       backlightLog == old(backlightLog) + (if old(batteryLow) then [Color(0, 0xCF, 0)] else [])
    {
      if low {
        batteryLow := true;
        backlightLog := backlightLog + [Color(red, 0, 0)];
        red := Uint8(-red - 1);
      } else {
        if batteryLow {
          backlightLog := backlightLog + [Color(0, 0xCF, 0)];
        }
        batteryLow := false;
      }
    }

    /** A run of battery passes: red has been toggled once per low reading,
        and the latch reflects the latest reading. */
    method BatteryRun(readings: seq<bool>)
      requires Valid()
      modifies this`batteryLow, this`red, this`backlightLog
      ensures Valid()
      ensures red == if CountTrue(readings) % 2 == 0 then old(red) else Uint8Complement(old(red))
      ensures batteryLow == if readings == [] then old(batteryLow) else readings[|readings| - 1]
      ensures backlightLog == old(backlightLog) + BatteryColors(old(red), old(batteryLow), readings)
    {
      for i := 0 to |readings|
        invariant Valid()
        invariant red == if CountTrue(readings[..i]) % 2 == 0 then old(red) else Uint8Complement(old(red))
        invariant batteryLow == if i == 0 then old(batteryLow) else readings[i - 1]
        invariant old(backlightLog) + BatteryColors(old(red), old(batteryLow), readings) ==
                  backlightLog + BatteryColors(red, batteryLow, readings[i..])
      {
        assert readings[..i + 1][..i] == readings[..i];
        assert readings[i..][1..] == readings[i + 1..];
        AppendAssoc(backlightLog, PassColors(red, batteryLow, readings[i]),
                    BatteryColors(if readings[i] then Uint8Complement(red) else red, readings[i], readings[i + 1..]));
        BatteryPass(readings[i]);
      }
      assert readings[..|readings|] == readings;
      assert backlightLog + [] == backlightLog;
    }

    /** One pass of `distanceIR`: each flag takes its sensor's reading, and
        the motors are stopped when any is set. */
    method CollisionPass(fl: bool, fr: bool, rl: bool, rr: bool)
      modifies this`blockedFL, this`blockedFR, this`blockedRL, this`blockedRR, this`motorLog
      ensures blockedFL == fl && blockedFR == fr && blockedRL == rl && blockedRR == rr
      ensures motorLog == old(motorLog) + (if fl || fr || rl || rr then [Stop] else [])
    {
      blockedFL := fl;
      blockedFR := fr;
      blockedRL := rl;
      blockedRR := rr;
      if blockedFL || blockedFR || blockedRL || blockedRR {
        motorLog := motorLog + [Stop];
      }
    }

    /** One pass of the command loop in `main`: `command` is the word read,
        `speed` the number read after it (None when the read fails). */
    method Command(command: string, speed: Option<int>)
      modifies this`motorLog
      ensures motorLog == old(motorLog) + Dispatched(command, speed, blockedFL, blockedFR, blockedRL, blockedRR)
    {
      if command == "stop" || command == "" {
        motorLog := motorLog + [Stop];
        return;
      }
      if speed.None? {
        return;
      }
      var s := speed.value;
      if s < 0 || s > 255 {
        return;
      }
      if command == "fwd" && (!blockedFL || !blockedFR) {
        motorLog := motorLog + [SetDirections(CCW, CW), SetSpeeds(s, s)];
      } else if command == "left" && (!blockedFL || !blockedRL) {
        motorLog := motorLog + [SetDirections(CCW, CCW), SetSpeeds(s, s)];
      } else if command == "right" && (!blockedFR || !blockedRR) {
        motorLog := motorLog + [SetDirections(CW, CW), SetSpeeds(s, s)];
      } else if command == "rev" && (!blockedRL || !blockedRR) {
        motorLog := motorLog + [SetDirections(CW, CCW), SetSpeeds(s, s)];
      } else {
        motorLog := motorLog + [Stop];
      }
    }
  }

  /** Two toggles of the red bits restore them. */
  lemma RedToggleInvolution(red: int)
    requires 0 <= red < 256
    ensures Uint8Complement(Uint8Complement(red)) == red
  {
  }
}
