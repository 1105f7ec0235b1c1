/** The Java rover. Its static obstacle flags and battery latch, and the
    `short red` of the battery runnable, are fields of one object; what the
    runnables send to the motor driver and the LCD backlight is recorded in
    logs. Unlike the C++ port it clamps the heading index instead of
    skipping the write, compares the command with `stop` by reference, ends
    the command loop when the speed is not a `short`, and drives forward
    with both channels counter-clockwise. */
module RobotJava {
  import opened Common
  import opened RoverRules
  import RobotCpp

  /** The first LCD line `compRunnable` writes for a rounded heading: the
      index is clamped into 0..36, so a line is always written. */
  function HeadingLine(hdg: int): (line: string)
    ensures |line| == 5 + WINDOW && line[..5] == "HDG: "
  {
    var index := HeadingIndex(hdg);
    var clamped := if index < 0 then 0 else if index > MAX_HEADING_INDEX then MAX_HEADING_INDEX else index;
    "HDG: " + HeadingWindow(clamped)
  }

  /** Where the C++ port writes, both ports write the same line; below the
      range the Java port shows the window of index 0, above it that of 36. */
  lemma HeadingLineAgreesWithCpp(hdg: int)
    ensures -9 <= hdg <= 369 ==> RobotCpp.HeadingLine(hdg) == Some(HeadingLine(hdg))
    ensures hdg < -9 ==> HeadingLine(hdg) == "HDG: " + HeadingWindow(0)
    ensures hdg > 369 ==> HeadingLine(hdg) == "HDG: " + HeadingWindow(MAX_HEADING_INDEX)
  {
  }

  /** What `nextShort` finds after the command word. */
  datatype ShortToken = ShortValue(v: int) | NotAShort

  /** What one pass of the command loop does: the motor commands it sends,
      and whether it ends the loop (an `InputMismatchException` from
      `nextShort` leaves `main`). */
  datatype Pass = Pass(cmds: seq<MotorCommand>, loopEnds: bool)

  /** The command loop's body for a word from the scanner. The `stop` and
      empty-word tests use `==`; the moves use `equals`. */
  function Dispatched(command: JavaString, speed: ShortToken,
                      fl: bool, fr: bool, rl: bool, rr: bool): (p: Pass)
    ensures p.loopEnds <==> !SameObject(command, Literal("stop")) && !SameObject(command, Literal(""))
                            && speed.NotAShort?
    ensures p.loopEnds ==> p.cmds == []
    ensures forall i :: 0 <= i < |p.cmds| ==> p.cmds[i].SetSpeeds? ==>
              p.cmds[i].leftSpeed == p.cmds[i].rightSpeed && 0 <= p.cmds[i].leftSpeed <= 255
  {
    if SameObject(command, Literal("stop")) || SameObject(command, Literal("")) then Pass([Stop], false)
    else if speed.NotAShort? then Pass([], true)
    else if speed.v < 0 || speed.v > 255 then Pass([], false)
    else
      var s := speed.v;
      var c := command.chars;
      if c == "fwd" && (!fl || !fr) then Pass([SetDirections(CCW, CCW), SetSpeeds(s, s)], false)
      else if c == "left" && (!fl || !rl) then Pass([SetDirections(CCW, CCW), SetSpeeds(s, s)], false)
      else if c == "right" && (!fr || !rr) then Pass([SetDirections(CW, CW), SetSpeeds(s, s)], false)
      else if c == "rev" && (!rl || !rr) then Pass([SetDirections(CW, CCW), SetSpeeds(s, s)], false)
      else Pass([Stop], false)
  }

  /** A scanner word is never the literal, so "stop" reads a speed like any
      other word: with a speed in 0..255 it still stops, through the final
      branch; with a speed out of range it does nothing; with no number it
      ends the loop. */
  lemma ScannerStopReadsSpeed(speed: ShortToken, fl: bool, fr: bool, rl: bool, rr: bool)
    ensures var p := Dispatched(JavaString("stop", false), speed, fl, fr, rl, rr);
            (speed.NotAShort? ==> p == Pass([], true)) &&
            (speed.ShortValue? && 0 <= speed.v <= 255 ==> p == Pass([Stop], false)) &&
            (speed.ShortValue? && !(0 <= speed.v <= 255) ==> p == Pass([], false))
  {
  }

  /** A move is refused (the rover stops instead) exactly when both of its
      sensors are blocked, with the same sensor pairs as the C++ port; but
      forward drives both channels counter-clockwise where C++ uses
      counter-clockwise and clockwise. */
  lemma MoveGateAndForwardDirections(w: string, s: int, fl: bool, fr: bool, rl: bool, rr: bool)
    requires 0 <= s <= 255
    ensures var p := Dispatched(JavaString(w, false), ShortValue(s), fl, fr, rl, rr);
            (w == "fwd" ==> (p.cmds == [Stop] <==> fl && fr)) &&
            (w == "left" ==> (p.cmds == [Stop] <==> fl && rl)) &&
            (w == "right" ==> (p.cmds == [Stop] <==> fr && rr)) &&
            (w == "rev" ==> (p.cmds == [Stop] <==> rl && rr)) &&
            (w == "fwd" && !(fl && fr) ==>
               p.cmds[0] == SetDirections(CCW, CCW) &&
               RobotCpp.Dispatched(w, Some(s), fl, fr, rl, rr)[0] == SetDirections(CCW, CW))
  {
  }

  /** What one pass of `battRunnable` reads: whether the voltage is below
      the 7.2 V threshold, and whether `Float.toString` of it is shorter
      than the four characters `substring(0, 4)` takes (as "0.0" is for
      0 V). Such a pass throws `StringIndexOutOfBoundsException`; nothing
      catches it, so the battery thread ends before the latch or the
      backlight is touched. */
  datatype BatteryReading = BatteryReading(low: bool, shortText: bool)

  /** The number of passes the battery thread completes: those before the
      first reading whose text is too short. */
  function Completed(readings: seq<BatteryReading>): (n: nat)
    ensures n <= |readings|
    ensures forall k :: 0 <= k < n ==> !readings[k].shortText
    ensures n < |readings| ==> readings[n].shortText
    decreases |readings|
  {
    if readings == [] || readings[0].shortText then 0
    else 1 + Completed(readings[1..])
  }

  /** The low flags of a run of readings. */
  function Lows(readings: seq<BatteryReading>): seq<bool>
  {
    seq(|readings|, k requires 0 <= k < |readings| => readings[k].low)
  }

  /** The backlight colours of a run of passes that all complete, from the
      red bits and latch it starts with: a low reading flashes the current
      red and toggles it; a reading that is not low turns the backlight
      green once, when the latch was set. */
  function LiveColors(red: int, latch: bool, lows: seq<bool>): (colors: seq<Color>)
    ensures |colors| <= |lows|
    decreases |lows|
  {
    if lows == [] then []
    else PassColors(red, latch, lows[0]) +
         LiveColors(if lows[0] then JavaComplement(red) else red, lows[0], lows[1..])
  }

  /** The colour one completed battery pass shows, if any. */
  function PassColors(red: int, latch: bool, low: bool): seq<Color>
  {
    if low then [Color(red, 0, 0)] else if latch then [Color(0, 0xCF, 0)] else []
  }

  /** The backlight colours a run of battery passes shows: those of the
      passes before the first too-short text, which ends the thread. */
  function BatteryColors(red: int, latch: bool, readings: seq<BatteryReading>): (colors: seq<Color>)
    ensures |colors| <= Completed(readings)
  {
    LiveColors(red, latch, Lows(readings[..Completed(readings)]))
  }

  /** Completed passes that are all low flash red and its complement by
      turns, one colour per pass. */
  lemma {:induction false} LiveLowFlashesAlternately(red: int, latch: bool, lows: seq<bool>)
    requires forall k :: 0 <= k < |lows| ==> lows[k]
    ensures |LiveColors(red, latch, lows)| == |lows|
    ensures forall k :: 0 <= k < |lows| ==>
              LiveColors(red, latch, lows)[k] ==
              Color(if k % 2 == 0 then red else JavaComplement(red), 0, 0)
    decreases |lows|
  {
    if lows != [] {
      assert forall k :: 0 <= k < |lows[1..]| ==> lows[1..][k] == lows[k + 1];
      LiveLowFlashesAlternately(JavaComplement(red), true, lows[1..]);
      RedToggleInvolution(red);
    }
  }

  /** While the voltage stays low the backlight flashes red and its
      complement by turns, one colour per pass, for as long as the thread
      lives. */
  lemma LowBatteryFlashesAlternately(red: int, latch: bool, readings: seq<BatteryReading>)
    requires forall k :: 0 <= k < |readings| ==> readings[k].low
    ensures |BatteryColors(red, latch, readings)| == Completed(readings)
    ensures forall k :: 0 <= k < Completed(readings) ==>
              BatteryColors(red, latch, readings)[k] ==
              Color(if k % 2 == 0 then red else JavaComplement(red), 0, 0)
  {
    LiveLowFlashesAlternately(red, latch, Lows(readings[..Completed(readings)]));
  }

  /** Completed passes that are all fine turn the backlight green at most
      once: on the first pass, and only if the latch was set. */
  lemma {:induction false} LiveFineGreenOnce(red: int, latch: bool, lows: seq<bool>)
    requires forall k :: 0 <= k < |lows| ==> !lows[k]
    ensures LiveColors(red, latch, lows) == if latch && lows != [] then [Color(0, 0xCF, 0)] else []
    decreases |lows|
  {
    if lows != [] {
      assert forall k :: 0 <= k < |lows[1..]| ==> lows[1..][k] == lows[k + 1];
      LiveFineGreenOnce(red, false, lows[1..]);
    }
  }

  /** While the voltage stays fine the backlight turns green at most once:
      on the first pass, only if the latch was set and that pass does not
      end the thread. */
  lemma FineBatteryGreenOnce(red: int, latch: bool, readings: seq<BatteryReading>)
    requires forall k :: 0 <= k < |readings| ==> !readings[k].low
    ensures BatteryColors(red, latch, readings) ==
            if latch && readings != [] && !readings[0].shortText then [Color(0, 0xCF, 0)] else []
  {
    LiveFineGreenOnce(red, latch, Lows(readings[..Completed(readings)]));
  }

  /** A pass whose voltage text is too short ends the thread: the backlight
      shows what the passes before it show, and nothing of that pass or of
      any later one. */
  lemma ShortTextEndsThread(red: int, latch: bool, readings: seq<BatteryReading>, i: nat)
    requires i < |readings| && readings[i].shortText
    ensures BatteryColors(red, latch, readings) == BatteryColors(red, latch, readings[..i])
  {
    var n := Completed(readings);
    var m := Completed(readings[..i]);
    assert n <= i;
    assert m < i ==> readings[..i][m] == readings[m];
    assert m == n;
    assert readings[..i][..m] == readings[..n];
  }

  class Rover {
    var blockedFL: bool
    var blockedFR: bool
    var blockedRL: bool
    var blockedRR: bool
    var batteryLow: bool
    /** The `short red` of `battRunnable`, kept across its passes. */
    var red: int
    var motorLog: seq<MotorCommand>
    var backlightLog: seq<Color>

    /** `red` only ever holds 0x3F or its complement -0x40. */
    ghost predicate Valid()
      reads this
    {
      red == 0x3F || red == -0x40
    }

    /** The static fields at class initialisation; the battery runnable
        starts with red 0x3F. */
    constructor ()
      ensures Valid()
      ensures !blockedFL && !blockedFR && !blockedRL && !blockedRR
      ensures batteryLow && red == 0x3F
      ensures motorLog == [] && backlightLog == []
    {
      blockedFL, blockedFR, blockedRL, blockedRR := false, false, false, false;
      batteryLow := true;
      red := 0x3F;
      motorLog, backlightLog := [], [];
    }

    /** One pass of `battRunnable`; `alive` is false when the pass throws
        and the thread ends. */
    method BatteryPass(reading: BatteryReading) returns (alive: bool)
      requires Valid()
      modifies this`batteryLow, this`red, this`backlightLog
      ensures Valid()
      ensures alive <==> !reading.shortText
      ensures !alive ==> batteryLow == old(batteryLow) && red == old(red) && backlightLog == old(backlightLog)
      ensures alive && reading.low ==>
                batteryLow && red == JavaComplement(old(red)) &&
                backlightLog == old(backlightLog) + [Color(old(red), 0, 0)]
      ensures alive && !reading.low ==>
                !batteryLow && red == old(red) &&
                backlightLog == old(backlightLog) + (if old(batteryLow) then [Color(0, 0xCF, 0)] else [])
    {
      if reading.shortText {
        return false;
      }
      alive := true;
      if reading.low {
        batteryLow := true;
        backlightLog := backlightLog + [Color(red, 0, 0)];
        red := JavaComplement(red);
      } else {
        if batteryLow {
          backlightLog := backlightLog + [Color(0, 0xCF, 0)];
        }
        batteryLow := false;
      }
    }

    /** Passes that all complete, given by their low flags: red has been
        toggled once per low reading, so an even number restores it; the
        latch reflects the latest reading. */
    method CompletedPasses(lows: seq<bool>)
      requires Valid()
      modifies this`batteryLow, this`red, this`backlightLog
      ensures Valid()
      ensures red == if CountTrue(lows) % 2 == 0 then old(red) else JavaComplement(old(red))
      ensures batteryLow == if lows == [] then old(batteryLow) else lows[|lows| - 1]
      ensures backlightLog == old(backlightLog) + LiveColors(old(red), old(batteryLow), lows)
    {
      for i := 0 to |lows|
        invariant Valid()
        invariant red == if CountTrue(lows[..i]) % 2 == 0 then old(red) else JavaComplement(old(red))
        invariant batteryLow == if i == 0 then old(batteryLow) else lows[i - 1]
        invariant old(backlightLog) + LiveColors(old(red), old(batteryLow), lows) ==
                  backlightLog + LiveColors(red, batteryLow, lows[i..])
      {
        assert lows[..i + 1][..i] == lows[..i];
        assert lows[i..][1..] == lows[i + 1..];
        AppendAssoc(backlightLog, PassColors(red, batteryLow, lows[i]),
                    LiveColors(if lows[i] then JavaComplement(red) else red, lows[i], lows[i + 1..]));
        var _ := BatteryPass(BatteryReading(lows[i], false));
      }
      assert lows[..|lows|] == lows;
      assert backlightLog + [] == backlightLog;
    }

    /** `battRunnable` over a finite run of readings: the passes before the
        first too-short voltage text complete, that pass throws, and the
        thread ends. `passes` counts the completed passes; red and the latch
        are those the completed passes leave, and the backlight shows their
        colours only. */
    method BatteryRun(readings: seq<BatteryReading>) returns (passes: nat)
      requires Valid()
      modifies this`batteryLow, this`red, this`backlightLog
      ensures Valid()
      ensures passes == Completed(readings)
      ensures red == if CountTrue(Lows(readings[..passes])) % 2 == 0 then old(red) else JavaComplement(old(red))
      ensures batteryLow == if passes == 0 then old(batteryLow) else readings[passes - 1].low
      ensures backlightLog == old(backlightLog) + BatteryColors(old(red), old(batteryLow), readings)
    {
      passes := Completed(readings);
      CompletedPasses(Lows(readings[..passes]));
      if passes < |readings| {
        // the pass that throws: it shows nothing and ends the thread
        var alive := BatteryPass(readings[passes]);
        assert !alive;
      }
    }

    /** One pass of `collisionRunnable`. */
    method CollisionPass(fl: bool, fr: bool, rl: bool, rr: bool)
      modifies this`blockedFL, this`blockedFR, this`blockedRL, this`blockedRR, this`motorLog
      ensures blockedFL == fl && blockedFR == fr && blockedRL == rl && blockedRR == rr
      ensures motorLog == old(motorLog) + (if fl || fr || rl || rr then [Stop] else [])
    {
      blockedFL := fl;
      blockedFR := fr;
      blockedRL := rl;
      blockedRR := rr;
      if blockedFL || blockedFR || blockedRL || blockedRR {
        motorLog := motorLog + [Stop];
      }
    }

    /** One pass of the command loop in `main` for a word from the scanner;
        `continues` is false when the loop ends. */
    method Command(command: JavaString, speed: ShortToken) returns (continues: bool)
      modifies this`motorLog
      ensures var p := Dispatched(command, speed, blockedFL, blockedFR, blockedRL, blockedRR);
              motorLog == old(motorLog) + p.cmds && continues == !p.loopEnds
    {
      continues := true;
      if SameObject(command, Literal("stop")) || SameObject(command, Literal("")) {
        motorLog := motorLog + [Stop];
        return;
      }
      if speed.NotAShort? {
        continues := false;
        return;
      }
      var s := speed.v;
      if s < 0 || s > 255 {
        return;
      }
      if command.chars == "fwd" && (!blockedFL || !blockedFR) {
        motorLog := motorLog + [SetDirections(CCW, CCW), SetSpeeds(s, s)];
      } else if command.chars == "left" && (!blockedFL || !blockedRL) {
        motorLog := motorLog + [SetDirections(CCW, CCW), SetSpeeds(s, s)];
      } else if command.chars == "right" && (!blockedFR || !blockedRR) {
        motorLog := motorLog + [SetDirections(CW, CW), SetSpeeds(s, s)];
      } else if command.chars == "rev" && (!blockedRL || !blockedRR) {
        motorLog := motorLog + [SetDirections(CW, CCW), SetSpeeds(s, s)];
      } else {
        motorLog := motorLog + [Stop];
      }
    }
  }

  /** Two toggles of the red bits restore them. */
  lemma RedToggleInvolution(red: int)
    ensures JavaComplement(JavaComplement(red)) == red
    ensures red == 0x3F ==> JavaComplement(red) == -0x40
  {
  }
}
