/** The Java solar tracker: like the C++ port, except that it accepts any
    board, moves the two light sensors' pins onto the GrovePi+ on an UP2,
    and in the dark clears the screen before writing "No sun", so the
    message stays visible. */
module SolarJava {
  import opened Common
  import opened Lcd
  import opened SolarRules

  /** The class constant that selects the GrovePi+ pin offsets. */
  const USING_GROVE_PI_SHIELD: bool := true

  /** The screen operations of a pass in the dark, after the readings. */
  const DARK_OPS: seq<LcdOp> := [SetCursor(0, 0), Clear, Write("No sun")]

  /** The screen operations of one pass. */
  function PassOps(reading: LightReading, a: TrackAction): seq<LcdOp>
  {
    ReadingOps(reading) + (if a == NoSun then DARK_OPS else [])
  }

  /** The screen operations of a run of passes with fixed averages, in order. */
  function RunOps(run: seq<LightReading>, leftAvg: int, rightAvg: int): seq<LcdOp>
    decreases |run|
  {
    if run == [] then []
    else RunOps(run[..|run| - 1], leftAvg, rightAvg) +
         PassOps(run[|run| - 1], Decide(run[|run| - 1], leftAvg, rightAvg))
  }

  /** A run grows by the operations of its next pass. */
  lemma RunOpsGrow(run: seq<LightReading>, i: nat, leftAvg: int, rightAvg: int)
    requires i < |run|
    ensures RunOps(run[..i + 1], leftAvg, rightAvg) ==
            RunOps(run[..i], leftAvg, rightAvg) + PassOps(run[i], Decide(run[i], leftAvg, rightAvg))
  {
    assert run[..i + 1][..i] == run[..i];
  }

  /** A pass in the dark leaves exactly "No sun" on the top row and nothing
      on the bottom row, whatever the screen showed. */
  lemma DarkPassShowsNoSun(s: Screen, reading: LightReading)
    ensures Replay(s, PassOps(reading, NoSun)).top == "No sun"
    ensures Replay(s, PassOps(reading, NoSun)).bottom == ""
  {
    ClearForgets(s, ReadingOps(reading) + DARK_OPS[..1], [Write("No sun")]);
    assert ReadingOps(reading) + DARK_OPS[..1] + [Clear] + [Write("No sun")] == PassOps(reading, NoSun);
    assert Replay(BLANK, [Write("No sun")]) == Apply(BLANK, Write("No sun"));
  }

  /** After a run whose last pass found no sun the screen shows only
      "No sun", whatever the earlier passes showed. */
  lemma DarkRunShowsNoSun(s: Screen, run: seq<LightReading>, leftAvg: int, rightAvg: int)
    requires run != [] && Decide(run[|run| - 1], leftAvg, rightAvg) == NoSun
    ensures Replay(s, RunOps(run, leftAvg, rightAvg)).top == "No sun"
    ensures Replay(s, RunOps(run, leftAvg, rightAvg)).bottom == ""
  {
    var last := run[|run| - 1];
    ReplayAppend(s, RunOps(run[..|run| - 1], leftAvg, rightAvg), PassOps(last, NoSun));
    DarkPassShowsNoSun(Replay(s, RunOps(run[..|run| - 1], leftAvg, rightAvg)), last);
  }

  class SmartPhotovoltaicPanels {
    var aPin1: int
    var aPin2: int
    var i2cPort: int
    var lightLAVG: int
    var lightRAVG: int
    /** The direction the ULN200XA driver was last set to. */
    var direction: Direction
    var motorLog: seq<StepperCommand>
    /** What has been sent to the LCD; the screen shows `Replay(BLANK, lcdLog)`. */
    var lcdLog: seq<LcdOp>

    /** The driver holds the direction last sent to it, and calibration
        came first. */
    ghost predicate Valid()
      reads this
    {
      |motorLog| >= |CALIBRATION_MOVES| && motorLog[..|CALIBRATION_MOVES|] == CALIBRATION_MOVES &&
      direction == LastSetDirection(CCW, motorLog)
    }

    /** Class initialisation and `main` up to the forever loop: the static
        pins, `initPlatform`, the intro on a freshly cleared screen, the two
        calibration moves and the averages. */
    constructor (platform: Platform, cal: Calibration)
      ensures Valid()
      ensures i2cPort == 0
      ensures platform == IntelUp2 ==> aPin1 == 1 + GROVE_PI_OFFSET && aPin2 == 2 + GROVE_PI_OFFSET
      ensures platform != IntelUp2 ==> aPin1 == 1 && aPin2 == 2
      ensures lightLAVG == Average(cal.left1, cal.left2) && lightRAVG == Average(cal.right1, cal.right2)
      ensures direction == CCW && motorLog == CALIBRATION_MOVES
      ensures lcdLog == INTRO_OPS
    {
      aPin1, aPin2, i2cPort := 1, 2, 0;
      lcdLog := INTRO_OPS;
      motorLog := CALIBRATION_MOVES;
      direction := CCW;
      lightLAVG := TruncDiv(cal.left1 + cal.left2, 2);
      lightRAVG := TruncDiv(cal.right1 + cal.right2, 2);
      new;
      InitPlatform(platform);
      CalibrationEndsCounterClockwise(CCW, []);
      assert [] + CALIBRATION_MOVES == motorLog;
    }

    /** `initPlatform`: on an UP2 with the shield constant set, add the
        GrovePi+ offset to both light sensors' pins. */
    method InitPlatform(platform: Platform)
      modifies this`aPin1, this`aPin2
      ensures platform == IntelUp2 && USING_GROVE_PI_SHIELD ==>
                aPin1 == old(aPin1) + GROVE_PI_OFFSET && aPin2 == old(aPin2) + GROVE_PI_OFFSET
      ensures !(platform == IntelUp2 && USING_GROVE_PI_SHIELD) ==> aPin1 == old(aPin1) && aPin2 == old(aPin2)
    {
      if platform == IntelUp2 {
        if USING_GROVE_PI_SHIELD {
          aPin1 := aPin1 + GROVE_PI_OFFSET;
          aPin2 := aPin2 + GROVE_PI_OFFSET;
        }
      }
    }

    /** One call of `solarTracker`. */
    method Pass(reading: LightReading) returns (action: TrackAction)
      requires Valid()
      modifies this`direction, this`motorLog, this`lcdLog
      ensures Valid()
      ensures action == Decide(reading, lightLAVG, lightRAVG)
      ensures motorLog == old(motorLog) + MotorCommands(action)
      ensures direction == DirectionAfter(old(direction), action)
      ensures lcdLog == old(lcdLog) + PassOps(reading, action)
    {
      var l, r := reading.left, reading.right;
      ghost var a := Decide(reading, lightLAVG, lightRAVG);
      LastSetDirectionAfterPass(CCW, motorLog, a);
      ghost var newLog := motorLog + MotorCommands(a);
      assert newLog[..|CALIBRATION_MOVES|] == CALIBRATION_MOVES;
      lcdLog := lcdLog + ReadingOps(reading);
      if l < THRESHOLD && r < THRESHOLD {
        lcdLog := lcdLog + DARK_OPS;
        action := NoSun;
      } else if l < lightLAVG {
        if l < r {
          direction := CW;
          motorLog := motorLog + [SetDirection(CW)];
        } else if l > r {
          direction := CCW;
          motorLog := motorLog + [SetDirection(CCW)];
        }
        motorLog := motorLog + [Steps(TRACK_STEPS)];
        action := Track(if l < r then Some(CW) else if l > r then Some(CCW) else None);
      } else if r < lightRAVG {
        if r < l {
          direction := CCW;
          motorLog := motorLog + [SetDirection(CCW)];
        } else if r > l {
          direction := CW;
          motorLog := motorLog + [SetDirection(CW)];
        }
        motorLog := motorLog + [Steps(TRACK_STEPS)];
        action := Track(if r < l then Some(CCW) else if r > l then Some(CW) else None);
      } else {
        action := Hold;
      }
    }

    /** The forever loop over a finite run of readings: the driver ends in
        the direction the ladder leaves it in after the whole run. */
    method Run(run: seq<LightReading>)
      requires Valid()
      modifies this`direction, this`motorLog, this`lcdLog
      ensures Valid()
      ensures direction == DirectionAfterRun(old(direction), run, lightLAVG, lightRAVG)
      ensures motorLog == old(motorLog) + RunMotorCommands(run, lightLAVG, lightRAVG)
      ensures lcdLog == old(lcdLog) + RunOps(run, lightLAVG, lightRAVG)
    {
      for i := 0 to |run|
        invariant Valid()
        invariant old(motorLog) + RunMotorCommands(run, lightLAVG, lightRAVG) ==
                  motorLog + RunMotorCommands(run[i..], lightLAVG, lightRAVG)
        invariant lcdLog == old(lcdLog) + RunOps(run[..i], lightLAVG, lightRAVG)
      {
        assert run[i..][1..] == run[i + 1..];
        RunOpsGrow(run, i, lightLAVG, lightRAVG);
        AppendAssoc(motorLog, MotorCommands(Decide(run[i], lightLAVG, lightRAVG)),
                    RunMotorCommands(run[i + 1..], lightLAVG, lightRAVG));
        AppendAssoc(old(lcdLog), RunOps(run[..i], lightLAVG, lightRAVG),
                    PassOps(run[i], Decide(run[i], lightLAVG, lightRAVG)));
        var _ := Pass(run[i]);
      }
      assert run[..|run|] == run;
      assert motorLog + [] == motorLog;
      RunMotorCommandsSetDirection(CCW, old(motorLog), run, lightLAVG, lightRAVG);
    }
  }
}
