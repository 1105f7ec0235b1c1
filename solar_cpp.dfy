/** The C++ solar tracker: `main` accepts only Galileo and Edison boards,
    shows its intro, calibrates the two averages and then runs
    `solarTracker` forever. The file-scope averages, the direction the
    stepper driver holds, the commands sent to it and the LCD screen are the
    fields of one object. In the dark the C++ port writes "No sun" and then
    clears the screen, so nothing stays on it. */
module SolarCpp {
  import opened Common
  import opened Lcd
  import opened SolarRules

  /** The screen operations of a pass in the dark, after the readings. */
  const DARK_OPS: seq<LcdOp> := [SetCursor(0, 0), Write("No sun"), Clear]

  /** The screen operations of one pass. */
  function PassOps(reading: LightReading, a: TrackAction): seq<LcdOp>
  {
    ReadingOps(reading) + (if a == NoSun then DARK_OPS else [])
  }

  /** The screen operations of a run of passes with fixed averages, in order. */
  function RunOps(run: seq<LightReading>, leftAvg: int, rightAvg: int): seq<LcdOp>
    decreases |run|
  {
    if run == [] then []
    else RunOps(run[..|run| - 1], leftAvg, rightAvg) +
         PassOps(run[|run| - 1], Decide(run[|run| - 1], leftAvg, rightAvg))
  }

  /** A run grows by the operations of its next pass. */
  lemma RunOpsGrow(run: seq<LightReading>, i: nat, leftAvg: int, rightAvg: int)
    requires i < |run|
    ensures RunOps(run[..i + 1], leftAvg, rightAvg) ==
            RunOps(run[..i], leftAvg, rightAvg) + PassOps(run[i], Decide(run[i], leftAvg, rightAvg))
  {
    assert run[..i + 1][..i] == run[..i];
  }

  /** A pass in the dark leaves the screen blank, whatever it showed. */
  lemma DarkPassLeavesScreenBlank(s: Screen, reading: LightReading)
    ensures Replay(s, PassOps(reading, NoSun)) == BLANK
  {
    ClearForgets(s, ReadingOps(reading) + DARK_OPS[..2], []);
    assert ReadingOps(reading) + DARK_OPS[..2] + [Clear] == PassOps(reading, NoSun);
  }

  /** After a run whose last pass found no sun the screen is blank,
      whatever the earlier passes showed. */
  lemma DarkRunEndsBlank(s: Screen, run: seq<LightReading>, leftAvg: int, rightAvg: int)
    requires run != [] && Decide(run[|run| - 1], leftAvg, rightAvg) == NoSun
    ensures Replay(s, RunOps(run, leftAvg, rightAvg)) == BLANK
  {
    var last := run[|run| - 1];
    ReplayAppend(s, RunOps(run[..|run| - 1], leftAvg, rightAvg), PassOps(last, NoSun));
    DarkPassLeavesScreenBlank(Replay(s, RunOps(run[..|run| - 1], leftAvg, rightAvg)), last);
  }

  class SolarTracker {
    var lightLAVG: int
    var lightRAVG: int
    /** The direction the ULN200XA driver was last set to. */
    var direction: Direction
    var motorLog: seq<StepperCommand>
    /** What has been sent to the LCD; the screen shows `Replay(BLANK, lcdLog)`. */
    var lcdLog: seq<LcdOp>

    /** The driver holds the direction last sent to it, and calibration
        came first. */
    ghost predicate Valid()
      reads this
    {
      |motorLog| >= |CALIBRATION_MOVES| && motorLog[..|CALIBRATION_MOVES|] == CALIBRATION_MOVES &&
      direction == LastSetDirection(CCW, motorLog)
    }

    /** `main` from the intro to the end of calibration, on a supported
        board: the intro on a freshly cleared screen, the two calibration
        moves with a reading of both sensors after each, and the averages. */
    constructor (cal: Calibration)
      ensures Valid()
      ensures lightLAVG == Average(cal.left1, cal.left2) && lightRAVG == Average(cal.right1, cal.right2)
      ensures direction == CCW && motorLog == CALIBRATION_MOVES
      ensures lcdLog == INTRO_OPS
    {
      lcdLog := INTRO_OPS;
      motorLog := CALIBRATION_MOVES;
      direction := CCW;
      lightLAVG := TruncDiv(cal.left1 + cal.left2, 2);
      lightRAVG := TruncDiv(cal.right1 + cal.right2, 2);
      new;
      CalibrationEndsCounterClockwise(CCW, []);
      assert [] + CALIBRATION_MOVES == motorLog;
    }

    /** One call of `solarTracker`. */
    method Pass(reading: LightReading) returns (action: TrackAction)
      requires Valid()
      modifies this`direction, this`motorLog, this`lcdLog
      ensures Valid()
      ensures action == Decide(reading, lightLAVG, lightRAVG)
      ensures motorLog == old(motorLog) + MotorCommands(action)
      ensures direction == DirectionAfter(old(direction), action)
      ensures lcdLog == old(lcdLog) + PassOps(reading, action)
    {
      var l, r := reading.left, reading.right;
      ghost var a := Decide(reading, lightLAVG, lightRAVG);
      LastSetDirectionAfterPass(CCW, motorLog, a);
      ghost var newLog := motorLog + MotorCommands(a);
      assert newLog[..|CALIBRATION_MOVES|] == CALIBRATION_MOVES;
      lcdLog := lcdLog + ReadingOps(reading);
      if l < THRESHOLD && r < THRESHOLD {
        lcdLog := lcdLog + DARK_OPS;
        action := NoSun;
      } else if l < lightLAVG {
        if l < r {
          direction := CW;
          motorLog := motorLog + [SetDirection(CW)];
        } else if l > r {
          direction := CCW;
          motorLog := motorLog + [SetDirection(CCW)];
        }
        motorLog := motorLog + [Steps(TRACK_STEPS)];
        action := Track(if l < r then Some(CW) else if l > r then Some(CCW) else None);
      } else if r < lightRAVG {
        if r < l {
          direction := CCW;
          motorLog := motorLog + [SetDirection(CCW)];
        } else if r > l {
          direction := CW;
          motorLog := motorLog + [SetDirection(CW)];
        }
        motorLog := motorLog + [Steps(TRACK_STEPS)];
        action := Track(if r < l then Some(CCW) else if r > l then Some(CW) else None);
      } else {
        action := Hold;
      }
    }

    /** The forever loop over a finite run of readings: the driver ends in
        the direction the ladder leaves it in after the whole run. */
    method Run(run: seq<LightReading>)
      requires Valid()
      modifies this`direction, this`motorLog, this`lcdLog
      ensures Valid()
      ensures direction == DirectionAfterRun(old(direction), run, lightLAVG, lightRAVG)
      ensures motorLog == old(motorLog) + RunMotorCommands(run, lightLAVG, lightRAVG)
      ensures lcdLog == old(lcdLog) + RunOps(run, lightLAVG, lightRAVG)
    {
      for i := 0 to |run|
        invariant Valid()
        invariant old(motorLog) + RunMotorCommands(run, lightLAVG, lightRAVG) ==
                  motorLog + RunMotorCommands(run[i..], lightLAVG, lightRAVG)
        invariant lcdLog == old(lcdLog) + RunOps(run[..i], lightLAVG, lightRAVG)
      {
        assert run[i..][1..] == run[i + 1..];
        RunOpsGrow(run, i, lightLAVG, lightRAVG);
        AppendAssoc(motorLog, MotorCommands(Decide(run[i], lightLAVG, lightRAVG)),
                    RunMotorCommands(run[i + 1..], lightLAVG, lightRAVG));
        AppendAssoc(old(lcdLog), RunOps(run[..i], lightLAVG, lightRAVG),
                    PassOps(run[i], Decide(run[i], lightLAVG, lightRAVG)));
        var _ := Pass(run[i]);
      }
      assert run[..|run|] == run;
      assert motorLog + [] == motorLog;
      RunMotorCommandsSetDirection(CCW, old(motorLog), run, lightLAVG, lightRAVG);
    }
  }

  /** `main`: on a board other than Galileo Gen 1, Galileo Gen 2 or Edison
      it returns before creating a device; otherwise it builds the tracker
      and calibrates it. */
  method Start(platform: Platform, cal: Calibration) returns (tracker: SolarTracker?)
    ensures tracker == null <==> !GalileoOrEdison(platform)
    ensures tracker != null ==> fresh(tracker) && tracker.Valid() && tracker.direction == CCW &&
                                tracker.lightLAVG == Average(cal.left1, cal.left2) &&
                                tracker.lightRAVG == Average(cal.right1, cal.right2)
  {
    if platform != IntelGalileoGen1 && platform != IntelGalileoGen2 && platform != IntelEdisonFabC {
      return null;
    }
    tracker := new SolarTracker(cal);
  }
}
