/** What the C++ and the Java solar tracker share: the calibration average
    and the decision ladder of `solarTracker` over a left and a right light
    reading. */
module SolarRules {
  import opened Common
  import opened Lcd

  /** Below this reading on both sensors there is no sun. */
  const THRESHOLD: int := 2
  const STEPS_PER_REV: int := 4096
  /** Each tracking move is 1/32 revolution. */
  const TRACK_STEPS: int := STEPS_PER_REV / 32

  /** The two light readings of one pass. */
  datatype LightReading = LightReading(left: int, right: int)

  /** The four calibration readings: each side at 1/8 revolution clockwise
      of the start, then at 1/8 revolution counter-clockwise of it. */
  datatype Calibration = Calibration(left1: int, right1: int, left2: int, right2: int)

  /** The calibrated average `(b1 + b2) / 2` of one side, as an int division. */
  function Average(b1: int, b2: int): (avg: int)
    ensures (if b1 < b2 then b1 else b2) <= avg <= (if b1 < b2 then b2 else b1)
    ensures -1 <= (b1 + b2) - 2 * avg <= 1
  {
    TruncDiv(b1 + b2, 2)
  }

  /** The calibration moves: 1/8 revolution clockwise, then 1/4 revolution
      counter-clockwise, so the panel ends 1/8 revolution counter-clockwise
      of where it started, with the driver set counter-clockwise. */
  const CALIBRATION_MOVES: seq<StepperCommand> :=
    [SetDirection(CW), Steps(STEPS_PER_REV / 8), SetDirection(CCW), Steps(STEPS_PER_REV / 4)]

  /** What one pass decides: no sun, a tracking move (with the direction it
      sets first, if any), or nothing. */
  datatype TrackAction = NoSun | Track(dir: Option<Direction>) | Hold

  /** The ladder of `solarTracker`. Both sensors under the threshold: no
      sun. Else, left under its average: clockwise if left < right,
      counter-clockwise if left > right, then move. Else, right under its
      average: counter-clockwise if right < left, clockwise if right > left,
      then move. */
  function Decide(reading: LightReading, leftAvg: int, rightAvg: int): TrackAction
  {
    var l := reading.left;
    var r := reading.right;
    if l < THRESHOLD && r < THRESHOLD then NoSun
    else if l < leftAvg then
      Track(if l < r then Some(CW) else if l > r then Some(CCW) else None)
    else if r < rightAvg then
      Track(if r < l then Some(CCW) else if r > l then Some(CW) else None)
    else Hold
  }

  /** The ladder in one statement: no sun exactly when both readings are
      under the threshold; otherwise a move exactly when either side is under
      its average, which side does not matter, and the move turns toward the
      brighter sensor, keeping the driver's direction when they are equal. */
  lemma DecideCharacterised(reading: LightReading, leftAvg: int, rightAvg: int)
    ensures var a := Decide(reading, leftAvg, rightAvg);
            var l := reading.left;
            var r := reading.right;
            (a == NoSun <==> l < THRESHOLD && r < THRESHOLD) &&
            (a.Track? <==> !(l < THRESHOLD && r < THRESHOLD) && (l < leftAvg || r < rightAvg)) &&
            (a.Track? ==> (a.dir == Some(CW) <==> l < r) && (a.dir == Some(CCW) <==> l > r) &&
                          (a.dir == None <==> l == r))
  {
  }

  /** The driver's direction after a pass that set `dir`, or kept `d`. */
  function DirectionAfter(d: Direction, a: TrackAction): Direction
  {
    if a.Track? && a.dir.Some? then a.dir.value else d
  }

  /** The motor commands of one pass. */
  function MotorCommands(a: TrackAction): (cmds: seq<StepperCommand>)
    ensures a.Track? <==> cmds != []
    ensures a.Track? ==> cmds[|cmds| - 1] == Steps(128)
  {
    match a
    case Track(dir) => (if dir.Some? then [SetDirection(dir.value)] else []) + [Steps(TRACK_STEPS)]
    case _ => []
  }

  /** The driver's direction after a run of passes with fixed averages,
      starting from `d`. */
  function DirectionAfterRun(d: Direction, run: seq<LightReading>, leftAvg: int, rightAvg: int): Direction
    decreases |run|
  {
    if run == [] then d
    else DirectionAfterRun(DirectionAfter(d, Decide(run[0], leftAvg, rightAvg)), run[1..], leftAvg, rightAvg)
  }

  /** A pass that moves with unequal readings, so sets the direction. */
  predicate SetsDirection(reading: LightReading, leftAvg: int, rightAvg: int)
  {
    Decide(reading, leftAvg, rightAvg).Track? && Decide(reading, leftAvg, rightAvg).dir.Some?
  }

  /** With no pass that moves with unequal readings, the driver keeps its
      direction. */
  lemma {:induction false} DirectionKeptWithoutUnequalMove(d: Direction, run: seq<LightReading>,
                                                           leftAvg: int, rightAvg: int)
    requires forall j :: 0 <= j < |run| ==> !SetsDirection(run[j], leftAvg, rightAvg)
    ensures DirectionAfterRun(d, run, leftAvg, rightAvg) == d
    decreases |run|
  {
    if run != [] {
      assert !SetsDirection(run[0], leftAvg, rightAvg);
      assert forall j :: 0 <= j < |run[1..]| ==> run[1..][j] == run[j + 1];
      DirectionKeptWithoutUnequalMove(d, run[1..], leftAvg, rightAvg);
    }
  }

  /** After a run, the driver turns toward the brighter sensor of the last
      pass that moved with unequal readings. */
  lemma {:induction false} DirectionFollowsLastUnequalMove(d: Direction, run: seq<LightReading>,
                                                           leftAvg: int, rightAvg: int, i: nat)
    requires i < |run| && SetsDirection(run[i], leftAvg, rightAvg)
    requires forall j :: i < j < |run| ==> !SetsDirection(run[j], leftAvg, rightAvg)
    ensures DirectionAfterRun(d, run, leftAvg, rightAvg) == Decide(run[i], leftAvg, rightAvg).dir.value
    ensures DirectionAfterRun(d, run, leftAvg, rightAvg) == CW <==> run[i].left < run[i].right
    decreases |run|
  {
    var d' := DirectionAfter(d, Decide(run[0], leftAvg, rightAvg));
    assert forall j :: 0 <= j < |run[1..]| ==> run[1..][j] == run[j + 1];
    if i == 0 {
      DirectionKeptWithoutUnequalMove(d', run[1..], leftAvg, rightAvg);
    } else {
      DirectionFollowsLastUnequalMove(d', run[1..], leftAvg, rightAvg, i - 1);
    }
  }

  /** The motor commands of a run of passes with fixed averages, in order. */
  function RunMotorCommands(run: seq<LightReading>, leftAvg: int, rightAvg: int): (cmds: seq<StepperCommand>)
    ensures |cmds| <= 2 * |run|
    decreases |run|
  {
    if run == [] then []
    else MotorCommands(Decide(run[0], leftAvg, rightAvg)) + RunMotorCommands(run[1..], leftAvg, rightAvg)
  }

  /** Sending the commands of a run moves the last set direction just as
      the ladder moves the driver's direction over that run. */
  lemma {:induction false} RunMotorCommandsSetDirection(d: Direction, log: seq<StepperCommand>,
                                                        run: seq<LightReading>, leftAvg: int, rightAvg: int)
    ensures LastSetDirection(d, log + RunMotorCommands(run, leftAvg, rightAvg)) ==
            DirectionAfterRun(LastSetDirection(d, log), run, leftAvg, rightAvg)
    decreases |run|
  {
    if run == [] {
      assert log + [] == log;
    } else {
      var a := Decide(run[0], leftAvg, rightAvg);
      var rest := RunMotorCommands(run[1..], leftAvg, rightAvg);
      AppendAssoc(log, MotorCommands(a), rest);
      RunMotorCommandsSetDirection(d, log + MotorCommands(a), run[1..], leftAvg, rightAvg);
      LastSetDirectionAfterPass(d, log, a);
    }
  }

  /** The intro text `main` writes before calibrating. */
  const INTRO_OPS: seq<LcdOp> := [SetCursor(0, 0), Write("Smart PV"), SetCursor(1, 0), Write("for Edison Board")]

  /** The LCD operations that show the readings at the start of a pass:
      the two labels, then each reading after its label. */
  function ReadingOps(reading: LightReading): seq<LcdOp>
  {
    [SetCursor(0, 0), Write("Left:          "), SetCursor(1, 0), Write("Right:          "),
     SetCursor(0, 6), Write(IntText(reading.left)), SetCursor(1, 7), Write(IntText(reading.right))]
  }

  /** Whatever the screen held, the reading operations leave "Left: " and
      the left reading at the head of the top row, and "Right: " and the
      right reading at the head of the bottom row, with the cursor after the
      right reading. */
  lemma ReadingsShown(s: Screen, reading: LightReading)
    ensures var t := Replay(s, ReadingOps(reading));
            var lt := IntText(reading.left);
            var rt := IntText(reading.right);
            |t.top| >= 6 + |lt| && t.top[..6] == "Left: " && t.top[6..6 + |lt|] == lt &&
            |t.bottom| >= 7 + |rt| && t.bottom[..7] == "Right: " && t.bottom[7..7 + |rt|] == rt &&
            t.row == 1 && t.col == 7 + |rt|
  {
    var ops := ReadingOps(reading);
    var s1 := Apply(Apply(s, ops[0]), ops[1]);
    var s2 := Apply(Apply(s1, ops[2]), ops[3]);
    var s3 := Apply(Apply(s2, ops[4]), ops[5]);
    var s4 := Apply(Apply(s3, ops[6]), ops[7]);
    ReplayTwo(s, ops);
    ReplayTwo(s1, ops[2..]);
    assert ops[2..][2..] == ops[4..];
    ReplayTwo(s2, ops[4..]);
    assert ops[4..][2..] == ops[6..];
    ReplayTwo(s3, ops[6..]);
    assert ops[6..][2..] == [];
    assert Replay(s, ops) == s4;
    assert s1.top == Overwrite(s.top, 0, "Left:          ");
    assert s1.top[..6] == "Left: ";
    assert s3.top[..6] == s1.top[..6];
    assert s4.bottom[..7] == s2.bottom[..7];
  }

  /** The direction the driver was last set to by a run of commands, or
      `d` if none sets one. */
  function LastSetDirection(d: Direction, log: seq<StepperCommand>): Direction
    decreases |log|
  {
    if log == [] then d
    else if log[|log| - 1].SetDirection? then log[|log| - 1].dir
    else LastSetDirection(d, log[..|log| - 1])
  }

  /** Sending a pass's commands moves the last set direction just as
      `DirectionAfter` says. */
  lemma LastSetDirectionAfterPass(d: Direction, log: seq<StepperCommand>, a: TrackAction)
    ensures LastSetDirection(d, log + MotorCommands(a)) == DirectionAfter(LastSetDirection(d, log), a)
  {
    if a.Track? {
      var log' := log + MotorCommands(a);
      assert log'[|log'| - 1] == Steps(TRACK_STEPS);
      assert log'[..|log'| - 1] == log + (if a.dir.Some? then [SetDirection(a.dir.value)] else []);
      if a.dir.Some? {
        var mid := log + [SetDirection(a.dir.value)];
        assert mid[|mid| - 1] == SetDirection(a.dir.value);
      }
    } else {
      assert log + MotorCommands(a) == log;
    }
  }

  /** After calibration the driver is set counter-clockwise, whatever it
      was before. */
  lemma CalibrationEndsCounterClockwise(d: Direction, log: seq<StepperCommand>)
    ensures LastSetDirection(d, log + CALIBRATION_MOVES) == CCW
  {
    var log' := log + CALIBRATION_MOVES;
    assert log'[|log'| - 1] == Steps(STEPS_PER_REV / 4);
    assert log'[..|log'| - 1][|log'| - 2] == SetDirection(CCW);
  }
}
