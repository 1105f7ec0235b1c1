/** The stepper arithmetic and the light dead band of the automatic curtain,
    which the C++ and the Java program share word for word. The curtain is
    open at position 0 and completely drawn at two full revolutions of the
    stepper; each activation turns it a quarter revolution. */
module CurtainRules {
  import opened Common

  const STEPPER_MOTOR_SPEED: int := 5
  const STEPPER_MOTOR_STEPS_FULL_REVOLUTION: int := 4096
  const STEPPER_MOTOR_MAX_STEPS: int := 2 * STEPPER_MOTOR_STEPS_FULL_REVOLUTION
  const STEPPER_MOTOR_ACTIVATION_STEPS: int := 1024
  /** Hysteresis, in lux, around the target. */
  const THRESHOLD: int := 5

  /** The lux target a rotary angle selects in the configuration loop: the
      angle divided by 5, truncated to an int. */
  function LuxOfAngle(angle: real): (t: int)
    ensures 0.0 <= angle <= 300.0 ==> 0 <= t <= 60
  {
    TruncReal(angle / 5.0)
  }

  /** The two modes of the main loop. */
  datatype State = Config | Normal

  /** What one light check decides. */
  datatype LuxAction = Draw | Open | Hold

  /** A position the stepper can be in: between open and drawn, on a whole
      number of activations. */
  predicate ValidPosition(p: int)
  {
    0 <= p <= STEPPER_MOTOR_MAX_STEPS && p % STEPPER_MOTOR_ACTIVATION_STEPS == 0
  }

  /** The commands one successful draw sends: clockwise, a quarter turn, release. */
  const DrawCommands: seq<StepperCommand> :=
    [SetDirection(CW), Steps(STEPPER_MOTOR_ACTIVATION_STEPS), Release]

  /** The commands one successful open sends: counter-clockwise, a quarter turn, release. */
  const OpenCommands: seq<StepperCommand> :=
    [SetDirection(CCW), Steps(STEPPER_MOTOR_ACTIVATION_STEPS), Release]

  /** The position after a draw request. The bound check compares with the
      maximum for equality only; it keeps the position in range because the
      maximum is a whole number of activations. */
  function Drawn(p: int): (r: int)
    requires ValidPosition(p)
    ensures ValidPosition(r)
    ensures p != STEPPER_MOTOR_MAX_STEPS ==> r == p + STEPPER_MOTOR_ACTIVATION_STEPS
    ensures p == STEPPER_MOTOR_MAX_STEPS ==> r == p
  {
    if p != STEPPER_MOTOR_MAX_STEPS then p + STEPPER_MOTOR_ACTIVATION_STEPS else p
  }

  /** The position after an open request; the check against 0 is again an
      equality test. */
  function Opened(p: int): (r: int)
    requires ValidPosition(p)
    ensures ValidPosition(r)
    ensures p != 0 ==> r == p - STEPPER_MOTOR_ACTIVATION_STEPS
    ensures p == 0 ==> r == p
  {
    if p != 0 then p - STEPPER_MOTOR_ACTIVATION_STEPS else p
  }

  /** The light check: draw above the band, open below it, nothing inside it. */
  function LuxDecision(luxCurrent: int, luxTarget: int): (a: LuxAction)
    ensures a == Draw <==> luxCurrent > luxTarget + THRESHOLD
    ensures a == Open <==> luxCurrent < luxTarget - THRESHOLD
    ensures a == Hold <==> luxTarget - THRESHOLD <= luxCurrent <= luxTarget + THRESHOLD
  {
    if luxCurrent > luxTarget + THRESHOLD then Draw
    else if luxCurrent < luxTarget - THRESHOLD then Open
    else Hold
  }

  /** The position after one light check has acted on it. */
  function Apply(p: int, a: LuxAction): (r: int)
    requires ValidPosition(p)
    ensures ValidPosition(r)
  {
    match a
    case Draw => Drawn(p)
    case Open => Opened(p)
    case Hold => p
  }

  /** The stepper commands one light check sends from position `p`: a draw
      or an open sends its three commands exactly when the curtain can move
      that way, and then they are those of that direction. */
  function Commands(p: int, a: LuxAction): (cmds: seq<StepperCommand>)
    requires ValidPosition(p)
    ensures cmds == [] <==> Apply(p, a) == p
    ensures cmds != [] ==> cmds == if a == Draw then DrawCommands else OpenCommands
  {
    match a
    case Draw => if p != STEPPER_MOTOR_MAX_STEPS then DrawCommands else []
    case Open => if p != 0 then OpenCommands else []
    case Hold => []
  }

  /** The position after a whole sequence of light checks. */
  function Replay(p: int, actions: seq<LuxAction>): (r: int)
    requires ValidPosition(p)
    ensures ValidPosition(r)
    decreases |actions|
  {
    if actions == [] then p else Replay(Apply(p, actions[0]), actions[1..])
  }

  /** A draw that moved the motor is undone by an open. */
  lemma DrawThenOpen(p: int)
    requires ValidPosition(p) && p != STEPPER_MOTOR_MAX_STEPS
    ensures Opened(Drawn(p)) == p
  {
  }

  /** An open that moved the motor is undone by a draw. */
  lemma OpenThenDraw(p: int)
    requires ValidPosition(p) && p != 0
    ensures Drawn(Opened(p)) == p
  {
  }

  /** Starting from the open curtain, the position stays a whole number of
      quarter turns between open and drawn over any run of light checks. */
  lemma ReplayFromOpen(actions: seq<LuxAction>)
    ensures ValidPosition(Replay(0, actions))
    ensures 0 <= Replay(0, actions) <= STEPPER_MOTOR_MAX_STEPS
  {
  }

  /** Each check moves the curtain by at most one activation, so after n
      checks it is at most n activations away from where it started. */
  lemma {:induction false} ReplayDistance(p: int, actions: seq<LuxAction>)
    requires ValidPosition(p)
    ensures -|actions| * STEPPER_MOTOR_ACTIVATION_STEPS <= Replay(p, actions) - p
                                                       <= |actions| * STEPPER_MOTOR_ACTIVATION_STEPS
    decreases |actions|
  {
    if actions != [] {
      ReplayDistance(Apply(p, actions[0]), actions[1..]);
    }
  }

  /** Readings inside the dead band never move the curtain, whatever the
      position. */
  lemma {:induction false} DeadBandKeepsPosition(p: int, readings: seq<int>, luxTarget: int)
    requires ValidPosition(p)
    requires forall i :: 0 <= i < |readings| ==>
               luxTarget - THRESHOLD <= readings[i] <= luxTarget + THRESHOLD
    ensures Replay(p, Decisions(readings, luxTarget)) == p
    decreases |readings|
  {
    if readings != [] {
      DeadBandKeepsPosition(p, readings[1..], luxTarget);
    }
  }

  /** The decisions a sequence of readings produces against one target. */
  function Decisions(readings: seq<int>, luxTarget: int): (actions: seq<LuxAction>)
    ensures |actions| == |readings|
    ensures forall i :: 0 <= i < |readings| ==> actions[i] == LuxDecision(readings[i], luxTarget)
  {
    if readings == [] then [] else [LuxDecision(readings[0], luxTarget)] + Decisions(readings[1..], luxTarget)
  }
}
