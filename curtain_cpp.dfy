/** The C++ automatic curtain: a file-scope stepper position, a CONFIG/NORMAL
    main loop that reads a button, and a configuration loop that turns the
    rotary angle into a lux target. Sensor readings are parameters; stepper
    commands are recorded in `motorLog`. */
module CurtainCpp {
  import opened Common
  import opened CurtainRules

  /** mraa's code for an unspecified error; `setup_lux_target` returns it
      when an LCD write fails, and the caller stores it as the target. */
  const MRAA_ERROR_UNSPECIFIED: int := 99

  /** The pin numbers `initPlatform` writes through its reference parameters. */
  datatype PinSetup = PinSetup(aPinRotary: int, aPinLight: int, dPinButton: int, i2cPort: int)

  datatype InitResult = InitResult(code: int, pins: PinSetup)

  /** `initPlatform`. The pins are assigned before the board is inspected; on
      an UP2 the GrovePi+ shield (a compile-time switch, here a parameter)
      moves the three Grove pins by 512, and without it the UP2 is refused
      with -1. Every other board is accepted with a warning. */
  function InitPlatform(platform: Platform, usingGrovePiShield: bool): (r: InitResult)
    ensures r.code == 0 || r.code == -1
    ensures r.code == -1 <==> platform == IntelUp2 && !usingGrovePiShield
    ensures r.pins.i2cPort == 0
    ensures platform == IntelUp2 && usingGrovePiShield ==>
              r.pins == PinSetup(1 + GROVE_PI_OFFSET, 2 + GROVE_PI_OFFSET, 4 + GROVE_PI_OFFSET, 0)
    ensures !(platform == IntelUp2 && usingGrovePiShield) ==> r.pins == PinSetup(1, 2, 4, 0)
  {
    var pins := PinSetup(1, 2, 4, 0);
    if platform == IntelUp2 then
      if usingGrovePiShield then
        InitResult(0, pins.(aPinRotary := pins.aPinRotary + GROVE_PI_OFFSET,
                            aPinLight := pins.aPinLight + GROVE_PI_OFFSET,
                            dPinButton := pins.dPinButton + GROVE_PI_OFFSET))
      else InitResult(-1, pins)
    else InitResult(0, pins)
  }

  /** What one pass of the configuration loop reads: the rotary angle in
      degrees, whether each of the two LCD writes succeeded, and the button. */
  datatype SetupPass = SetupPass(angle: real, firstWriteOk: bool, secondWriteOk: bool, button: int)

  /** How `setup_lux_target` ends on a finite run of passes. `AwaitingButton`
      means the passes ran out before the button was pressed: the program
      would still be looping. */
  datatype SetupOutcome = Confirmed(luxTarget: int) | WriteFailed | AwaitingButton

  /** What `setup_lux_target` returns on a run of passes. */
  function SetupResult(passes: seq<SetupPass>): SetupOutcome
  {
    if passes == [] then AwaitingButton
    else if !passes[0].firstWriteOk || !passes[0].secondWriteOk then WriteFailed
    else if passes[0].button == 1 then Confirmed(LuxOfAngle(passes[0].angle))
    else SetupResult(passes[1..])
  }

  /** A pass the loop goes through without leaving: both writes worked and
      the button was not pressed. */
  predicate Unconfirmed(p: SetupPass)
  {
    p.firstWriteOk && p.secondWriteOk && p.button != 1
  }

  /** `setup_lux_target`: repeat reading the angle and showing it until the
      button reads 1; give up with the error code as soon as a write fails. */
  method SetupLuxTarget(passes: seq<SetupPass>) returns (outcome: SetupOutcome)
    ensures outcome == SetupResult(passes)
  {
    var confirmed := false;
    var luxTarget := 0;
    var i := 0;
    while !confirmed && i < |passes|
      invariant 0 <= i <= |passes|
      invariant !confirmed ==> SetupResult(passes) == SetupResult(passes[i..])
      invariant confirmed ==> 0 < i && SetupResult(passes) == Confirmed(luxTarget)
      decreases |passes| - i
    {
      var pass := passes[i];
      assert passes[i..][1..] == passes[i + 1..];
      luxTarget := LuxOfAngle(pass.angle);
      if !pass.firstWriteOk || !pass.secondWriteOk {
        return WriteFailed;
      }
      if pass.button == 1 {
        confirmed := true;
      }
      i := i + 1;
    }
    if confirmed {
      outcome := Confirmed(luxTarget);
    } else {
      outcome := AwaitingButton;
    }
  }

  /** The target is the angle of the first pass on which the button read 1,
      and every pass before it went through without a failed write. */
  lemma {:induction false} ConfirmedTargetComesFromPressedPass(passes: seq<SetupPass>, t: int)
    requires SetupResult(passes) == Confirmed(t)
    ensures exists k :: 0 <= k < |passes| && passes[k].button == 1 &&
              passes[k].firstWriteOk && passes[k].secondWriteOk &&
              t == LuxOfAngle(passes[k].angle) &&
              forall j :: 0 <= j < k ==> Unconfirmed(passes[j])
  {
    if Unconfirmed(passes[0]) {
      ConfirmedTargetComesFromPressedPass(passes[1..], t);
      var k :| 0 < k + 1 <= |passes[1..]| && passes[1..][k].button == 1 &&
                passes[1..][k].firstWriteOk && passes[1..][k].secondWriteOk &&
                t == LuxOfAngle(passes[1..][k].angle) &&
                forall j :: 0 <= j < k ==> Unconfirmed(passes[1..][j]);
      assert forall j :: 0 <= j < k + 1 ==> Unconfirmed(passes[j]) by {
        forall j | 0 <= j < k + 1 ensures Unconfirmed(passes[j]) {
          if j > 0 { assert passes[j] == passes[1..][j - 1]; }
        }
      }
      assert passes[k + 1] == passes[1..][k];
    } else {
      assert passes[0].button == 1;
    }
  }

  /** With the rotary angle inside its 0..300 degree range, a confirmed
      target lies in 0..60. */
  lemma {:induction false} ConfirmedTargetInRange(passes: seq<SetupPass>, t: int)
    requires forall i :: 0 <= i < |passes| ==> 0.0 <= passes[i].angle <= 300.0
    requires SetupResult(passes) == Confirmed(t)
    ensures 0 <= t <= 60
  {
    ConfirmedTargetComesFromPressedPass(passes, t);
  }

  /** The sensor readings of one iteration of the main loop: the button, the
      light level (read only in NORMAL), and the configuration passes (read
      only in CONFIG). */
  datatype Tick = Tick(button: int, luxCurrent: int, passes: seq<SetupPass>)

  /** What `main`'s loop works on: the stepper position, the status, the
      lux target and the commands sent to the stepper so far. */
  datatype Snapshot = Snapshot(step: int, status: State, luxTarget: Option<int>, motorLog: seq<StepperCommand>)

  /** A position in range, and a target assigned whenever the status is NORMAL. */
  predicate Consistent(s: Snapshot)
  {
    ValidPosition(s.step) && (s.status == Normal ==> s.luxTarget.Some?)
  }

  /** One iteration of `main`'s loop, and whether it completed. A button
      reading of 1 forces CONFIG; NORMAL runs the light check against the
      target; CONFIG stores what the configuration loop returns (the error
      code included) and switches to NORMAL. */
  function Next(s: Snapshot, tick: Tick): (r: (Snapshot, bool))
    requires Consistent(s)
    ensures Consistent(r.0)
    ensures r.1 <==> r.0.status == Normal
    ensures !r.1 ==> r.0.status == Config && r.0.luxTarget == s.luxTarget
    ensures r.1 <==> (s.status == Normal && tick.button != 1) || !SetupResult(tick.passes).AwaitingButton?
    ensures tick.button == 1 || s.status == Config ==>
              r.0.step == s.step && r.0.motorLog == s.motorLog &&
              (r.1 ==> r.0.luxTarget == Some(match SetupResult(tick.passes)
                                             case Confirmed(t) => t
                                             case _ => MRAA_ERROR_UNSPECIFIED))
    ensures s.status == Normal && tick.button != 1 ==>
              var a := LuxDecision(tick.luxCurrent, s.luxTarget.value);
              r.0.luxTarget == s.luxTarget &&
              r.0.step == Apply(s.step, a) && r.0.motorLog == s.motorLog + Commands(s.step, a)
    ensures |s.motorLog| <= |r.0.motorLog| && r.0.motorLog[..|s.motorLog|] == s.motorLog
  {
    if s.status == Normal && tick.button != 1 then
      var a := LuxDecision(tick.luxCurrent, s.luxTarget.value);
      (s.(step := Apply(s.step, a), motorLog := s.motorLog + Commands(s.step, a)), true)
    else
      match SetupResult(tick.passes)
      case AwaitingButton => (s.(status := Config), false)
      case WriteFailed => (s.(status := Normal, luxTarget := Some(MRAA_ERROR_UNSPECIFIED)), true)
      case Confirmed(t) => (s.(status := Normal, luxTarget := Some(t)), true)
  }

  /** `main`'s loop over a finite run of iterations: the final state and the
      number of iterations completed before one was left waiting for the
      button. */
  function Loop(s: Snapshot, ticks: seq<Tick>): (r: (Snapshot, nat))
    requires Consistent(s)
    ensures Consistent(r.0) && r.1 <= |ticks|
    ensures 0 < r.1 == |ticks| ==> r.0.status == Normal
    ensures r.1 < |ticks| ==> r.0.status == Config
    ensures |s.motorLog| <= |r.0.motorLog| && r.0.motorLog[..|s.motorLog|] == s.motorLog
    decreases |ticks|
  {
    if ticks == [] then (s, 0)
    else
      var n := Next(s, ticks[0]);
      if !n.1 then (n.0, 0)
      else
        var rest := Loop(n.0, ticks[1..]);
        (rest.0, rest.1 + 1)
  }

  /** One step of `Loop`. */
  lemma LoopUnfolds(s: Snapshot, ticks: seq<Tick>)
    requires Consistent(s) && ticks != []
    ensures var n := Next(s, ticks[0]);
            Loop(s, ticks) == if n.1 then (Loop(n.0, ticks[1..]).0, Loop(n.0, ticks[1..]).1 + 1) else (n.0, 0)
  {
  }

  /** The light readings of a run of iterations. */
  function LuxReadings(ticks: seq<Tick>): seq<int>
  {
    seq(|ticks|, i requires 0 <= i < |ticks| => ticks[i].luxCurrent)
  }

  /** In NORMAL with the button never pressed, every iteration completes,
      the target stays, and the curtain ends where the dead-band decisions
      on the readings take it. */
  lemma {:induction false} NormalLoopReplaysDecisions(s: Snapshot, ticks: seq<Tick>)
    requires Consistent(s) && s.status == Normal
    requires forall i :: 0 <= i < |ticks| ==> ticks[i].button != 1
    ensures Loop(s, ticks).1 == |ticks|
    ensures Loop(s, ticks).0.luxTarget == s.luxTarget && Loop(s, ticks).0.status == Normal
    ensures Loop(s, ticks).0.step == Replay(s.step, Decisions(LuxReadings(ticks), s.luxTarget.value))
    decreases |ticks|
  {
    var ds := Decisions(LuxReadings(ticks), s.luxTarget.value);
    if ticks != [] {
      var n := Next(s, ticks[0]);
      assert LuxReadings(ticks)[1..] == LuxReadings(ticks[1..]);
      assert ds[1..] == Decisions(LuxReadings(ticks[1..]), s.luxTarget.value);
      NormalLoopReplaysDecisions(n.0, ticks[1..]);
    }
  }

  /** The program's state: the file-scope stepper position, `main`'s status
      and lux target, and the commands sent to the stepper so far. */
  class Curtain {
    var step: int
    var motorLog: seq<StepperCommand>
    var status: State
    /** `main`'s `lux_target`, which is declared without a value: None until
        the first CONFIG iteration assigns it. */
    var luxTarget: Option<int>

    /** The position is always a whole number of activations in range, and
        the NORMAL branch never finds the target unassigned. */
    ghost predicate Valid()
      reads this
    {
      Consistent(Snap())
    }

    /** The fields `main`'s loop works on. */
    function Snap(): Snapshot
      reads this
    {
      Snapshot(step, status, luxTarget, motorLog)
    }

    /** Program start: the curtain open, status CONFIG, no target yet. */
    constructor ()
      ensures Valid()
      ensures step == 0 && motorLog == [] && status == Config && luxTarget == None
    {
      step := 0;
      motorLog := [];
      status := Config;
      luxTarget := None;
    }

    /** `draw_curtain`: a quarter turn clockwise unless already drawn. */
    method DrawCurtain() returns (moved: bool)
      requires Valid()
      modifies this
      ensures Valid()
      ensures moved <==> old(step) != STEPPER_MOTOR_MAX_STEPS
      ensures step == Drawn(old(step))
      ensures moved ==> step == old(step) + STEPPER_MOTOR_ACTIVATION_STEPS
      ensures motorLog == old(motorLog) + (if moved then DrawCommands else [])
      ensures status == old(status) && luxTarget == old(luxTarget)
    {
      if step != STEPPER_MOTOR_MAX_STEPS {
        motorLog := motorLog + DrawCommands;
        step := step + STEPPER_MOTOR_ACTIVATION_STEPS;
        return true;
      } else {
        return false;
      }
    }

    /** `open_curtain`: a quarter turn counter-clockwise unless already open. */
    method OpenCurtain() returns (moved: bool)
      requires Valid()
      modifies this
      ensures Valid()
      ensures moved <==> old(step) != 0
      ensures step == Opened(old(step))
      ensures moved ==> step == old(step) - STEPPER_MOTOR_ACTIVATION_STEPS
      ensures motorLog == old(motorLog) + (if moved then OpenCommands else [])
      ensures status == old(status) && luxTarget == old(luxTarget)
    {
      if step != 0 {
        motorLog := motorLog + OpenCommands;
        step := step - STEPPER_MOTOR_ACTIVATION_STEPS;
        return true;
      } else {
        return false;
      }
    }

    /** `check_lux`: compare the reading with the target and draw or open
        at most once; inside the dead band the stepper is not touched. */
    method CheckLux(luxCurrent: int, target: int) returns (action: LuxAction)
      requires Valid()
      modifies this
      ensures Valid()
      ensures action == LuxDecision(luxCurrent, target)
      ensures step == Apply(old(step), action)
      ensures motorLog == old(motorLog) + Commands(old(step), action)
      ensures status == old(status) && luxTarget == old(luxTarget)
    {
      action := LuxDecision(luxCurrent, target);
      if luxCurrent > target + THRESHOLD {
        var _ := DrawCurtain();
      } else if luxCurrent < target - THRESHOLD {
        var _ := OpenCurtain();
      }
    }

    /** One iteration of `main`'s loop. A button reading of 1 forces CONFIG;
        CONFIG runs the configuration loop, stores what it returns (the error
        code included) and switches to NORMAL; NORMAL runs the light check.
        `completed` is false when the configuration passes ran out before the
        button was pressed (the program would still be inside that loop). */
    method Iterate(tick: Tick) returns (completed: bool)
      requires Valid()
      modifies this
      ensures Valid()
      ensures (Snap(), completed) == Next(old(Snap()), tick)
    {
      if tick.button == 1 {
        status := Config;
      }
      if status == Normal {
        var _ := CheckLux(tick.luxCurrent, luxTarget.value);
        completed := true;
      } else {
        var outcome := SetupLuxTarget(tick.passes);
        match outcome
        case AwaitingButton =>
          completed := false;
        case WriteFailed =>
          luxTarget := Some(MRAA_ERROR_UNSPECIFIED);
          status := Normal;
          completed := true;
        case Confirmed(t) =>
          luxTarget := Some(t);
          status := Normal;
          completed := true;
      }
    }

    /** `main`'s endless loop over a finite run of iterations; it stops early
        only where the configuration loop would still be waiting. */
    method Run(ticks: seq<Tick>) returns (done: nat)
      requires Valid()
      modifies this
      ensures Valid()
      ensures done <= |ticks|
      ensures 0 < done == |ticks| ==> status == Normal
      ensures done < |ticks| ==> status == Config
      ensures (Snap(), done) == Loop(old(Snap()), ticks)
    {
      done := 0;
      ghost var start := Snap();
      while done < |ticks|
        invariant Valid()
        invariant done <= |ticks|
        invariant var r := Loop(Snap(), ticks[done..]); Loop(start, ticks) == (r.0, r.1 + done)
      {
        assert ticks[done..][1..] == ticks[done + 1..];
        LoopUnfolds(Snap(), ticks[done..]);
        var completed := Iterate(ticks[done]);
        if !completed {
          return;
        }
        done := done + 1;
      }
    }
  }
}
