/** The Java automatic curtain. Its static fields (stepper position, pin
    numbers) and `main`'s status and lux target are fields of one object.
    Unlike the C++ port, the configuration loop has no error return and
    `main` starts with a target of 0. */
module CurtainJava {
  import opened Common
  import opened CurtainRules

  /** The class constant that selects the GrovePi+ pin offsets. */
  const USING_GROVE_PI_SHIELD: bool := true

  /** One pass of `setupLuxTarget`: the rotary angle and the button. */
  datatype SetupPass = SetupPass(angle: real, button: int)

  /** What `setupLuxTarget` returns: the target of the first pass on which
      the button reads 1; None when the passes run out first (the program
      would still be looping). */
  function SetupResult(passes: seq<SetupPass>): Option<int>
  {
    if passes == [] then None
    else if passes[0].button == 1 then Some(LuxOfAngle(passes[0].angle))
    else SetupResult(passes[1..])
  }

  /** `setupLuxTarget`: recompute the target on every pass and leave once the
      button reads 1, returning the target of that last pass. */
  method SetupLuxTarget(passes: seq<SetupPass>) returns (result: Option<int>)
    ensures result == SetupResult(passes)
  {
    var luxTarget := 0;
    var confirmed := false;
    var i := 0;
    while !confirmed && i < |passes|
      invariant 0 <= i <= |passes|
      invariant !confirmed ==> SetupResult(passes) == SetupResult(passes[i..])
      invariant confirmed ==> SetupResult(passes) == Some(luxTarget)
      decreases |passes| - i
    {
      assert passes[i..][1..] == passes[i + 1..];
      luxTarget := LuxOfAngle(passes[i].angle);
      if passes[i].button == 1 {
        confirmed := true;
      }
      i := i + 1;
    }
    result := if confirmed then Some(luxTarget) else None;
  }

  /** The returned target is the one computed on a pass whose button read 1,
      with no earlier pass reading 1; for angles in 0..300 it lies in 0..60. */
  lemma {:induction false} SetupTargetFromPressedPass(passes: seq<SetupPass>, t: int)
    requires SetupResult(passes) == Some(t)
    ensures exists k :: 0 <= k < |passes| && passes[k].button == 1 &&
              t == LuxOfAngle(passes[k].angle) &&
              forall j :: 0 <= j < k ==> passes[j].button != 1
    ensures (forall i :: 0 <= i < |passes| ==> 0.0 <= passes[i].angle <= 300.0) ==> 0 <= t <= 60
  {
    if passes[0].button != 1 {
      SetupTargetFromPressedPass(passes[1..], t);
      var k :| 0 <= k < |passes[1..]| && passes[1..][k].button == 1 &&
                t == LuxOfAngle(passes[1..][k].angle) &&
                forall j :: 0 <= j < k ==> passes[1..][j].button != 1;
      assert passes[k + 1] == passes[1..][k];
      assert forall j :: 0 <= j < k + 1 ==> passes[j].button != 1 by {
        forall j | 0 <= j < k + 1 ensures passes[j].button != 1 {
          if j > 0 { assert passes[j] == passes[1..][j - 1]; }
        }
      }
    }
  }

  /** One iteration's readings: the button, the light level, the passes of
      the configuration loop. */
  datatype Tick = Tick(button: int, luxCurrent: int, passes: seq<SetupPass>)

  /** What `main`'s loop works on: the stepper position, the status, the
      lux target and the commands sent to the stepper so far. */
  datatype Snapshot = Snapshot(step: int, status: State, luxTarget: int, motorLog: seq<StepperCommand>)

  /** One iteration of `main`'s loop, and whether it completed. A button
      reading of 1 forces CONFIG; NORMAL runs the light check against the
      target; CONFIG stores the target `setupLuxTarget` returns and
      switches to NORMAL. */
  function Next(s: Snapshot, tick: Tick): (r: (Snapshot, bool))
    requires ValidPosition(s.step)
    ensures ValidPosition(r.0.step)
    ensures r.1 <==> r.0.status == Normal
    ensures !r.1 ==> r.0.status == Config && r.0.luxTarget == s.luxTarget
    ensures tick.button == 1 || s.status == Config ==>
              r.0.step == s.step && r.0.motorLog == s.motorLog &&
              (r.1 <==> SetupResult(tick.passes).Some?) &&
              (r.1 ==> r.0.luxTarget == SetupResult(tick.passes).value)
    ensures s.status == Normal && tick.button != 1 ==>
              var a := LuxDecision(tick.luxCurrent, s.luxTarget);
              r.1 && r.0.luxTarget == s.luxTarget &&
              r.0.step == Apply(s.step, a) && r.0.motorLog == s.motorLog + Commands(s.step, a)
    ensures |s.motorLog| <= |r.0.motorLog| && r.0.motorLog[..|s.motorLog|] == s.motorLog
  {
    if s.status == Normal && tick.button != 1 then
      var a := LuxDecision(tick.luxCurrent, s.luxTarget);
      (s.(step := Apply(s.step, a), motorLog := s.motorLog + Commands(s.step, a)), true)
    else
      match SetupResult(tick.passes)
      case None => (s.(status := Config), false)
      case Some(t) => (s.(status := Normal, luxTarget := t), true)
  }

  /** `main`'s loop over a finite run of iterations: the final state and the
      number of iterations completed before one was left waiting for the
      button. */
  function Loop(s: Snapshot, ticks: seq<Tick>): (r: (Snapshot, nat))
    requires ValidPosition(s.step)
    ensures ValidPosition(r.0.step) && r.1 <= |ticks|
    ensures 0 < r.1 == |ticks| ==> r.0.status == Normal
    ensures r.1 < |ticks| ==> r.0.status == Config
    ensures |s.motorLog| <= |r.0.motorLog| && r.0.motorLog[..|s.motorLog|] == s.motorLog
    decreases |ticks|
  {
    if ticks == [] then (s, 0)
    else
      var n := Next(s, ticks[0]);
      if !n.1 then (n.0, 0)
      else
        var rest := Loop(n.0, ticks[1..]);
        (rest.0, rest.1 + 1)
  }

  /** One step of `Loop`. */
  lemma LoopUnfolds(s: Snapshot, ticks: seq<Tick>)
    requires ValidPosition(s.step) && ticks != []
    ensures var n := Next(s, ticks[0]);
            Loop(s, ticks) == if n.1 then (Loop(n.0, ticks[1..]).0, Loop(n.0, ticks[1..]).1 + 1) else (n.0, 0)
  {
  }

  /** The light readings of a run of iterations. */
  function LuxReadings(ticks: seq<Tick>): seq<int>
  {
    seq(|ticks|, i requires 0 <= i < |ticks| => ticks[i].luxCurrent)
  }

  /** In NORMAL with the button never pressed, every iteration completes,
      the target stays, and the curtain ends where the dead-band decisions
      on the readings take it. */
  lemma {:induction false} NormalLoopReplaysDecisions(s: Snapshot, ticks: seq<Tick>)
    requires ValidPosition(s.step) && s.status == Normal
    requires forall i :: 0 <= i < |ticks| ==> ticks[i].button != 1
    ensures Loop(s, ticks).1 == |ticks|
    ensures Loop(s, ticks).0.luxTarget == s.luxTarget && Loop(s, ticks).0.status == Normal
    ensures Loop(s, ticks).0.step == Replay(s.step, Decisions(LuxReadings(ticks), s.luxTarget))
    decreases |ticks|
  {
    var ds := Decisions(LuxReadings(ticks), s.luxTarget);
    if ticks != [] {
      var n := Next(s, ticks[0]);
      assert LuxReadings(ticks)[1..] == LuxReadings(ticks[1..]);
      assert ds[1..] == Decisions(LuxReadings(ticks[1..]), s.luxTarget);
      NormalLoopReplaysDecisions(n.0, ticks[1..]);
    }
  }

  class AutomaticCurtain {
    var step: int
    var motorLog: seq<StepperCommand>
    var aPin1: int
    var aPin2: int
    var dPin4: int
    var i2cPort: int
    var status: State
    var luxTarget: int
    /** Whether `setupLuxTarget` has returned at least once. */
    ghost var configured: bool

    /** The position stays in range, and NORMAL is reached only through a
        completed configuration, so `checkLux` never uses the initial 0. */
    ghost predicate Valid()
      reads this
    {
      ValidPosition(step) && (status == Normal ==> configured)
    }

    /** The fields `main`'s loop works on. */
    function Snap(): Snapshot
      reads this
    {
      Snapshot(step, status, luxTarget, motorLog)
    }

    /** Class initialisation followed by the start of `main`: static fields
        at their initial values, `initPlatform` called once, status CONFIG. */
    constructor (platform: Platform)
      ensures Valid()
      ensures step == 0 && motorLog == [] && status == Config && luxTarget == 0 && !configured
      ensures i2cPort == 0
      ensures platform == IntelUp2 ==>
                aPin1 == 1 + GROVE_PI_OFFSET && aPin2 == 2 + GROVE_PI_OFFSET && dPin4 == 4 + GROVE_PI_OFFSET
      ensures platform != IntelUp2 ==> aPin1 == 1 && aPin2 == 2 && dPin4 == 4
    {
      step := 0;
      motorLog := [];
      aPin1, aPin2, dPin4, i2cPort := 1, 2, 4, 0;
      status := Config;
      luxTarget := 0;
      configured := false;
      new;
      InitPlatform(platform);
    }

    /** `initPlatform`: on an UP2 with the shield constant set, add the
        GrovePi+ offset to the two analog pins and the button pin. */
    method InitPlatform(platform: Platform)
      modifies this`aPin1, this`aPin2, this`dPin4
      ensures platform == IntelUp2 && USING_GROVE_PI_SHIELD ==>
                aPin1 == old(aPin1) + GROVE_PI_OFFSET && aPin2 == old(aPin2) + GROVE_PI_OFFSET &&
                dPin4 == old(dPin4) + GROVE_PI_OFFSET
      ensures !(platform == IntelUp2 && USING_GROVE_PI_SHIELD) ==>
                aPin1 == old(aPin1) && aPin2 == old(aPin2) && dPin4 == old(dPin4)
    {
      if platform == IntelUp2 {
        if USING_GROVE_PI_SHIELD {
          aPin1 := aPin1 + GROVE_PI_OFFSET;
          aPin2 := aPin2 + GROVE_PI_OFFSET;
          dPin4 := dPin4 + GROVE_PI_OFFSET;
        }
      }
    }

    /** `drawCurtain`. */
    method DrawCurtain() returns (moved: bool)
      requires Valid()
      modifies this`step, this`motorLog
      ensures Valid()
      ensures moved <==> old(step) != STEPPER_MOTOR_MAX_STEPS
      ensures step == Drawn(old(step))
      ensures motorLog == old(motorLog) + (if moved then DrawCommands else [])
    {
      if step != STEPPER_MOTOR_MAX_STEPS {
        motorLog := motorLog + DrawCommands;
        step := step + STEPPER_MOTOR_ACTIVATION_STEPS;
        return true;
      } else {
        return false;
      }
    }

    /** `openCurtain`. */
    method OpenCurtain() returns (moved: bool)
      requires Valid()
      modifies this`step, this`motorLog
      ensures Valid()
      ensures moved <==> old(step) != 0
      ensures step == Opened(old(step))
      ensures motorLog == old(motorLog) + (if moved then OpenCommands else [])
    {
      if step != 0 {
        motorLog := motorLog + OpenCommands;
        step := step - STEPPER_MOTOR_ACTIVATION_STEPS;
        return true;
      } else {
        return false;
      }
    }

    /** `checkLux`: draw above the dead band, open below it, nothing inside. */
    method CheckLux(luxCurrent: int, target: int) returns (action: LuxAction)
      requires Valid()
      modifies this`step, this`motorLog
      ensures Valid()
      ensures action == LuxDecision(luxCurrent, target)
      ensures step == Apply(old(step), action)
      ensures motorLog == old(motorLog) + Commands(old(step), action)
    {
      action := LuxDecision(luxCurrent, target);
      if luxCurrent > target + THRESHOLD {
        var _ := DrawCurtain();
      } else if luxCurrent < target - THRESHOLD {
        var _ := OpenCurtain();
      }
    }

    /** One iteration of `main`'s loop; `completed` is false when the
        configuration passes ran out before the button was pressed. */
    method Iterate(tick: Tick) returns (completed: bool)
      requires Valid()
      modifies this`step, this`motorLog, this`status, this`luxTarget, this`configured
      ensures Valid()
      ensures (Snap(), completed) == Next(old(Snap()), tick)
    {
      if tick.button == 1 {
        status := Config;
      }
      if status == Normal {
        var _ := CheckLux(tick.luxCurrent, luxTarget);
        completed := true;
      } else {
        var result := SetupLuxTarget(tick.passes);
        if result.Some? {
          luxTarget := result.value;
          configured := true;
          status := Normal;
          completed := true;
        } else {
          completed := false;
        }
      }
    }

    /** `main`'s endless loop over a finite prefix of iterations; `done` is
        the number of iterations completed before one waited for the button
        longer than its passes reach. */
    method Run(ticks: seq<Tick>) returns (done: nat)
      requires Valid()
      modifies this`step, this`motorLog, this`status, this`luxTarget, this`configured
      ensures Valid()
      ensures (Snap(), done) == Loop(old(Snap()), ticks)
    {
      done := 0;
      ghost var start := Snap();
      while done < |ticks|
        invariant Valid()
        invariant done <= |ticks|
        invariant var r := Loop(Snap(), ticks[done..]); Loop(start, ticks) == (r.0, r.1 + done)
      {
        assert ticks[done..][1..] == ticks[done + 1..];
        LoopUnfolds(Snap(), ticks[done..]);
        var completed := Iterate(ticks[done]);
        if !completed {
          return;
        }
        done := done + 1;
      }
    }
  }
}
