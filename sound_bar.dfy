/** The sound level bar: on an UP2 the microphone and the LED bar are placed
    on the GrovePi+ pins; then each sampled window updates the microphone's
    threshold context and shows the running average, mapped from the sound
    range 50..200 onto the bar range 0..10, on the LED bar. The running
    average comes from UPM's `findThreshold`, whose code is not part of this
    model: it is an input of each window. */
module SoundBar {
  import opened Common

  const SOUND_MIN: int := 50
  const SOUND_MAX: int := 200
  const LED_BAR_MIN: int := 0
  const LED_BAR_MAX: int := 10
  const SAMPLE_WINDOW: int := 50
  const SOUND_RANGE: int := SOUND_MAX - SOUND_MIN
  const LED_BAR_RANGE: int := LED_BAR_MAX - LED_BAR_MIN

  /** The pins `main` picks for the microphone and the LED bar. */
  datatype Pins = Pins(microphonePin: int, ledBarDataPin: int, ledBarClockPin: int)

  /** How the board switch in `main` ends: with pins (UP2 with the
      GrovePi+), with the pins unassigned (any other board), or returning -1
      (UP2 without the shield). */
  datatype PinChoice = Chosen(pins: Pins) | Unassigned | Exit(code: int)

  function ChoosePins(platform: Platform, usingGrovePiShield: bool): (c: PinChoice)
    ensures c.Chosen? <==> platform == IntelUp2 && usingGrovePiShield
    ensures c.Exit? <==> platform == IntelUp2 && !usingGrovePiShield
    ensures c.Exit? ==> c.code == -1
    ensures c.Chosen? ==> c.pins.microphonePin == 0 + GROVE_PI_OFFSET &&
                          c.pins.ledBarDataPin == 2 + GROVE_PI_OFFSET &&
                          c.pins.ledBarClockPin == 3 + GROVE_PI_OFFSET
  {
    if platform == IntelUp2 then
      if usingGrovePiShield then Chosen(Pins(0 + 512, 2 + 512, 3 + 512)) else Exit(-1)
    else Unassigned
  }

  /** The bar level for a running average: the C integer expression
      `(avg - 50) * 10 / 150 + 0`, stored into the `uint8_t barLevel`. */
  function BarLevel(runningAverage: int): (level: int)
    ensures 0 <= level < 256
  {
    Uint8(TruncDiv((runningAverage - SOUND_MIN) * LED_BAR_RANGE, SOUND_RANGE) + LED_BAR_MIN)
  }

  /** Over the sound range the level covers the bar range: 50 gives 0, 200
      gives 10, and every average in between a level from 0 to 10. */
  lemma BarLevelInRange(avg: int)
    requires SOUND_MIN <= avg <= SOUND_MAX
    ensures LED_BAR_MIN <= BarLevel(avg) <= LED_BAR_MAX
    ensures BarLevel(SOUND_MIN) == 0 && BarLevel(SOUND_MAX) == 10
    ensures BarLevel(avg) == (avg - SOUND_MIN) * 10 / 150
  {
  }

  /** A louder average never shows a lower level over the sound range. */
  lemma BarLevelMonotone(a: int, b: int)
    requires SOUND_MIN <= a <= b <= SOUND_MAX
    ensures BarLevel(a) <= BarLevel(b)
  {
    BarLevelInRange(a);
    BarLevelInRange(b);
    DivMonotone((a - SOUND_MIN) * 10, (b - SOUND_MIN) * 10, 150);
  }

  /** Outside the range the level is not clamped: from 36 to 49 the quotient
      truncates to 0; from 35 down to -3000 it is negative and wraps around
      in the `uint8_t` to a level above 10; from 215 to 3889 it exceeds 10
      as well. Further out the byte wraps again, to 0 at 3890 and -3790. */
  lemma BarLevelOutsideRange(avg: int)
    ensures 36 <= avg < SOUND_MIN ==> BarLevel(avg) == 0
    ensures -3000 <= avg <= 35 ==>
              BarLevel(avg) == 256 + TruncDiv((avg - SOUND_MIN) * 10, 150) && BarLevel(avg) > LED_BAR_MAX
    ensures 215 <= avg < 3890 ==> BarLevel(avg) > LED_BAR_MAX
    ensures BarLevel(3890) == 0 && BarLevel(-3790) == 0
  {
    var q := TruncDiv((avg - SOUND_MIN) * 10, 150);
    if -3000 <= avg <= 35 {
      assert -204 <= q <= -1;
    }
  }

  /** The threshold context of the microphone. */
  datatype ThresholdContext = ThresholdContext(averageReading: int, runningAverage: int, averagedOver: int)

  /** One sampled window: the number of samples read, and the context
      `findThreshold` leaves when it is called. */
  datatype Window = Window(len: int, found: ThresholdContext)

  /** The bar level after a run of windows: a window with samples shows its
      running average; an empty one leaves the level as it was. */
  function LevelAfter(level: int, windows: seq<Window>): int
    decreases |windows|
  {
    if windows == [] then level
    else LevelAfter(if windows[0].len != 0 then BarLevel(windows[0].found.runningAverage) else level,
                    windows[1..])
  }

  /** The threshold context after a run of windows: a window with samples
      leaves the context `findThreshold` found; an empty one leaves it as it
      was. */
  function CtxAfter(ctx: ThresholdContext, windows: seq<Window>): ThresholdContext
    decreases |windows|
  {
    if windows == [] then ctx
    else CtxAfter(if windows[0].len != 0 then windows[0].found else ctx, windows[1..])
  }

  /** The levels a run of windows sends to the LED bar, one per window with
      samples, in order. */
  function BarsAfter(windows: seq<Window>): (bars: seq<int>)
    ensures |bars| <= |windows|
    ensures forall k :: 0 <= k < |bars| ==> 0 <= bars[k] < 256
    decreases |windows|
  {
    if windows == [] then []
    else (if windows[0].len != 0 then [BarLevel(windows[0].found.runningAverage)] else []) +
         BarsAfter(windows[1..])
  }

  /** The bar level after a run is the last level sent to the bar, or the
      level it had when the run sent none. */
  lemma {:induction false} LevelIsLastBar(level: int, windows: seq<Window>)
    ensures var bars := BarsAfter(windows);
            LevelAfter(level, windows) == if bars == [] then level else bars[|bars| - 1]
    decreases |windows|
  {
    if windows != [] {
      var next := if windows[0].len != 0 then BarLevel(windows[0].found.runningAverage) else level;
      LevelIsLastBar(next, windows[1..]);
    }
  }

  /** A run of windows without samples leaves the bar level and the context
      as they were. */
  lemma {:induction false} LevelAfterUnsampled(level: int, ctx: ThresholdContext, windows: seq<Window>)
    requires forall i :: 0 <= i < |windows| ==> windows[i].len == 0
    ensures LevelAfter(level, windows) == level
    ensures CtxAfter(ctx, windows) == ctx
    decreases |windows|
  {
    if windows != [] {
      assert forall i :: 0 <= i < |windows[1..]| ==> windows[1..][i] == windows[i + 1];
      LevelAfterUnsampled(level, ctx, windows[1..]);
    }
  }

  /** The bar level after a run is the level of the last window with
      samples, and the context is the one that window found. */
  lemma {:induction false} LevelAfterLastSampled(level: int, ctx: ThresholdContext, windows: seq<Window>, i: nat)
    requires i < |windows| && windows[i].len != 0
    requires forall j :: i < j < |windows| ==> windows[j].len == 0
    ensures LevelAfter(level, windows) == BarLevel(windows[i].found.runningAverage)
    ensures CtxAfter(ctx, windows) == windows[i].found
    decreases |windows|
  {
    var next := if windows[0].len != 0 then BarLevel(windows[0].found.runningAverage) else level;
    var nextCtx := if windows[0].len != 0 then windows[0].found else ctx;
    assert forall j :: 0 <= j < |windows[1..]| ==> windows[1..][j] == windows[j + 1];
    if i == 0 {
      LevelAfterUnsampled(next, nextCtx, windows[1..]);
    } else {
      LevelAfterLastSampled(next, nextCtx, windows[1..], i - 1);
    }
  }

  /** `main`'s state from the context initialisation on. */
  class SoundLevelBar {
    var ctx: ThresholdContext
    var barLevel: int
    /** The levels sent to the LED bar. */
    var barLog: seq<int>

    /** The level is a `uint8_t`, and the bar shows the last level set. */
    ghost predicate Valid()
      reads this
    {
      0 <= barLevel < 256 && (barLog != [] ==> barLog[|barLog| - 1] == barLevel)
    }

    /** `barLevel` starts at 0, and the context at averageReading 0,
        runningAverage 0, averagedOver 10. */
    constructor ()
      ensures Valid()
      ensures barLevel == 0 && barLog == []
      ensures ctx == ThresholdContext(0, 0, 10)
    {
      barLevel := 0;
      barLog := [];
      ctx := ThresholdContext(0, 0, 10);
    }

    /** One pass of the forever loop: with samples, update the context and
        show its running average on the bar; with none, do nothing. */
    method Pass(w: Window)
      requires Valid()
      modifies this
      ensures Valid()
      ensures w.len == 0 ==> ctx == old(ctx) && barLevel == old(barLevel) && barLog == old(barLog)
      ensures w.len != 0 ==> ctx == w.found && barLevel == BarLevel(w.found.runningAverage) &&
                             barLog == old(barLog) + [barLevel]
    {
      if w.len != 0 {
        ctx := w.found;
        barLevel := Uint8(TruncDiv((ctx.runningAverage - SOUND_MIN) * LED_BAR_RANGE, SOUND_RANGE) + LED_BAR_MIN);
        barLog := barLog + [barLevel];
      }
    }

    /** The forever loop over a finite run of windows. */
    method Run(windows: seq<Window>)
      requires Valid()
      modifies this
      ensures Valid()
      ensures barLevel == LevelAfter(old(barLevel), windows)
      ensures ctx == CtxAfter(old(ctx), windows)
      ensures barLog == old(barLog) + BarsAfter(windows)
    {
      for i := 0 to |windows|
        invariant Valid()
        invariant LevelAfter(old(barLevel), windows) == LevelAfter(barLevel, windows[i..])
        invariant CtxAfter(old(ctx), windows) == CtxAfter(ctx, windows[i..])
        invariant old(barLog) + BarsAfter(windows) == barLog + BarsAfter(windows[i..])
      {
        assert windows[i..][1..] == windows[i + 1..];
        AppendAssoc(barLog, if windows[i].len != 0 then [BarLevel(windows[i].found.runningAverage)] else [],
                    BarsAfter(windows[i + 1..]));
        Pass(windows[i]);
      }
      assert barLog + [] == barLog;
    }
  }
}
