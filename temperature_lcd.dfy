/** The temperature display (C++ and Java ports alike): each update reads the
    sensor and the button, keeps the smallest and largest readings since the
    last press of the button, and sets the LCD backlight from the reading.
    The two ports differ only in how they start: the C++ port asks MRAA for
    the board, the Java port uses fixed pins. */
module TemperatureLcd {
  import opened Common
  import opened TemperatureRules
  import opened Lcd

  /** The pins `initPlatform` assigns; None for a pin it leaves unassigned
      (the program then goes on with an uninitialised variable). */
  datatype Pins = Pins(dInPin: Option<int>, dOutPin: Option<int>, aPin: Option<int>, i2cPort: Option<int>)

  /** The C++ `initPlatform`: on an UP2 with the GrovePi+ shield, button D4,
      LED D3, sensor A0 (all offset by 512) and I2C bus 0; on an UP2 without
      the shield only the bus is set and -1 is returned; on any other board
      nothing is assigned and 0 is returned. */
  function InitPlatform(platform: Platform, usingGrovePiShield: bool): (r: (int, Pins))
    ensures r.0 == -1 <==> platform == IntelUp2 && !usingGrovePiShield
    ensures r.0 == 0 || r.0 == -1
    ensures r.1.dInPin.Some? <==> platform == IntelUp2 && usingGrovePiShield
    ensures r.1.dInPin.Some? ==>
              r.1 == Pins(Some(4 + GROVE_PI_OFFSET), Some(3 + GROVE_PI_OFFSET), Some(0 + GROVE_PI_OFFSET), Some(0))
    ensures r.1.i2cPort.Some? <==> platform == IntelUp2
  {
    if platform == IntelUp2 then
      if usingGrovePiShield then (0, Pins(Some(4 + 512), Some(3 + 512), Some(0 + 512), Some(0)))
      else (-1, Pins(None, None, None, Some(0)))
    else (0, Pins(None, None, None, None))
  }

  /** The pins of the Java port's `main`: button D4, LED D3, sensor A0 and
      I2C bus 0, with no GrovePi+ offset on any board. */
  const JAVA_PINS: Pins := Pins(Some(4), Some(3), Some(0), Some(0))

  /** Only on an UP2 with the shield does the C++ port give every device a
      pin, and there each pin is the Java port's pin plus 512. */
  lemma CppPinsAreJavaPinsOnGrovePi(platform: Platform, usingGrovePiShield: bool)
    ensures var pins := InitPlatform(platform, usingGrovePiShield).1;
            (pins.dInPin.Some? && pins.dOutPin.Some? && pins.aPin.Some? && pins.i2cPort.Some?) <==>
              platform == IntelUp2 && usingGrovePiShield
    ensures var pins := InitPlatform(platform, usingGrovePiShield).1;
            pins.dInPin.Some? ==>
              pins.dInPin.value == JAVA_PINS.dInPin.value + GROVE_PI_OFFSET &&
              pins.dOutPin.value == JAVA_PINS.dOutPin.value + GROVE_PI_OFFSET &&
              pins.aPin.value == JAVA_PINS.aPin.value + GROVE_PI_OFFSET &&
              pins.i2cPort == JAVA_PINS.i2cPort
  {
  }

  /** One reading: the sensor's temperature and whether the button reads 1. */
  datatype Reading = Reading(temperature: int, pressed: bool)

  /** The readings since the last press of the button (from the press on),
      or all of them when it was never pressed. */
  function SinceLastPress(readings: seq<Reading>): (w: seq<int>)
    ensures |w| <= |readings|
    ensures readings != [] ==> w != []
    ensures forall i :: 0 <= i < |w| ==> w[i] == readings[|readings| - |w| + i].temperature
  {
    if readings == [] then []
    else if readings[|readings| - 1].pressed then [readings[|readings| - 1].temperature]
    else SinceLastPress(readings[..|readings| - 1]) + [readings[|readings| - 1].temperature]
  }

  /** The smaller of two temperatures, and the larger. */
  function Min(a: int, b: int): int { if a < b then a else b }
  function Max(a: int, b: int): int { if a > b then a else b }

  /** The two statics after a run of readings, step by step as
      `temperature_update` moves them: INT_MAX and INT_MIN at first, both
      the reading after a press, otherwise each moved only if the reading
      passes it. */
  function Statics(readings: seq<Reading>): (s: (int, int))
    ensures readings != [] && readings[|readings| - 1].pressed ==>
              s.0 == s.1 == readings[|readings| - 1].temperature
  {
    if readings == [] then (INT_MAX, INT_MIN)
    else
      var last := readings[|readings| - 1];
      var prev := Statics(readings[..|readings| - 1]);
      if last.pressed then (last.temperature, last.temperature)
      else (Min(last.temperature, prev.0), Max(last.temperature, prev.1))
  }

  /** After at least one reading of an `int` sensor, the statics are the
      smallest and the largest temperature since the last press of the
      button (or since the start, if it was never pressed). */
  lemma {:induction false} StaticsAreWindowExtremes(readings: seq<Reading>)
    requires readings != []
    requires forall i :: 0 <= i < |readings| ==> IsInt32(readings[i].temperature)
    ensures Statics(readings) == (SeqMin(SinceLastPress(readings)), SeqMax(SinceLastPress(readings)))
  {
    var last := readings[|readings| - 1];
    var prefix := readings[..|readings| - 1];
    if !last.pressed {
      if prefix == [] {
        assert SinceLastPress(readings) == [last.temperature];
      } else {
        StaticsAreWindowExtremes(prefix);
        var w := SinceLastPress(prefix);
        assert SinceLastPress(readings) == w + [last.temperature];
        MinMaxSnoc(w, last.temperature);
      }
    }
  }

  /** The two rows an update writes: the reading on the first, the two
      statics on the second. */
  function Rows(temperature: int, minTemperature: int, maxTemperature: int): seq<LcdOp>
  {
    [SetCursor(0, 0), Write("Temp " + IntText(temperature) + "    "),
     SetCursor(1, 0), Write("Min " + IntText(minTemperature) + " Max " + IntText(maxTemperature) + "    ")]
  }

  /** The backlight colours of a run of updates, one per reading. */
  function Colors(readings: seq<Reading>): (c: seq<Color>)
    ensures |c| == |readings|
    ensures forall i :: 0 <= i < |readings| ==> c[i] == Backlight(readings[i].temperature)
  {
    if readings == [] then []
    else Colors(readings[..|readings| - 1]) + [Backlight(readings[|readings| - 1].temperature)]
  }

  /** One more reading moves the statics as an update does and adds its
      colour. */
  lemma HistorySnoc(readings: seq<Reading>, r: Reading)
    ensures Statics(readings + [r]) ==
            if r.pressed then (r.temperature, r.temperature)
            else (Min(r.temperature, Statics(readings).0), Max(r.temperature, Statics(readings).1))
    ensures Colors(readings + [r]) == Colors(readings) + [Backlight(r.temperature)]
  {
    assert (readings + [r])[..|readings|] == readings;
  }

  /** The two statics of `temperature_update`, what it has written to the
      LCD and the colours it has sent to the backlight. */
  class TemperatureDisplay {
    var minTemperature: int
    var maxTemperature: int
    var lcdLog: seq<LcdOp>
    var backlightLog: seq<Color>
    /** The readings taken so far. */
    ghost var readings: seq<Reading>

    /** The statics and the backlight colours are those of the readings
        taken so far. */
    ghost predicate Valid()
      reads this
    {
      (minTemperature, maxTemperature) == Statics(readings) && backlightLog == Colors(readings)
    }

    constructor ()
      ensures Valid() && readings == [] && backlightLog == [] && lcdLog == []
      ensures minTemperature == INT_MAX && maxTemperature == INT_MIN
    {
      minTemperature, maxTemperature := INT_MAX, INT_MIN;
      backlightLog, lcdLog := [], [];
      readings := [];
    }

    /** One call of `temperature_update`: a press resets both statics to the
        reading, otherwise each moves only if the reading passes it; the
        reading and the new statics are written on the two rows, and the
        backlight takes the colour of the reading. */
    method Update(temperature: int, pressed: bool) returns (color: Color)
      requires Valid()
      modifies this`minTemperature, this`maxTemperature, this`lcdLog, this`backlightLog, this`readings
      ensures Valid()
      ensures readings == old(readings) + [Reading(temperature, pressed)]
      ensures minTemperature <= temperature <= maxTemperature
      ensures pressed ==> minTemperature == temperature == maxTemperature
      ensures !pressed ==> minTemperature <= old(minTemperature) && maxTemperature >= old(maxTemperature)
      ensures lcdLog == old(lcdLog) + Rows(temperature, minTemperature, maxTemperature)
      ensures color == Backlight(temperature) && backlightLog == old(backlightLog) + [color]
    {
      var low, high := minTemperature, maxTemperature;
      if pressed {
        low := temperature;
        high := temperature;
      } else {
        if temperature < low {
          low := temperature;
        }
        if temperature > high {
          high := temperature;
        }
      }
      HistorySnoc(readings, Reading(temperature, pressed));
      color := Backlight(temperature);
      minTemperature, maxTemperature := low, high;
      lcdLog := lcdLog + Rows(temperature, low, high);
      backlightLog := backlightLog + [color];
      readings := readings + [Reading(temperature, pressed)];
    }

    /** The forever loop of `main`, over a finite run of readings from the
        start: the backlight shows the colour of every reading in turn. */
    method Run(run: seq<Reading>)
      requires Valid() && readings == []
      modifies this`minTemperature, this`maxTemperature, this`lcdLog, this`backlightLog, this`readings
      ensures Valid() && readings == run
      ensures (minTemperature, maxTemperature) == Statics(run) && backlightLog == Colors(run)
    {
      for i := 0 to |run|
        invariant Valid() && readings == run[..i]
      {
        assert run[..i] + [run[i]] == run[..i + 1];
        var _ := Update(run[i].temperature, run[i].pressed);
      }
      assert run[..|run|] == run;
    }
  }

  lemma MinMaxSnoc(w: seq<int>, t: int)
    requires w != []
    ensures SeqMin(w + [t]) == Min(t, SeqMin(w))
    ensures SeqMax(w + [t]) == Max(t, SeqMax(w))
  {
    assert (w + [t])[..|w + [t]| - 1] == w;
  }

  /** After an update the second row shows the smallest and the largest
      reading since the last press of the button. */
  lemma SecondRowShowsWindowExtremes(readings: seq<Reading>)
    requires readings != []
    requires forall i :: 0 <= i < |readings| ==> IsInt32(readings[i].temperature)
    ensures var w := SinceLastPress(readings);
            Rows(readings[|readings| - 1].temperature, Statics(readings).0, Statics(readings).1)[3]
            == Write("Min " + IntText(SeqMin(w)) + " Max " + IntText(SeqMax(w)) + "    ")
  {
    StaticsAreWindowExtremes(readings);
  }

  /** The statics bracket every reading since the last press: the minimum
      never exceeds the maximum once a reading has been taken. */
  lemma StaticsBracketWindow(readings: seq<Reading>)
    requires readings != []
    requires forall i :: 0 <= i < |readings| ==> IsInt32(readings[i].temperature)
    ensures Statics(readings).0 <= Statics(readings).1
    ensures forall i :: 0 <= i < |SinceLastPress(readings)| ==>
              Statics(readings).0 <= SinceLastPress(readings)[i] <= Statics(readings).1
  {
    StaticsAreWindowExtremes(readings);
    var w := SinceLastPress(readings);
    assert SeqMin(w) <= w[0] <= SeqMax(w);
  }
}
