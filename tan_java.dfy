/** The Java sunburn reminder: it accepts any board, moves the two sensors'
    and the buzzer's pins onto the GrovePi+ on an UP2, stops the buzzer once
    and then checks the warning conditions forever. The static pins and the
    effects sent to the devices are the fields of one object. */
module TanJava {
  import opened Common
  import opened TanRules
  import Lcd

  /** The class constant that selects the GrovePi+ pin offsets. */
  const USING_GROVE_PI_SHIELD: bool := true

  class TanResponsibly {
    var aPinIn1: int
    var aPinIn2: int
    var dPinOut: int
    var i2cPort: int
    var effects: seq<Effect>
    /** The samples checked so far. */
    ghost var checked: seq<Sample>

    /** The buzzer was stopped before anything else was sent, and then each
        check sent its effects in turn. */
    ghost predicate Valid()
      reads this
    {
      effects == [StopSound] + Checks(checked)
    }

    /** Class initialisation and `main` up to the loop: the static pins,
        `initPlatform`, then `stopSound` on the buzzer. */
    constructor (platform: Platform)
      ensures Valid() && effects == [StopSound] && checked == []
      ensures i2cPort == 0
      ensures platform == IntelUp2 ==>
                aPinIn1 == 1 + GROVE_PI_OFFSET && aPinIn2 == 2 + GROVE_PI_OFFSET && dPinOut == 3 + GROVE_PI_OFFSET
      ensures platform != IntelUp2 ==> aPinIn1 == 1 && aPinIn2 == 2 && dPinOut == 3
    {
      aPinIn1, aPinIn2, dPinOut, i2cPort := 1, 2, 3, 0;
      effects := [];
      checked := [];
      new;
      InitPlatform(platform);
      effects := effects + [StopSound];
    }

    /** `initPlatform`: on an UP2 with the shield constant set, add the
        GrovePi+ offset once to both sensor pins and the buzzer pin. */
    method InitPlatform(platform: Platform)
      modifies this`aPinIn1, this`aPinIn2, this`dPinOut
      ensures platform == IntelUp2 && USING_GROVE_PI_SHIELD ==>
                aPinIn1 == old(aPinIn1) + GROVE_PI_OFFSET && aPinIn2 == old(aPinIn2) + GROVE_PI_OFFSET &&
                dPinOut == old(dPinOut) + GROVE_PI_OFFSET
      ensures !(platform == IntelUp2 && USING_GROVE_PI_SHIELD) ==>
                aPinIn1 == old(aPinIn1) && aPinIn2 == old(aPinIn2) && dPinOut == old(dPinOut)
    {
      if platform == IntelUp2 {
        if USING_GROVE_PI_SHIELD {
          aPinIn1 := aPinIn1 + GROVE_PI_OFFSET;
          aPinIn2 := aPinIn2 + GROVE_PI_OFFSET;
          dPinOut := dPinOut + GROVE_PI_OFFSET;
        }
      }
    }

    /** One call of `checkWarningConditions`. */
    method Check(s: Sample)
      requires Valid()
      modifies this`effects, this`checked
      ensures Valid() && checked == old(checked) + [s]
      ensures effects == old(effects) + CheckWarningConditions(s.rawUvIntensity, s.temperature, s.intensityText)
    {
      var uvIndex := UvIndex(s.rawUvIntensity);
      var row1 := "Temp: " + Lcd.IntText(s.temperature) + "    ";
      var row2 := SecondRow(uvIndex, s.intensityText);
      var sent := [Show(Lcd.SetCursor(0, 0)), Show(Lcd.Write(row1)), Show(Lcd.SetCursor(1, 0)), Show(Lcd.Write(row2)),
                   SetBacklight(Background(uvIndex))];
      if uvIndex >= UV_INDEX_THRESHOLD || s.temperature > TEMPERATURE_THRESHOLD {
        sent := sent + [PlaySound(BUZZER_DO, SOUND_DURATION)];
      }
      assert sent == CheckWarningConditions(s.rawUvIntensity, s.temperature, s.intensityText);
      RunGrows(checked, s);
      effects := effects + sent;
      checked := checked + [s];
    }

    /** The forever loop over a finite run of checks: the effects of each
        check in turn follow the stop of the buzzer (`RunEffects` says what
        that run sends). */
    method Run(samples: seq<Sample>)
      requires Valid() && checked == []
      modifies this`effects, this`checked
      ensures Valid() && checked == samples
      ensures effects == [StopSound] + Checks(samples)
    {
      for k := 0 to |samples|
        invariant Valid() && checked == samples[..k]
      {
        assert samples[..k] + [samples[k]] == samples[..k + 1];
        Check(samples[k]);
      }
      assert samples[..|samples|] == samples;
    }
  }
}
