/** What the C++ and the Java sunburn reminder share: the UV index estimated
    from the GUVA-S12D reading, the sunburn message, the backlight colour
    bands and the buzzer condition of one check of the warning conditions.
    The two ports differ only in how a float is written as text, which is
    an input of the model. */
module TanRules {
  import opened Common
  import opened Lcd

  const GUVA_RAW_TO_INTENSITY_COEFF: int := 307
  const UV_INTENSITY_TO_INDEX_COEFF: int := 200
  const UV_INDEX_THRESHOLD: int := 8
  const TEMPERATURE_THRESHOLD: int := 30
  /** The note played (UPM's DO) and for how long, in microseconds. */
  const BUZZER_DO: int := 3800
  const SOUND_DURATION: int := 1000000

  const LIME_GREEN: Color := Color(50, 205, 50)
  const YELLOW: Color := Color(255, 255, 0)
  const ORANGE: Color := Color(255, 165, 0)
  const RED: Color := Color(255, 0, 0)
  const VIOLET: Color := Color(238, 130, 238)

  /** What a check sends to a device. */
  datatype Effect =
    | Show(op: LcdOp)
    | SetBacklight(color: Color)
    | PlaySound(note: int, duration: int)
    | StopSound

  /** The UV index: the intensity (307 times the raw reading) divided by
      200, truncated to an int. */
  function UvIndex(rawUvIntensity: real): (uvIndex: int)
    ensures var intensity := rawUvIntensity * GUVA_RAW_TO_INTENSITY_COEFF as real;
            intensity >= 0.0 ==> 200 * uvIndex <= intensity.Floor < 200 * (uvIndex + 1)
  {
    TruncReal(rawUvIntensity * GUVA_RAW_TO_INTENSITY_COEFF as real / UV_INTENSITY_TO_INDEX_COEFF as real)
  }

  /** The sunburn time the second row warns of, in minutes, or None when it
      shows the UV readout instead. */
  function SunburnMinutes(uvIndex: int): Option<int>
  {
    if uvIndex <= 4 then None
    else if uvIndex > 4 && uvIndex <= 7 then Some(30)
    else if uvIndex > 7 && uvIndex <= 9 then Some(20)
    else Some(10)
  }

  /** The second LCD row: the readout "UV: <intensity>(<index>)" or the
      sunburn warning. */
  function SecondRow(uvIndex: int, intensityText: string): string
  {
    match SunburnMinutes(uvIndex)
    case None => "UV: " + intensityText + "(" + IntText(uvIndex) + ")    "
    case Some(m) => "Sunburn in " + IntText(m) + " m"
  }

  /** The backlight colour for a UV index. */
  function Background(uvIndex: int): Color
  {
    if uvIndex <= 2 then LIME_GREEN
    else if uvIndex > 2 && uvIndex <= 5 then YELLOW
    else if uvIndex > 5 && uvIndex <= 7 then ORANGE
    else if uvIndex > 7 && uvIndex <= 10 then RED
    else VIOLET
  }

  /** Whether the buzzer sounds. */
  predicate Buzzes(uvIndex: int, temperature: int)
  {
    uvIndex >= UV_INDEX_THRESHOLD || temperature > TEMPERATURE_THRESHOLD
  }

  /** Every index falls in exactly one message band: the readout up to 4,
      30 minutes for 5 to 7, 20 minutes for 8 and 9, 10 minutes from 10 on;
      the higher the index, the shorter the time. */
  lemma MessageBands(i: int, j: int)
    ensures SunburnMinutes(i) == None <==> i <= 4
    ensures SunburnMinutes(i) == Some(30) <==> 5 <= i <= 7
    ensures SunburnMinutes(i) == Some(20) <==> 8 <= i <= 9
    ensures SunburnMinutes(i) == Some(10) <==> i >= 10
    ensures 4 < i <= j ==> SunburnMinutes(j).value <= SunburnMinutes(i).value
  {
  }

  /** Every index has exactly one colour: green up to 2, yellow 3 to 5,
      orange 6 and 7, red 8 to 10, violet from 11 on. Index 10 satisfies
      both the red and the violet test and is red, the red test coming
      first. */
  lemma ColourBands(i: int)
    ensures Background(i) == LIME_GREEN <==> i <= 2
    ensures Background(i) == YELLOW <==> 3 <= i <= 5
    ensures Background(i) == ORANGE <==> 6 <= i <= 7
    ensures Background(i) == RED <==> 8 <= i <= 10
    ensures Background(i) == VIOLET <==> i >= 11
    ensures Background(10) == RED
  {
  }

  /** When the UV index alone sounds the buzzer (the temperature is not
      above 30), the backlight is red or violet and the second row is a
      sunburn warning of at most 20 minutes. */
  lemma UvAloneWarns(uvIndex: int, temperature: int)
    requires Buzzes(uvIndex, temperature) && temperature <= TEMPERATURE_THRESHOLD
    ensures Background(uvIndex) == RED || Background(uvIndex) == VIOLET
    ensures SunburnMinutes(uvIndex).Some? && SunburnMinutes(uvIndex).value <= 20
  {
  }

  /** What one check of the warning conditions sends to the devices: the
      temperature on the first row, the message on the second, the
      backlight colour, and the sound when the buzzer condition holds. */
  function CheckWarningConditions(rawUvIntensity: real, temperature: int, intensityText: string): (effects: seq<Effect>)
    ensures 5 <= |effects| <= 6
  {
    var uvIndex := UvIndex(rawUvIntensity);
    var shown := [Show(SetCursor(0, 0)), Show(Write("Temp: " + IntText(temperature) + "    ")),
                  Show(SetCursor(1, 0)), Show(Write(SecondRow(uvIndex, intensityText))),
                  SetBacklight(Background(uvIndex))];
    if Buzzes(uvIndex, temperature) then shown + [PlaySound(BUZZER_DO, SOUND_DURATION)] else shown
  }

  /** A check first writes the temperature on the first row and the
      message for the UV index on the second, then sets the backlight colour
      of that index. */
  lemma CheckShowsReadings(rawUvIntensity: real, temperature: int, intensityText: string)
    ensures var effects := CheckWarningConditions(rawUvIntensity, temperature, intensityText);
            effects[..4] == [Show(SetCursor(0, 0)), Show(Write("Temp: " + IntText(temperature) + "    ")),
                             Show(SetCursor(1, 0)), Show(Write(SecondRow(UvIndex(rawUvIntensity), intensityText)))] &&
            effects[4] == SetBacklight(Background(UvIndex(rawUvIntensity)))
  {
  }

  /** A check plays the sound exactly when the index is at least 8 or the
      temperature above 30, and never stops it. */
  lemma SoundIffThreshold(rawUvIntensity: real, temperature: int, intensityText: string)
    ensures var effects := CheckWarningConditions(rawUvIntensity, temperature, intensityText);
            (PlaySound(BUZZER_DO, SOUND_DURATION) in effects <==>
               UvIndex(rawUvIntensity) >= 8 || temperature > 30) &&
            StopSound !in effects
  {
    var uvIndex := UvIndex(rawUvIntensity);
    var shown := [Show(SetCursor(0, 0)), Show(Write("Temp: " + IntText(temperature) + "    ")),
                  Show(SetCursor(1, 0)), Show(Write(SecondRow(uvIndex, intensityText))),
                  SetBacklight(Background(uvIndex))];
    assert forall e :: e in shown ==> e.Show? || e.SetBacklight?;
  }

  /** The sensor values of one check: the raw UV reading, the temperature,
      and the UV intensity as the port writes a float. */
  datatype Sample = Sample(rawUvIntensity: real, temperature: int, intensityText: string)

  /** The effects of a run of checks, one after the other. */
  function Checks(samples: seq<Sample>): seq<Effect>
    decreases |samples|
  {
    if samples == [] then []
    else Checks(samples[..|samples| - 1]) +
         CheckWarningConditions(samples[|samples| - 1].rawUvIntensity, samples[|samples| - 1].temperature,
                                samples[|samples| - 1].intensityText)
  }

  /** The buzzer is stopped exactly once, before the first check: no check
      stops it. */
  lemma {:induction false} StopSoundOnlyAtStart(samples: seq<Sample>)
    ensures StopSound !in Checks(samples)
    decreases |samples|
  {
    if samples != [] {
      var s := samples[|samples| - 1];
      StopSoundOnlyAtStart(samples[..|samples| - 1]);
      SoundIffThreshold(s.rawUvIntensity, s.temperature, s.intensityText);
    }
  }

  /** Whether a check meets the buzzer condition. */
  predicate Alarming(s: Sample)
  {
    Buzzes(UvIndex(s.rawUvIntensity), s.temperature)
  }

  /** The sound plays in a run exactly when some check meets the buzzer
      condition. */
  lemma {:induction false} SoundInRunIff(samples: seq<Sample>)
    ensures PlaySound(BUZZER_DO, SOUND_DURATION) in Checks(samples) <==>
              exists i :: 0 <= i < |samples| && Alarming(samples[i])
    decreases |samples|
  {
    if samples != [] {
      var prefix := samples[..|samples| - 1];
      var s := samples[|samples| - 1];
      var c := CheckWarningConditions(s.rawUvIntensity, s.temperature, s.intensityText);
      assert Checks(samples) == Checks(prefix) + c;
      SoundInRunIff(prefix);
      SoundIffThreshold(s.rawUvIntensity, s.temperature, s.intensityText);
      assert PlaySound(BUZZER_DO, SOUND_DURATION) in c <==> Alarming(s);
      if exists i :: 0 <= i < |samples| && Alarming(samples[i]) {
        var i :| 0 <= i < |samples| && Alarming(samples[i]);
        if i < |prefix| {
          assert prefix[i] == samples[i];
        }
      }
      if exists i :: 0 <= i < |prefix| && Alarming(prefix[i]) {
        var i :| 0 <= i < |prefix| && Alarming(prefix[i]);
        assert samples[i] == prefix[i];
      }
    }
  }

  /** A run of checks grows by the effects of its last check. */
  lemma ChecksSnoc(samples: seq<Sample>, s: Sample)
    ensures Checks(samples + [s]) == Checks(samples) + CheckWarningConditions(s.rawUvIntensity, s.temperature, s.intensityText)
  {
    assert (samples + [s])[..|samples|] == samples;
  }

  /** The effects of a run after the stop of the buzzer grow by those of
      each further check. */
  lemma RunGrows(samples: seq<Sample>, s: Sample)
    ensures [StopSound] + Checks(samples + [s]) ==
            ([StopSound] + Checks(samples)) + CheckWarningConditions(s.rawUvIntensity, s.temperature, s.intensityText)
  {
    ChecksSnoc(samples, s);
    AppendAssoc([StopSound], Checks(samples), CheckWarningConditions(s.rawUvIntensity, s.temperature, s.intensityText));
  }

  /** A whole run as the programs send it: the buzzer is stopped first and
      never again, and it sounds exactly when some check meets the buzzer
      condition. */
  lemma RunEffects(samples: seq<Sample>)
    ensures var effects := [StopSound] + Checks(samples);
            effects[0] == StopSound && StopSound !in effects[1..] &&
            (PlaySound(BUZZER_DO, SOUND_DURATION) in effects <==>
               exists i :: 0 <= i < |samples| && Alarming(samples[i]))
  {
    var effects := [StopSound] + Checks(samples);
    assert effects[1..] == Checks(samples);
    StopSoundOnlyAtStart(samples);
    SoundInRunIff(samples);
    assert PlaySound(BUZZER_DO, SOUND_DURATION) in effects <==> PlaySound(BUZZER_DO, SOUND_DURATION) in Checks(samples);
  }
}
