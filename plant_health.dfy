/** The plant health monitor: `main` accepts only Galileo and Edison boards
    and then checks the plant every 15 seconds. A check waters dry soil
    (relay on for ten seconds, then off), turns the backlight red when the
    temperature or the light is out of range and green otherwise, and ends
    by showing the temperature and the light on the LCD.
    `monitor_plant_conditions` keeps no state: a check is a function of its
    readings to what it sends to each device. */
module PlantHealth {
  import opened Common
  import opened Lcd

  const GUVA_RAW_TO_INTENSITY_COEFF: int := 307
  const MOISTURE_MIN_THRESHOLD: int := 300
  const TEMP_MIN_THRESHOLD: int := 18
  const TEMP_MAX_THRESHOLD: int := 30
  const UV_MIN_THRESHOLD: int := 50
  const PUMP_DURATION: int := 10

  const LIME_GREEN: Color := Color(50, 205, 50)
  const RED: Color := Color(255, 0, 0)
  const LIGHT_STEEL_BLUE: Color := Color(176, 196, 222)

  /** The readings of one check: soil moisture, temperature, the raw UV
      reading, and the light intensity as `<<` writes a float. */
  datatype Sample = Sample(moisture: int, temperature: int, rawUvIntensity: real, intensityText: string)

  /** What one check sends to each device, in order per device: the LCD
      operations, the backlight colours, the relay switchings (true for on)
      and the seconds it sleeps with the pump running. */
  datatype Outputs = Outputs(lcd: seq<LcdOp>, colors: seq<Color>, relay: seq<bool>, pumpSeconds: int)

  /** The light intensity, 307 times the raw UV reading. */
  function Intensity(rawUvIntensity: real): real
  {
    rawUvIntensity * GUVA_RAW_TO_INTENSITY_COEFF as real
  }

  /** Whether a reading is out of range and the backlight turns red. */
  predicate Alarm(s: Sample)
  {
    s.temperature < TEMP_MIN_THRESHOLD || s.temperature > TEMP_MAX_THRESHOLD ||
    Intensity(s.rawUvIntensity) < UV_MIN_THRESHOLD as real
  }

  /** The rows shown at the end of every check. */
  function TemperatureRow(s: Sample): string
  {
    "Temperature: " + IntText(s.temperature) + "  "
  }

  function LightRow(s: Sample): string
  {
    "Light: " + s.intensityText + "   "
  }

  /** `monitor_plant_conditions` for one set of readings. */
  function MonitorPlantConditions(s: Sample): (out: Outputs)
    ensures out.colors != [] && out.lcd != []
  {
    var dry := s.moisture < MOISTURE_MIN_THRESHOLD;
    var watering := Outputs([SetCursor(0, 0), Write("Dry soil!       "), SetCursor(1, 0), Write("Watering...     ")],
                            [LIGHT_STEEL_BLUE], [true, false], PUMP_DURATION);
    var before := if dry then watering else Outputs([], [], [], 0);
    var color := if Alarm(s) then RED else LIME_GREEN;
    before.(lcd := before.lcd + [SetCursor(0, 0), Write(TemperatureRow(s)), SetCursor(1, 0), Write(LightRow(s))],
            colors := before.colors + [color])
  }

  /** The pump runs (relay on, ten seconds, relay off) exactly when the soil
      reads below 300, and the relay is always left off. */
  lemma PumpIffDry(s: Sample)
    ensures var out := MonitorPlantConditions(s);
            (out.relay != [] <==> s.moisture < MOISTURE_MIN_THRESHOLD) &&
            (out.relay != [] ==> out.relay == [true, false] && out.pumpSeconds == PUMP_DURATION) &&
            (out.relay == [] ==> out.pumpSeconds == 0)
  {
  }

  /** The backlight ends red exactly when the temperature is below 18 or
      above 30 or the intensity below 50, and green otherwise; 18 and 30
      degrees count as in range. The steel blue of dry soil is always
      replaced. */
  lemma FinalBacklight(s: Sample)
    ensures var out := MonitorPlantConditions(s);
            var last := out.colors[|out.colors| - 1];
            (last == RED <==> s.temperature < 18 || s.temperature > 30 || Intensity(s.rawUvIntensity) < 50.0) &&
            (last == LIME_GREEN <==> !(s.temperature < 18 || s.temperature > 30 || Intensity(s.rawUvIntensity) < 50.0)) &&
            last != LIGHT_STEEL_BLUE &&
            (s.moisture < MOISTURE_MIN_THRESHOLD ==> out.colors[0] == LIGHT_STEEL_BLUE)
  {
  }

  /** Whatever the screen showed, a check leaves it with the temperature row
      at the head of the top row and the light row at the head of the bottom
      row; on dry soil "Dry soil!" is gone from the top row. */
  lemma FinalRows(screen: Screen, s: Sample)
    ensures var t := Replay(screen, MonitorPlantConditions(s).lcd);
            |t.top| >= |TemperatureRow(s)| && t.top[..|TemperatureRow(s)|] == TemperatureRow(s) &&
            |t.bottom| >= |LightRow(s)| && t.bottom[..|LightRow(s)|] == LightRow(s)
    ensures s.moisture < MOISTURE_MIN_THRESHOLD ==>
              Replay(screen, MonitorPlantConditions(s).lcd).top[..9] != "Dry soil!"
  {
    var rows := [SetCursor(0, 0), Write(TemperatureRow(s)), SetCursor(1, 0), Write(LightRow(s))];
    var lcd := MonitorPlantConditions(s).lcd;
    var before := lcd[..|lcd| - 4];
    assert lcd == before + rows;
    ReplayAppend(screen, before, rows);
    var mid := Replay(screen, before);
    ReplayTwo(mid, rows);
    var m1 := Apply(Apply(mid, rows[0]), rows[1]);
    ReplayTwo(m1, rows[2..]);
    assert rows[2..][2..] == [];
    var t := Apply(Apply(m1, rows[2]), rows[3]);
    assert Replay(screen, lcd) == t;
    assert t.top == m1.top;
    var row := TemperatureRow(s);
    assert |row| >= 9 && row[..9] == "Temperatu";
    assert t.top[..|row|] == row;
    assert t.top[..9] == t.top[..|row|][..9];
  }

  /** `main` over a finite run of checks: None when it exits on an
      unsupported board before creating a sensor, otherwise the outputs of
      each check in turn. */
  function Program(platform: Platform, samples: seq<Sample>): (outs: Option<seq<Outputs>>)
    ensures outs.None? <==> !GalileoOrEdison(platform)
    ensures outs.Some? ==> |outs.value| == |samples|
    ensures outs.Some? ==> forall i :: 0 <= i < |samples| ==> outs.value[i] == MonitorPlantConditions(samples[i])
  {
    if platform != IntelGalileoGen1 && platform != IntelGalileoGen2 && platform != IntelEdisonFabC then None
    else Some(seq(|samples|, i requires 0 <= i < |samples| => MonitorPlantConditions(samples[i])))
  }
}
