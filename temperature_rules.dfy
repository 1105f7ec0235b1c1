/** What the C++ and the Java temperature display share: the backlight
    ramp from blue (cold) to orange (warm), and the smallest and largest of
    a run of readings. The fade is modelled as the exact quotient; the
    programs compute it in single precision, which cannot change a
    component, because 255k/13 and 64k/13 (k = 1 .. 12) are never closer
    than 1/13 to an integer. */
module TemperatureRules {
  import opened Common

  const TEMPERATURE_RANGE_MIN_VAL: int := 18
  const TEMPERATURE_RANGE_MAX_VAL: int := 31

  /** The fade value: 0 at or below the range, 1 at or above it, linear in
      between. */
  function Fade(temperature: int): (fade: real)
    ensures 0.0 <= fade <= 1.0
  {
    if temperature <= TEMPERATURE_RANGE_MIN_VAL then 0.0
    else if temperature >= TEMPERATURE_RANGE_MAX_VAL then 1.0
    else (temperature - TEMPERATURE_RANGE_MIN_VAL) as real /
         (TEMPERATURE_RANGE_MAX_VAL - TEMPERATURE_RANGE_MIN_VAL) as real
  }

  /** The backlight colour: each component the truncated product of its
      full value and the fade (blue with the complement of the fade). */
  function Backlight(temperature: int): Color
  {
    var fade := Fade(temperature);
    Color(TruncReal(255.0 * fade), TruncReal(64.0 * fade), TruncReal(255.0 * (1.0 - fade)))
  }

  /** Flooring a quotient of naturals is integer division. */
  lemma FloorOfQuotient(n: nat, d: nat)
    requires d > 0
    ensures (n as real / d as real).Floor == n / d
  {
    var q := n / d;
    var r := n % d;
    assert n == q * d + r;
    assert n as real / d as real == q as real + r as real / d as real;
    assert 0.0 <= r as real / d as real < 1.0;
  }

  /** The colour in closed form: blue at or below 18 degrees, orange (255,
      64, 0) at or above 31, and integer quotients by 13 in between. */
  lemma BacklightClosedForm(t: int)
    ensures t <= TEMPERATURE_RANGE_MIN_VAL ==> Backlight(t) == Color(0, 0, 255)
    ensures t >= TEMPERATURE_RANGE_MAX_VAL ==> Backlight(t) == Color(255, 64, 0)
    ensures TEMPERATURE_RANGE_MIN_VAL < t < TEMPERATURE_RANGE_MAX_VAL ==>
              Backlight(t) == Color(255 * (t - 18) / 13, 64 * (t - 18) / 13, 255 * (31 - t) / 13)
  {
    if TEMPERATURE_RANGE_MIN_VAL < t < TEMPERATURE_RANGE_MAX_VAL {
      var k := t - 18;
      var fade := k as real / 13.0;
      assert Fade(t) == fade;
      assert 255.0 * fade == (255 * k) as real / 13 as real;
      assert 64.0 * fade == (64 * k) as real / 13 as real;
      assert 255.0 * (1.0 - fade) == (255 * (31 - t)) as real / 13 as real;
      FloorOfQuotient(255 * k, 13);
      FloorOfQuotient(64 * k, 13);
      FloorOfQuotient(255 * (31 - t), 13);
    }
  }

  /** Every component lies in 0..255 (green in 0..64), so the `uint8_t` and
      `short` stores keep them unchanged. */
  lemma BacklightInRange(t: int)
    ensures 0 <= Backlight(t).r <= 255 && 0 <= Backlight(t).g <= 64 && 0 <= Backlight(t).b <= 255
  {
    BacklightClosedForm(t);
  }

  /** Warmer readings never make the light less red or green, nor more blue. */
  lemma BacklightMonotone(t1: int, t2: int)
    requires t1 <= t2
    ensures Backlight(t1).r <= Backlight(t2).r
    ensures Backlight(t1).g <= Backlight(t2).g
    ensures Backlight(t1).b >= Backlight(t2).b
  {
    BacklightClosedForm(t1);
    BacklightClosedForm(t2);
    if 18 < t1 && t2 < 31 {
      DivMonotone(255 * (t1 - 18), 255 * (t2 - 18), 13);
      DivMonotone(64 * (t1 - 18), 64 * (t2 - 18), 13);
      DivMonotone(255 * (31 - t2), 255 * (31 - t1), 13);
    }
  }

  /** The smallest reading of a non-empty run. */
  function SeqMin(s: seq<int>): (m: int)
    requires s != []
    ensures m in s && forall i :: 0 <= i < |s| ==> m <= s[i]
  {
    if |s| == 1 then s[0]
    else var m := SeqMin(s[..|s| - 1]); if s[|s| - 1] < m then s[|s| - 1] else m
  }

  /** The largest reading of a non-empty run. */
  function SeqMax(s: seq<int>): (m: int)
    requires s != []
    ensures m in s && forall i :: 0 <= i < |s| ==> m >= s[i]
  {
    if |s| == 1 then s[0]
    else var m := SeqMax(s[..|s| - 1]); if s[|s| - 1] > m then s[|s| - 1] else m
  }
}
