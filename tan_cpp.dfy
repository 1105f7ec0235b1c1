/** The C++ sunburn reminder: `main` accepts only Galileo and Edison boards,
    stops the buzzer once and then checks the warning conditions forever.
    `check_warning_conditions` keeps no state, so a run of the program is
    the sequence of device effects of its checks. */
module TanCpp {
  import opened Common
  import opened TanRules

  /** `main` over a finite run of checks: None when it exits on an
      unsupported board before creating a device; otherwise the buzzer is
      stopped and then each check runs. */
  function Program(platform: Platform, samples: seq<Sample>): (effects: Option<seq<Effect>>)
    ensures effects.None? <==> !GalileoOrEdison(platform)
    ensures effects.Some? ==> effects.value != [] && effects.value[0] == StopSound
  {
    if platform != IntelGalileoGen1 && platform != IntelGalileoGen2 && platform != IntelEdisonFabC then None
    else Some([StopSound] + Checks(samples))
  }
}
