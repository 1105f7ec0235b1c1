/** What the C++ and the Java rover share: the compass strip shown on the
    LCD, the commands sent to the Grove I2C motor driver and the backlight
    colours. */
module RoverRules {
  import opened Common

  /** The compass strip; a window of 11 characters starting at the heading
      index (heading / 10) is shown, with the heading itself at its centre. */
  const HEADING: string := "--|--N--|--|--E--|--|--S--|--|--W--|--|--N--|--"
  const WINDOW: nat := 11
  /** The largest index whose window fits in the strip. */
  const MAX_HEADING_INDEX: nat := 36

  /** A command to the two-channel motor driver. */
  datatype MotorCommand =
    | SetDirections(left: Direction, right: Direction)
    | SetSpeeds(leftSpeed: int, rightSpeed: int)

  /** Speeds (0, 0): both motors stop. */
  const Stop: MotorCommand := SetSpeeds(0, 0)

  /** The window shown for a heading index. */
  function HeadingWindow(index: int): (w: string)
    requires 0 <= index <= MAX_HEADING_INDEX
    ensures |w| == WINDOW
    ensures forall k :: 0 <= k < WINDOW ==> w[k] == HEADING[index + k]
  {
    HEADING[index..index + WINDOW]
  }

  /** Every index from 0 to 36, and no other, has its whole window inside
      the strip. */
  lemma WindowFitsExactly(index: int)
    ensures 0 <= index && index + WINDOW <= |HEADING| <==> 0 <= index <= MAX_HEADING_INDEX
  {
  }

  /** The centre of the window for a heading of 0, 90, 180, 270 and 360
      degrees is the matching compass point. */
  lemma CardinalAtCentre()
    ensures HeadingWindow(0)[5] == 'N' && HeadingWindow(9)[5] == 'E'
    ensures HeadingWindow(18)[5] == 'S' && HeadingWindow(27)[5] == 'W'
    ensures HeadingWindow(36)[5] == 'N'
  {
    assert HEADING[5] == 'N' && HEADING[14] == 'E' && HEADING[23] == 'S';
    assert HEADING[32] == 'W' && HEADING[41] == 'N';
  }

  /** The heading-index expression `hdg / 10` of both programs: C++ and Java
      truncate toward zero, so headings from -9 to -1 also give index 0. */
  function HeadingIndex(hdg: int): (index: int)
    ensures -9 <= hdg <= 369 <==> 0 <= index <= MAX_HEADING_INDEX
    ensures hdg >= 0 ==> index * 10 <= hdg < index * 10 + 10
  {
    TruncDiv(hdg, 10)
  }

  /** The number of readings that are true. */
  function CountTrue(readings: seq<bool>): nat
  {
    if readings == [] then 0
    else CountTrue(readings[..|readings| - 1]) + (if readings[|readings| - 1] then 1 else 0)
  }
}
