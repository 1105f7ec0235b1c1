/** Definitions shared by the demo programs: the boards they recognise, the
    optional-value wrapper, and the integer conversions of C, C++ and Java
    that differ from Dafny's own arithmetic. */
module Common {

  /** The boards the programs ask MRAA about. Every board the programs do not
      name is `OtherBoard`. */
  datatype Platform =
    | IntelUp2
    | IntelGalileoGen1
    | IntelGalileoGen2
    | IntelEdisonFabC
    | OtherBoard

  datatype Option<+T> = None | Some(value: T)

  /** Direction of a ULN200XA stepper or a Grove I2C motor driver channel. */
  datatype Direction = CW | CCW

  /** What a program sends to the ULN200XA stepper driver. */
  datatype StepperCommand = SetDirection(dir: Direction) | Steps(count: int) | Release

  /** The boards the C++ ports of the Galileo and Edison samples accept;
      on any other board their `main` returns ERROR_INVALID_PLATFORM before
      creating a device. */
  predicate GalileoOrEdison(platform: Platform)
  {
    platform == IntelGalileoGen1 || platform == IntelGalileoGen2 || platform == IntelEdisonFabC
  }

  /** An LCD backlight colour (red, green, blue) as a program passes it. */
  datatype Color = Color(r: int, g: int, b: int)

  /** Offset that the GrovePi+ sub-platform adds to every pin number on an UP2. */
  const GROVE_PI_OFFSET: int := 512

  /** Integer division as C, C++ and Java perform it: the quotient is
      truncated toward zero, so the remainder has the sign of the dividend
      (Dafny's own `/` floors instead). */
  function TruncDiv(a: int, b: int): (q: int)
    requires b > 0
    ensures -b < a - q * b < b
    ensures a >= 0 ==> a - q * b >= 0
    ensures a <= 0 ==> a - q * b <= 0
  {
    if a >= 0 then a / b else -((-a) / b)
  }

  /** Storing an int into a `uint8_t`: the value is taken modulo 256. */
  function Uint8(x: int): (r: int)
    ensures 0 <= r < 256
    ensures (x - r) % 256 == 0
  {
    x % 256
  }

  /** The C `~` of a `uint8_t` value stored back into a `uint8_t`. */
  function Uint8Complement(x: int): (r: int)
    requires 0 <= x < 256
    ensures 0 <= r < 256 && r + x == 255
  {
    Uint8(-x - 1)
  }

  /** Java's `~` on an int (two's complement), as used on a `short`. */
  function JavaComplement(x: int): (r: int)
    ensures r + x == -1
  {
    -x - 1
  }

  const INT_MIN: int := -0x8000_0000
  const INT_MAX: int := 0x7FFF_FFFF

  /** A value of the C `int` / Java `int` type. */
  predicate IsInt32(x: int)
  {
    INT_MIN <= x <= INT_MAX
  }

  /** A float-to-int cast (C++ implicit conversion, Java `(int)`): the value
      is truncated toward zero. */
  function TruncReal(x: real): (n: int)
    ensures x >= 0.0 ==> 0 <= n && n as real <= x < n as real + 1.0
    ensures x <= 0.0 ==> n <= 0 && n as real - 1.0 < x <= n as real
  {
    if x >= 0.0 then x.Floor else -((-x).Floor)
  }

  /** A Java `String` object: its characters, and whether it is the interned
      instance of a compile-time constant. Java's `==` on strings compares
      objects: two strings are the same object only when both are interned
      and spell the same text, and every string built at run time (read from
      a device or a scanner, or a piece of a split) is a fresh object. */
  datatype JavaString = JavaString(chars: string, interned: bool)

  /** A string literal of a Java program. */
  function Literal(s: string): JavaString
  {
    JavaString(s, true)
  }

  /** Java's `==` on two strings: the same object. */
  predicate SameObject(a: JavaString, b: JavaString)
  {
    a.interned && b.interned && a.chars == b.chars
  }

  /** Division by a positive constant keeps the order of naturals. */
  lemma DivMonotone(x: nat, y: nat, d: nat)
    requires x <= y && d > 0
    ensures x / d <= y / d
    decreases y
  {
    if x >= d {
      DivMonotone(x - d, y - d, d);
      DivStep(x, d);
      DivStep(y, d);
    } else {
      assert x / d == 0;
    }
  }

  /** Taking the divisor off a natural takes one off its quotient. */
  lemma DivStep(x: nat, d: nat)
    requires x >= d > 0
    ensures x / d == (x - d) / d + 1
  {
    var q, r := (x - d) / d, (x - d) % d;
    assert x == (q + 1) * d + r;
    DivUnique(x, d, q + 1, r);
  }

  /** Euclidean division has one quotient: the `q` of `x == q * d + r`
      with `0 <= r < d`. */
  lemma DivUnique(x: int, d: int, q: int, r: int)
    requires d > 0 && 0 <= r < d && x == q * d + r
    ensures x / d == q
  {
    var q0, r0 := x / d, x % d;
    assert (q0 - q) * d == r - r0;
    MultipleInsideDivisor(q0 - q, d);
  }

  /** The only multiple of `d` strictly between `-d` and `d` is 0. */
  lemma MultipleInsideDivisor(a: int, d: int)
    requires d > 0 && -d < a * d < d
    ensures a == 0
  {
  }

  /** Concatenation regroups freely. */
  lemma AppendAssoc<T>(a: seq<T>, b: seq<T>, c: seq<T>)
    ensures (a + b) + c == a + (b + c)
  {
  }
}
