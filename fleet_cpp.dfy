/** The C++ vehicle fleet tracker: the `getline` splitter, the line
    assembler of `parseGpsData` that picks one NMEA 0183 sentence out of a
    serial buffer, the guards of `convertRawCoords` and the tailgate latch.
    A buffer byte b is the character with code b; the boards' `char` is
    signed, so the byte 0xFF compares equal to EOF (-1). */
module FleetCpp {
  import opened Common
  import opened FleetText

  /** The byte that equals EOF once read into a signed `char`. */
  const EOF_BYTE: char := 0xFF as char

  /** What `split` returns: the items successive `getline` calls extract.
      The last delimiter of the string ends the last item without starting
      a new one, and an empty string has no items. */
  function GetlineSplit(s: string, d: char): (r: seq<string>)
    ensures s == [] <==> r == []
    ensures forall i :: 0 <= i < |r| ==> d !in r[i]
  {
    if s == [] then []
    else if s[|s| - 1] == d then Pieces(s[..|s| - 1], d)
    else Pieces(s, d)
  }

  /** `split`: the `getline` loop, one character at a time. An item is
      pushed at each delimiter, and at the end of the string when it is not
      empty. */
  method Split(str: string, delimiter: char) returns (elements: seq<string>)
    ensures elements == GetlineSplit(str, delimiter)
  {
    elements := [];
    var item := "";
    for i := 0 to |str|
      invariant elements + [item] == Pieces(str[..i], delimiter)
      invariant i == 0 ==> item == []
      invariant i > 0 ==> (item == [] <==> str[i - 1] == delimiter)
    {
      assert str[..i + 1][..i] == str[..i];
      if str[i] == delimiter {
        elements := elements + [item];
        item := "";
      } else {
        item := item + [str[i]];
      }
    }
    assert str[..|str|] == str;
    if item != [] {
      elements := elements + [item];
    } else if str != [] {
      assert elements + [""] == Pieces(str[..|str| - 1], delimiter) + [""];
      assert (elements + [""])[..|elements|] == elements;
    } else {
      assert |elements + [item]| == 1;
    }
  }

  /** Joining the items gives back the string, less one trailing delimiter. */
  lemma SplitJoin(s: string, d: char)
    ensures s != [] && s[|s| - 1] == d ==> Join(GetlineSplit(s, d), d) == s[..|s| - 1]
    ensures s == [] || s[|s| - 1] != d ==> Join(GetlineSplit(s, d), d) == s
  {
    if s != [] && s[|s| - 1] == d {
      JoinPieces(s[..|s| - 1], d);
    } else if s != [] {
      JoinPieces(s, d);
    }
  }

  /** Splitting a join of delimiter-free items whose last item is not empty
      gives the items back. */
  lemma SplitOfJoin(ps: seq<string>, d: char)
    requires |ps| >= 1 && ps[|ps| - 1] != []
    requires forall i :: 0 <= i < |ps| ==> d !in ps[i]
    ensures GetlineSplit(Join(ps, d), d) == ps
  {
    PiecesJoin(ps, d);
    var s := Join(ps, d);
    var last := ps[|ps| - 1];
    if |ps| > 1 {
      assert s == Join(ps[..|ps| - 1], d) + [d] + last;
    }
    assert s[|s| - 1] == last[|last| - 1];
  }

  /** What one call of `parseGpsData` does. */
  datatype GpsOutcome =
    | NoLine                      // no complete non-empty line before the end or EOF
    | OtherSentence               // the first line is not a GGA sentence
    | GgaReport(fields: GgaFields) // one cloud write built from fields 2 to 5
    | UndefinedIndex              // a GGA line with fewer than 6 fields
    | ConversionThrows            // a GGA coordinate `std::stoi` rejects: the program ends

  /** The outcome of a GGA line with at least six fields: the latitude is
      converted, then the longitude; an exception from either ends the
      program before the cloud write. */
  function GgaOutcome(fields: GgaFields): (o: GpsOutcome)
    ensures o == GgaReport(fields) <==>
              !ConvertRawCoords(fields.latitude, fields.latitudeDir).Throws? &&
              !ConvertRawCoords(fields.longitude, fields.longitudeDir).Throws?
    ensures o != GgaReport(fields) ==> o == ConversionThrows
  {
    if ConvertRawCoords(fields.latitude, fields.latitudeDir).Throws? then ConversionThrows
    else if ConvertRawCoords(fields.longitude, fields.longitudeDir).Throws? then ConversionThrows
    else GgaReport(fields)
  }

  /** The handling of the first complete non-empty line. */
  function ParseLine(line: string): (o: GpsOutcome)
    requires line != []
    ensures o != NoLine
  {
    var f := GetlineSplit(line, ',');
    if f[0] != "$GPGGA" then OtherSentence
    else if |f| < 6 then UndefinedIndex
    else GgaOutcome(GgaFields(f[2], f[3], f[4], f[5]))
  }

  /** A comma-joined GGA sentence with at least six fields, none holding a
      comma and the last one not empty, is handled with fields 2 to 5:
      latitude, its hemisphere, longitude, its hemisphere. */
  lemma GgaSentenceReported(fields: seq<string>)
    requires |fields| >= 6 && fields[0] == "$GPGGA" && fields[|fields| - 1] != []
    requires forall i :: 0 <= i < |fields| ==> ',' !in fields[i]
    ensures Join(fields, ',') != []
    ensures ParseLine(Join(fields, ',')) == GgaOutcome(GgaFields(fields[2], fields[3], fields[4], fields[5]))
  {
    SplitOfJoin(fields, ',');
  }

  /** The loop of `parseGpsData` from some byte on, with `line` assembled
      so far. */
  function ScanFrom(buf: string, line: string): GpsOutcome
    decreases |buf|
  {
    if buf == [] then NoLine
    else if buf[0] == EOF_BYTE then NoLine
    else if buf[0] == '\n' then
      if line == [] then ScanFrom(buf[1..], line) else ParseLine(line)
    else ScanFrom(buf[1..], line + [buf[0]])
  }

  /** `parseGpsData` looks at the first `result` bytes only. */
  function ParseGps(nmeaBuffer: string, result: int): GpsOutcome
    requires result <= |nmeaBuffer|
  {
    ScanFrom(nmeaBuffer[..if result < 0 then 0 else result], "")
  }

  /** `parseGpsData`: assemble characters into a line; stop at EOF; skip
      empty lines; handle the first non-empty line and stop. */
  method ParseGpsData(nmeaBuffer: string, result: int) returns (outcome: GpsOutcome)
    requires result <= |nmeaBuffer|
    ensures outcome == ParseGps(nmeaBuffer, result)
  {
    var n := if result < 0 then 0 else result;
    var buf := nmeaBuffer[..n];
    var strGpsLine := "";
    outcome := NoLine;
    for i := 0 to n
      invariant ScanFrom(buf, "") == ScanFrom(buf[i..], strGpsLine)
      invariant outcome == NoLine
    {
      assert buf[i..][1..] == buf[i + 1..];
      var c := nmeaBuffer[i];
      if c == EOF_BYTE || c == '\n' {
        if c == EOF_BYTE {
          break;
        }
        if strGpsLine == [] {
          continue;
        }
        var vecStr := Split(strGpsLine, ',');
        if vecStr[0] == "$GPGGA" {
          if |vecStr| < 6 {
            outcome := UndefinedIndex;
          } else {
            var fields := GgaFields(vecStr[2], vecStr[3], vecStr[4], vecStr[5]);
            if ConvertRawCoords(fields.latitude, fields.latitudeDir).Throws? ||
               ConvertRawCoords(fields.longitude, fields.longitudeDir).Throws? {
              outcome := ConversionThrows;
            } else {
              outcome := GgaReport(fields);
            }
          }
        } else {
          outcome := OtherSentence;
        }
        strGpsLine := [];
        break;
      } else {
        strGpsLine := strGpsLine + [c];
      }
    }
  }

  /** Whatever follows an EOF byte is never looked at. */
  lemma {:induction false} EofEndsScan(pre: string, post: string, line: string)
    ensures ScanFrom(pre + [EOF_BYTE] + post, line) == ScanFrom(pre, line)
    decreases |pre|
  {
    var s := pre + [EOF_BYTE] + post;
    if pre != [] {
      assert s[1..] == pre[1..] + [EOF_BYTE] + post;
      EofEndsScan(pre[1..], post, if pre[0] == '\n' then line else line + [pre[0]]);
    }
  }

  /** A fragment that no newline ends is never parsed. */
  lemma {:induction false} UnterminatedLineIgnored(buf: string, line: string)
    requires '\n' !in buf
    ensures ScanFrom(buf, line) == NoLine
    decreases |buf|
  {
    if buf != [] && buf[0] != EOF_BYTE {
      UnterminatedLineIgnored(buf[1..], line + [buf[0]]);
    }
  }

  /** The rest of a line, then a newline: that line is the one handled. */
  lemma {:induction false} LineCompleted(rest: string, tail: string, line: string)
    requires line + rest != []
    requires '\n' !in rest && EOF_BYTE !in rest
    ensures ScanFrom(rest + ['\n'] + tail, line) == ParseLine(line + rest)
    decreases |rest|
  {
    var s := rest + ['\n'] + tail;
    if rest == [] {
      assert s[0] == '\n';
      assert line + rest == line;
    } else {
      assert s[1..] == rest[1..] + ['\n'] + tail;
      assert (line + [rest[0]]) + rest[1..] == line + rest;
      LineCompleted(rest[1..], tail, line + [rest[0]]);
    }
  }

  /** Leading empty lines are skipped and the first non-empty line is the
      only one handled, whatever follows it. */
  lemma {:induction false} FirstLineHandled(blank: nat, line: string, tail: string)
    requires line != [] && '\n' !in line && EOF_BYTE !in line
    ensures ScanFrom(seq(blank, _ => '\n') + line + ['\n'] + tail, "") == ParseLine(line)
    decreases blank
  {
    var s := seq(blank, _ => '\n') + line + ['\n'] + tail;
    if blank == 0 {
      assert s == line + ['\n'] + tail;
      LineCompleted(line, tail, "");
      assert "" + line == line;
    } else {
      assert s[0] == '\n';
      assert s[1..] == seq(blank - 1, _ => '\n') + line + ['\n'] + tail;
      FirstLineHandled(blank - 1, line, tail);
    }
  }

  /** The characters C's `isspace` accepts. */
  predicate IsSpace(c: char)
  {
    c == ' ' || c == '\t' || c == '\n' || c == 0x0B as char || c == 0x0C as char || c == '\r'
  }

  predicate IsDigit(c: char)
  {
    '0' <= c <= '9'
  }

  /** The text left once leading white space is skipped. */
  function SkipSpace(s: string): (t: string)
    ensures |t| <= |s| && t == s[|s| - |t|..]
    ensures t != [] ==> !IsSpace(t[0])
    ensures forall i :: 0 <= i < |s| - |t| ==> IsSpace(s[i])
  {
    if s != [] && IsSpace(s[0]) then SkipSpace(s[1..]) else s
  }

  /** The longest prefix of decimal digits. */
  function LeadingDigits(s: string): (ds: string)
    ensures |ds| <= |s| && ds == s[..|ds|]
    ensures forall i :: 0 <= i < |ds| ==> IsDigit(ds[i])
    ensures |ds| < |s| ==> !IsDigit(s[|ds|])
  {
    if s != [] && IsDigit(s[0]) then [s[0]] + LeadingDigits(s[1..]) else []
  }

  function Pow10(n: nat): (p: nat)
    ensures p >= 1
  {
    if n == 0 then 1 else 10 * Pow10(n - 1)
  }

  /** The decimal value of a run of digits. */
  function DigitsValue(ds: string): (v: nat)
    requires forall i :: 0 <= i < |ds| ==> IsDigit(ds[i])
    ensures v < Pow10(|ds|)
  {
    if ds == [] then 0
    else 10 * DigitsValue(ds[..|ds| - 1]) + DigitValue(ds[|ds| - 1])
  }

  function DigitValue(c: char): (d: nat)
    requires IsDigit(c)
    ensures d < 10
  {
    c as int - '0' as int
  }

  /** `std::stoi` in base 10: skip white space, take an optional sign and
      the digits that follow. No digit throws `invalid_argument`; a value
      outside the 32-bit `int` throws `out_of_range`; both are `None`. */
  function StoiValue(s: string): (r: Option<int>)
    ensures r.Some? ==> -0x8000_0000 <= r.value < 0x8000_0000
  {
    var t := SkipSpace(s);
    var signed := t != [] && (t[0] == '-' || t[0] == '+');
    var ds := LeadingDigits(if signed then t[1..] else t);
    if ds == [] then None
    else
      var v: int := if signed && t[0] == '-' then -(DigitsValue(ds) as int) else DigitsValue(ds);
      if -0x8000_0000 <= v < 0x8000_0000 then Some(v) else None
  }

  /** Text without any digit makes `std::stoi` throw. */
  lemma NoDigitThrows(s: string)
    requires forall i :: 0 <= i < |s| ==> !IsDigit(s[i])
    ensures StoiValue(s).None?
  {
    var t := SkipSpace(s);
    if t != [] && (t[0] == '-' || t[0] == '+') {
      assert t[1..] == s[|s| - |t| + 1..];
      assert t[1..] != [] ==> t[1..][0] == s[|s| - |t| + 1];
    } else {
      assert t != [] ==> t[0] == s[|s| - |t|];
    }
  }

  /** A coordinate that starts with at most nine digits converts: the
      integer part of an NMEA latitude or longitude never throws. */
  lemma ShortNumberConverts(s: string)
    requires s != [] && IsDigit(s[0]) && |LeadingDigits(s)| <= 9
    ensures StoiValue(s) == Some(DigitsValue(LeadingDigits(s)))
  {
    assert !IsSpace(s[0]);
    assert SkipSpace(s) == s;
    var ds := LeadingDigits(s);
    assert ds != [];
    Pow10Grows(|ds|, 9);
    Pow10Nine();
    assert DigitsValue(ds) < 1_000_000_000;
  }

  lemma Pow10Nine()
    ensures Pow10(9) == 1_000_000_000
  {
  }

  lemma {:induction false} Pow10Grows(m: nat, n: nat)
    requires m <= n
    ensures Pow10(m) <= Pow10(n)
    decreases n
  {
    if m < n {
      Pow10Grows(m, n - 1);
    }
  }

  /** `convertRawCoords`'s guards and its first conversion: empty text
      gives 0 at once; text `std::stoi` rejects throws; otherwise the value
      is negated exactly for the southern and western hemispheres. */
  function ConvertRawCoords(rawCoord: string, cardinalDirection: string): (c: Coord)
    ensures c == Zero <==> rawCoord == []
    ensures c == Throws <==> rawCoord != [] && StoiValue(rawCoord).None?
    ensures c.Scaled? ==> (c.negative <==> cardinalDirection == "S" || cardinalDirection == "W")
  {
    if rawCoord == [] then Zero
    else if StoiValue(rawCoord).None? then Throws
    else Scaled(cardinalDirection == "S" || cardinalDirection == "W")
  }

  /** A latitude or longitude field that is not empty but holds no digit
      ends the program, whatever its hemisphere field says. */
  lemma UndigitedCoordinateThrows(rawCoord: string, cardinalDirection: string)
    requires rawCoord != []
    requires forall i :: 0 <= i < |rawCoord| ==> !IsDigit(rawCoord[i])
    ensures ConvertRawCoords(rawCoord, cardinalDirection) == Throws
  {
    NoDigitThrows(rawCoord);
  }

  /** The component and value of every tailgate write. */
  const TailgateMessage: string := CloudMessage("reflectorv1", "true")

  /** `tailgateChecker` over a finite run of sensor passes: the LED follows
      the sensor, and `writeOnce` lets one cloud write through per run of
      detections. `writes[i]` says whether pass i sent `TailgateMessage`. */
  method TailgateChecker(detected: seq<bool>) returns (led: seq<bool>, writes: seq<bool>)
    ensures |led| == |detected| && |writes| == |detected|
    ensures forall i :: 0 <= i < |detected| ==> led[i] == detected[i]
    ensures forall i :: 0 <= i < |detected| ==> (writes[i] <==> WritesAt(detected, i))
  {
    var writeOnce := true;
    led, writes := [], [];
    for i := 0 to |detected|
      invariant |led| == i && |writes| == i
      invariant forall k :: 0 <= k < i ==> led[k] == detected[k]
      invariant forall k :: 0 <= k < i ==> (writes[k] <==> WritesAt(detected, k))
      invariant writeOnce <==> (i == 0 || !detected[i - 1])
    {
      if detected[i] {
        led := led + [true];
        if writeOnce {
          writes := writes + [true];
          writeOnce := false;
        } else {
          writes := writes + [false];
        }
      } else {
        led := led + [false];
        writes := writes + [false];
        writeOnce := true;
      }
    }
  }
}
