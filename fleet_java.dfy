/** The Java vehicle fleet tracker. Its `parseGpsData` splits the decoded
    buffer with `String.split` and compares strings with `==`, which compares
    object identity (`JavaString`): the decoded buffer and the pieces of a
    split are fresh objects. */
module FleetJava {
  import opened Common
  import opened FleetText

  /** The list without its trailing empty strings. */
  function DropTrailingEmpty(ps: seq<string>): (r: seq<string>)
    ensures |r| <= |ps| && r == ps[..|r|]
    ensures r != [] ==> r[|r| - 1] != []
    ensures forall i :: |r| <= i < |ps| ==> ps[i] == []
  {
    if ps == [] then []
    else if ps[|ps| - 1] == [] then DropTrailingEmpty(ps[..|ps| - 1])
    else ps
  }

  /** Fresh string objects holding the given texts. */
  function Fresh(ps: seq<string>): seq<JavaString>
  {
    seq(|ps|, i requires 0 <= i < |ps| => JavaString(ps[i], false))
  }

  /** `s.split(d)` for a one-character pattern: when the character does not
      occur, the array holds `s` itself; otherwise fresh strings for the
      pieces, trailing empty pieces removed. */
  function JavaSplit(s: JavaString, d: char): (r: seq<JavaString>)
    ensures d !in s.chars ==> r == [s]
    ensures d in s.chars ==> forall i :: 0 <= i < |r| ==> !r[i].interned
    ensures forall i :: 0 <= i < |r| ==> d !in r[i].chars
  {
    if d !in s.chars then [s]
    else Fresh(DropTrailingEmpty(Pieces(s.chars, d)))
  }

  /** Every piece of `s` is empty exactly when `s` consists of delimiters. */
  lemma {:induction false} AllPiecesEmpty(s: string, d: char)
    ensures (forall i :: 0 <= i < |Pieces(s, d)| ==> Pieces(s, d)[i] == [])
            <==> (forall j :: 0 <= j < |s| ==> s[j] == d)
    decreases |s|
  {
    if s != [] {
      var s' := s[..|s| - 1];
      AllPiecesEmpty(s', d);
      var init := Pieces(s', d);
      var ps := Pieces(s, d);
      assert forall j :: 0 <= j < |s'| ==> s'[j] == s[j];
      if s[|s| - 1] == d {
        assert ps == init + [""];
        assert forall i :: 0 <= i < |init| ==> ps[i] == init[i];
      } else {
        assert ps[|init| - 1] == init[|init| - 1] + [s[|s| - 1]];
        assert ps[|init| - 1] != [];
      }
    }
  }

  /** A split yields no element at all exactly for a non-empty string made
      only of the delimiter. */
  lemma SplitEmptyIff(s: JavaString, d: char)
    ensures JavaSplit(s, d) == [] <==> s.chars != [] && forall j :: 0 <= j < |s.chars| ==> s.chars[j] == d
  {
    if d !in s.chars {
      if s.chars != [] {
        assert s.chars[0] != d;
      }
    } else {
      var ps := Pieces(s.chars, d);
      AllPiecesEmpty(s.chars, d);
      var r := DropTrailingEmpty(ps);
      if r == [] {
        assert forall i :: 0 <= i < |ps| ==> ps[i] == [];
      } else {
        assert r[|r| - 1] == ps[|r| - 1] != [];
      }
    }
  }

  /** `vecStr[k].chars` where the index is known to be in range; the empty
      text otherwise. */
  function Field(vecStr: seq<JavaString>, k: nat): string
  {
    if k < |vecStr| then vecStr[k].chars else ""
  }

  /** What the loop of `parseGpsData` leaves behind: the GGA reports it sent
      and whether it ended by an `ArrayIndexOutOfBoundsException`, which
      also ends the GPS thread. */
  datatype ParseRun = ParseRun(reports: seq<GgaFields>, threw: bool)

  /** The loop over the lines of the buffer: empty lines are skipped, every
      other line is split at commas and its first field compared with the
      literal "$GPGGA" by `==`. */
  function ParseLines(lines: seq<JavaString>): ParseRun
    decreases |lines|
  {
    if lines == [] then ParseRun([], false)
    else if lines[0].chars == [] then ParseLines(lines[1..])
    else
      var vecStr := JavaSplit(lines[0], ',');
      if |vecStr| == 0 then ParseRun([], true)
      else if !SameObject(vecStr[0], Literal("$GPGGA")) then ParseLines(lines[1..])
      else if |vecStr| < 6 then ParseRun([], true)
      else
        var rest := ParseLines(lines[1..]);
        var fields := GgaFields(Field(vecStr, 2), Field(vecStr, 3), Field(vecStr, 4), Field(vecStr, 5));
        ParseRun([fields] + rest.reports, rest.threw)
  }

  /** `parseGpsData`: `result` is not used; every line of the whole buffer is
      visited, with no early exit. */
  method ParseGpsData(nmeaBuffer: JavaString, result: int) returns (run: ParseRun)
    ensures run == ParseLines(JavaSplit(nmeaBuffer, '\n'))
  {
    var lines := JavaSplit(nmeaBuffer, '\n');
    var reports: seq<GgaFields> := [];
    for i := 0 to |lines|
      invariant ParseLines(lines) == ParseRun(reports + ParseLines(lines[i..]).reports,
                                              ParseLines(lines[i..]).threw)
    {
      assert lines[i..][1..] == lines[i + 1..];
      var strGpsLine := lines[i];
      if strGpsLine.chars == [] {
        continue;
      }
      var vecStr := JavaSplit(strGpsLine, ',');
      if |vecStr| == 0 {
        return ParseRun(reports, true);
      }
      if SameObject(vecStr[0], Literal("$GPGGA")) {
        if |vecStr| < 6 {
          return ParseRun(reports, true);
        }
        var fields := GgaFields(Field(vecStr, 2), Field(vecStr, 3), Field(vecStr, 4), Field(vecStr, 5));
        reports := reports + [fields];
      }
    }
    assert lines[|lines|..] == [];
    assert reports + [] == reports;
    run := ParseRun(reports, false);
  }

  /** Lines that are all run-time strings never match the literal, so they
      produce no report; the loop throws exactly when one of them is made of
      commas only. */
  lemma {:induction false} RuntimeLinesNeverReport(lines: seq<JavaString>)
    requires forall i :: 0 <= i < |lines| ==> !lines[i].interned
    ensures ParseLines(lines).reports == []
    ensures ParseLines(lines).threw <==>
              exists i :: 0 <= i < |lines| && lines[i].chars != [] &&
                forall j :: 0 <= j < |lines[i].chars| ==> lines[i].chars[j] == ','
    decreases |lines|
  {
    if lines != [] {
      RuntimeLinesNeverReport(lines[1..]);
      SplitEmptyIff(lines[0], ',');
      var vecStr := JavaSplit(lines[0], ',');
      if |vecStr| > 0 {
        assert !vecStr[0].interned;
      }
      if ParseLines(lines[1..]).threw {
        var i :| 0 <= i < |lines[1..]| && lines[1..][i].chars != [] &&
                 forall j :: 0 <= j < |lines[1..][i].chars| ==> lines[1..][i].chars[j] == ',';
        assert lines[i + 1] == lines[1..][i];
      }
      if exists i :: 0 <= i < |lines| && lines[i].chars != [] &&
                forall j :: 0 <= j < |lines[i].chars| ==> lines[i].chars[j] == ',' {
        var i :| 0 <= i < |lines| && lines[i].chars != [] &&
                 forall j :: 0 <= j < |lines[i].chars| ==> lines[i].chars[j] == ',';
        if i > 0 {
          assert lines[1..][i - 1] == lines[i];
        }
      }
    }
  }

  /** The decoded buffer is a fresh string, so no GGA sentence is ever
      reported, whatever the buffer holds. */
  lemma DecodedBufferNeverReports(buffer: string)
    ensures ParseLines(JavaSplit(JavaString(buffer, false), '\n')).reports == []
  {
    RuntimeLinesNeverReport(JavaSplit(JavaString(buffer, false), '\n'));
  }

  /** Whatever the lines, the loop never reports: a first field is the same
      object as the literal only when the line has no comma, and then it is
      the only field, so reading field 2 throws first. */
  lemma {:induction false} NoLineEverReports(lines: seq<JavaString>)
    ensures ParseLines(lines).reports == []
    decreases |lines|
  {
    if lines != [] {
      NoLineEverReports(lines[1..]);
      var vecStr := JavaSplit(lines[0], ',');
      if |vecStr| > 0 && SameObject(vecStr[0], Literal("$GPGGA")) {
        assert ',' !in lines[0].chars;
        assert |vecStr| == 1;
      }
    }
  }

  /** The loop as evidently intended, with `.equals` in place of `==`. */
  function ParseLinesByEquals(lines: seq<string>): ParseRun
    decreases |lines|
  {
    if lines == [] then ParseRun([], false)
    else if lines[0] == [] then ParseLinesByEquals(lines[1..])
    else
      var vecStr := JavaSplit(JavaString(lines[0], false), ',');
      if |vecStr| == 0 then ParseRun([], true)
      else if vecStr[0].chars != "$GPGGA" then ParseLinesByEquals(lines[1..])
      else if |vecStr| < 6 then ParseRun([], true)
      else
        var rest := ParseLinesByEquals(lines[1..]);
        var fields := GgaFields(vecStr[2].chars, vecStr[3].chars, vecStr[4].chars, vecStr[5].chars);
        ParseRun([fields] + rest.reports, rest.threw)
  }

  /** With `.equals`, a GGA sentence of at least six comma-free fields whose
      last field is not empty is reported with fields 2 to 5, ahead of
      whatever the lines after it report. */
  lemma GgaLineReportedByEquals(fields: seq<string>, rest: seq<string>)
    requires |fields| >= 6 && fields[0] == "$GPGGA" && fields[|fields| - 1] != []
    requires forall i :: 0 <= i < |fields| ==> ',' !in fields[i]
    ensures var after := ParseLinesByEquals(rest);
            ParseLinesByEquals([Join(fields, ',')] + rest)
            == ParseRun([GgaFields(fields[2], fields[3], fields[4], fields[5])] + after.reports, after.threw)
  {
    var line := Join(fields, ',');
    assert line == Join(fields[..|fields| - 1], ',') + [','] + fields[|fields| - 1];
    assert ',' in line;
    PiecesJoin(fields, ',');
    assert DropTrailingEmpty(fields) == fields;
    var vecStr := JavaSplit(JavaString(line, false), ',');
    assert vecStr == Fresh(fields);
    assert ([line] + rest)[1..] == rest;
  }

  /** The guards of `convertRawCoords`: text that `Float.valueOf` rejects
      gives 0 at once; the value is negated when the direction string is the
      same object as the literal "S" or "W". `parsed` is the outcome of
      `Float.valueOf`. */
  function ConvertRawCoords(parsed: Option<real>, cardinalDirection: JavaString): (c: Coord)
    ensures c == Zero <==> parsed.None?
    ensures !c.Throws?
    ensures c.Scaled? ==> (c.negative <==> SameObject(cardinalDirection, Literal("S")) ||
                                           SameObject(cardinalDirection, Literal("W")))
  {
    if parsed.None? then Zero
    else Scaled(SameObject(cardinalDirection, Literal("S")) || SameObject(cardinalDirection, Literal("W")))
  }

  /** A direction taken from a split sentence is a fresh string, so even "S"
      and "W" leave the value positive. */
  lemma RuntimeDirectionNeverNegates(parsed: Option<real>, direction: string)
    ensures ConvertRawCoords(parsed, JavaString(direction, false)) != Scaled(true)
  {
  }

  /** `reflectiveRunnable` over a finite run of sensor passes: the LED
      follows the sensor and `writeOnce` lets one cloud write through per run
      of detections. `writes[i]` says whether pass i sent the message
      `CloudMessage("reflectorv1", "true")`. */
  method ReflectiveRunnable(detected: seq<bool>) returns (led: seq<bool>, writes: seq<bool>)
    ensures |led| == |detected| && |writes| == |detected|
    ensures forall i :: 0 <= i < |detected| ==> led[i] == detected[i]
    ensures forall i :: 0 <= i < |detected| ==> (writes[i] <==> WritesAt(detected, i))
  {
    var writeOnce := true;
    led, writes := [], [];
    for i := 0 to |detected|
      invariant |led| == i && |writes| == i
      invariant forall k :: 0 <= k < i ==> led[k] == detected[k]
      invariant forall k :: 0 <= k < i ==> (writes[k] <==> WritesAt(detected, k))
      invariant writeOnce <==> (i == 0 || !detected[i - 1])
    {
      if detected[i] {
        led := led + [true];
        writes := writes + [writeOnce];
        writeOnce := false;
      } else {
        led := led + [false];
        writes := writes + [false];
        writeOnce := true;
      }
    }
  }

  /** `distanceRunnable` over a finite run of sensor passes, starting from
      the flag's current value: after each pass `displayTime` is the negation
      of that pass's `objectDetected`, and with no pass it keeps its value. */
  method DistanceRunnable(detected: seq<bool>, displayTime: bool) returns (trace: seq<bool>, last: bool)
    ensures |trace| == |detected|
    ensures forall i :: 0 <= i < |detected| ==> trace[i] == !detected[i]
    ensures last == if detected == [] then displayTime else !detected[|detected| - 1]
  {
    last := displayTime;
    trace := [];
    for i := 0 to |detected|
      invariant |trace| == i
      invariant forall k :: 0 <= k < i ==> trace[k] == !detected[k]
      invariant last == if i == 0 then displayTime else !detected[i - 1]
    {
      if detected[i] {
        last := false;
      } else {
        last := true;
      }
      trace := trace + [last];
    }
  }
}
