/** Text and latch definitions that the C++ and the Java vehicle fleet
    tracker share: splitting a string at a delimiter, the JSON line sent to
    the IoT agent, the raw fields of a GGA sentence and the one-write-per-
    detection latch of the tailgate sensor. */
module FleetText {
  import opened Common

  /** Number of occurrences of `d` in `s`. */
  function Occurrences(s: string, d: char): nat
  {
    if s == [] then 0
    else Occurrences(s[..|s| - 1], d) + (if s[|s| - 1] == d then 1 else 0)
  }

  /** Every piece of `s` between delimiters, the empty ones included. There
      is one piece more than there are delimiters and no piece holds one. */
  function Pieces(s: string, d: char): (r: seq<string>)
    ensures |r| == Occurrences(s, d) + 1
    ensures forall i :: 0 <= i < |r| ==> d !in r[i]
    decreases |s|
  {
    if s == [] then [""]
    else
      var init := Pieces(s[..|s| - 1], d);
      var c := s[|s| - 1];
      if c == d then init + [""]
      else init[..|init| - 1] + [init[|init| - 1] + [c]]
  }

  /** The pieces glued back together, one delimiter between neighbours. */
  function Join(ps: seq<string>, d: char): string
  {
    if ps == [] then ""
    else if |ps| == 1 then ps[0]
    else Join(ps[..|ps| - 1], d) + [d] + ps[|ps| - 1]
  }

  /** Joining the pieces gives back the string. */
  lemma {:induction false} JoinPieces(s: string, d: char)
    ensures Join(Pieces(s, d), d) == s
    decreases |s|
  {
    if s != [] {
      var s' := s[..|s| - 1];
      var c := s[|s| - 1];
      var init := Pieces(s', d);
      JoinPieces(s', d);
      assert s == s' + [c];
      if c == d {
        var r := init + [""];
        assert r[..|r| - 1] == init;
        assert Join(r, d) == s' + [d] + "";
      } else {
        var last := init[|init| - 1] + [c];
        var r := init[..|init| - 1] + [last];
        assert Pieces(s, d) == r;
        if |init| == 1 {
          assert Join(r, d) == last;
        } else {
          assert r[..|r| - 1] == init[..|init| - 1];
          assert Join(r, d) == Join(init[..|init| - 1], d) + [d] + last;
          assert Join(init, d) == Join(init[..|init| - 1], d) + [d] + init[|init| - 1];
        }
      }
    }
  }

  /** A string without delimiter is its own single piece. */
  lemma {:induction false} PiecesWithoutDelimiter(p: string, d: char)
    requires d !in p
    ensures Pieces(p, d) == [p]
    decreases |p|
  {
    if p != [] {
      assert p[..|p| - 1] + [p[|p| - 1]] == p;
      PiecesWithoutDelimiter(p[..|p| - 1], d);
    }
  }

  /** Appending a delimiter and a delimiter-free piece appends that piece. */
  lemma {:induction false} PiecesAppend(x: string, d: char, p: string)
    requires d !in p
    ensures Pieces(x + [d] + p, d) == Pieces(x, d) + [p]
    decreases |p|
  {
    if p == [] {
      assert (x + [d] + p)[..|x| + 1 - 1] == x;
    } else {
      var p' := p[..|p| - 1];
      var s := x + [d] + p;
      assert s[..|s| - 1] == x + [d] + p';
      assert p' + [p[|p| - 1]] == p;
      PiecesAppend(x, d, p');
    }
  }

  /** Splitting a join of delimiter-free pieces gives the pieces back. */
  lemma {:induction false} PiecesJoin(ps: seq<string>, d: char)
    requires |ps| >= 1
    requires forall i :: 0 <= i < |ps| ==> d !in ps[i]
    ensures Pieces(Join(ps, d), d) == ps
    decreases |ps|
  {
    if |ps| == 1 {
      PiecesWithoutDelimiter(ps[0], d);
    } else {
      var init := ps[..|ps| - 1];
      PiecesJoin(init, d);
      PiecesAppend(Join(init, d), d, ps[|ps| - 1]);
    }
  }

  // The line the programs send to the IoT agent: {"n":"<component>","v":"<data>"}
  // followed by a newline.
  const MessageHead: string := "{\"n\":\""
  const MessageMiddle: string := "\",\"v\":\""
  const MessageTail: string := "\"}\n"

  /** The message `writeDataToCloud` sends for a component and its value. */
  function CloudMessage(component: string, data: string): (m: string)
    ensures |m| == |component| + |data| + 16
  {
    MessageHead + component + MessageMiddle + data + MessageTail
  }

  /** The first index of `c` in `s`, or `|s|` when there is none. */
  function FirstIndexOf(s: string, c: char): (j: nat)
    ensures j <= |s|
    ensures j < |s| ==> s[j] == c
    ensures forall i :: 0 <= i < j ==> s[i] != c
  {
    if s == [] then 0
    else if s[0] == c then 0
    else 1 + FirstIndexOf(s[1..], c)
  }

  /** What the receiving agent reads out of a message: the component name up
      to the first quote, and the value up to the closing `"}`. */
  function ParseMessage(m: string): Option<(string, string)>
  {
    if |m| < |MessageHead| + |MessageTail| || m[..|MessageHead|] != MessageHead
       || m[|m| - |MessageTail|..] != MessageTail
    then None
    else
      var body := m[|MessageHead|..|m| - |MessageTail|];
      var j := FirstIndexOf(body, '"');
      if j + |MessageMiddle| <= |body| && body[j..j + |MessageMiddle|] == MessageMiddle
      then Some((body[..j], body[j + |MessageMiddle|..]))
      else None
  }

  /** A message whose component holds no quote reads back as what was sent. */
  lemma CloudMessageRoundTrip(component: string, data: string)
    requires '"' !in component
    ensures ParseMessage(CloudMessage(component, data)) == Some((component, data))
  {
    var m := CloudMessage(component, data);
    assert m[..|MessageHead|] == MessageHead;
    assert m[|m| - |MessageTail|..] == MessageTail;
    var body := m[|MessageHead|..|m| - |MessageTail|];
    assert body == component + MessageMiddle + data;
    var j := FirstIndexOf(body, '"');
    assert body[|component|] == '"';
    assert j == |component|;
    assert body[j..j + |MessageMiddle|] == MessageMiddle;
    assert body[..j] == component;
    assert body[j + |MessageMiddle|..] == data;
  }

  /** Conversely, every line that reads back was built by `CloudMessage`
      from a quote-free component. */
  lemma ParsedMessageIsCloudMessage(m: string, component: string, data: string)
    requires ParseMessage(m) == Some((component, data))
    ensures '"' !in component
    ensures m == CloudMessage(component, data)
  {
    ParsedBody(m, component, data);
    var mid := component + MessageMiddle + data;
    ThreeParts(m, |MessageHead|, |m| - |MessageTail|);
    assert m == MessageHead + mid + MessageTail;
    assert MessageHead + mid + MessageTail == CloudMessage(component, data);
  }

  /** A line that reads back has the head and the tail of a message around
      the component, the separator and the value. */
  lemma ParsedBody(m: string, component: string, data: string)
    requires ParseMessage(m) == Some((component, data))
    ensures |m| >= |MessageHead| + |MessageTail|
    ensures m[..|MessageHead|] == MessageHead && m[|m| - |MessageTail|..] == MessageTail
    ensures m[|MessageHead|..|m| - |MessageTail|] == component + MessageMiddle + data
    ensures '"' !in component
  {
    var body := m[|MessageHead|..|m| - |MessageTail|];
    var j := FirstIndexOf(body, '"');
    assert component == body[..j] && data == body[j + |MessageMiddle|..];
    assert body[j..j + |MessageMiddle|] == MessageMiddle;
    ThreeParts(body, j, j + |MessageMiddle|);
  }

  /** A string is its three slices at two cut points, in order. The
      solver does not regroup slices like this unprompted, so the message
      lemma above states it once through this lemma. */
  lemma ThreeParts(s: string, a: nat, b: nat)
    requires a <= b <= |s|
    ensures s == s[..a] + s[a..b] + s[b..]
  {
  }

  /** Fields 2 to 5 of a GGA sentence: latitude, its hemisphere, longitude,
      its hemisphere. */
  datatype GgaFields = GgaFields(latitude: string, latitudeDir: string,
                                 longitude: string, longitudeDir: string)

  /** The guards of `convertRawCoords`: `Zero` when the function returns 0
      before any arithmetic; `Throws` when a number conversion throws an
      exception nothing catches, which ends the program; otherwise the value
      computed from the digits, negated when `negative` holds. */
  datatype Coord = Zero | Throws | Scaled(negative: bool)

  /** The tailgate latch: a cloud write happens on a detection pass exactly
      when the previous pass (if any) saw no detection. */
  predicate WritesAt(detected: seq<bool>, i: int)
    requires 0 <= i < |detected|
  {
    detected[i] && (i == 0 || !detected[i - 1])
  }

  /** Two writes are always separated by a pass that saw no detection: the
      latch is re-armed only when the sensor clears. */
  lemma WritesSeparatedByClear(detected: seq<bool>, i: int, j: int)
    requires 0 <= i < j < |detected|
    requires WritesAt(detected, i) && WritesAt(detected, j)
    ensures exists k :: i < k < j && !detected[k]
  {
    assert !detected[j - 1];
  }

  /** Every detection pass belongs to a run of detections that began with a
      write: no run goes unreported. */
  lemma {:induction false} DetectionFollowsWrite(detected: seq<bool>, i: int)
    requires 0 <= i < |detected| && detected[i]
    ensures exists k :: 0 <= k <= i && WritesAt(detected, k) &&
              forall n :: k <= n <= i ==> detected[n]
    decreases i
  {
    if WritesAt(detected, i) {
      assert forall n :: i <= n <= i ==> detected[n];
    } else {
      DetectionFollowsWrite(detected, i - 1);
      var k :| 0 <= k <= i - 1 && WritesAt(detected, k) &&
               forall n :: k <= n <= i - 1 ==> detected[n];
      assert forall n :: k <= n <= i ==> detected[n];
    }
  }
}
