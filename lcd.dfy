/** The two-row Jhd1313m1 character LCD as the programs drive it: the
    cursor is placed, text is written from the cursor on (overwriting what
    is there, the cursor advancing past it), and clearing blanks both rows
    and returns the cursor home. A row is the text written to it so far; a
    blank position reads as a space. */
module Lcd {

  datatype LcdOp = SetCursor(row: nat, col: nat) | Write(text: string) | Clear

  /** The two rows and the cursor; a cursor row other than 0 addresses the
      second row (the programs use rows 0 and 1 only). */
  datatype Screen = Screen(top: string, bottom: string, row: nat, col: nat)

  /** The screen after clearing: both rows blank, cursor home. */
  const BLANK: Screen := Screen("", "", 0, 0)

  /** `n` spaces. */
  function Spaces(n: nat): (s: string)
    ensures |s| == n && forall i :: 0 <= i < n ==> s[i] == ' '
  {
    if n == 0 then "" else Spaces(n - 1) + " "
  }

  /** A row after writing `text` at column `col`: the text stands at that
      column, what was before and after it is kept, and a gap up to the
      column reads as spaces. */
  function Overwrite(line: string, col: nat, text: string): (r: string)
    ensures |r| == if |line| > col + |text| then |line| else col + |text|
    ensures r[col..col + |text|] == text
    ensures forall i :: 0 <= i < col ==> r[i] == if i < |line| then line[i] else ' '
    ensures forall i :: col + |text| <= i < |line| ==> r[i] == line[i]
  {
    var head := if |line| >= col then line[..col] else line + Spaces(col - |line|);
    var tail := if |line| > col + |text| then line[col + |text|..] else "";
    head + text + tail
  }

  /** The screen after one operation. */
  function Apply(s: Screen, op: LcdOp): Screen
  {
    match op
    case SetCursor(row, col) => s.(row := row, col := col)
    case Write(text) =>
      if s.row == 0 then s.(top := Overwrite(s.top, s.col, text), col := s.col + |text|)
      else s.(bottom := Overwrite(s.bottom, s.col, text), col := s.col + |text|)
    case Clear => BLANK
  }

  /** The screen after a sequence of operations, in order. */
  function Replay(s: Screen, ops: seq<LcdOp>): Screen
    decreases |ops|
  {
    if ops == [] then s else Replay(Apply(s, ops[0]), ops[1..])
  }

  /** Replaying two sequences one after the other is replaying their
      concatenation. */
  lemma {:induction false} ReplayAppend(s: Screen, a: seq<LcdOp>, b: seq<LcdOp>)
    ensures Replay(s, a + b) == Replay(Replay(s, a), b)
    decreases |a|
  {
    if a == [] {
      assert a + b == b;
    } else {
      assert (a + b)[0] == a[0];
      assert (a + b)[1..] == a[1..] + b;
      ReplayAppend(Apply(s, a[0]), a[1..], b);
    }
  }

  /** Replaying peels off two operations at a time: a cursor placement and
      the write that follows it. */
  lemma ReplayTwo(s: Screen, ops: seq<LcdOp>)
    requires |ops| >= 2
    ensures Replay(s, ops) == Replay(Apply(Apply(s, ops[0]), ops[1]), ops[2..])
  {
    assert ops[1..][0] == ops[1];
    assert ops[1..][1..] == ops[2..];
  }

  /** Whatever was on the screen, a clear followed by `ops` leaves what
      `ops` alone shows on a blank screen; in particular a clear at the end
      leaves the screen blank. */
  lemma ClearForgets(s: Screen, before: seq<LcdOp>, after: seq<LcdOp>)
    ensures Replay(s, before + [Clear] + after) == Replay(BLANK, after)
    ensures Replay(s, before + [Clear]) == BLANK
  {
    ReplayAppend(s, before + [Clear], after);
    ReplayAppend(s, before, [Clear]);
  }

  /** The decimal digits of a natural number. */
  function NatText(n: nat): (t: string)
    ensures |t| >= 1
    ensures forall i :: 0 <= i < |t| ==> '0' <= t[i] <= '9'
    decreases n
  {
    var digit := ['0' + (n % 10) as char];
    if n < 10 then digit else NatText(n / 10) + digit
  }

  /** An integer as `%d`, `<<` and `Integer.toString` write it: a minus sign
      before a negative number's digits. */
  function IntText(n: int): (t: string)
    ensures |t| >= 1
    ensures n >= 0 <==> t[0] != '-'
  {
    if n < 0 then "-" + NatText(-n) else NatText(n)
  }
}
