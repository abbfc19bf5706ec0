/**
 NDJSON framing of the run log (internal/logstore/store.go, cmd/arxi/attach.go).

 A log is a sequence of bytes; an event is one line of it. The JSON inside a line is opaque
 here: a line IS the event it encodes.
 */
module Lines {

  import opened Bytes

  type Line = seq<byte>

  const LF: byte := 10

  predicate IsSpace(b: byte) {
    b == 32 || 9 <= b <= 13
  }

  /** The white space beyond ASCII, in UTF-8: U+0085 and U+00A0. */
  predicate IsSpace2(a: byte, b: byte) {
    a == 0xC2 && (b == 0x85 || b == 0xA0)
  }

  /** U+1680, U+2000 to U+200A, U+2028, U+2029, U+202F, U+205F and U+3000. */
  predicate IsSpace3(a: byte, b: byte, c: byte) {
    || (a == 0xE1 && b == 0x9A && c == 0x80)
    || (a == 0xE2 && b == 0x80 && (0x80 <= c <= 0x8A || c == 0xA8 || c == 0xA9 || c == 0xAF))
    || (a == 0xE2 && b == 0x81 && c == 0x9F)
    || (a == 0xE3 && b == 0x80 && c == 0x80)
  }

  /** Length of the white space a line begins with, one character of it; 0 when there is none. */
  function SpaceLen(line: Line): (n: nat)
    ensures n <= |line|
  {
    var m := |line|;
    if m >= 1 && IsSpace(line[0]) then 1
    else if m >= 2 && IsSpace2(line[0], line[1]) then 2
    else if m >= 3 && IsSpace3(line[0], line[1], line[2]) then 3
    else 0
  }

  /** The same at its end. */
  function SpaceEnd(line: Line): (n: nat)
    ensures n <= |line|
  {
    var m := |line|;
    if m >= 1 && IsSpace(line[m - 1]) then 1
    else if m >= 2 && IsSpace2(line[m - 2], line[m - 1]) then 2
    else if m >= 3 && IsSpace3(line[m - 3], line[m - 2], line[m - 1]) then 3
    else 0
  }

  /** bytes.TrimSpace leaves nothing of it. */
  predicate Blank(line: Line)
    decreases |line|
  {
    line == [] || (SpaceLen(line) > 0 && Blank(line[SpaceLen(line)..]))
  }

  predicate NoLF(b: seq<byte>) {
    forall i | 0 <= i < |b| :: b[i] != LF
  }

  /** What Append can write as one line: json.Marshal output, refused if it held a line break. */
  predicate Writable(line: Line) {
    NoLF(line) && !Blank(line)
  }

  predicate AllWritable(lines: seq<Line>) {
    forall i | 0 <= i < |lines| :: Writable(lines[i])
  }

  /** The bytes one batch of lines occupies in the log. */
  function Frame(lines: seq<Line>): seq<byte> {
    if lines == [] then [] else lines[0] + [LF] + Frame(lines[1..])
  }

  /** Offset just past the last newline, 0 when there is none. */
  function WholeEnd(b: seq<byte>): (n: nat)
    ensures n <= |b| && Whole(b[..n])
    ensures forall i | n <= i < |b| :: b[i] != LF
  {
    if b == [] then 0 else if b[|b| - 1] == LF then |b| else WholeEnd(b[..|b| - 1])
  }

  /** b consists of complete lines only. */
  predicate Whole(b: seq<byte>) {
    b == [] || b[|b| - 1] == LF
  }

  /** Index of the first newline, |b| when there is none. */
  function FirstLF(b: seq<byte>): (i: nat)
    ensures i <= |b| && (i < |b| ==> b[i] == LF)
    ensures forall k | 0 <= k < i :: b[k] != LF
  {
    if b == [] || b[0] == LF then 0 else 1 + FirstLF(b[1..])
  }

  /** The event a line stands for, if any: blank lines are not events. */
  function Events(line: Line): seq<Line> {
    if Blank(line) then [] else [line]
  }

  /** The non-blank complete lines of b, in order; an unterminated tail is not a line. */
  function Split(b: seq<byte>): seq<Line>
    decreases |b|
  {
    var i := FirstLF(b);
    if i == |b| then [] else Events(b[..i]) + Split(b[i + 1..])
  }

  lemma {:induction false} FirstLFIs(b: seq<byte>, i: nat)
    requires i < |b| && b[i] == LF && forall k | 0 <= k < i :: b[k] != LF
    ensures FirstLF(b) == i
  {
  }

  lemma {:induction false} WholeEndOfPrefix(b: seq<byte>, n: nat)
    requires n <= |b| && Whole(b[..n])
    ensures n <= WholeEnd(b)
  {
  }

  lemma {:induction false} SplitUnfold(b: seq<byte>)
    ensures FirstLF(b) == |b| ==> Split(b) == []
    ensures FirstLF(b) < |b| ==> Split(b) == Events(b[..FirstLF(b)]) + Split(b[FirstLF(b) + 1..])
  {
  }

  lemma {:induction false} SplitStep(a: seq<byte>, i: nat, b: seq<byte>)
    requires i < |a| && i == FirstLF(a)
    ensures Split(a + b) == Events(a[..i]) + Split(a[i + 1..] + b)
  {
    hide Blank;
    FirstLFIs(a + b, i);
    assert (a + b)[..i] == a[..i] && (a + b)[i + 1..] == a[i + 1..] + b;
  }

  /** Splitting is a homomorphism at line boundaries: this is what lets a follower resume. */
  lemma {:induction false} SplitAppend(a: seq<byte>, b: seq<byte>)
    requires Whole(a)
    ensures Split(a + b) == Split(a) + Split(b)
    decreases |a|
  {
    hide Split;
    if a == [] {
      assert a + b == b;
      SplitUnfold(a);
    } else {
      var i := FirstLF(a);
      var rest := a[i + 1..];
      SplitStep(a, i, b);
      SplitAppend(rest, b);
      SplitUnfold(a);
      assert (Events(a[..i]) + Split(rest)) + Split(b) == Events(a[..i]) + (Split(rest) + Split(b));
    }
  }

  lemma {:induction false} SplitWholeEnd(b: seq<byte>)
    ensures Split(b) == Split(b[..WholeEnd(b)])
  {
    var n := WholeEnd(b);
    assert b == b[..n] + b[n..];
    SplitAppend(b[..n], b[n..]);
    assert NoLF(b[n..]);
  }

  lemma {:induction false} FrameIsWhole(lines: seq<Line>)
    ensures Whole(Frame(lines)) && (Frame(lines) == [] <==> lines == [])
  {
    if lines != [] {
      FrameIsWhole(lines[1..]);
    }
  }

  /** Reading back what Append framed yields exactly the events, in order. */
  lemma {:induction false} SplitFrame(lines: seq<Line>)
    requires AllWritable(lines)
    ensures Split(Frame(lines)) == lines
  {
    hide Split;
    if lines != [] {
      var i, head := |lines[0]|, lines[0] + [LF];
      assert Writable(lines[0]);
      FirstLFIs(head, i);
      SplitStep(head, i, Frame(lines[1..]));
      assert head[..i] == lines[0] && head[i + 1..] + Frame(lines[1..]) == Frame(lines[1..]);
      SplitFrame(lines[1..]);
    } else {
      SplitUnfold([]);
    }
  }

  /** attach.go wholeLines: the buffer is re-sliced past each newline. */
  method WholeLines(buf: seq<byte>) returns (lines: seq<Line>, remainder: seq<byte>)
    ensures lines == Split(buf)
    ensures remainder == buf[WholeEnd(buf)..]
  {
    hide Split, WholeEnd, FirstLF, Blank;
    lines := [];
    remainder := buf;
    ghost var done := 0;
    while FirstLF(remainder) < |remainder|
      invariant 0 <= done <= |buf| && remainder == buf[done..] && Whole(buf[..done])
      invariant lines + Split(remainder) == Split(buf)
      decreases |remainder|
    {
      var i := FirstLF(remainder);
      SplitUnfold(remainder);
      var line := remainder[..i];
      remainder := remainder[i + 1..];
      done := done + i + 1;
      if !Blank(line) {
        lines := lines + [line];
      }
    }
    SplitUnfold(remainder);
    WholeEndIs(buf, done);
  }

  lemma {:induction false} WholeEndIs(b: seq<byte>, n: nat)
    requires n <= |b| && Whole(b[..n]) && FirstLF(b[n..]) == |b[n..]|
    ensures WholeEnd(b) == n
  {
    WholeEndOfPrefix(b, n);
    assert forall k | n <= k < |b| :: b[k] == b[n..][k - n];
  }
}
