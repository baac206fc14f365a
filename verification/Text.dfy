/** `strings.Split(s, "\n")`, shared by the two linters. A Go byte is modelled as a `char`. */
module Text {

  function Lines(s: string): (lines: seq<string>)
    ensures |lines| >= 1
  {
    if s == "" then [""]
    else if s[0] == '\n' then [""] + Lines(s[1..])
    else
      var rest := Lines(s[1..]);
      [[s[0]] + rest[0]] + rest[1..]
  }

  /** Where line `i` begins: each earlier line takes its length and its newline. */
  function Offset(lines: seq<string>, i: nat): nat
    requires i <= |lines|
  {
    if i == 0 then 0 else Offset(lines, i - 1) + |lines[i - 1]| + 1
  }

  /** Line `i` is the text from its offset up to the next newline or the end. */
  ghost predicate IsLine(s: string, at: nat, line: string, last: bool) {
    && at + |line| <= |s|
    && s[at..at + |line|] == line
    && '\n' !in line
    && if last then at + |line| == |s| else at + |line| < |s| && s[at + |line|] == '\n'
  }

  lemma LineOfTail(s: string, at: nat, line: string, last: bool)
    requires s != "" && IsLine(s[1..], at, line, last)
    ensures IsLine(s, at + 1, line, last)
  {
    assert s[at + 1..at + 1 + |line|] == s[1..][at..at + |line|];
    if !last {
      assert s[at + 1 + |line|] == s[1..][at + |line|];
    }
  }

  lemma LineGrows(s: string, line: string, last: bool)
    requires s != "" && s[0] != '\n' && IsLine(s[1..], 0, line, last)
    ensures IsLine(s, 0, [s[0]] + line, last)
  {
    assert s[..1 + |line|] == [s[0]] + s[1..][..|line|];
    if !last {
      assert s[1 + |line|] == s[1..][|line|];
    }
  }

  lemma {:induction false} LineAtOffset(s: string, i: nat)
    requires i < |Lines(s)|
    ensures IsLine(s, Offset(Lines(s), i), Lines(s)[i], i + 1 == |Lines(s)|)
  {
    if s != "" {
      var lines, tail := Lines(s), Lines(s[1..]);
      assert s[0] == '\n' ==> lines == [""] + tail;
      assert s[0] != '\n' ==> lines == [[s[0]] + tail[0]] + tail[1..];
      hide Lines;
      if s[0] == '\n' && i > 0 {
        LineAtOffset(s[1..], i - 1);
        OffsetShift(lines, tail, i);
        hide Offset, IsLine;
        LineOfTail(s, Offset(tail, i - 1), tail[i - 1], i + 1 == |lines|);
      } else if s[0] != '\n' {
        LineAtOffset(s[1..], i);
        if i == 0 {
          LineGrows(s, tail[0], 1 == |lines|);
        } else {
          OffsetGrow(lines, tail, i);
          hide Offset, IsLine;
          LineOfTail(s, Offset(tail, i), tail[i], i + 1 == |lines|);
        }
      }
    }
  }

  lemma {:induction false} OffsetShift(lines: seq<string>, tail: seq<string>, i: nat)
    requires lines == [""] + tail && 1 <= i <= |lines|
    ensures Offset(lines, i) == Offset(tail, i - 1) + 1
  {
    if i > 1 {
      OffsetShift(lines, tail, i - 1);
    }
  }

  lemma {:induction false} OffsetGrow(lines: seq<string>, tail: seq<string>, i: nat)
    requires |lines| == |tail| && 1 <= i <= |lines|
    requires |lines[0]| == |tail[0]| + 1 && lines[1..] == tail[1..]
    ensures Offset(lines, i) == Offset(tail, i) + 1
  {
    if i > 1 {
      OffsetGrow(lines, tail, i - 1);
      assert lines[i - 1] == lines[1..][i - 2] == tail[1..][i - 2];
    }
  }
}
