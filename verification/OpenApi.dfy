/** `openAPIProperties` of `lintreach`: the keys that sit directly under a `properties:` mapping of
    an OpenAPI document, found with a stack of indents instead of a YAML parser. */
module OpenApi {
  import opened Wrappers
  import opened Text

  function Indent(line: string): (n: nat)
    ensures n <= |line|
  {
    if line != "" && line[0] == ' ' then 1 + Indent(line[1..]) else 0
  }

  /** Blank lines, comments and list items are skipped before the stack is looked at. */
  predicate Considered(line: string) {
    Indent(line) < |line| && line[Indent(line)] != '#' && line[Indent(line)] != '-'
  }

  predicate KeyStart(c: char) {
    'A' <= c <= 'Z' || 'a' <= c <= 'z' || c == '_'
  }

  predicate KeyChar(c: char) {
    KeyStart(c) || '0' <= c <= '9' || c == '.' || c == '-'
  }

  function KeySpan(t: string): (n: nat)
    ensures n <= |t|
  {
    if t != "" && KeyChar(t[0]) then 1 + KeySpan(t[1..]) else 0
  }

  /** `keyRe`, `^([A-Za-z_][A-Za-z0-9_.-]*):`, on the trimmed line. No class holds `:`, so the
      greedy repetition has one way to match. */
  function KeyOf(line: string): Option<string> {
    var t := line[Indent(line)..];
    var n := KeySpan(t);
    if t != "" && KeyStart(t[0]) && n < |t| && t[n] == ':' then Some(t[..n]) else None
  }

  // ---------------------------------------------------------------- what the lines say

  predicate AllSpaces(t: string) {
    forall c :: c in t ==> c == ' '
  }

  /** The indent is the number of leading spaces, and what follows does not start with one. */
  lemma {:induction false} IndentIs(line: string)
    ensures AllSpaces(line[..Indent(line)])
    ensures Indent(line) < |line| ==> line[Indent(line)] != ' '
  {
    if line != "" && line[0] == ' ' {
      IndentIs(line[1..]);
      assert line[..Indent(line)] == [' '] + line[1..][..Indent(line[1..])];
    }
  }

  /** A line counts exactly when something follows its spaces that starts neither a comment nor a list
      item. */
  lemma ConsideredIff(line: string)
    ensures Considered(line) <==>
            exists n: nat :: IsBody(line, n) && line[n] != '#' && line[n] != '-'
  {
    IndentIs(line);
    if Considered(line) {
      assert IsBody(line, Indent(line));
    }
    forall n: nat | IsBody(line, n) ensures n == Indent(line) {
      OneBody(line, n);
    }
  }

  /** What follows the leading spaces starts at `n`. */
  ghost predicate IsBody(line: string, n: nat) {
    n < |line| && AllSpaces(line[..n]) && line[n] != ' '
  }

  lemma OneBody(line: string, n: nat)
    requires IsBody(line, n)
    ensures n == Indent(line)
  {
    IndentIs(line);
    SpacesBefore(line, n, Indent(line));
    SpacesBefore(line, Indent(line), n);
  }

  lemma SpacesBefore(line: string, n: nat, k: nat)
    requires n <= |line| && AllSpaces(line[..n])
    ensures k < n ==> line[k] == ' '
  {
    if k < n {
      assert line[..n][k] in line[..n];
    }
  }

  /** By their codes: A to Z, a to z and the underscore. */
  predicate Letter(c: char) {
    65 <= c as int <= 90 || 97 <= c as int <= 122 || c as int == 95
  }

  /** And 0 to 9, the dot and the dash. */
  predicate KeyLetter(c: char) {
    Letter(c) || 48 <= c as int <= 57 || c as int == 46 || c as int == 45
  }

  lemma LettersAgree(c: char)
    ensures Letter(c) <==> KeyStart(c)
    ensures KeyLetter(c) <==> KeyChar(c)
  {
  }

  lemma {:induction false} KeySpanIs(t: string)
    ensures forall i :: 0 <= i < KeySpan(t) ==> KeyChar(t[i])
    ensures KeySpan(t) < |t| ==> !KeyChar(t[KeySpan(t)])
  {
    if t != "" && KeyChar(t[0]) {
      KeySpanIs(t[1..]);
      assert forall i :: 0 < i < KeySpan(t) ==> t[i] == t[1..][i - 1];
    }
  }

  /** `name` is written there: a letter or underscore, then letters, digits, `_`, `.` and `-`. */
  ghost predicate IsKey(name: string) {
    name != "" && Letter(name[0]) && forall c :: c in name ==> KeyLetter(c)
  }

  /** The key of a line is `name` exactly when the line is spaces, that name, a colon and anything. */
  lemma KeyOfIff(line: string, name: string)
    ensures KeyOf(line) == Some(name) <==>
            IsKey(name) && exists n: nat, rest: string :: IsKeyLine(line, n, name, rest)
  {
    if KeyOf(line) == Some(name) {
      KeyIsWritten(line, name);
    }
    hide KeyOf, IsKeyLine;
    if IsKey(name) {
      forall k: nat, rest: string | IsKeyLine(line, k, name, rest) ensures KeyOf(line) == Some(name) {
        KeyLineRead(line, k, name, rest);
      }
    }
  }

  lemma KeyIsWritten(line: string, name: string)
    requires KeyOf(line) == Some(name)
    ensures IsKey(name) && exists n: nat, rest: string :: IsKeyLine(line, n, name, rest)
  {
    var n := Indent(line);
    var t := line[n..];
    IndentIs(line);
    KeySpanIs(t);
    KeyLetters(t, |name|);
    var rest := t[|name| + 1..];
    assert t == name + (":" + rest) by {
      assert t == t[..|name|] + ([t[|name|]] + rest);
    }
    assert IsKeyLine(line, n, name, rest);
  }

  ghost predicate IsKeyLine(line: string, n: nat, name: string, rest: string) {
    n <= |line| && AllSpaces(line[..n]) && line[n..] == name + (":" + rest)
  }

  lemma KeyLetters(t: string, k: nat)
    requires k <= |t| && (forall i :: 0 <= i < k ==> KeyChar(t[i]))
    ensures forall c :: c in t[..k] ==> KeyLetter(c)
    ensures k > 0 && KeyStart(t[0]) ==> Letter(t[0])
  {
    forall c | c in t[..k] ensures KeyLetter(c) {
      LettersAgree(c);
    }
    if k > 0 {
      LettersAgree(t[0]);
    }
  }

  lemma KeyLineRead(line: string, k: nat, name: string, rest: string)
    requires IsKey(name) && IsKeyLine(line, k, name, rest)
    ensures KeyOf(line) == Some(name)
  {
    var t := line[k..];
    LettersAgree(name[0]);
    assert line[k] == t[0] == name[0];
    OneBody(line, k);
    KeySpanIs(t);
    forall i | 0 <= i < |name| ensures KeyChar(t[i]) {
      assert name[i] in name;
      LettersAgree(name[i]);
    }
    assert t[|name|] == ':' && !KeyChar(':');
    assert KeySpan(t) == |name|;
    assert t[..|name|] == name;
  }

  // ---------------------------------------------------------------- the specification

  ghost predicate OpensAt(lines: seq<string>, j: nat)
    requires j < |lines|
  {
    Considered(lines[j]) && KeyOf(lines[j]) == Some("properties")
  }

  /** The `properties:` line `j` is still open just after line `i - 1`: no later considered line
      sits at or left of its indent. */
  ghost predicate StillOpen(lines: seq<string>, j: nat, i: nat)
    requires i <= |lines|
  {
    && j < i
    && OpensAt(lines, j)
    && forall m :: j < m < i && Considered(lines[m]) ==> Indent(lines[m]) > Indent(lines[j])
  }

  /** Line `i` lies inside the mapping that line `j` opened. */
  ghost predicate Encloses(lines: seq<string>, j: nat, i: nat)
    requires i < |lines|
  {
    StillOpen(lines, j, i) && Indent(lines[j]) < Indent(lines[i])
  }

  ghost predicate Innermost(lines: seq<string>, j: nat, i: nat)
    requires i < |lines|
  {
    Encloses(lines, j, i) && forall j': nat :: Encloses(lines, j', i) ==> j' <= j
  }

  /** Line `i` declares the property `name`: the innermost `properties:` line that line `i` does
      not close is two columns to its left. */
  ghost predicate Declares(lines: seq<string>, i: nat, name: string)
    requires i < |lines|
  {
    && Considered(lines[i])
    && KeyOf(lines[i]) == Some(name)
    && exists j: nat :: Innermost(lines, j, i) && Indent(lines[i]) == Indent(lines[j]) + 2
  }

  // ---------------------------------------------------------------- the stack

  /** `open` lists the still-open lines in order, and `stack` is their indents. */
  ghost predicate StackInv(lines: seq<string>, i: nat, stack: seq<nat>, open: seq<nat>)
    requires i <= |lines|
  {
    && |stack| == |open|
    && (forall k :: 0 <= k < |open| ==>
         open[k] < i && StillOpen(lines, open[k], i) && stack[k] == Indent(lines[open[k]]))
    && (forall k, l :: 0 <= k < l < |open| ==> open[k] < open[l])
    && forall j: nat :: StillOpen(lines, j, i) ==> j in open
  }

  lemma StackIncreases(lines: seq<string>, i: nat, stack: seq<nat>, open: seq<nat>)
    requires i <= |lines| && StackInv(lines, i, stack, open)
    ensures forall k, l :: 0 <= k < l < |stack| ==> stack[k] < stack[l]
  {
    forall k, l | 0 <= k < l < |stack| ensures stack[k] < stack[l] {
      assert StillOpen(lines, open[k], i) && StillOpen(lines, open[l], i);
      assert open[k] < open[l] < i && Considered(lines[open[l]]);
    }
  }

  /** A considered line keeps open exactly the entries left of it. */
  lemma AfterPop(lines: seq<string>, i: nat, stack: seq<nat>, open: seq<nat>, n: nat)
    requires i < |lines| && StackInv(lines, i, stack, open)
    requires n <= |stack|
    requires forall k :: n <= k < |stack| ==> Indent(lines[i]) <= stack[k]
    requires n > 0 ==> Indent(lines[i]) > stack[n - 1]
    ensures forall k :: 0 <= k < n ==> Encloses(lines, open[k], i)
    ensures forall j: nat :: Encloses(lines, j, i) ==> j in open[..n]
  {
    StackIncreases(lines, i, stack, open);
    forall k | 0 <= k < n ensures Encloses(lines, open[k], i) {
      assert StillOpen(lines, open[k], i);
      assert stack[k] <= stack[n - 1];
    }
    forall j: nat | Encloses(lines, j, i) ensures j in open[..n] {
      var k :| 0 <= k < |open| && open[k] == j;
      assert k < n;
      assert open[..n][k] == j;
    }
  }

  /** So the top of the popped stack is the innermost line, and an empty one means there is none. */
  lemma TopIsInnermost(lines: seq<string>, i: nat, open: seq<nat>, j: nat)
    requires i < |lines|
    requires forall k :: 0 <= k < |open| ==> Encloses(lines, open[k], i)
    requires forall k, l :: 0 <= k < l < |open| ==> open[k] < open[l]
    requires forall j: nat :: Encloses(lines, j, i) ==> j in open
    ensures Innermost(lines, j, i) <==> |open| > 0 && j == open[|open| - 1]
  {
    if |open| > 0 {
      var top := open[|open| - 1];
      forall j': nat | Encloses(lines, j', i) ensures j' <= top {
        var k :| 0 <= k < |open| && open[k] == j';
      }
      assert Encloses(lines, top, i);
    }
  }

  /** The stack after a considered line: what encloses it, and the line itself if it opens. */
  lemma AfterPush(lines: seq<string>, i: nat, stack: seq<nat>, open: seq<nat>)
    requires i < |lines| && Considered(lines[i]) && Popped(lines, i, stack, open)
    ensures OpensAt(lines, i) ==> StackInv(lines, i + 1, stack + [Indent(lines[i])], open + [i])
    ensures !OpensAt(lines, i) ==> StackInv(lines, i + 1, stack, open)
  {
    forall j: nat | j < i ensures StillOpen(lines, j, i + 1) <==> Encloses(lines, j, i) {
    }
  }

  lemma SkippedLine(lines: seq<string>, i: nat, stack: seq<nat>, open: seq<nat>)
    requires i < |lines| && StackInv(lines, i, stack, open) && !Considered(lines[i])
    ensures StackInv(lines, i + 1, stack, open)
  {
    forall j: nat | j <= i ensures StillOpen(lines, j, i + 1) <==> StillOpen(lines, j, i) {
    }
  }

  /** `open` lists what encloses line `i`, innermost last, and `stack` its indents. */
  ghost predicate Popped(lines: seq<string>, i: nat, stack: seq<nat>, open: seq<nat>)
    requires i < |lines|
  {
    && |stack| == |open|
    && (forall k :: 0 <= k < |open| ==> Encloses(lines, open[k], i) && stack[k] == Indent(lines[open[k]]))
    && (forall k, l :: 0 <= k < l < |open| ==> open[k] < open[l])
    && forall j: nat :: Encloses(lines, j, i) ==> j in open
  }

  /** The test the code makes on the top of the popped stack is the specification. */
  lemma TopDecides(lines: seq<string>, i: nat, stack: seq<nat>, open: seq<nat>, name: string)
    requires i < |lines| && Considered(lines[i]) && Popped(lines, i, stack, open)
    ensures Declares(lines, i, name) <==>
            KeyOf(lines[i]) == Some(name) && |stack| > 0 && Indent(lines[i]) == stack[|stack| - 1] + 2
  {
    if |open| > 0 {
      TopIsInnermost(lines, i, open, open[|open| - 1]);
    }
    if Declares(lines, i, name) {
      var j: nat :| Innermost(lines, j, i) && Indent(lines[i]) == Indent(lines[j]) + 2;
      TopIsInnermost(lines, i, open, j);
    }
  }

  method Pop(ind: nat, stack: seq<nat>) returns (stack': seq<nat>)
    ensures |stack'| <= |stack| && stack' == stack[..|stack'|]
    ensures forall k :: |stack'| <= k < |stack| ==> ind <= stack[k]
    ensures |stack'| > 0 ==> ind > stack'[|stack'| - 1]
  {
    stack' := stack;
    while |stack'| > 0 && ind <= stack'[|stack'| - 1]
      invariant |stack'| <= |stack| && stack' == stack[..|stack'|]
      invariant forall k :: |stack'| <= k < |stack| ==> ind <= stack[k]
    {
      stack' := stack'[..|stack'| - 1];
    }
  }

  /** What one considered line does to the stack and to the collected names. */
  method Line(lines: seq<string>, i: nat, stack: seq<nat>, ghost open: seq<nat>)
    returns (stack': seq<nat>, ghost open': seq<nat>, found: Option<string>)
    requires i < |lines| && StackInv(lines, i, stack, open) && Considered(lines[i])
    ensures StackInv(lines, i + 1, stack', open')
    ensures found.Some? ==> Declares(lines, i, found.value)
    ensures forall name :: Declares(lines, i, name) ==> found == Some(name)
  {
    var ind := Indent(lines[i]);
    stack' := Pop(ind, stack);
    open' := open[..|stack'|];
    AfterPop(lines, i, stack, open, |stack'|);
    AfterPush(lines, i, stack', open');
    found := None;
    var m := KeyOf(lines[i]);
    forall name
      ensures Declares(lines, i, name) <==> m == Some(name) && |stack'| > 0 && ind == stack'[|stack'| - 1] + 2
    {
      TopDecides(lines, i, stack', open', name);
    }
    if m.Some? {
      if |stack'| > 0 && ind == stack'[|stack'| - 1] + 2 {
        found := Some(m.value);
      }
      if m.value == "properties" {
        stack' := stack' + [ind];
        open' := open' + [i];
      }
    }
  }

  ghost predicate DeclaredBefore(lines: seq<string>, n: nat, name: string)
    requires n <= |lines|
  {
    exists i :: 0 <= i < n && Declares(lines, i, name)
  }

  lemma DeclaredStep(lines: seq<string>, i: nat, name: string)
    requires i < |lines|
    ensures DeclaredBefore(lines, i + 1, name) <==> DeclaredBefore(lines, i, name) || Declares(lines, i, name)
  {
    if DeclaredBefore(lines, i + 1, name) && !Declares(lines, i, name) {
      var m :| 0 <= m < i + 1 && Declares(lines, m, name);
      assert 0 <= m < i;
    }
  }

  method OpenAPIProperties(src: string) returns (props: set<string>)
    ensures forall name :: name in props <==> DeclaredBefore(Lines(src), |Lines(src)|, name)
  {
    hide Lines;
    var lines := Lines(src);
    assert StackInv(lines, 0, [], []);
    assert forall name :: !DeclaredBefore(lines, 0, name);
    hide StackInv, DeclaredBefore, Considered;
    props := {};
    var stack: seq<nat> := [];
    ghost var open: seq<nat> := [];
    for i := 0 to |lines|
      invariant StackInv(lines, i, stack, open)
      invariant forall name :: name in props <==> DeclaredBefore(lines, i, name)
    {
      var found := None;
      if Considered(lines[i]) {
        stack, open, found := Line(lines, i, stack, open);
      } else {
        SkippedLine(lines, i, stack, open);
      }
      if found.Some? {
        props := props + {found.value};
      }
      forall name ensures name in props <==> DeclaredBefore(lines, i + 1, name) {
        DeclaredStep(lines, i, name);
      }
    }
  }
}
