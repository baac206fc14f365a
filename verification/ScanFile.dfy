/** `scanFile` of `lintvocab`: the rules read the stripped text, and what is reported and what is
    suppressed is read off the raw text. The two are walked by one line index, which is sound only
    because stripping is aligned. */
module ScanFile {
  import opened Text
  import opened Strip

  const MARKER := "vocab:allow"
  const MARKER_LOOKBACK := 2

  predicate Contains(line: string, word: string) {
    word <= line || (line != "" && Contains(line[1..], word))
  }

  /** The word occurs in the line after `a`. */
  ghost predicate OccursAfter(line: string, word: string, a: nat) {
    a + |word| <= |line| && line[a..a + |word|] == word
  }

  lemma {:induction false} ContainsIff(line: string, word: string)
    ensures Contains(line, word) <==> exists a: nat :: OccursAfter(line, word, a)
    decreases |line|
  {
    if word <= line {
      assert OccursAfter(line, word, 0);
    } else if line != "" {
      ContainsIff(line[1..], word);
      if a: nat :| OccursAfter(line[1..], word, a) {
        assert line[a + 1..a + 1 + |word|] == line[1..][a..a + |word|];
        assert OccursAfter(line, word, a + 1);
      }
      if a: nat :| OccursAfter(line, word, a) {
        NotAtStart(line, word, a);
      }
    } else {
      forall a: nat ensures !OccursAfter(line, word, a) {
        NotAtStart(line, word, a);
      }
    }
  }

  /** An occurrence that is not a prefix is one of the tail. */
  lemma NotAtStart(line: string, word: string, a: nat)
    requires !(word <= line)
    ensures OccursAfter(line, word, a) ==> line != "" && a > 0 && OccursAfter(line[1..], word, a - 1)
  {
    assert OccursAfter(line, word, 0) ==> word <= line;
    if OccursAfter(line, word, a) {
      assert line[1..][a - 1..a - 1 + |word|] == line[a..a + |word|];
    }
  }

  // ---------------------------------------------------------------- alignment of lines

  lemma {:induction false} AlignedLines(s: string, t: string, i: nat)
    requires Aligned(s, t)
    ensures |Lines(t)| == |Lines(s)|
    ensures i < |Lines(s)| ==> Aligned(Lines(s)[i], Lines(t)[i])
    decreases |s|
  {
    if s != "" {
      var s', t' := s[1..], t[1..];
      assert Aligned(s', t') by {
        forall k | 0 <= k < |s'| ensures t'[k] == s'[k] || (t'[k] == ' ' && s'[k] != '\n') {
          assert t'[k] == t[k + 1] && s'[k] == s[k + 1];
        }
      }
      AlignedLines(s', t', i);
      if s[0] == '\n' && i > 0 {
        AlignedLines(s', t', i - 1);
      }
    }
  }

  lemma {:induction false} AlignedOffset(s: string, t: string, i: nat)
    requires Aligned(s, t) && |Lines(t)| == |Lines(s)| && i <= |Lines(s)|
    ensures Offset(Lines(t), i) == Offset(Lines(s), i)
  {
    if i > 0 {
      AlignedOffset(s, t, i - 1);
      AlignedLines(s, t, i - 1);
    }
  }

  /** Raw and stripped lines correspond one to one, and both begin at the same byte. */
  lemma LinesCorrespond(m: Mode, src: string, i: nat)
    requires i < |Lines(Run(m, Code, src))|
    ensures var code := Lines(Run(m, Code, src));
            var at := Offset(code, i);
            && i < |Lines(src)|
            && Aligned(Lines(src)[i], code[i])
            && at + |code[i]| <= |src| == |Run(m, Code, src)|
            && src[at..at + |code[i]|] == Lines(src)[i]
            && Run(m, Code, src)[at..at + |code[i]|] == code[i]
  {
    var t := Run(m, Code, src);
    RunAligned(m, Code, src);
    AlignedLines(src, t, i);
    AlignedOffset(src, t, i);
    LineAtOffset(src, i);
    LineAtOffset(t, i);
  }

  // ---------------------------------------------------------------- what suppresses a line

  /** Line `i` is in a migration's Down section: a Down mark at or above it with no Up mark from
      there on. */
  ghost predicate InDown(lines: seq<string>, m: Mode, i: int) {
    && m.Sql?
    && exists j :: 0 <= j <= i < |lines| && DownMark(lines, j) && forall k :: j <= k <= i ==> !UpMark(lines, k)
  }

  predicate DownMark(lines: seq<string>, j: int) {
    0 <= j < |lines| && Contains(lines[j], "+goose Down")
  }

  predicate UpMark(lines: seq<string>, j: int) {
    0 <= j < |lines| && Contains(lines[j], "+goose Up")
  }

  method GooseDownLines(lines: seq<string>, m: Mode) returns (down: seq<bool>)
    ensures |down| == |lines|
    ensures forall i :: 0 <= i < |lines| ==> (down[i] <==> InDown(lines, m, i))
  {
    down := seq(|lines|, _ => false);
    if !m.Sql? {
      return;
    }
    var inDown := false;
    for i := 0 to |lines|
      invariant |down| == |lines|
      invariant inDown <==> InDown(lines, m, i - 1)
      invariant forall k :: 0 <= k < i ==> (down[k] <==> InDown(lines, m, k))
    {
      DownStep(lines, m, i);
      if Contains(lines[i], "+goose Down") {
        inDown := true;
      }
      if Contains(lines[i], "+goose Up") {
        inDown := false;
      }
      down := down[i := inDown];
    }
  }

  lemma DownStep(lines: seq<string>, m: Mode, i: nat)
    requires m.Sql? && i < |lines|
    ensures InDown(lines, m, i) <==> !UpMark(lines, i) && (DownMark(lines, i) || InDown(lines, m, i - 1))
  {
    if InDown(lines, m, i) && !DownMark(lines, i) {
      var j :| 0 <= j <= i < |lines| && DownMark(lines, j) && forall k :: j <= k <= i ==> !UpMark(lines, k);
      assert 0 <= j <= i - 1;
    }
    if InDown(lines, m, i - 1) && !UpMark(lines, i) {
      var j :| 0 <= j <= i - 1 && DownMark(lines, j) && forall k :: j <= k <= i - 1 ==> !UpMark(lines, k);
      assert forall k :: j <= k <= i ==> !UpMark(lines, k);
    }
  }

  predicate Marked(lines: seq<string>, j: int) {
    0 <= j < |lines| && Contains(lines[j], "vocab:allow")
  }

  /** `j` is the nearest marker on line `i` or at most two lines above it. */
  ghost predicate IsNearest(lines: seq<string>, i: nat, j: int) {
    i - 2 <= j <= i && Marked(lines, j) && forall k :: j < k <= i ==> !Marked(lines, k)
  }

  method MarkerLine(lines: seq<string>, i: nat) returns (j: int)
    requires i < |lines|
    ensures j == -1 || IsNearest(lines, i, j)
    ensures j == -1 ==> forall k :: i - 2 <= k <= i ==> !Marked(lines, k)
  {
    j := i;
    while j >= 0 && j >= i - MARKER_LOOKBACK
      invariant -1 <= j <= i
      invariant forall k :: j < k <= i ==> !Marked(lines, k)
    {
      if Contains(lines[j], MARKER) {
        return;
      }
      j := j - 1;
    }
    j := -1;
  }

  ghost predicate AllowedAt(lines: seq<string>, i: nat) {
    exists j :: i - 2 <= j <= i && Marked(lines, j)
  }

  method Allowed(lines: seq<string>, i: nat) returns (ok: bool)
    requires i < |lines|
    ensures ok <==> AllowedAt(lines, i)
  {
    var j := MarkerLine(lines, i);
    ok := j >= 0;
    if ok {
      assert Marked(lines, j);
    }
  }

  ghost predicate Suppressed(lines: seq<string>, m: Mode, i: nat) {
    InDown(lines, m, i) || AllowedAt(lines, i)
  }

  // ---------------------------------------------------------------- what a finding says

  const MAX_TEXT := 160

  /** The bytes of a horizontal ellipsis. */
  const ELLIPSIS := "\U{E2}\U{80}\U{A6}"
  const DOWN_WHY := "goose Down section: a rollback must restore the old world"
  const NO_REASON := "(no reason given)"

  datatype Rule = Rule(name: string, why: string)

  datatype Finding = Finding(path: string, line: nat, rule: string, why: string, text: string)

  /** The file and what is called on it. `hits` is `match`: it is given the stripped line, the whole
      stripped file and where the line begins in it. `trimSpace` is `strings.TrimSpace`, and `trimMark`
      is `strings.TrimLeft` of the characters that may separate a marker from its reason. */
  datatype Lint = Lint(
    path: string,
    mode: Mode,
    hits: (string, string, nat) -> seq<Rule>,
    trimSpace: string -> string,
    trimMark: string -> string)

  function Shown(lint: Lint, raw: string): string {
    var text := lint.trimSpace(raw);
    if |text| > MAX_TEXT then text[..MAX_TEXT] + ELLIPSIS else text
  }

  /** What follows the first occurrence of the word. */
  function CutAfter(line: string, word: string): string
    requires Contains(line, word)
  {
    if word <= line then line[|word|..] else CutAfter(line[1..], word)
  }

  lemma OneFurther(line: string, word: string, k: nat, tail: string)
    requires line != "" && OccursAfter(line[1..], word, k) && line[1..] == line[1..][..k] + word + tail
    ensures OccursAfter(line, word, k + 1) && line == line[..k + 1] + word + tail
  {
    assert line[k + 1..k + 1 + |word|] == line[1..][k..k + |word|];
    assert line == [line[0]] + line[1..];
    assert line[..k + 1] == [line[0]] + line[1..][..k];
  }

  /** The line splits at the first occurrence: nothing earlier is one. */
  lemma {:induction false} CutAfterIs(line: string, word: string) returns (a: nat)
    requires Contains(line, word)
    ensures OccursAfter(line, word, a) && line == line[..a] + word + CutAfter(line, word)
    ensures forall b: nat :: b < a ==> !OccursAfter(line, word, b)
    decreases |line|
  {
    if word <= line {
      a := 0;
    } else {
      var k := CutAfterIs(line[1..], word);
      a := k + 1;
      OneFurther(line, word, k, CutAfter(line[1..], word));
      hide Contains, OccursAfter;
      forall b: nat | b < a ensures !OccursAfter(line, word, b) {
        NotAtStart(line, word, b);
      }
    }
  }

  /** What is shown is the trimmed line, cut to its first hundred and sixty bytes and an ellipsis if it is
      longer. */
  lemma ShownIs(lint: Lint, raw: string)
    ensures var t, shown := lint.trimSpace(raw), Shown(lint, raw);
            && (|t| <= 160 ==> shown == t)
            && (|t| > 160 ==> |shown| == 163 && shown[..160] == t[..160] && shown[160..] == "\U{E2}\U{80}\U{A6}")
  {
  }

  /** The reason is what follows the first marker of the line, trimmed of spaces, of separators and of
      spaces again, or the placeholder when nothing is left. */
  lemma ReasonIs(lint: Lint, line: string, a: nat)
    requires Contains(line, "vocab:allow") && OccursAfter(line, "vocab:allow", a)
    requires forall b: nat :: b < a ==> !OccursAfter(line, "vocab:allow", b)
    ensures var rest := lint.trimSpace(lint.trimMark(lint.trimSpace(line[a + 11..])));
            ReasonOf(lint, line) == if rest == "" then "(no reason given)" else rest
  {
    var k := CutAfterIs(line, MARKER);
    assert k == a;
    assert CutAfter(line, MARKER) == line[a + 11..];
  }

  function ReasonOf(lint: Lint, line: string): string
    requires Contains(line, MARKER)
  {
    var after := lint.trimSpace(lint.trimMark(lint.trimSpace(CutAfter(line, MARKER))));
    if after == "" then NO_REASON else after
  }

  method Reason(lint: Lint, lines: seq<string>, i: nat) returns (why: string)
    requires i < |lines| && AllowedAt(lines, i)
    ensures forall j :: IsNearest(lines, i, j) ==> why == ReasonOf(lint, lines[j])
  {
    var j := MarkerLine(lines, i);
    why := ReasonOf(lint, lines[j]);
  }

  lemma NearestExists(lines: seq<string>, i: nat)
    requires i < |lines| && AllowedAt(lines, i)
    ensures exists j :: IsNearest(lines, i, j)
  {
    var j :| i - 2 <= j <= i && Marked(lines, j);
    if Marked(lines, i) {
      assert IsNearest(lines, i, i);
    } else if Marked(lines, i - 1) {
      assert IsNearest(lines, i, i - 1);
    } else {
      assert IsNearest(lines, i, j);
    }
  }

  /** Why line `i` is reported under `rule`: a Down section before a marker, a marker's reason before the
      rule's own. */
  ghost function WhyAt(lint: Lint, lines: seq<string>, i: nat, rule: Rule): string
    requires i < |lines|
  {
    if InDown(lines, lint.mode, i) then "goose Down section: a rollback must restore the old world"
    else if AllowedAt(lines, i) then
      NearestExists(lines, i);
      var j :| IsNearest(lines, i, j);
      ReasonOf(lint, lines[j])
    else rule.why
  }

  // ---------------------------------------------------------------- the scan

  /** The rules that fire on line `i`. */
  function Fired(lint: Lint, stripped: string, i: nat): seq<Rule>
    requires i < |Lines(stripped)|
  {
    var line := Lines(stripped)[i];
    if lint.trimSpace(line) == "" then [] else lint.hits(line, stripped, Offset(Lines(stripped), i))
  }

  /** What line `i` reports: one finding for each rule that fires on the stripped line, showing the raw
      line. */
  ghost function FoundAt(lint: Lint, src: string, i: nat): seq<Finding>
    requires i < |Lines(Run(lint.mode, Code, src))|
  {
    LinesCorrespond(lint.mode, src, i);
    var rules := Fired(lint, Run(lint.mode, Code, src), i);
    seq(|rules|, k requires 0 <= k < |rules| =>
      Finding(lint.path, i + 1, rules[k].name, WhyAt(lint, Lines(src), i, rules[k]), Shown(lint, Lines(src)[i])))
  }

  /** The findings of the first `n` lines that are suppressed, or the ones that are not. */
  ghost function Findings(lint: Lint, src: string, n: nat, suppressed: bool): seq<Finding>
    requires n <= |Lines(Run(lint.mode, Code, src))|
  {
    if n == 0 then []
    else
      Findings(lint, src, n - 1, suppressed)
      + if Suppressed(Lines(src), lint.mode, n - 1) == suppressed then FoundAt(lint, src, n - 1) else []
  }

  /** The loop over one line's hits. */
  method Report(lint: Lint, rawLines: seq<string>, i: nat, rules: seq<Rule>, down: bool)
    returns (found: seq<Finding>, suppressed: bool)
    requires i < |rawLines| && (down <==> InDown(rawLines, lint.mode, i))
    ensures suppressed <==> Suppressed(rawLines, lint.mode, i)
    ensures |found| == |rules|
    ensures forall k :: 0 <= k < |rules| ==>
              found[k] == Finding(lint.path, i + 1, rules[k].name, WhyAt(lint, rawLines, i, rules[k]),
                                  Shown(lint, rawLines[i]))
  {
    var text := Shown(lint, rawLines[i]);
    var allowed := Allowed(rawLines, i);
    suppressed := down || allowed;
    found := [];
    for k := 0 to |rules|
      invariant |found| == k
      invariant forall j :: 0 <= j < k ==>
                  found[j] == Finding(lint.path, i + 1, rules[j].name, WhyAt(lint, rawLines, i, rules[j]), text)
    {
      var why := rules[k].why;
      if down {
        why := DOWN_WHY;
      } else if allowed {
        why := Reason(lint, rawLines, i);
        NearestExists(rawLines, i);
      }
      found := found + [Finding(lint.path, i + 1, rules[k].name, why, text)];
    }
  }

  /** The body of the loop: the running offset is the true one, and `rawLines[i]` is in range. */
  method ScanLine(lint: Lint, ghost src: string, rawLines: seq<string>, stripped: string,
                  line: string, at: nat, i: nat, down: bool)
    returns (found: seq<Finding>, suppressed: bool)
    requires rawLines == Lines(src) && stripped == Run(lint.mode, Code, src)
    requires i < |Lines(stripped)| && line == Lines(stripped)[i] && at == Offset(Lines(stripped), i)
    requires down <==> InDown(rawLines, lint.mode, i)
    ensures found == FoundAt(lint, src, i)
    ensures suppressed <==> Suppressed(rawLines, lint.mode, i)
  {
    LinesCorrespond(lint.mode, src, i);
    var rules := if lint.trimSpace(line) == "" then [] else lint.hits(line, stripped, at);
    found, suppressed := Report(lint, rawLines, i, rules, down);
    assert rules == Fired(lint, stripped, i);
    hide Run, Lines, WhyAt, Shown, Fired;
    assert found == FoundAt(lint, src, i);
  }

  lemma SameLineCount(m: Mode, src: string)
    ensures |Lines(Run(m, Code, src))| == |Lines(src)|
  {
    RunAligned(m, Code, src);
    AlignedLines(src, Run(m, Code, src), 0);
  }

  lemma NoFindingsYet(lint: Lint, src: string)
    ensures Findings(lint, src, 0, false) == Findings(lint, src, 0, true) == []
  {
  }

  lemma FindingsNext(lint: Lint, src: string, i: nat)
    requires i < |Lines(Run(lint.mode, Code, src))|
    ensures var now, found := Suppressed(Lines(src), lint.mode, i), FoundAt(lint, src, i);
            && Findings(lint, src, i + 1, now) == Findings(lint, src, i, now) + found
            && Findings(lint, src, i + 1, !now) == Findings(lint, src, i, !now)
  {
    hide FoundAt, Suppressed, Run, Lines;
  }

  /** `src` is the file's content; reading it is left to the caller. */
  method ScanFile(lint: Lint, src: string) returns (bad: seq<Finding>, sup: seq<Finding>)
    ensures bad == Findings(lint, src, |Lines(Run(lint.mode, Code, src))|, false)
    ensures sup == Findings(lint, src, |Lines(Run(lint.mode, Code, src))|, true)
  {
    var rawLines := Lines(src);
    var stripped := Strip.Strip(src, lint.mode);
    var code := Lines(stripped);
    var down := GooseDownLines(rawLines, lint.mode);
    SameLineCount(lint.mode, src);
    bad, sup := [], [];
    NoFindingsYet(lint, src);
    hide Findings, Run, Lines, Suppressed, InDown, AllowedAt, FoundAt;
    var lineStart := 0;
    for i := 0 to |code|
      invariant lineStart == Offset(code, i)
      invariant bad == Findings(lint, src, i, false)
      invariant sup == Findings(lint, src, i, true)
    {
      var line, at := code[i], lineStart;
      FindingsNext(lint, src, i);
      lineStart := lineStart + |line| + 1;
      var found, suppressed := ScanLine(lint, src, rawLines, stripped, line, at, i, down[i]);
      if suppressed {
        sup := sup + found;
      } else {
        bad := bad + found;
      }
    }
  }
}
