/** `strip` of `lintvocab`: the lexer that blanks comments and keeps string literals, so that the
    vocabulary rules read code and never prose. Bytes are modelled as `char`. */
module Strip {

  /** The file extension decides the language: `.sql`, `.json`, or everything else. */
  datatype Mode = Sql | Json | Other

  datatype State = Code | LineComment | BlockComment | Str(quote: char)

  // ---------------------------------------------------------------- the lexer, one step at a time

  /** The lookahead byte, NUL at the end of the file. */
  function Next(s: string): char {
    if |s| > 1 then s[1] else '\0'
  }

  predicate OpensLine(m: Mode, c: char, d: char) {
    (m.Sql? && c == '-' && d == '-') || (m.Other? && c == '/' && d == '/')
  }

  predicate OpensBlock(m: Mode, c: char, d: char) {
    m.Other? && c == '/' && d == '*'
  }

  predicate IsQuote(m: Mode, c: char) {
    c == '"' || c == '\'' || (m.Other? && c == '`')
  }

  /** What is written, how many bytes are taken, and the state after them. */
  datatype Move = Move(out: string, take: nat, to: State)

  function Step(m: Mode, st: State, s: string): (mv: Move)
    requires s != ""
    ensures 1 <= mv.take <= |s| && |mv.out| == mv.take
  {
    var c, d := s[0], Next(s);
    match st
    case Code =>
      if OpensLine(m, c, d) then Move("  ", 2, LineComment)
      else if OpensBlock(m, c, d) then Move("  ", 2, BlockComment)
      else if IsQuote(m, c) then Move([c], 1, Str(c))
      else Move([c], 1, Code)
    case LineComment =>
      if c == '\n' then Move([c], 1, Code) else Move(" ", 1, LineComment)
    case BlockComment =>
      if c == '*' && d == '/' then Move("  ", 2, Code)
      else if c == '\n' then Move([c], 1, BlockComment)
      else Move(" ", 1, BlockComment)
    case Str(q) =>
      if c == '\\' && q != '\'' && |s| > 1 then Move([c, d], 2, st)
      else if c == q then
        if m.Sql? && q == '\'' && d == '\'' then Move([c, d], 2, st) else Move([c], 1, Code)
      else Move([c], 1, st)
  }

  function Run(m: Mode, st: State, s: string): string
    decreases |s|
  {
    if s == "" then ""
    else
      var mv := Step(m, st, s);
      mv.out + Run(m, mv.to, s[mv.take..])
  }

  /** The loop of the source: `state`, `quote`, `i` and the builder `b`. */
  method Strip(src: string, m: Mode) returns (b: string)
    ensures b == Run(m, Code, src)
  {
    b := "";
    var state, i := Code, 0;
    while i < |src|
      invariant i <= |src|
      invariant b + Run(m, state, src[i..]) == Run(m, Code, src)
    {
      var rest := src[i..];
      var c, next := rest[0], Next(rest);
      ghost var mv := Step(m, state, rest);
      ghost var b0 := b;
      var wrote, two := [c], false;
      match state {
        case Code =>
          if (m.Sql? && c == '-' && next == '-') || (m.Other? && c == '/' && next == '/') {
            state, wrote, two := LineComment, "  ", true;
          } else if m.Other? && c == '/' && next == '*' {
            state, wrote, two := BlockComment, "  ", true;
          } else if c == '"' || c == '\'' || (m.Other? && c == '`') {
            state := Str(c);
          }
        case LineComment =>
          if c == '\n' {
            state := Code;
          } else {
            wrote := " ";
          }
        case BlockComment =>
          if c == '*' && next == '/' {
            state, wrote, two := Code, "  ", true;
          } else if c != '\n' {
            wrote := " ";
          }
        case Str(quote) =>
          if c == '\\' && quote != '\'' && i + 1 < |src| {
            wrote, two := [c, next], true;
          } else if c == quote {
            if m.Sql? && quote == '\'' && next == '\'' {
              wrote, two := [c, next], true;
            } else {
              state := Code;
            }
          }
      }
      assert mv == Move(wrote, if two then 2 else 1, state);
      b := b + wrote;
      i := i + 1;
      if two {
        i := i + 1;
      }
      Advance(b0, wrote, Run(m, state, src[i..]));
      assert rest[mv.take..] == src[i..];
    }
    assert src[i..] == "";
  }

  lemma Advance(b: string, out: string, tail: string)
    ensures b + (out + tail) == (b + out) + tail
  {
  }

  // ---------------------------------------------------------------- alignment

  /** `t` is `s` with some bytes other than newlines blanked: every byte offset and every line
      number means the same in both. */
  ghost predicate Aligned(s: string, t: string) {
    |t| == |s| && forall k :: 0 <= k < |s| ==> t[k] == s[k] || (t[k] == ' ' && s[k] != '\n')
  }

  lemma {:induction false} RunAligned(m: Mode, st: State, s: string)
    ensures Aligned(s, Run(m, st, s))
    decreases |s|
  {
    if s != "" {
      var mv := Step(m, st, s);
      var tail := s[mv.take..];
      RunAligned(m, mv.to, tail);
      var t := mv.out + Run(m, mv.to, tail);
      forall k | 0 <= k < |s| ensures t[k] == s[k] || (t[k] == ' ' && s[k] != '\n') {
        if k >= mv.take {
          assert s[k] == tail[k - mv.take];
          assert t[k] == Run(m, mv.to, tail)[k - mv.take];
        }
      }
    }
  }

  // ---------------------------------------------------------------- idempotence

  /** The state a second run is in where the first was in `st`: comments are gone, so it sees code. */
  function Again(st: State): State {
    if st.Str? then st else Code
  }

  lemma RunCons(m: Mode, st: State, s: string, mv: Move, tail: string)
    requires s != "" && Step(m, st, s) == mv && s[mv.take..] == tail
    ensures Run(m, st, s) == mv.out + Run(m, mv.to, tail)
  {
  }

  /** A byte that opens nothing is copied. */
  lemma RunCopies(m: Mode, c: char, u: string)
    requires !IsQuote(m, c) && !OpensLine(m, c, Next([c] + u)) && !OpensBlock(m, c, Next([c] + u))
    ensures Run(m, Code, [c] + u) == [c] + Run(m, Code, u)
  {
    RunCons(m, Code, [c] + u, Move([c], 1, Code), u);
  }

  /** Two runs step together: what the first wrote, the second copies. */
  lemma {:induction false} RunAgain(m: Mode, st: State, s: string)
    ensures Run(m, Again(st), Run(m, st, s)) == Run(m, st, s)
    decreases |s|
  {
    if s != "" {
      var mv := Step(m, st, s);
      RunAgain(m, mv.to, s[mv.take..]);
      RunAligned(m, mv.to, s[mv.take..]);
      StepAgain(m, st, s, mv, Run(m, mv.to, s[mv.take..]));
    }
  }

  lemma StepAgain(m: Mode, st: State, s: string, mv: Move, u: string)
    requires s != "" && mv == Step(m, st, s)
    requires Aligned(s[mv.take..], u) && Run(m, Again(mv.to), u) == u
    ensures Run(m, Again(st), mv.out + u) == mv.out + u
  {
    match st
    case Str(q) =>
      StepAgainStr(m, st, s, mv, u);
    case Code =>
      StepAgainCode(m, s, mv, u);
    case _ =>
      if mv.take == 2 {
        TwoBlanks(m, u);
      } else {
        RunCopies(m, mv.out[0], u);
      }
  }

  lemma TwoBlanks(m: Mode, u: string)
    ensures Run(m, Code, "  " + u) == "  " + Run(m, Code, u)
  {
    assert "  " + u == [' '] + ([' '] + u);
    RunCopies(m, ' ', [' '] + u);
    RunCopies(m, ' ', u);
    assert "  " + Run(m, Code, u) == [' '] + ([' '] + Run(m, Code, u));
  }

  lemma StepAgainCode(m: Mode, s: string, mv: Move, u: string)
    requires s != "" && mv == Step(m, Code, s)
    requires Aligned(s[mv.take..], u) && Run(m, Again(mv.to), u) == u
    ensures Run(m, Code, mv.out + u) == mv.out + u
  {
    assert |s| > 1 && mv.take == 1 ==> u[0] == s[1] || u[0] == ' ';
    if mv.take == 2 {
      TwoBlanks(m, u);
    } else if mv.to.Str? {
      RunCons(m, Code, mv.out + u, mv, u);
    } else {
      RunCopies(m, s[0], u);
    }
  }

  lemma StepAgainStr(m: Mode, st: State, s: string, mv: Move, u: string)
    requires st.Str? && s != "" && mv == Step(m, st, s)
    requires Aligned(s[mv.take..], u) && Run(m, Again(mv.to), u) == u
    ensures Run(m, st, mv.out + u) == mv.out + u
  {
    var t := mv.out + u;
    assert |s| > mv.take ==> u[0] == s[mv.take] || u[0] == ' ';
    assert Step(m, st, t) == mv;
    RunCons(m, st, t, mv, u);
  }

  lemma StripIsIdempotent(m: Mode, s: string)
    ensures Run(m, Code, Run(m, Code, s)) == Run(m, Code, s)
  {
    RunAgain(m, Code, s);
  }

  // ---------------------------------------------------------------- tokens

  /** What source text is made of. The last two are a literal or a comment the file ends inside. */
  datatype Tok =
    | Plain(c: char)
    | Quote(q: char, body: string)
    | Line(body: string)
    | Block(body: string)
    | OpenQuote(q: char, body: string)
    | OpenBlock(body: string)

  // The grammar is written on its own, and shares no test with the lexer.

  /** The bytes that delimit a literal: both quotes everywhere, and the backtick of a Go raw string or a
      template literal where the language is neither SQL nor JSON. */
  predicate Delimits(m: Mode, q: char) {
    q in (if m == Other then {'"', '\'', '`'} else {'"', '\''})
  }

  /** The text begins a comment: two dashes in SQL, either Go opener in the others, nothing in JSON. */
  predicate BeginsComment(m: Mode, text: string) {
    match m
    case Sql => "--" <= text
    case Json => false
    case Other => "//" <= text || "/*" <= text
  }

  function LineOpener(m: Mode): string {
    if m.Sql? then "--" else "//"
  }

  /** The token followed by the text `rest`. */
  function RenderTok(m: Mode, t: Tok, rest: string): string {
    match t
    case Plain(c) => [c] + rest
    case Quote(q, body) => [q] + (body + ([q] + rest))
    case Line(body) => LineOpener(m) + (body + rest)
    case Block(body) => "/*" + (body + ("*/" + rest))
    case OpenQuote(q, body) => [q] + (body + rest)
    case OpenBlock(body) => "/*" + (body + rest)
  }

  /** A comment's text with everything but its newlines blanked. */
  function Blank(s: string): string {
    seq(|s|, i requires 0 <= i < |s| => if s[i] == '\n' then '\n' else ' ')
  }

  /** What should be left of the token: code and literals whole, comments blanked. */
  function EraseTok(t: Tok, rest: string): string {
    match t
    case Plain(c) => [c] + rest
    case Quote(q, body) => [q] + (body + ([q] + rest))
    case Line(body) => "  " + (Blank(body) + rest)
    case Block(body) => "  " + (Blank(body) + ("  " + rest))
    case OpenQuote(q, body) => [q] + (body + rest)
    case OpenBlock(body) => "  " + (Blank(body) + rest)
  }

  /** How many bytes the literal's next piece takes: an escape unless the quote is `'`, a doubled
      quote in SQL, nothing at the closing quote, or one byte. */
  function Piece(m: Mode, q: char, s: string): nat
    requires s != ""
  {
    if s[0] == '\\' && q != '\'' then 2
    else if s[0] == q then (if m.Sql? && q == '\'' && |s| > 1 && s[1] == '\'' then 2 else 0)
    else 1
  }

  predicate WfQuoted(m: Mode, q: char, b: string)
    decreases |b|
  {
    b == "" || (1 <= Piece(m, q, b) <= |b| && WfQuoted(m, q, b[Piece(m, q, b)..]))
  }

  /** The same at the end of the file, where a lone final backslash is possible. */
  predicate WfUnclosed(m: Mode, q: char, b: string)
    decreases |b|
  {
    b == "" || (|b| == 1 && b[0] == '\\' && q != '\'')
    || (1 <= Piece(m, q, b) <= |b| && WfUnclosed(m, q, b[Piece(m, q, b)..]))
  }

  predicate NoClose(b: string) {
    b == "" || (!("*/" <= b) && NoClose(b[1..]))
  }

  /** The token is one of its language and what follows does not change how it reads. */
  predicate WfTok(m: Mode, t: Tok, rest: string) {
    match t
    case Plain(c) => !Delimits(m, c) && !BeginsComment(m, [c] + rest)
    case Quote(q, body) =>
      Delimits(m, q) && WfQuoted(m, q, body) && (m.Sql? && q == '\'' && rest != "" ==> rest[0] != '\'')
    case Line(body) => !m.Json? && '\n' !in body && (rest != "" ==> rest[0] == '\n')
    case Block(body) => m.Other? && NoClose(body)
    case OpenQuote(q, body) => rest == "" && Delimits(m, q) && WfUnclosed(m, q, body)
    case OpenBlock(body) => rest == "" && m.Other? && NoClose(body)
  }

  function Render(m: Mode, toks: seq<Tok>): string {
    if toks == [] then "" else RenderTok(m, toks[0], Render(m, toks[1..]))
  }

  function Erase(toks: seq<Tok>): string {
    if toks == [] then "" else EraseTok(toks[0], Erase(toks[1..]))
  }

  predicate Wf(m: Mode, toks: seq<Tok>) {
    toks == [] || (WfTok(m, toks[0], Render(m, toks[1..])) && Wf(m, toks[1..]))
  }

  lemma PieceIsCopied(m: Mode, q: char, s: string, n: nat)
    requires s != "" && q != '\\' && n == Piece(m, q, s) && 1 <= n <= |s|
    ensures Run(m, Str(q), s) == s[..n] + Run(m, Str(q), s[n..])
  {
    RunCons(m, Str(q), s, Move(s[..n], n, Str(q)), s[n..]);
  }

  lemma PieceOfPrefix(m: Mode, q: char, b: string, tail: string, n: nat)
    requires b != "" && n == Piece(m, q, b) && 1 <= n <= |b|
    ensures Piece(m, q, b + tail) == n
    ensures (b + tail)[..n] == b[..n] && (b + tail)[n..] == b[n..] + tail
  {
  }

  lemma {:induction false} RunPieces(m: Mode, q: char, b: string, tail: string)
    requires WfQuoted(m, q, b) && q != '\\'
    ensures Run(m, Str(q), b + tail) == b + Run(m, Str(q), tail)
    decreases |b|
  {
    if b == "" {
      assert b + tail == tail && b + Run(m, Str(q), tail) == Run(m, Str(q), tail);
    } else {
      var n := Piece(m, q, b);
      PieceOfPrefix(m, q, b, tail, n);
      PieceIsCopied(m, q, b + tail, n);
      RunPieces(m, q, b[n..], tail);
      Advance(b[..n], b[n..], Run(m, Str(q), tail));
      assert b[..n] + b[n..] == b;
    }
  }

  lemma RunQuoted(m: Mode, q: char, b: string, rest: string)
    requires WfQuoted(m, q, b) && q != '\\'
    requires m.Sql? && q == '\'' && rest != "" ==> rest[0] != '\''
    ensures Run(m, Str(q), b + ([q] + rest)) == b + ([q] + Run(m, Code, rest))
  {
    RunPieces(m, q, b, [q] + rest);
    RunCons(m, Str(q), [q] + rest, Move([q], 1, Code), rest);
  }

  lemma LoneBackslash(m: Mode, q: char)
    requires q != '\''  && q != '\\'
    ensures Run(m, Str(q), ['\\']) == ['\\']
  {
    RunCons(m, Str(q), ['\\'], Move(['\\'], 1, Str(q)), "");
  }

  lemma {:induction false} RunUnclosed(m: Mode, q: char, b: string)
    requires WfUnclosed(m, q, b) && q != '\\'
    ensures Run(m, Str(q), b) == b
    decreases |b|
  {
    if b == "" {
    } else if |b| == 1 && b[0] == '\\' && q != '\'' {
      LoneBackslash(m, q);
      assert b == ['\\'];
    } else {
      var n := Piece(m, q, b);
      calc {
        Run(m, Str(q), b);
        { PieceIsCopied(m, q, b, n); }
        b[..n] + Run(m, Str(q), b[n..]);
        { RunUnclosed(m, q, b[n..]); }
        b[..n] + b[n..];
        b;
      }
    }
  }

  lemma {:induction false} RunLine(m: Mode, b: string, rest: string)
    requires '\n' !in b && (rest != "" ==> rest[0] == '\n')
    ensures Run(m, LineComment, b + rest) == Blank(b) + Run(m, Code, rest)
    decreases |b|
  {
    var s := b + rest;
    if b == "" {
      assert s == rest && Blank(b) + Run(m, Code, rest) == Run(m, Code, rest);
      if rest != "" {
        RunCons(m, LineComment, rest, Move("\n", 1, Code), rest[1..]);
        RunCons(m, Code, rest, Move("\n", 1, Code), rest[1..]);
      }
    } else {
      assert b[0] in b;
      assert s[1..] == b[1..] + rest;
      RunLine(m, b[1..], rest);
      RunCons(m, LineComment, s, Move(" ", 1, LineComment), s[1..]);
      assert Blank(b) == " " + Blank(b[1..]);
      Advance(" ", Blank(b[1..]), Run(m, Code, rest));
    }
  }

  lemma BlockByteIsBlanked(m: Mode, s: string)
    requires s != "" && !("*/" <= s)
    ensures Run(m, BlockComment, s) == Blank([s[0]]) + Run(m, BlockComment, s[1..])
  {
    RunCons(m, BlockComment, s, Move(Blank([s[0]]), 1, BlockComment), s[1..]);
  }

  lemma {:induction false} RunBlock(m: Mode, b: string, tail: string)
    requires NoClose(b) && (tail != "" ==> tail[0] == '*')
    ensures Run(m, BlockComment, b + tail) == Blank(b) + Run(m, BlockComment, tail)
    decreases |b|
  {
    if b == "" {
      assert b + tail == tail && Blank(b) + Run(m, BlockComment, tail) == Run(m, BlockComment, tail);
    } else {
      var s, left := b + tail, Run(m, BlockComment, tail);
      calc {
        Run(m, BlockComment, s);
        { assert s[0] == b[0]; BlockByteIsBlanked(m, s); }
        Blank([b[0]]) + Run(m, BlockComment, s[1..]);
        { assert s[1..] == b[1..] + tail; RunBlock(m, b[1..], tail); }
        Blank([b[0]]) + (Blank(b[1..]) + left);
        { Advance(Blank([b[0]]), Blank(b[1..]), left); }
        (Blank([b[0]]) + Blank(b[1..])) + left;
        { assert Blank([b[0]]) + Blank(b[1..]) == Blank(b); }
        Blank(b) + left;
      }
    }
  }

  /** One token: the lexer leaves code where the token ends. */
  lemma RunTok(m: Mode, t: Tok, rest: string)
    requires WfTok(m, t, rest)
    ensures Run(m, Code, RenderTok(m, t, rest)) == EraseTok(t, Run(m, Code, rest))
  {
    var s := RenderTok(m, t, rest);
    match t
    case Plain(c) =>
      RunCopies(m, c, rest);
    case Quote(q, body) =>
      RunCons(m, Code, s, Move([q], 1, Str(q)), body + ([q] + rest));
      RunQuoted(m, q, body, rest);
    case Line(body) =>
      RunCons(m, Code, s, Move("  ", 2, LineComment), body + rest);
      RunLine(m, body, rest);
    case Block(body) =>
      RunCons(m, Code, s, Move("  ", 2, BlockComment), body + ("*/" + rest));
      RunBlock(m, body, "*/" + rest);
      RunCons(m, BlockComment, "*/" + rest, Move("  ", 2, Code), rest);
    case OpenQuote(q, body) =>
      assert body + rest == body;
      RunCons(m, Code, s, Move([q], 1, Str(q)), body);
      RunUnclosed(m, q, body);
      assert body + Run(m, Code, rest) == body;
    case OpenBlock(body) =>
      RunCons(m, Code, s, Move("  ", 2, BlockComment), body + rest);
      RunBlock(m, body, rest);
  }

  /** Stripping the text of well-formed tokens blanks exactly the comments. */
  lemma {:induction false} StripErases(m: Mode, toks: seq<Tok>)
    requires Wf(m, toks)
    ensures Run(m, Code, Render(m, toks)) == Erase(toks)
    decreases |toks|
  {
    if toks != [] {
      StripErases(m, toks[1..]);
      RunTok(m, toks[0], Render(m, toks[1..]));
    }
  }

  /** A literal without its delimiter, a backslash or a newline in it is kept whole, whatever it looks
      like inside: `"`, `'` and, outside SQL and JSON, a backtick. */
  lemma {:induction false} LiteralIsKept(m: Mode, q: char, body: string, rest: string)
    requires q == '"' || q == '\'' || (q == '`' && m == Other)
    requires forall c :: c in body ==> c != q && c != '\\' && c != '\n'
    requires m == Sql && q == '\'' ==> !("'" <= rest)
    ensures Run(m, Code, [q] + (body + ([q] + rest))) == [q] + (body + ([q] + Run(m, Code, rest)))
  {
    PlainBody(m, q, body);
    RunTok(m, Quote(q, body), rest);
  }

  lemma {:induction false} PlainBody(m: Mode, q: char, body: string)
    requires forall c :: c in body ==> c != q && c != '\\'
    ensures WfQuoted(m, q, body)
    decreases |body|
  {
    if body != "" {
      assert body[0] in body;
      assert forall c :: c in body[1..] ==> c in body;
      PlainBody(m, q, body[1..]);
    }
  }

  /** In SQL and in JSON a backtick opens nothing. */
  lemma BacktickIsCode(m: Mode, rest: string)
    requires m != Other
    ensures Run(m, Code, "`" + rest) == "`" + Run(m, Code, rest)
  {
    assert ("`" + rest)[0] == '`';
    RunTok(m, Plain('`'), rest);
  }

  // ---------------------------------------------------------------- every text has tokens

  /** The length of the literal's inside, or all of `s` when it does not close. */
  function QuotedLen(m: Mode, q: char, s: string): (n: nat)
    ensures n <= |s|
    decreases |s|
  {
    if s == "" then 0
    else
      var n := Piece(m, q, s);
      if n == 0 then 0 else if n > |s| then |s| else n + QuotedLen(m, q, s[n..])
  }

  function LineLen(s: string): (n: nat)
    ensures n <= |s|
  {
    if s == "" || s[0] == '\n' then 0 else 1 + LineLen(s[1..])
  }

  function BlockLen(s: string): (n: nat)
    ensures n <= |s|
  {
    if s == "" || "*/" <= s then 0 else 1 + BlockLen(s[1..])
  }

  lemma PieceOfTake(m: Mode, q: char, s: string, k: nat, n: nat)
    requires s != "" && k == Piece(m, q, s) && 1 <= k <= n <= |s|
    ensures Piece(m, q, s[..n]) == k && s[..n][k..] == s[k..][..n - k]
  {
  }

  lemma {:induction false} QuotedCloses(m: Mode, q: char, s: string, n: nat)
    requires n == QuotedLen(m, q, s) < |s|
    ensures WfQuoted(m, q, s[..n]) && s[n] == q
    ensures n + 1 < |s| && m.Sql? && q == '\'' ==> s[n + 1] != '\''
    decreases |s|
  {
    var k := Piece(m, q, s);
    if k > 0 {
      QuotedCloses(m, q, s[k..], n - k);
      PieceOfTake(m, q, s, k, n);
    }
  }

  lemma {:induction false} QuotedRunsOut(m: Mode, q: char, s: string)
    requires QuotedLen(m, q, s) == |s|
    ensures WfUnclosed(m, q, s)
    decreases |s|
  {
    if s != "" {
      var k := Piece(m, q, s);
      if 1 <= k <= |s| {
        QuotedRunsOut(m, q, s[k..]);
      } else {
        assert s == [s[0]];
      }
    }
  }

  lemma {:induction false} LineSplits(s: string)
    ensures '\n' !in s[..LineLen(s)]
    ensures LineLen(s) < |s| ==> s[LineLen(s)] == '\n'
  {
    if s != "" && s[0] != '\n' {
      LineSplits(s[1..]);
      assert s[..LineLen(s)] == [s[0]] + s[1..][..LineLen(s[1..])];
    }
  }

  lemma {:induction false} BlockSplits(s: string)
    ensures NoClose(s[..BlockLen(s)])
    ensures BlockLen(s) < |s| ==> |s| >= BlockLen(s) + 2 && s[BlockLen(s)] == '*' && s[BlockLen(s) + 1] == '/'
  {
    if s != "" && !("*/" <= s) {
      BlockSplits(s[1..]);
      assert s[..BlockLen(s)][1..] == s[1..][..BlockLen(s[1..])];
    }
  }

  /** The first token of non-empty text, and the text after it. */
  lemma FirstTok(m: Mode, s: string) returns (t: Tok, rest: string)
    requires s != ""
    ensures WfTok(m, t, rest) && s == RenderTok(m, t, rest) && |rest| < |s|
  {
    var c := s[0];
    var tail := s[1..];
    assert s == [c] + tail;
    if m != Json && LineOpener(m) <= s {
      var n := LineLen(s[2..]);
      LineSplits(s[2..]);
      t, rest := Line(s[2..][..n]), s[2..][n..];
      assert s == LineOpener(m) + s[2..];
      assert s[2..] == s[2..][..n] + s[2..][n..];
    } else if m == Other && "/*" <= s {
      t, rest := FirstBlock(m, s);
    } else if Delimits(m, c) {
      t, rest := FirstQuote(m, s);
    } else {
      t, rest := Plain(c), tail;
    }
  }

  lemma FirstBlock(m: Mode, s: string) returns (t: Tok, rest: string)
    requires m == Other && "/*" <= s
    ensures WfTok(m, t, rest) && s == RenderTok(m, t, rest) && |rest| < |s|
  {
    var u := s[2..];
    var n := BlockLen(u);
    BlockSplits(u);
    hide NoClose, BlockLen;
    assert s == "/*" + u;
    assert u == u[..n] + u[n..];
    if n < |u| {
      t, rest := Block(u[..n]), u[n + 2..];
      assert u[n..] == "*/" + rest;
    } else {
      t, rest := OpenBlock(u[..n]), u[n..];
    }
  }

  lemma FirstQuote(m: Mode, s: string) returns (t: Tok, rest: string)
    requires s != "" && Delimits(m, s[0])
    ensures WfTok(m, t, rest) && s == RenderTok(m, t, rest) && |rest| < |s|
  {
    var u := s[1..];
    var n := QuotedLen(m, s[0], u);
    assert s == [s[0]] + u;
    assert u == u[..n] + u[n..];
    if n < |u| {
      QuotedCloses(m, s[0], u, n);
      t, rest := Quote(s[0], u[..n]), u[n + 1..];
      assert u[n..] == [s[0]] + rest;
    } else {
      QuotedRunsOut(m, s[0], u);
      t, rest := OpenQuote(s[0], u), "";
      assert u + "" == u;
    }
  }

  /** Every text is the rendering of well-formed tokens, so `StripErases` speaks about every file. */
  lemma {:induction false} EveryTextHasTokens(m: Mode, s: string) returns (toks: seq<Tok>)
    ensures Wf(m, toks) && Render(m, toks) == s
    ensures Run(m, Code, s) == Erase(toks)
    decreases |s|
  {
    if s == "" {
      toks := [];
    } else {
      var t, rest := FirstTok(m, s);
      var more := EveryTextHasTokens(m, rest);
      toks := [t] + more;
      assert toks[1..] == more;
      StripErases(m, toks);
    }
  }
}
