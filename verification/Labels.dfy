/** `renderLabels` of `groupreplay` and the upstream group key built from it.

    A Go string here came out of a JSON decoder, so it is valid UTF-8 and is modelled as a sequence
    of Unicode scalars. `strconv.Quote` is modelled concretely, over an arbitrary `printable`
    predicate; `slices.Sorted` by its contract, that it lists a set without repetition. */
module Labels {
  import opened Wrappers

  datatype Lib = Lib(printable: char -> bool, sorted: set<string> -> seq<string>) {
    ghost predicate Valid() {
      && !printable('\0')
      && forall s: set<string> :: IsListing(sorted(s), s)
    }
  }

  ghost predicate IsListing(names: seq<string>, s: set<string>) {
    && (forall n :: n in names <==> n in s)
    && forall i, j :: 0 <= i < j < |names| ==> names[i] != names[j]
  }

  // ---------------------------------------------------------------- strconv.Quote

  function Hex(d: nat): char
    requires d < 16
  {
    if d < 10 then '0' + d as char else 'a' + (d - 10) as char
  }

  /** The `n` low hexadecimal digits of `v`, followed by `rest`. */
  function HexOnto(v: nat, n: nat, rest: string): string
    decreases n
  {
    if n == 0 then rest else HexOnto(v / 16, n - 1, [Hex(v % 16)] + rest)
  }

  /** The letter of a short escape. */
  function Short(c: char): Option<char> {
    match c as int
    case 7 => Some('a')
    case 8 => Some('b')
    case 9 => Some('t')
    case 10 => Some('n')
    case 11 => Some('v')
    case 12 => Some('f')
    case 13 => Some('r')
    case _ => None
  }

  /** How `strconv.Quote` writes a scalar: as it is, a backslash and a letter, or a backslash, a
      letter and so many hexadecimal digits. */
  datatype Form = Verbatim | Escaped(letter: char) | Coded(letter: char, digits: nat)

  function FormOf(printable: char -> bool, c: char): Form {
    if c == '"' || c == '\\' then Escaped(c)
    else if printable(c) then Verbatim
    else if Short(c).Some? then Escaped(Short(c).value)
    else if c < ' ' || c as int == 0x7f then Coded('x', 2)
    else if c as int < 0x10000 then Coded('u', 4)
    else Coded('U', 8)
  }

  function EscapeOnto(printable: char -> bool, c: char, rest: string): string {
    match FormOf(printable, c)
    case Verbatim => [c] + rest
    case Escaped(letter) => ['\\'] + ([letter] + rest)
    case Coded(letter, digits) => ['\\'] + ([letter] + HexOnto(c as int, digits, rest))
  }

  function BodyOnto(printable: char -> bool, s: string, rest: string): string {
    if s == "" then rest else EscapeOnto(printable, s[0], BodyOnto(printable, s[1..], rest))
  }

  function QuoteOnto(printable: char -> bool, s: string, rest: string): string {
    ['"'] + BodyOnto(printable, s, ['"'] + rest)
  }

  // ---------------------------------------------------------------- nothing is lost

  function Pow16(n: nat): nat {
    if n == 0 then 1 else 16 * Pow16(n - 1)
  }

  lemma HeadAndTail(c: char, s: string, d: char, t: string)
    ensures [c] + s == [d] + t ==> c == d && s == t
  {
    assert ([c] + s)[0] == c && ([d] + t)[0] == d;
    assert ([c] + s)[1..] == s && ([d] + t)[1..] == t;
  }

  lemma {:induction false} HexInjective(v: nat, w: nat, n: nat, s: string, t: string)
    requires v < Pow16(n) && w < Pow16(n)
    ensures HexOnto(v, n, s) == HexOnto(w, n, t) ==> v == w && s == t
    decreases n
  {
    if n > 0 {
      HexInjective(v / 16, w / 16, n - 1, [Hex(v % 16)] + s, [Hex(w % 16)] + t);
      HeadAndTail(Hex(v % 16), s, Hex(w % 16), t);
    }
  }

  lemma FitsItsDigits(printable: char -> bool, c: char)
    ensures var f := FormOf(printable, c); f.Coded? ==> c as int < Pow16(f.digits)
  {
    assert Pow16(2) == 0x100;
    assert Pow16(4) == 256 * Pow16(2);
    assert Pow16(8) == 256 * (256 * Pow16(4));
  }

  /** The letter after a backslash says which escape it is. */
  lemma LetterDecides(printable: char -> bool, c: char, d: char)
    ensures var f, g := FormOf(printable, c), FormOf(printable, d);
            !f.Verbatim? && !g.Verbatim? && f.letter == g.letter ==> f == g && (f.Escaped? ==> c == d)
  {
  }

  lemma EscapeInjective(printable: char -> bool, c: char, s: string, d: char, t: string)
    ensures EscapeOnto(printable, c, s) == EscapeOnto(printable, d, t) ==> c == d && s == t
  {
    var f, g := FormOf(printable, c), FormOf(printable, d);
    if f.Verbatim? || g.Verbatim? {
      HeadsDiffer(printable, c, s, d, t);
    } else {
      LetterDecides(printable, c, d);
      FitsItsDigits(printable, c);
      FitsItsDigits(printable, d);
      var u := if f.Escaped? then s else HexOnto(c as int, f.digits, s);
      var v := if g.Escaped? then t else HexOnto(d as int, g.digits, t);
      HeadAndTail('\\', [f.letter] + u, '\\', [g.letter] + v);
      HeadAndTail(f.letter, u, g.letter, v);
      if f == g && f.Coded? {
        HexInjective(c as int, d as int, f.digits, s, t);
      }
    }
  }

  lemma HeadsDiffer(printable: char -> bool, c: char, s: string, d: char, t: string)
    requires FormOf(printable, c).Verbatim? || FormOf(printable, d).Verbatim?
    ensures EscapeOnto(printable, c, s) == EscapeOnto(printable, d, t) ==> c == d && s == t
  {
    var x, y := EscapeOnto(printable, c, s), EscapeOnto(printable, d, t);
    assert x[0] == (if FormOf(printable, c).Verbatim? then c else '\\');
    assert y[0] == (if FormOf(printable, d).Verbatim? then d else '\\');
    HeadAndTail(c, s, d, t);
  }

  lemma EscapeIsNoQuote(printable: char -> bool, c: char, s: string)
    ensures EscapeOnto(printable, c, s) != "" && EscapeOnto(printable, c, s)[0] != '"'
  {
  }

  lemma {:induction false} BodyInjective(printable: char -> bool, a: string, x: string, b: string, y: string)
    ensures BodyOnto(printable, a, ['"'] + x) == BodyOnto(printable, b, ['"'] + y) ==> a == b && x == y
    decreases |a|
  {
    if a == "" && b == "" {
      HeadAndTail('"', x, '"', y);
    } else if a == "" {
      EscapeIsNoQuote(printable, b[0], BodyOnto(printable, b[1..], ['"'] + y));
    } else if b == "" {
      EscapeIsNoQuote(printable, a[0], BodyOnto(printable, a[1..], ['"'] + x));
    } else {
      EscapeInjective(printable, a[0], BodyOnto(printable, a[1..], ['"'] + x),
                      b[0], BodyOnto(printable, b[1..], ['"'] + y));
      BodyInjective(printable, a[1..], x, b[1..], y);
      assert a == [a[0]] + a[1..] && b == [b[0]] + b[1..];
    }
  }

  /** A quoted string can be cut off the front of a text in one way only. */
  lemma QuoteInjective(printable: char -> bool, a: string, x: string, b: string, y: string)
    ensures QuoteOnto(printable, a, x) == QuoteOnto(printable, b, y) ==> a == b && x == y
  {
    HeadAndTail('"', BodyOnto(printable, a, ['"'] + x), '"', BodyOnto(printable, b, ['"'] + y));
    BodyInjective(printable, a, x, b, y);
  }

  // ---------------------------------------------------------------- reading a quoted string back

  /** The value of a hexadecimal digit. */
  function DigitValue(c: char): Option<nat> {
    var n := c as int;
    if 48 <= n <= 57 then Some(n - 48) else if 97 <= n <= 102 then Some(n - 87) else None
  }

  /** `n` hexadecimal digits after the value read so far. */
  function ReadHex(text: string, n: nat, value: nat): Option<(nat, string)>
    decreases n
  {
    if n == 0 then Some((value, text))
    else if text == "" || DigitValue(text[0]).None? then None
    else ReadHex(text[1..], n - 1, 16 * value + DigitValue(text[0]).value)
  }

  /** One scalar of a Go string literal, by its code, and what follows: Go's escapes, written out. */
  function ReadScalar(text: string): Option<(nat, string)> {
    if text == "" || text[0] == '"' then None
    else if text[0] != '\\' then Some((text[0] as int, text[1..]))
    else if |text| == 1 then None
    else
      match text[1]
      case 'a' => Some((7, text[2..]))
      case 'b' => Some((8, text[2..]))
      case 't' => Some((9, text[2..]))
      case 'n' => Some((10, text[2..]))
      case 'v' => Some((11, text[2..]))
      case 'f' => Some((12, text[2..]))
      case 'r' => Some((13, text[2..]))
      case '"' => Some((34, text[2..]))
      case '\\' => Some((92, text[2..]))
      case 'x' => ReadHex(text[2..], 2, 0)
      case 'u' => ReadHex(text[2..], 4, 0)
      case 'U' => ReadHex(text[2..], 8, 0)
      case _ => None
  }

  function Codes(s: string): seq<nat> {
    seq(|s|, i requires 0 <= i < |s| => s[i] as int)
  }

  lemma {:induction false} HexReadsBack(v: nat, n: nat, rest: string, m: nat)
    requires v < Pow16(n)
    ensures ReadHex(HexOnto(v, n, rest), n + m, 0) == ReadHex(rest, m, v)
    decreases n
  {
    if n > 0 {
      var more := [Hex(v % 16)] + rest;
      HexReadsBack(v / 16, n - 1, more, m + 1);
      assert more[1..] == rest && DigitValue(Hex(v % 16)) == Some(v % 16);
    }
  }

  lemma CodedReadsBack(printable: char -> bool, c: char, rest: string)
    requires FormOf(printable, c).Coded?
    ensures ReadScalar(EscapeOnto(printable, c, rest)) == Some((c as int, rest))
  {
    var text, f := EscapeOnto(printable, c, rest), FormOf(printable, c);
    FitsItsDigits(printable, c);
    HexReadsBack(c as int, f.digits, rest, 0);
    var digits := HexOnto(c as int, f.digits, rest);
    assert ReadHex(digits, f.digits, 0) == Some((c as int, rest));
    assert f == Coded('x', 2) || f == Coded('u', 4) || f == Coded('U', 8);
    hide ReadHex, HexOnto, Pow16, ReadScalar;
    CodedIsRead(text, f.letter, digits, f.digits);
  }

  lemma CodedIsRead(text: string, letter: char, digits: string, n: nat)
    requires text == ['\\'] + ([letter] + digits)
    requires (letter, n) == ('x', 2) || (letter, n) == ('u', 4) || (letter, n) == ('U', 8)
    ensures ReadScalar(text) == ReadHex(digits, n, 0)
  {
    hide ReadHex;
    assert text[0] == '\\' && text[1] == letter && text[2..] == digits;
  }

  lemma EscapedReadsBack(printable: char -> bool, c: char, rest: string)
    requires FormOf(printable, c).Escaped?
    ensures ReadScalar(EscapeOnto(printable, c, rest)) == Some((c as int, rest))
  {
    hide ReadHex;
    var text, f := EscapeOnto(printable, c, rest), FormOf(printable, c);
    assert text == ['\\'] + ([f.letter] + rest);
    assert text[0] == '\\' && text[1] == f.letter && text[2..] == rest;
  }

  /** Every escape reads back as the scalar it stands for. */
  lemma EscapeReadsBack(printable: char -> bool, c: char, rest: string)
    ensures ReadScalar(EscapeOnto(printable, c, rest)) == Some((c as int, rest))
  {
    match FormOf(printable, c)
    case Verbatim =>
      hide ReadHex;
      assert EscapeOnto(printable, c, rest)[1..] == rest;
    case Escaped(_) =>
      hide ReadScalar, EscapeOnto;
      EscapedReadsBack(printable, c, rest);
    case Coded(_, _) =>
      hide ReadScalar, EscapeOnto;
      CodedReadsBack(printable, c, rest);
  }

  /** The scalars up to the closing quote, and what follows it. */
  function ReadBody(text: string): Option<(seq<nat>, string)>
    decreases |text|
  {
    if text == "" then None
    else if text[0] == '"' then Some(([], text[1..]))
    else
      match ReadScalar(text)
      case None => None
      case Some((code, rest)) =>
        if |rest| >= |text| then None
        else
          match ReadBody(rest)
          case None => None
          case Some((codes, after)) => Some(([code] + codes, after))
  }

  lemma {:induction false} HexIsLonger(v: nat, n: nat, rest: string)
    ensures |HexOnto(v, n, rest)| == |rest| + n
    decreases n
  {
    if n > 0 {
      HexIsLonger(v / 16, n - 1, [Hex(v % 16)] + rest);
    }
  }

  lemma EscapeIsLonger(printable: char -> bool, c: char, rest: string)
    ensures |EscapeOnto(printable, c, rest)| > |rest|
  {
    var f := FormOf(printable, c);
    if f.Coded? {
      HexIsLonger(c as int, f.digits, rest);
    }
  }

  lemma {:induction false} BodyReadsBack(printable: char -> bool, s: string, rest: string)
    ensures ReadBody(BodyOnto(printable, s, ['"'] + rest)) == Some((Codes(s), rest))
  {
    if s == "" {
      assert (['"'] + rest)[1..] == rest;
    } else {
      var tail := BodyOnto(printable, s[1..], ['"'] + rest);
      BodyReadsBack(printable, s[1..], rest);
      EscapeReadsBack(printable, s[0], tail);
      EscapeIsNoQuote(printable, s[0], tail);
      EscapeIsLonger(printable, s[0], tail);
      assert Codes(s) == [s[0] as int] + Codes(s[1..]);
    }
  }

  /** Round trip: a quoted string, read by Go's rules for literals, is the string. */
  lemma QuoteReadsBack(printable: char -> bool, s: string, rest: string)
    ensures var text := QuoteOnto(printable, s, rest);
            text != "" && text[0] == '"' && ReadBody(text[1..]) == Some((Codes(s), rest))
  {
    BodyReadsBack(printable, s, rest);
    assert QuoteOnto(printable, s, rest)[1..] == BodyOnto(printable, s, ['"'] + rest);
  }

  // ---------------------------------------------------------------- renderLabels

  /** `"name"="value"` for each name in order, joined by commas, and the closing brace. */
  function PartsOnto(printable: char -> bool, names: seq<string>, m: map<string, string>): string
    requires forall n :: n in names ==> n in m
  {
    if names == [] then "}"
    else
      var rest := PartsOnto(printable, names[1..], m);
      QuoteOnto(printable, names[0],
        ['='] + QuoteOnto(printable, m[names[0]], if |names| == 1 then rest else [','] + rest))
  }

  ghost function RenderLabels(lib: Lib, m: map<string, string>): string
    requires lib.Valid()
  {
    ['{'] + PartsOnto(lib.printable, lib.sorted(m.Keys), m)
  }

  lemma {:induction false} PartsInjective(
    printable: char -> bool, ns: seq<string>, m: map<string, string>, ks: seq<string>, w: map<string, string>)
    requires (forall n :: n in ns ==> n in m) && (forall k :: k in ks ==> k in w)
    requires PartsOnto(printable, ns, m) == PartsOnto(printable, ks, w)
    ensures ns == ks && forall n :: n in ns ==> m[n] == w[n]
    decreases |ns|
  {
    if ns != [] && ks != [] {
      var x := PartsOnto(printable, ns[1..], m);
      var y := PartsOnto(printable, ks[1..], w);
      var x' := if |ns| == 1 then x else [','] + x;
      var y' := if |ks| == 1 then y else [','] + y;
      var vx := QuoteOnto(printable, m[ns[0]], x');
      var vy := QuoteOnto(printable, w[ks[0]], y');
      QuoteInjective(printable, ns[0], ['='] + vx, ks[0], ['='] + vy);
      HeadAndTail('=', vx, '=', vy);
      QuoteInjective(printable, m[ns[0]], x', w[ks[0]], y');
      EndOrComma(printable, ns[1..], m, ks[1..], w);
      PartsInjective(printable, ns[1..], m, ks[1..], w);
      assert ns == [ns[0]] + ns[1..] && ks == [ks[0]] + ks[1..];
    } else {
      PartsHead(printable, ns, m);
      PartsHead(printable, ks, w);
    }
  }

  lemma PartsHead(printable: char -> bool, ns: seq<string>, m: map<string, string>)
    requires forall n :: n in ns ==> n in m
    ensures var s := PartsOnto(printable, ns, m); s != "" && s[0] == (if ns == [] then '}' else '"')
  {
  }

  /** What follows a value says whether another part follows. */
  lemma EndOrComma(
    printable: char -> bool, ns: seq<string>, m: map<string, string>, ks: seq<string>, w: map<string, string>)
    requires (forall n :: n in ns ==> n in m) && (forall k :: k in ks ==> k in w)
    ensures var x, y := PartsOnto(printable, ns, m), PartsOnto(printable, ks, w);
            (if ns == [] then x else [','] + x) == (if ks == [] then y else [','] + y) ==> x == y
  {
    PartsHead(printable, ns, m);
    PartsHead(printable, ks, w);
    var x, y := PartsOnto(printable, ns, m), PartsOnto(printable, ks, w);
    HeadAndTail(',', x, ',', y);
    assert ([','] + x)[0] == ',' && ([','] + y)[0] == ',';
  }

  /** The rendering is injective on label maps. */
  lemma RenderLabelsInjective(lib: Lib, m: map<string, string>, w: map<string, string>)
    requires lib.Valid()
    requires RenderLabels(lib, m) == RenderLabels(lib, w)
    ensures m == w
  {
    var ns, ks := lib.sorted(m.Keys), lib.sorted(w.Keys);
    assert IsListing(ns, m.Keys) && IsListing(ks, w.Keys);
    HeadAndTail('{', PartsOnto(lib.printable, ns, m), '{', PartsOnto(lib.printable, ks, w));
    PartsInjective(lib.printable, ns, m, ks, w);
    assert m.Keys == w.Keys;
  }

  // ---------------------------------------------------------------- no NUL

  lemma {:induction false} HexHasNoNul(v: nat, n: nat, rest: string)
    requires '\0' !in rest
    ensures '\0' !in HexOnto(v, n, rest)
    decreases n
  {
    if n > 0 {
      HexHasNoNul(v / 16, n - 1, [Hex(v % 16)] + rest);
    }
  }

  lemma EscapeHasNoNul(printable: char -> bool, c: char, rest: string)
    requires !printable('\0') && '\0' !in rest
    ensures '\0' !in EscapeOnto(printable, c, rest)
  {
    var f := FormOf(printable, c);
    if f.Coded? {
      HexHasNoNul(c as int, f.digits, rest);
    }
  }

  lemma {:induction false} BodyHasNoNul(printable: char -> bool, s: string, rest: string)
    requires !printable('\0') && '\0' !in rest
    ensures '\0' !in BodyOnto(printable, s, rest)
  {
    if s != "" {
      BodyHasNoNul(printable, s[1..], rest);
      EscapeHasNoNul(printable, s[0], BodyOnto(printable, s[1..], rest));
    }
  }

  lemma {:induction false} PartsHaveNoNul(printable: char -> bool, ns: seq<string>, m: map<string, string>)
    requires !printable('\0') && forall n :: n in ns ==> n in m
    ensures '\0' !in PartsOnto(printable, ns, m)
  {
    if ns != [] {
      PartsHaveNoNul(printable, ns[1..], m);
      var x := PartsOnto(printable, ns[1..], m);
      var x' := if |ns| == 1 then x else [','] + x;
      BodyHasNoNul(printable, m[ns[0]], ['"'] + x');
      BodyHasNoNul(printable, ns[0], ['"'] + (['='] + QuoteOnto(printable, m[ns[0]], x')));
    }
  }

  lemma RenderLabelsHasNoNul(lib: Lib, m: map<string, string>)
    requires lib.Valid()
    ensures '\0' !in RenderLabels(lib, m)
  {
    assert IsListing(lib.sorted(m.Keys), m.Keys);
    PartsHaveNoNul(lib.printable, lib.sorted(m.Keys), m);
  }

  // ---------------------------------------------------------------- the upstream key

  /** A UUID's text form has 36 bytes. */
  type UuidText = s: string | |s| == 36 witness seq(36, _ => '0')

  function UpstreamKey(source: UuidText, receiver: string, rendering: string): string {
    source + ['\0'] + receiver + ['\0'] + rendering
  }

  /** The key separates (source, receiver, groupLabels) although a receiver may contain NUL: the
      source has a fixed length and the rendering has no NUL, so the last NUL ends the receiver. */
  lemma UpstreamKeyInjective(
    s: UuidText, r: string, g: string, s': UuidText, r': string, g': string)
    requires '\0' !in g && '\0' !in g'
    requires UpstreamKey(s, r, g) == UpstreamKey(s', r', g')
    ensures s == s' && r == r' && g == g'
  {
    var k, k' := UpstreamKey(s, r, g), UpstreamKey(s', r', g');
    LastNul(s, r, g, s', r', g');
    assert s == k[..36] && s' == k'[..36];
    assert r == k[37..37 + |r|] && r' == k'[37..37 + |r'|];
    assert g == k[38 + |r|..] && g' == k'[38 + |r'|..];
  }

  lemma LastNul(s: UuidText, r: string, g: string, s': UuidText, r': string, g': string)
    requires '\0' !in g && '\0' !in g'
    ensures UpstreamKey(s, r, g) == UpstreamKey(s', r', g') ==> |r| == |r'|
  {
    var k, k' := UpstreamKey(s, r, g), UpstreamKey(s', r', g');
    assert k[37 + |r|] == '\0' && k'[37 + |r'|] == '\0';
    if |k| == |k'| && |r| < |r'| {
      assert k[37 + |r'|] == g[|r'| - |r| - 1] && g[|r'| - |r| - 1] in g;
    } else if |k| == |k'| && |r'| < |r| {
      assert k'[37 + |r|] == g'[|r| - |r'| - 1] && g'[|r| - |r'| - 1] in g';
    }
  }

  // ---------------------------------------------------------------- the code

  function Quote(printable: char -> bool, s: string): string {
    QuoteOnto(printable, s, "")
  }

  function Join(parts: seq<string>): string {
    if parts == [] then "" else if |parts| == 1 then parts[0] else parts[0] + [','] + Join(parts[1..])
  }

  lemma {:induction false} HexAppends(v: nat, n: nat, x: string, y: string)
    ensures HexOnto(v, n, x + y) == HexOnto(v, n, x) + y
    decreases n
  {
    if n > 0 {
      HexAppends(v / 16, n - 1, [Hex(v % 16)] + x, y);
      assert [Hex(v % 16)] + (x + y) == ([Hex(v % 16)] + x) + y;
    }
  }

  lemma EscapeAppends(printable: char -> bool, c: char, x: string, y: string)
    ensures EscapeOnto(printable, c, x + y) == EscapeOnto(printable, c, x) + y
  {
    match FormOf(printable, c)
    case Verbatim =>
    case Escaped(letter) =>
    case Coded(letter, digits) =>
      HexAppends(c as int, digits, x, y);
  }

  lemma {:induction false} BodyAppends(printable: char -> bool, s: string, x: string, y: string)
    ensures BodyOnto(printable, s, x + y) == BodyOnto(printable, s, x) + y
  {
    if s != "" {
      BodyAppends(printable, s[1..], x, y);
      EscapeAppends(printable, s[0], BodyOnto(printable, s[1..], x), y);
    }
  }

  lemma QuoteAppends(printable: char -> bool, s: string, y: string)
    ensures QuoteOnto(printable, s, y) == Quote(printable, s) + y
  {
    BodyAppends(printable, s, ['"'] + "", y);
    assert ['"'] + "" + y == ['"'] + y;
  }

  function Part(printable: char -> bool, n: string, v: string): string {
    Quote(printable, n) + ['='] + Quote(printable, v)
  }

  lemma PartAppends(printable: char -> bool, n: string, v: string, rest: string)
    ensures QuoteOnto(printable, n, ['='] + QuoteOnto(printable, v, rest)) == Part(printable, n, v) + rest
  {
    var a, b := Quote(printable, n), Quote(printable, v);
    calc {
      QuoteOnto(printable, n, ['='] + QuoteOnto(printable, v, rest));
      { QuoteAppends(printable, v, rest); }
      QuoteOnto(printable, n, ['='] + (b + rest));
      { QuoteAppends(printable, n, ['='] + (b + rest)); }
      a + (['='] + (b + rest));
      a + ['='] + b + rest;
    }
  }

  lemma {:induction false} JoinedParts(
    printable: char -> bool, names: seq<string>, m: map<string, string>, parts: seq<string>)
    requires (forall n :: n in names ==> n in m) && |parts| == |names|
    requires forall i :: 0 <= i < |names| ==> parts[i] == Part(printable, names[i], m[names[i]])
    ensures Join(parts) + ['}'] == PartsOnto(printable, names, m)
    decreases |names|
  {
    if names != [] {
      var rest := PartsOnto(printable, names[1..], m);
      PartAppends(printable, names[0], m[names[0]], if |names| == 1 then rest else [','] + rest);
      if |names| > 1 {
        calc {
          Join(parts) + ['}'];
          parts[0] + [','] + Join(parts[1..]) + ['}'];
          parts[0] + ([','] + (Join(parts[1..]) + ['}']));
          { JoinedParts(printable, names[1..], m, parts[1..]); }
          parts[0] + ([','] + rest);
        }
      }
    }
  }

  method RenderLabelsLoop(lib: Lib, m: map<string, string>) returns (s: string)
    requires lib.Valid()
    ensures s == RenderLabels(lib, m)
  {
    var names := lib.sorted(m.Keys);
    assert IsListing(names, m.Keys);
    var parts := [];
    for i := 0 to |names|
      invariant |parts| == i
      invariant forall k :: 0 <= k < i ==> parts[k] == Part(lib.printable, names[k], m[names[k]])
    {
      assert names[i] in m.Keys;
      parts := parts + [Part(lib.printable, names[i], m[names[i]])];
    }
    JoinedParts(lib.printable, names, m, parts);
    s := ['{'] + Join(parts) + ['}'];
    assert s == ['{'] + (Join(parts) + ['}']);
  }
}
