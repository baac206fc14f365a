/** `structTag` of `lintreach`: the hand-written reader of Go struct tags. A tag is specified by what
    it is a rendering of, a list of `name:"body"` items; the reader is a loop over an index. */
module StructTag {
  import opened Wrappers

  /** `gap` spaces, a name, a colon and a quoted body. */
  datatype Item = Item(gap: nat, name: string, body: string)

  predicate NameChar(c: char) {
    c > ' ' && c != ':' && c != '"'
  }

  /** Backslash pairs and bytes that are neither a quote nor a backslash. */
  predicate WfBody(b: string) {
    if b == "" then true
    else if b[0] == '\\' then |b| >= 2 && WfBody(b[2..])
    else b[0] != '"' && WfBody(b[1..])
  }

  predicate Wf(it: Item) {
    it.name != "" && (forall c :: c in it.name ==> NameChar(c)) && WfBody(it.body)
  }

  function Spaces(n: nat): (s: string)
    ensures |s| == n && forall i :: 0 <= i < n ==> s[i] == ' '
  {
    seq(n, _ => ' ')
  }

  function Quoted(body: string): string {
    "\"" + body + "\""
  }

  /** The item `it` followed by `rest`. */
  function RenderItem(it: Item, rest: string): string {
    Spaces(it.gap) + (it.name + (":" + (Quoted(it.body) + rest)))
  }

  function Render(items: seq<Item>, rest: string): string {
    if items == [] then rest else RenderItem(items[0], Render(items[1..], rest))
  }

  ghost predicate AllWf(items: seq<Item>) {
    forall it :: it in items ==> Wf(it)
  }

  /** No item can be read off the front. */
  ghost predicate Stuck(text: string) {
    forall it, rest :: Wf(it) ==> text != RenderItem(it, rest)
  }

  function First(items: seq<Item>, key: string): Option<string> {
    if items == [] then None
    else if items[0].name == key then Some(items[0].body)
    else First(items[1..], key)
  }

  /** `strconv.Unquote` arrives as `unquote`; its error and an absent name are both the empty string. */
  function Value(unquote: string -> Option<string>, found: Option<string>): string {
    match found
    case None => ""
    case Some(body) =>
      match unquote(Quoted(body))
      case None => ""
      case Some(v) => v
  }

  // ---------------------------------------------------------------- the scans, as functions

  function SkipSpaces(t: string, i: nat): (k: nat)
    requires i <= |t|
    ensures i <= k <= |t|
    ensures forall j :: i <= j < k ==> t[j] == ' '
    ensures k < |t| ==> t[k] != ' '
    decreases |t| - i
  {
    if i < |t| && t[i] == ' ' then SkipSpaces(t, i + 1) else i
  }

  function NameEnd(t: string, i: nat): (k: nat)
    requires i <= |t|
    ensures i <= k <= |t|
    ensures forall j :: i <= j < k ==> NameChar(t[j])
    ensures k < |t| ==> !NameChar(t[k])
    decreases |t| - i
  {
    if i < |t| && NameChar(t[i]) then NameEnd(t, i + 1) else i
  }

  /** Where the closing quote is, or at least `|t|` when there is none. */
  function BodyEnd(t: string, i: nat): (k: nat)
    ensures i <= k
    ensures k < |t| ==> t[k] == '"'
    decreases |t| - i
  {
    if i >= |t| || t[i] == '"' then i
    else if t[i] == '\\' then BodyEnd(t, i + 2)
    else BodyEnd(t, i + 1)
  }

  lemma {:induction false} BodyEndIsWf(t: string, i: nat)
    requires BodyEnd(t, i) < |t|
    ensures WfBody(t[i..BodyEnd(t, i)])
    decreases |t| - i
  {
    if t[i] != '"' {
      var k := BodyEnd(t, i);
      var n := if t[i] == '\\' then 2 else 1;
      BodyEndIsWf(t, i + n);
      assert t[i..k][n..] == t[i + n..k];
    }
  }

  lemma {:induction false} WfBodyEnds(t: string, i: nat, body: string)
    requires WfBody(body) && i + |body| < |t| && t[i..i + |body|] == body && t[i + |body|] == '"'
    ensures BodyEnd(t, i) == i + |body|
    decreases |body|
  {
    if body != "" {
      var n := if body[0] == '\\' then 2 else 1;
      assert t[i] == body[0];
      assert t[i + n..i + |body|] == body[n..];
      WfBodyEnds(t, i + n, body[n..]);
    }
  }

  lemma QuotedSplits(q: string, k: nat)
    requires 1 <= k < |q| && q[0] == '"' && q[k] == '"'
    ensures q == Quoted(q[1..k]) + q[k + 1..]
  {
    assert q[..k + 1] == Quoted(q[1..k]);
    assert q == q[..k + 1] + q[k + 1..];
  }

  lemma BodyJoins(q: string, body: string, rest: string)
    requires WfBody(body) && q == Quoted(body) + rest
    ensures BodyEnd(q, 1) == |body| + 1
  {
    assert q[1..|body| + 1] == body;
    WfBodyEnds(q, 1, body);
  }

  lemma {:induction false} SpacesJoin(t: string, g: nat, i: nat)
    requires i <= g <= |t| && (forall j :: i <= j < g ==> t[j] == ' ') && (g < |t| ==> t[g] != ' ')
    ensures SkipSpaces(t, i) == g
    decreases g - i
  {
    if i < g {
      SpacesJoin(t, g, i + 1);
    }
  }

  lemma {:induction false} NameJoins(t: string, n: nat, i: nat)
    requires i <= n < |t| && (forall j :: i <= j < n ==> NameChar(t[j])) && !NameChar(t[n])
    ensures NameEnd(t, i) == n
    decreases n - i
  {
    if i < n {
      NameJoins(t, n, i + 1);
    }
  }

  /** What the loop reads once the spaces are skipped: the name, the body and the rest. */
  function ReadNamed(s: string): Option<(string, string, string)> {
    var i := NameEnd(s, 0);
    if i == 0 || i + 1 >= |s| || s[i] != ':' || s[i + 1] != '"' then None
    else
      var q := s[i + 1..];
      var k := BodyEnd(q, 1);
      if k >= |q| then None else Some((s[..i], q[1..k], q[k + 1..]))
  }

  /** One iteration of the outer loop: the item at the front and what follows it. */
  function ReadItem(t: string): Option<(Item, string)> {
    var g := SkipSpaces(t, 0);
    match ReadNamed(t[g..])
    case None => None
    case Some((name, body, rest)) => Some((Item(g, name, body), rest))
  }

  lemma ReadNamedSound(s: string)
    requires ReadNamed(s).Some?
    ensures var (name, body, rest) := ReadNamed(s).value;
            && Wf(Item(0, name, body)) && s == name + (":" + (Quoted(body) + rest))
            && |rest| < |s|
  {
    var i := NameEnd(s, 0);
    BodyEndIsWf(s[i + 1..], 1);
    QuotedSplits(s[i + 1..], BodyEnd(s[i + 1..], 1));
    assert s == s[..i] + s[i..];
    assert s[i..] == ":" + s[i + 1..];
  }

  lemma ReadItemSound(t: string)
    requires ReadItem(t).Some?
    ensures Wf(ReadItem(t).value.0) && |ReadItem(t).value.1| < |t|
    ensures t == RenderItem(ReadItem(t).value.0, ReadItem(t).value.1)
  {
    var g := SkipSpaces(t, 0);
    ReadNamedSound(t[g..]);
    assert t[..g] == Spaces(g);
    assert t == t[..g] + t[g..];
  }

  lemma ReadNamedComplete(name: string, body: string, rest: string)
    requires Wf(Item(0, name, body))
    ensures ReadNamed(name + (":" + (Quoted(body) + rest))) == Some((name, body, rest))
  {
    var q := Quoted(body) + rest;
    var s := name + (":" + q);
    assert forall j :: 0 <= j < |name| ==> s[j] == name[j] && name[j] in name;
    NameJoins(s, |name|, 0);
    assert s[|name| + 1..] == q && s[..|name|] == name;
    BodyJoins(q, body, rest);
    assert q[1..|body| + 1] == body && q[|body| + 2..] == rest;
  }

  /** An item at the front is read as that item: no other reading exists. */
  lemma ReadItemComplete(it: Item, rest: string)
    requires Wf(it)
    ensures ReadItem(RenderItem(it, rest)) == Some((it, rest))
  {
    var s := it.name + (":" + (Quoted(it.body) + rest));
    var t := Spaces(it.gap) + s;
    assert t[it.gap] == s[0] == it.name[0] && it.name[0] in it.name;
    SpacesJoin(t, it.gap, 0);
    assert t[it.gap..] == s;
    ReadNamedComplete(it.name, it.body, rest);
  }

  function Parse(t: string): (seq<Item>, string)
    decreases |t|
  {
    match ReadItem(t)
    case None => ([], t)
    case Some((it, rest)) =>
      ReadItemSound(t);
      ([it] + Parse(rest).0, Parse(rest).1)
  }

  /** Every string is the rendering of well-formed items followed by text that starts with none. */
  lemma {:induction false} ParseRenders(t: string)
    ensures AllWf(Parse(t).0) && Stuck(Parse(t).1)
    ensures t == Render(Parse(t).0, Parse(t).1)
    decreases |t|
  {
    match ReadItem(t)
    case None =>
      forall it, rest | Wf(it) ensures t != RenderItem(it, rest) {
        ReadItemComplete(it, rest);
      }
    case Some((it, rest)) =>
      ReadItemSound(t);
      ParseRenders(rest);
      assert ([it] + Parse(rest).0)[1..] == Parse(rest).0;
  }

  lemma ParseOnto(it: Item, tail: string)
    requires Wf(it)
    ensures Parse(RenderItem(it, tail)) == ([it] + Parse(tail).0, Parse(tail).1)
  {
    ReadItemComplete(it, tail);
    hide RenderItem, ReadItem, Wf;
  }

  lemma StuckReadsNothing(rest: string)
    requires Stuck(rest)
    ensures ReadItem(rest) == None
  {
    if ReadItem(rest).Some? {
      ReadItemSound(rest);
    }
  }

  /** And it is so in one way only. */
  lemma {:induction false} ParseIsUnique(items: seq<Item>, rest: string)
    requires AllWf(items) && Stuck(rest)
    ensures Parse(Render(items, rest)) == (items, rest)
    decreases |items|
  {
    if items == [] {
      StuckReadsNothing(rest);
    } else {
      hide ReadItem, RenderItem, Stuck, Wf;
      ParseOnto(items[0], Render(items[1..], rest));
      ParseIsUnique(items[1..], rest);
      assert [items[0]] + items[1..] == items;
    }
  }

  /** Item `i` is the first with that name. */
  ghost predicate IsFirst(items: seq<Item>, key: string, i: nat) {
    i < |items| && items[i].name == key && forall j :: 0 <= j < i ==> items[j].name != key
  }

  lemma {:induction false} FirstIs(items: seq<Item>, key: string, i: nat)
    requires IsFirst(items, key, i)
    ensures First(items, key) == Some(items[i].body)
  {
    if i > 0 {
      assert items[0].name != key;
      FirstIs(items[1..], key, i - 1);
    }
  }

  lemma {:induction false} FirstIsNot(items: seq<Item>, key: string)
    requires forall j :: 0 <= j < |items| ==> items[j].name != key
    ensures First(items, key) == None
  {
    if items != [] {
      FirstIsNot(items[1..], key);
    }
  }

  /** The law of the reader, on any rendered list of well-formed items followed by text that starts with
      none: the value is the unquoted text of the first item with the asked name, and the empty string if
      there is no such item or its text does not unquote. */
  lemma StructTagLaw(items: seq<Item>, rest: string, key: string, unquote: string -> Option<string>)
    requires AllWf(items) && Stuck(rest)
    ensures var value := Value(unquote, First(Parse(Render(items, rest)).0, key));
            && (forall i: nat :: IsFirst(items, key, i) ==>
                  value == match unquote("\"" + items[i].body + "\"") case Some(v) => v case None => "")
            && ((forall i: nat :: i < |items| ==> items[i].name != key) ==> value == "")
  {
    ParseIsUnique(items, rest);
    forall i: nat | IsFirst(items, key, i) ensures First(items, key) == Some(items[i].body) {
      FirstIs(items, key, i);
    }
    if forall i: nat :: i < |items| ==> items[i].name != key {
      FirstIsNot(items, key);
    }
  }

  // The three inner loops of the code, one method each.

  method SpaceLoop(t: string) returns (i: nat)
    ensures i == SkipSpaces(t, 0)
  {
    i := 0;
    while i < |t| && t[i] == ' '
      invariant i <= |t| && SkipSpaces(t, i) == SkipSpaces(t, 0)
    {
      i := i + 1;
    }
  }

  method NameLoop(t: string) returns (i: nat)
    ensures i == NameEnd(t, 0)
  {
    i := 0;
    while i < |t| && t[i] > ' ' && t[i] != ':' && t[i] != '"'
      invariant i <= |t| && NameEnd(t, i) == NameEnd(t, 0)
    {
      i := i + 1;
    }
  }

  method BodyLoop(t: string) returns (i: nat)
    ensures i == BodyEnd(t, 1)
  {
    i := 1;
    while i < |t| && t[i] != '"'
      invariant BodyEnd(t, i) == BodyEnd(t, 1)
    {
      if t[i] == '\\' {
        i := i + 1;
      }
      i := i + 1;
    }
  }

  /** The body of the outer loop. `read` is None where the code returns the empty string. */
  method Iteration(tag: string) returns (read: Option<(string, string, string)>)
    ensures ReadItem(tag).None? <==> read.None?
    ensures read.Some? ==>
              var (it, rest) := ReadItem(tag).value;
              read.value == (it.name, Quoted(it.body), rest)
  {
    hide SkipSpaces, NameEnd, BodyEnd;
    var i := SpaceLoop(tag);
    var t := tag[i..];
    i := NameLoop(t);
    if i == 0 || i + 1 >= |t| || t[i] != ':' || t[i + 1] != '"' {
      return None;
    }
    var name := t[..i];
    t := t[i + 1..];
    i := BodyLoop(t);
    if i >= |t| {
      return None;
    }
    assert t[..i + 1] == Quoted(t[1..i]);
    return Some((name, t[..i + 1], t[i + 1..]));
  }

  method StructTag(tag: string, key: string, unquote: string -> Option<string>) returns (r: string)
    ensures r == Value(unquote, First(Parse(tag).0, key))
  {
    var t := tag;
    while t != ""
      invariant First(Parse(t).0, key) == First(Parse(tag).0, key)
      decreases |t|
    {
      var read := Iteration(t);
      if read.None? {
        return "";
      }
      ReadItemSound(t);
      var (name, qval, rest) := read.value;
      ghost var it := ReadItem(t).value.0;
      assert ([it] + Parse(rest).0)[1..] == Parse(rest).0;
      t := rest;
      if name == key {
        match unquote(qval)
        case None => return "";
        case Some(v) => return v;
      }
    }
    return "";
  }
}
