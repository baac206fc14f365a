/** `parse_path` of `ensotrace`: the reader of potrace's SVG path data. The reader's loop is given as
    a step relation, so that runs which never end can be spoken of; the paths it should read are given
    by the encoder whose output it takes apart. Floats are modelled as reals. */
module PathReader {

  datatype Kind = M | L | C | Z

  /** One of the letters `MmLlCcZz`; a lower-case letter is relative. */
  datatype Command = Command(kind: Kind, relative: bool)

  datatype Token = Letter(cmd: Command) | Num(value: real)

  datatype Point = Point(x: real, y: real)

  datatype Segment = Segment(kind: Kind, points: seq<Point>)

  /** The variables of the loop: `index`, `command`, (`x`, `y`), (`start_x`, `start_y`) and `out`. */
  datatype State = State(index: nat, cmd: Command, pen: Point, start: Point, out: seq<Segment>)

  datatype Outcome = Running(state: State) | Returned(segments: seq<Segment>) | Raised

  const ORIGIN := Point(0.0, 0.0)

  const INITIAL := State(0, Command(M, false), ORIGIN, ORIGIN, [])

  /** How many points one coordinate set of a command holds. */
  function Arity(kind: Kind): nat {
    match kind
    case C => 3
    case M => 1
    case L => 1
    case Z => 0
  }

  /** The command a coordinate set without a letter continues. */
  function Following(cmd: Command): Command {
    if cmd.kind == M then Command(L, cmd.relative) else cmd
  }

  /** What the numbers of a set are added to: one point for the whole set. */
  function Base(cmd: Command, pen: Point): Point {
    if cmd.relative then pen else ORIGIN
  }

  // ---------------------------------------------------------------- the reader

  /** The next `n` tokens are there and all convert to floats. */
  predicate HaveNumbers(tokens: seq<Token>, index: nat, n: nat) {
    index + n <= |tokens| && forall i: nat :: index <= i < index + n ==> tokens[i].Num?
  }

  function PointsAt(tokens: seq<Token>, index: nat, n: nat, base: Point): (points: seq<Point>)
    requires HaveNumbers(tokens, index, 2 * n)
    ensures |points| == n
  {
    seq(n, k requires 0 <= k < n =>
      Point(tokens[index + 2 * k].value + base.x, tokens[index + 2 * k + 1].value + base.y))
  }

  /** The rest of the loop body, once a letter has been taken. */
  function Body(tokens: seq<Token>, s: State): Outcome {
    if s.cmd.kind == Z then
      Running(s.(out := s.out + [Segment(Z, [])], pen := s.start))
    else if !HaveNumbers(tokens, s.index, 2 * Arity(s.cmd.kind)) then
      Raised
    else
      var points := PointsAt(tokens, s.index, Arity(s.cmd.kind), Base(s.cmd, s.pen));
      var pen := points[|points| - 1];
      Running(State(s.index + 2 * |points|, Following(s.cmd), pen,
                    if s.cmd.kind == M then pen else s.start, s.out + [Segment(s.cmd.kind, points)]))
  }

  /** One iteration of the loop. */
  function Step(tokens: seq<Token>, s: State): Outcome {
    if s.index >= |tokens| then
      Returned(s.out)
    else if tokens[s.index].Num? then
      Body(tokens, s)
    else if s.index + 1 >= |tokens| then
      Returned(s.out)
    else
      Body(tokens, s.(cmd := tokens[s.index].cmd, index := s.index + 1))
  }

  function Run(tokens: seq<Token>, n: nat): Outcome {
    if n == 0 then Running(INITIAL)
    else match Run(tokens, n - 1)
      case Running(s) => Step(tokens, s)
      case other => other
  }

  ghost predicate Returns(tokens: seq<Token>, segments: seq<Segment>) {
    exists n: nat :: Run(tokens, n) == Returned(segments)
  }

  ghost predicate Raises(tokens: seq<Token>) {
    exists n: nat :: Run(tokens, n) == Raised
  }

  ghost predicate RunsForever(tokens: seq<Token>) {
    forall n: nat :: Run(tokens, n).Running?
  }

  lemma {:induction false} EndedStaysEnded(tokens: seq<Token>, n: nat, m: nat)
    requires n <= m && !Run(tokens, n).Running?
    ensures Run(tokens, m) == Run(tokens, n)
    decreases m
  {
    if n < m {
      EndedStaysEnded(tokens, n, m - 1);
    }
  }

  lemma ReturnsOnce(tokens: seq<Token>, a: seq<Segment>, b: seq<Segment>)
    requires Returns(tokens, a) && Returns(tokens, b)
    ensures a == b
  {
    var n: nat :| Run(tokens, n) == Returned(a);
    var m: nat :| Run(tokens, m) == Returned(b);
    EndedStaysEnded(tokens, n, n + m);
    EndedStaysEnded(tokens, m, n + m);
  }

  // ---------------------------------------------------------------- a number after `z`

  /** A number where the running command is a close: the loop takes no token. */
  predicate Stuck(tokens: seq<Token>, s: State) {
    s.index < |tokens| && tokens[s.index].Num? && s.cmd.kind == Z
  }

  /** From there the loop runs for ever, appending a close each time round. */
  lemma {:induction false} StuckRunsForever(tokens: seq<Token>, n: nat, s: State, m: nat)
    requires Run(tokens, n) == Running(s) && Stuck(tokens, s)
    ensures Run(tokens, n + m).Running? && Stuck(tokens, Run(tokens, n + m).state)
    ensures |Run(tokens, n + m).state.out| == |s.out| + m
  {
    if m > 0 {
      StuckRunsForever(tokens, n, s, m - 1);
    }
  }

  lemma StuckNeverEnds(tokens: seq<Token>, n: nat, s: State)
    requires Run(tokens, n) == Running(s) && Stuck(tokens, s)
    ensures RunsForever(tokens)
  {
    forall k: nat ensures Run(tokens, k).Running? {
      StuckRunsForever(tokens, n, s, k);
      if !Run(tokens, k).Running? {
        EndedStaysEnded(tokens, k, n + k);
      }
    }
  }

  // ---------------------------------------------------------------- the loop

  datatype Result = Segments(segments: seq<Segment>) | Error | NoResult

  /** The answer says how the run ends, if it does. */
  ghost predicate Describes(tokens: seq<Token>, r: Result) {
    && (r.Segments? <==> exists segments :: Returns(tokens, segments))
    && (r.Segments? ==> Returns(tokens, r.segments))
    && (r.Error? <==> Raises(tokens))
    && (r.NoResult? <==> RunsForever(tokens))
  }

  /** A run that has ended has ended one way. */
  lemma Ended(tokens: seq<Token>, n: nat)
    requires !Run(tokens, n).Running?
    ensures Describes(tokens, if Run(tokens, n).Raised? then Error else Segments(Run(tokens, n).segments))
  {
    hide Run;
    forall m: nat ensures Run(tokens, m).Running? || Run(tokens, m) == Run(tokens, n) {
      if !Run(tokens, m).Running? {
        EndedStaysEnded(tokens, m, n + m);
        EndedStaysEnded(tokens, n, n + m);
      }
    }
    if Run(tokens, n).Raised? {
      assert Raises(tokens);
    } else {
      assert Returns(tokens, Run(tokens, n).segments);
    }
  }

  lemma RunStarts(tokens: seq<Token>)
    ensures Run(tokens, 0) == Running(INITIAL)
  {
  }

  lemma Next(tokens: seq<Token>, n: nat, s: State)
    requires Run(tokens, n) == Running(s)
    ensures Run(tokens, n + 1) == Step(tokens, s)
  {
  }

  /** The source loops for ever on some inputs; the model answers NoResult exactly there. */
  method ParsePath(tokens: seq<Token>) returns (r: Result)
    ensures Describes(tokens, r)
  {
    hide Describes, Returns, Raises, RunsForever, PointsAt, HaveNumbers, Run;
    var index: nat, command := 0, Command(M, false);
    var pen, start := ORIGIN, ORIGIN;
    var out := [];
    ghost var n: nat := 0;
    RunStarts(tokens);
    while index < |tokens|
      invariant Run(tokens, n) == Running(State(index, command, pen, start, out))
      decreases |tokens| - index
    {
      ghost var top := State(index, command, pen, start, out);
      Next(tokens, n, top);
      var letter := tokens[index].Letter?;
      if letter {
        command := tokens[index].cmd;
        index := index + 1;
        if index >= |tokens| {
          Ended(tokens, n + 1);
          return Segments(out);
        }
      }
      assert Step(tokens, top) == Body(tokens, State(index, command, pen, start, out));
      if command.kind == Z {
        if !letter {
          NumberAfterClose(tokens, n, top);
          return NoResult;
        }
        out := out + [Segment(Z, [])];
        pen := start;
      } else {
        var count := if command.kind == C then 6 else 2;
        if !HaveNumbers(tokens, index, count) {
          Ended(tokens, n + 1);
          return Error;
        }
        var points := PointsAt(tokens, index, count / 2, if command.relative then pen else ORIGIN);
        index := index + count;
        out := out + [Segment(command.kind, points)];
        pen := points[|points| - 1];
        if command.kind == M {
          start := pen;
          command := Command(L, command.relative);
        }
      }
      n := n + 1;
    }
    Next(tokens, n, State(index, command, pen, start, out));
    Ended(tokens, n + 1);
    return Segments(out);
  }

  lemma NumberAfterClose(tokens: seq<Token>, n: nat, s: State)
    requires Run(tokens, n) == Running(s) && Stuck(tokens, s)
    ensures Describes(tokens, NoResult)
  {
    StuckNeverEnds(tokens, n, s);
  }

  // ---------------------------------------------------------------- the encoder

  /** One coordinate set or close of a path: its command, whether its letter is written, and its
      points in absolute coordinates. */
  datatype Item = Item(cmd: Command, explicit: bool, points: seq<Point>)

  // The encoder is written on its own, and shares no rule with the reader.

  /** A curve writes three points, a move or a line one, a close none. */
  predicate RightSize(item: Item) {
    match item.cmd.kind
    case C => |item.points| == 3
    case M => |item.points| == 1
    case L => |item.points| == 1
    case Z => item.points == []
  }

  /** The command that a set without a letter has after `cmd`: a line after a move, in the same case, and
      the same command otherwise. */
  function Implied(cmd: Command): Command {
    match cmd
    case Command(M, relative) => Command(L, relative)
    case other => other
  }

  /** A letter may be left out only where the set continues the running command; a close has no
      coordinates, so its letter is always written. */
  predicate LegalItem(running: Command, item: Item) {
    RightSize(item) && (item.explicit || (item.cmd == running && item.cmd.kind != Z))
  }

  /** The numbers of a lower-case item are its points minus the pen before the item; of an upper-case
      item, its points. */
  function Numbers(points: seq<Point>, relative: bool, pen: Point): (numbers: seq<Token>)
    ensures |numbers| == 2 * |points|
  {
    if relative then
      seq(2 * |points|, k requires 0 <= k < 2 * |points| =>
        Num(if k % 2 == 0 then points[k / 2].x - pen.x else points[k / 2].y - pen.y))
    else
      seq(2 * |points|, k requires 0 <= k < 2 * |points| =>
        Num(if k % 2 == 0 then points[k / 2].x else points[k / 2].y))
  }

  /** The tokens of one item. */
  function EncodeItem(pen: Point, item: Item): seq<Token> {
    (if item.explicit then [Letter(item.cmd)] else []) + Numbers(item.points, item.cmd.relative, pen)
  }

  /** The path so far: where the pen is, where the subpath started, and what was drawn. */
  function Advance(s: State, item: Item): State {
    var pen := if |item.points| > 0 then item.points[|item.points| - 1] else s.start;
    State(s.index + |EncodeItem(s.pen, item)|, Implied(item.cmd), pen,
          if item.cmd.kind == M then pen else s.start,
          s.out + [Segment(item.cmd.kind, item.points)])
  }

  function After(items: seq<Item>): State {
    if items == [] then INITIAL else Advance(After(items[..|items| - 1]), items[|items| - 1])
  }

  predicate Legal(items: seq<Item>) {
    items == [] ||
    (Legal(items[..|items| - 1]) && LegalItem(After(items[..|items| - 1]).cmd, items[|items| - 1]))
  }

  /** The path data of a list of items. */
  function Encode(items: seq<Item>): seq<Token> {
    if items == [] then []
    else Encode(items[..|items| - 1]) + EncodeItem(After(items[..|items| - 1]).pen, items[|items| - 1])
  }

  /** The path itself, in absolute coordinates. */
  function Drawn(items: seq<Item>): seq<Segment> {
    seq(|items|, i requires 0 <= i < |items| => Segment(items[i].cmd.kind, items[i].points))
  }

  predicate EndsClosed(items: seq<Item>) {
    items != [] && items[|items| - 1].cmd.kind == Z
  }

  lemma {:induction false} AfterDrawn(items: seq<Item>)
    ensures After(items).out == Drawn(items) && After(items).index == |Encode(items)|
    ensures items != [] ==> After(items).cmd == Implied(items[|items| - 1].cmd)
  {
    hide EncodeItem;
    if items != [] {
      AfterDrawn(items[..|items| - 1]);
      assert Drawn(items) == Drawn(items[..|items| - 1]) +
          [Segment(items[|items| - 1].cmd.kind, items[|items| - 1].points)];
      hide Drawn;
    }
  }

  // ---------------------------------------------------------------- encode, then read

  ghost predicate StartsWith(tokens: seq<Token>, index: nat, part: seq<Token>) {
    index + |part| <= |tokens| && tokens[index..index + |part|] == part
  }

  lemma NumbersReadBack(tokens: seq<Token>, index: nat, points: seq<Point>, cmd: Command, pen: Point)
    requires StartsWith(tokens, index, Numbers(points, cmd.relative, pen))
    ensures HaveNumbers(tokens, index, 2 * |points|)
    ensures PointsAt(tokens, index, |points|, Base(cmd, pen)) == points
  {
    var numbers := Numbers(points, cmd.relative, pen);
    TokensOf(tokens, index, numbers);
    forall i: nat | index <= i < index + |numbers| ensures tokens[i].Num? {
      assert tokens[i] == numbers[i - index];
    }
    var read := PointsAt(tokens, index, |points|, Base(cmd, pen));
    forall k: nat | k < |points| ensures read[k] == points[k] {
      assert tokens[index + 2 * k] == numbers[2 * k] && tokens[index + (2 * k + 1)] == numbers[2 * k + 1];
    }
  }

  lemma TokensOf(tokens: seq<Token>, index: nat, part: seq<Token>)
    requires StartsWith(tokens, index, part)
    ensures forall i: nat :: index <= i < index + |part| ==> tokens[i] == part[i - index]
  {
    forall i: nat | index <= i < index + |part| ensures tokens[i] == part[i - index] {
      assert tokens[index..index + |part|][i - index] == part[i - index];
    }
  }

  /** The reader takes one whole item in one iteration. A close needs a token after it. */
  lemma ReadsItem(tokens: seq<Token>, s: State, item: Item)
    requires StartsWith(tokens, s.index, EncodeItem(s.pen, item)) && LegalItem(s.cmd, item)
    requires item.cmd.kind == Z ==> s.index + 1 < |tokens|
    ensures Step(tokens, s) == Running(Advance(s, item))
  {
    LetterThenNumbers(tokens, s.index, item, s.pen);
    var t := if item.explicit then s.(cmd := item.cmd, index := s.index + 1) else s;
    BodyReads(tokens, t, item);
    hide Body, Numbers, Advance;
    if item.cmd.kind != Z && !item.explicit {
      assert tokens[s.index].Num?;
    }
    assert Step(tokens, s) == Body(tokens, t);
    assert Advance(t.(index := t.index - if item.explicit then 1 else 0), item) == Advance(s, item) by {
      SameAdvance(t.(index := t.index - if item.explicit then 1 else 0), s, item);
    }
  }

  lemma SameAdvance(t: State, s: State, item: Item)
    requires t == s.(cmd := t.cmd)
    ensures Advance(t, item) == Advance(s, item)
  {
    hide EncodeItem;
  }

  /** The body of the loop at the item's numbers. */
  lemma BodyReads(tokens: seq<Token>, t: State, item: Item)
    requires t.cmd == item.cmd && RightSize(item) && (item.explicit ==> t.index > 0)
    requires StartsWith(tokens, t.index, Numbers(item.points, item.cmd.relative, t.pen))
    ensures item.cmd.kind != Z ==> HaveNumbers(tokens, t.index, 2)
    ensures Body(tokens, t) == Running(Advance(t.(index := t.index - if item.explicit then 1 else 0), item))
  {
    if item.cmd.kind != Z {
      NumbersReadBack(tokens, t.index, item.points, item.cmd, t.pen);
    }
    hide Numbers, PointsAt, StartsWith;
  }

  lemma LetterThenNumbers(tokens: seq<Token>, index: nat, item: Item, pen: Point)
    requires StartsWith(tokens, index, EncodeItem(pen, item))
    ensures var numbers := Numbers(item.points, item.cmd.relative, pen);
            StartsWith(tokens, index + if item.explicit then 1 else 0, numbers)
    ensures item.explicit ==> tokens[index] == Letter(item.cmd)
  {
    hide Numbers;
    var numbers := Numbers(item.points, item.cmd.relative, pen);
    var part := EncodeItem(pen, item);
    var at := index + |part| - |numbers|;
    assert tokens[at..at + |numbers|] == tokens[index..index + |part|][|part| - |numbers|..];
    assert part[|part| - |numbers|..] == numbers;
    if item.explicit {
      assert tokens[index..index + |part|][0] == part[0];
    }
  }

  lemma SplitsAt(tokens: seq<Token>, front: seq<Token>, part: seq<Token>)
    requires front + part <= tokens
    ensures front <= tokens && StartsWith(tokens, |front|, part)
  {
    assert tokens[|front|..|front| + |part|] == (front + part)[|front|..];
  }

  lemma LastItem(tokens: seq<Token>, items: seq<Item>)
    requires items != [] && Legal(items) && Encode(items) <= tokens
    ensures var front, last := items[..|items| - 1], items[|items| - 1];
            && Legal(front) && LegalItem(After(front).cmd, last)
            && Encode(front) <= tokens && |Encode(front)| < |tokens|
            && StartsWith(tokens, |Encode(front)|, EncodeItem(After(front).pen, last))
            && |Encode(items)| == |Encode(front)| + |EncodeItem(After(front).pen, last)|
  {
    var front, last := items[..|items| - 1], items[|items| - 1];
    assert EncodeItem(After(front).pen, last) != [];
    SplitsAt(tokens, Encode(front), EncodeItem(After(front).pen, last));
  }

  /** Reading the path data of a list of items reaches the end of those items, one iteration each. */
  lemma {:induction false} ReadsItems(tokens: seq<Token>, items: seq<Item>)
    requires Legal(items) && Encode(items) <= tokens
    requires EndsClosed(items) ==> |Encode(items)| < |tokens|
    ensures Run(tokens, |items|) == Running(After(items))
  {
    if items != [] {
      var front, last := items[..|items| - 1], items[|items| - 1];
      LastItem(tokens, items);
      assert last.cmd.kind == Z ==> |EncodeItem(After(front).pen, last)| == 1;
      hide Legal, Encode, LegalItem, Step, EncodeItem, Advance, StartsWith;
      ReadsItems(tokens, front);
      AfterDrawn(front);
      ReadsItem(tokens, After(front), last);
    }
  }

  /** What the reader gives back. A letter at the very end is dropped; a close is returned only
      when some token follows it. */
  ghost predicate Encodes(tokens: seq<Token>, items: seq<Item>) {
    && Legal(items)
    && Encode(items) <= tokens
    && (if |tokens| == |Encode(items)| then !EndsClosed(items)
        else |tokens| == |Encode(items)| + 1 && tokens[|Encode(items)|].Letter?)
  }

  /** Round trip: the reader's points are the absolute path that was encoded. */
  lemma ReadsBack(tokens: seq<Token>, items: seq<Item>)
    requires Encodes(tokens, items)
    ensures Returns(tokens, Drawn(items))
  {
    ReadsItems(tokens, items);
    AfterDrawn(items);
    assert Run(tokens, |items| + 1) == Returned(Drawn(items));
  }

  /** A path that ends in a close comes back without that close. */
  lemma FinalCloseIsDropped(items: seq<Item>)
    requires Legal(items) && EndsClosed(items)
    ensures Returns(Encode(items), Drawn(items[..|items| - 1]))
  {
    var front, last := items[..|items| - 1], items[|items| - 1];
    assert Encode(items) == Encode(front) + EncodeItem(After(front).pen, last);
    assert EncodeItem(After(front).pen, last) == [Letter(last.cmd)];
    ReadsBack(Encode(items), front);
  }

  // ---------------------------------------------------------------- read, then encode

  /** The item an iteration takes. */
  function ItemAt(tokens: seq<Token>, s: State): Item
    requires s.index < |tokens| && Step(tokens, s).Running?
  {
    var letter := tokens[s.index].Letter?;
    var cmd := if letter then tokens[s.index].cmd else s.cmd;
    var index := if letter then s.index + 1 else s.index;
    Item(cmd, letter, if cmd.kind == Z then [] else PointsAt(tokens, index, Arity(cmd.kind), Base(cmd, s.pen)))
  }

  lemma NumbersComeBack(tokens: seq<Token>, index: nat, n: nat, cmd: Command, pen: Point)
    requires HaveNumbers(tokens, index, 2 * n)
    ensures StartsWith(tokens, index, Numbers(PointsAt(tokens, index, n, Base(cmd, pen)), cmd.relative, pen))
  {
    var numbers := Numbers(PointsAt(tokens, index, n, Base(cmd, pen)), cmd.relative, pen);
    forall k: nat | k < 2 * n ensures tokens[index + k] == numbers[k] {
      assert k % 2 == 0 ==> k == 2 * (k / 2);
      assert k % 2 == 1 ==> k == 2 * (k / 2) + 1;
    }
  }

  /** An iteration that goes on either takes an item or takes nothing. */
  lemma StepTakesItem(tokens: seq<Token>, s: State)
    requires s.index < |tokens| && Step(tokens, s).Running? && !Stuck(tokens, s)
    ensures var item := ItemAt(tokens, s);
            && LegalItem(s.cmd, item)
            && StartsWith(tokens, s.index, EncodeItem(s.pen, item))
            && (item.cmd.kind == Z ==> s.index + |EncodeItem(s.pen, item)| < |tokens|)
            && Step(tokens, s) == Running(Advance(s, item))
  {
    var item := ItemAt(tokens, s);
    var index := if item.explicit then s.index + 1 else s.index;
    if item.cmd.kind != Z {
      NumbersComeBack(tokens, index, Arity(item.cmd.kind), item.cmd, s.pen);
    }
    assert StartsWith(tokens, index, Numbers(item.points, item.cmd.relative, s.pen));
    assert item.explicit ==> tokens[s.index] == Letter(item.cmd);
    assert LegalItem(s.cmd, item);
    assert item.cmd.kind == Z ==> item.explicit && s.index + 1 < |tokens|;
    hide ItemAt, Numbers, PointsAt, Step;
    LetterJoinsNumbers(tokens, s.index, item, s.pen);
    ReadsItem(tokens, s, item);
  }

  lemma LetterJoinsNumbers(tokens: seq<Token>, index: nat, item: Item, pen: Point)
    requires index < |tokens| && (item.explicit ==> tokens[index] == Letter(item.cmd))
    requires var numbers := Numbers(item.points, item.cmd.relative, pen);
             StartsWith(tokens, index + if item.explicit then 1 else 0, numbers)
    ensures StartsWith(tokens, index, EncodeItem(pen, item))
    ensures item.points == [] && item.explicit ==> |EncodeItem(pen, item)| == 1
  {
    hide Numbers;
    var numbers := Numbers(item.points, item.cmd.relative, pen);
    var at := index + if item.explicit then 1 else 0;
    assert tokens[index..at + |numbers|] == tokens[index..at] + tokens[at..at + |numbers|];
  }

  /** The reader has taken exactly `items`, in `n` iterations. */
  ghost predicate HasTaken(tokens: seq<Token>, n: nat, items: seq<Item>) {
    && |items| == n
    && Legal(items)
    && Encode(items) <= tokens
    && (EndsClosed(items) ==> |Encode(items)| < |tokens|)
    && Run(tokens, n) == Running(After(items))
  }

  ghost predicate ClosesBeforeNumber(tokens: seq<Token>, items: seq<Item>) {
    && Legal(items) && EndsClosed(items)
    && Encode(items) < tokens
    && tokens[|Encode(items)|].Num?
  }

  lemma Extends(tokens: seq<Token>, front: seq<Token>, part: seq<Token>)
    requires front <= tokens && |front| + |part| <= |tokens|
    requires tokens[|front|..|front| + |part|] == part
    ensures front + part <= tokens
  {
    assert front + part == tokens[..|front|] + tokens[|front|..|front| + |part|];
  }

  lemma Append(tokens: seq<Token>, items: seq<Item>, item: Item)
    requires Legal(items) && Encode(items) <= tokens && LegalItem(After(items).cmd, item)
    requires StartsWith(tokens, |Encode(items)|, EncodeItem(After(items).pen, item))
    ensures var next := items + [item];
            && Legal(next) && After(next) == Advance(After(items), item)
            && Encode(next) == Encode(items) + EncodeItem(After(items).pen, item) <= tokens
  {
    assert (items + [item])[..|items|] == items;
    hide *;
    Extends(tokens, Encode(items), EncodeItem(After(items).pen, item));
  }

  lemma TakesNext(tokens: seq<Token>, n: nat, items: seq<Item>) returns (next: seq<Item>)
    requires HasTaken(tokens, n, items) && Run(tokens, n + 1).Running? && !Stuck(tokens, After(items))
    ensures HasTaken(tokens, n + 1, next)
  {
    hide ItemAt, EncodeItem, Advance, Drawn, Body, PointsAt, After, Legal, Encode, LegalItem;
    var s := After(items);
    AfterDrawn(items);
    assert Run(tokens, n + 1) == Step(tokens, s) && s.index < |tokens|;
    StepTakesItem(tokens, s);
    var item := ItemAt(tokens, s);
    Append(tokens, items, item);
    next := items + [item];
  }

  lemma EndsAfter(tokens: seq<Token>, n: nat, items: seq<Item>)
    requires HasTaken(tokens, n, items)
    ensures Run(tokens, n + 1).Returned? ==>
              Encodes(tokens, items) && Run(tokens, n + 1).segments == Drawn(items)
    ensures Stuck(tokens, After(items)) ==> ClosesBeforeNumber(tokens, items)
  {
    AfterDrawn(items);
    assert Run(tokens, n + 1) == Step(tokens, After(items));
  }

  /** Every run up to `n` iterations took items all the way, or took items until it ended or got
      stuck. */
  lemma {:induction false} RunTakesItems(tokens: seq<Token>, n: nat) returns (k: nat, items: seq<Item>)
    ensures k <= n && HasTaken(tokens, k, items)
    ensures k < n ==> !Run(tokens, k + 1).Running? || Stuck(tokens, After(items))
  {
    if n == 0 {
      k, items := 0, [];
    } else {
      k, items := RunTakesItems(tokens, n - 1);
      if k == n - 1 && Run(tokens, n).Running? && !Stuck(tokens, After(items)) {
        items := TakesNext(tokens, k, items);
        k := n;
      }
    }
  }

  /** Every item takes a token, so no more iterations take items than there are tokens. */
  lemma {:induction false} ItemsTakeTokens(items: seq<Item>)
    requires Legal(items)
    ensures |items| <= |Encode(items)|
  {
    if items != [] {
      ItemsTakeTokens(items[..|items| - 1]);
    }
  }

  /** The reader's whole behaviour: it took the items of a prefix of the tokens and then ended, or
      met a number after a close. */
  lemma ReaderTrichotomy(tokens: seq<Token>) returns (k: nat, items: seq<Item>)
    ensures HasTaken(tokens, k, items)
    ensures !Run(tokens, k + 1).Running? || Stuck(tokens, After(items))
  {
    k, items := RunTakesItems(tokens, |tokens| + 1);
    ItemsTakeTokens(items);
  }

  lemma EndedSame(tokens: seq<Token>, n: nat, m: nat)
    requires !Run(tokens, n).Running? && !Run(tokens, m).Running?
    ensures Run(tokens, n) == Run(tokens, m)
  {
    EndedStaysEnded(tokens, n, n + m);
    EndedStaysEnded(tokens, m, n + m);
    hide Run;
  }

  lemma StuckIsRunning(tokens: seq<Token>, k: nat, items: seq<Item>, n: nat)
    requires HasTaken(tokens, k, items)
    ensures Stuck(tokens, After(items)) ==> Run(tokens, n).Running?
  {
    hide Run;
    if Stuck(tokens, After(items)) {
      StuckNeverEnds(tokens, k, After(items));
    }
  }

  lemma ReturnsEncoded(tokens: seq<Token>, segments: seq<Segment>) returns (items: seq<Item>)
    requires Returns(tokens, segments)
    ensures Encodes(tokens, items) && segments == Drawn(items)
  {
    var n: nat :| Run(tokens, n) == Returned(segments);
    hide *;
    var k: nat;
    k, items := ReaderTrichotomy(tokens);
    EndsAfter(tokens, k, items);
    StuckIsRunning(tokens, k, items, n);
    EndedSame(tokens, n, k + 1);
  }

  /** The reader returns exactly on the encodings, and what it returns is the path encoded. */
  lemma ReturnsIff(tokens: seq<Token>, segments: seq<Segment>)
    ensures Returns(tokens, segments) <==> exists items :: Encodes(tokens, items) && segments == Drawn(items)
  {
    hide Returns, Encodes, Drawn;
    if Returns(tokens, segments) {
      var items := ReturnsEncoded(tokens, segments);
    }
    forall items | Encodes(tokens, items) && segments == Drawn(items) ensures Returns(tokens, segments) {
      ReadsBack(tokens, items);
    }
  }

  /** The reader never ends exactly when, after the items of a prefix, a number follows a close. */
  lemma RunsForeverIff(tokens: seq<Token>)
    ensures RunsForever(tokens) <==> exists items :: ClosesBeforeNumber(tokens, items)
  {
    hide Run, Drawn;
    if RunsForever(tokens) {
      var k, items := ReaderTrichotomy(tokens);
      EndsAfter(tokens, k, items);
    }
    forall items | ClosesBeforeNumber(tokens, items) ensures RunsForever(tokens) {
      ReadsItems(tokens, items);
      AfterDrawn(items);
      StuckNeverEnds(tokens, |items|, After(items));
    }
  }

  /** potrace writes a letter, or nothing, after each close. */
  predicate PotraceCloses(tokens: seq<Token>) {
    forall i: nat :: i + 1 < |tokens| && tokens[i].Letter? && tokens[i].cmd.kind == Z ==> tokens[i + 1].Letter?
  }

  lemma StuckOnlyAfterClose(tokens: seq<Token>, items: seq<Item>)
    ensures ClosesBeforeNumber(tokens, items) ==> !PotraceCloses(tokens)
  {
    if ClosesBeforeNumber(tokens, items) {
      var front, last := items[..|items| - 1], items[|items| - 1];
      var at := |Encode(front)|;
      assert EncodeItem(After(front).pen, last) == [Letter(last.cmd)];
      assert Encode(items)[at] == Letter(last.cmd);
      assert tokens[at] == Letter(last.cmd) && tokens[at + 1].Num?;
    }
  }

  /** So on its output the reader always ends. */
  lemma EndsOnPotrace(tokens: seq<Token>)
    requires PotraceCloses(tokens)
    ensures !RunsForever(tokens)
  {
    RunsForeverIff(tokens);
    forall items ensures !ClosesBeforeNumber(tokens, items) {
      StuckOnlyAfterClose(tokens, items);
    }
  }

  /** Path data has one reading: two encodings of the same tokens draw the same path. */
  lemma OneReading(tokens: seq<Token>, a: seq<Item>, b: seq<Item>)
    requires Encodes(tokens, a) && Encodes(tokens, b)
    ensures Drawn(a) == Drawn(b)
  {
    ReadsBack(tokens, a);
    ReadsBack(tokens, b);
    ReturnsOnce(tokens, Drawn(a), Drawn(b));
  }
}
