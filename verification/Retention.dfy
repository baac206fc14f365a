/** Which raw payloads `partitions.manage` may drop: the fold of every tenant's retention with the
    deployment's, its fallback when the settings cannot be read, and the partition-drop rule.
    Durations and instants are nanoseconds; `Hours()/24` is modelled without floating point. */
module Retention {
  import opened Wrappers
  import opened TenantPages

  const HOUR: nat := 3_600_000_000_000
  const DAY: nat := 24 * HOUR
  const MONTH: nat := 30 * DAY
  const RAW_MIN := 1
  const RAW_MAX := 365
  const EVENT_MIN := 1
  const EVENT_MAX := 120
  const DEFAULT_RAW_DAYS := 30
  const DEFAULT_EVENT_MONTHS := 13

  // ---------------------------------------------------------------- one org's settings

  /** The retention keys of a settings patch, in days and in months; None is a key not written. */
  datatype Patch = Patch(rawDays: Option<int>, eventMonths: Option<int>)

  /** An org as stored, with its own overrides. */
  datatype Org = Org(id: OrgId, own: Patch)

  /** A forced value beats the org's own, and a value out of bounds is clamped when it is read. */
  function Pick(forced: Option<int>, own: Option<int>, default: nat, min: nat, max: nat): (v: nat)
    requires min <= default <= max
    ensures min <= v <= max
  {
    match if forced.Some? then forced else own
    case None => default
    case Some(v) => if v < min then min else if v > max then max else v
  }

  function EffectiveDays(forced: Patch, o: Org): (d: nat)
    ensures 1 <= d <= 365
  {
    Pick(forced.rawDays, o.own.rawDays, DEFAULT_RAW_DAYS, RAW_MIN, RAW_MAX)
  }

  function EffectiveMonths(forced: Patch, o: Org): (m: nat)
    ensures 1 <= m <= 120
  {
    Pick(forced.eventMonths, o.own.eventMonths, DEFAULT_EVENT_MONTHS, EVENT_MIN, EVENT_MAX)
  }

  /** `v` is the value in [min, max] nearest to `asked`. */
  ghost predicate Nearest(v: nat, asked: int, min: nat, max: nat) {
    min <= v <= max && forall w: nat :: min <= w <= max ==> Distance(v, asked) <= Distance(w, asked)
  }

  function Distance(a: int, b: int): nat {
    if a < b then b - a else a - b
  }

  /** The deployment's value decides wherever it gives one, else the org's own, and a value out of bounds
      counts as the nearest one in bounds; a key nobody wrote is thirty days, or thirteen months. */
  lemma EffectiveSettings(forced: Patch, o: Org)
    ensures forced.rawDays.Some? ==> Nearest(EffectiveDays(forced, o), forced.rawDays.value, 1, 365)
    ensures forced.rawDays.None? && o.own.rawDays.Some? ==>
              Nearest(EffectiveDays(forced, o), o.own.rawDays.value, 1, 365)
    ensures forced.rawDays.None? && o.own.rawDays.None? ==> EffectiveDays(forced, o) == 30
    ensures forced.eventMonths.Some? ==> Nearest(EffectiveMonths(forced, o), forced.eventMonths.value, 1, 120)
    ensures forced.eventMonths.None? && o.own.eventMonths.Some? ==>
              Nearest(EffectiveMonths(forced, o), o.own.eventMonths.value, 1, 120)
    ensures forced.eventMonths.None? && o.own.eventMonths.None? ==> EffectiveMonths(forced, o) == 13
  {
  }

  function Days(forced: Patch): Org -> nat {
    o => EffectiveDays(forced, o)
  }

  function Months(forced: Patch): Org -> nat {
    o => EffectiveMonths(forced, o)
  }

  /** The widest of a setting over some orgs; zero when there are none. */
  function Widest(setting: Org -> nat, orgs: seq<Org>): nat {
    if orgs == [] then 0
    else
      var rest, v := Widest(setting, orgs[..|orgs| - 1]), setting(orgs[|orgs| - 1]);
      if v > rest then v else rest
  }

  lemma {:induction false} WidestIsMaximum(setting: Org -> nat, orgs: seq<Org>)
    ensures forall o :: o in orgs ==> setting(o) <= Widest(setting, orgs)
    ensures orgs != [] ==> exists o :: o in orgs && setting(o) == Widest(setting, orgs)
    ensures orgs == [] ==> Widest(setting, orgs) == 0
  {
    if orgs != [] {
      var last := orgs[|orgs| - 1];
      WidestIsMaximum(setting, orgs[..|orgs| - 1]);
      assert orgs == orgs[..|orgs| - 1] + [last];
      assert last in orgs;
    }
  }

  /** Only which orgs there are matters. */
  lemma WidestOfSame(setting: Org -> nat, a: seq<Org>, b: seq<Org>)
    requires forall o :: o in a <==> o in b
    ensures Widest(setting, a) == Widest(setting, b)
  {
    WidestIsMaximum(setting, a);
    WidestIsMaximum(setting, b);
    if a != [] {
      assert a[0] in a && a[0] in b;
    }
    if b != [] {
      assert b[0] in b && b[0] in a;
    }
  }

  // ---------------------------------------------------------------- the walk over the orgs

  ghost predicate Live(table: set<Org>, id: OrgId) {
    exists o :: o in table && o.id == id
  }

  /** `WHERE deleted_at IS NULL AND id > after ORDER BY id LIMIT n`, for some positive n: whatever limit
      was clamped on the way, an empty page means there is nothing above the cursor. */
  ghost predicate IsOrgPage(table: set<Org>, after: nat, page: seq<Org>) {
    && (forall i, j :: 0 <= i < j < |page| ==> page[i].id < page[j].id)
    && (forall o :: o in page ==> o in table && o.id > after)
    && forall o :: o in table && o.id > after && o !in page ==> page != [] && page[|page| - 1].id < o.id
  }

  /** The org was live at each query of the walk. */
  ghost predicate Stays(tables: nat -> set<Org>, id: OrgId) {
    forall k: nat :: Live(tables(k), id)
  }

  ghost predicate Saw(seen: seq<Org>, id: OrgId) {
    exists o :: o in seen && o.id == id
  }

  /** Every org that stayed, up to the cursor, has been read. */
  ghost predicate ReadUpTo(tables: nat -> set<Org>, after: nat, seen: seq<Org>) {
    forall id: OrgId :: id <= after && Stays(tables, id) ==> Saw(seen, id)
  }

  ghost predicate CoversStayers(tables: nat -> set<Org>, seen: seq<Org>) {
    forall id: OrgId :: Stays(tables, id) ==> Saw(seen, id)
  }

  ghost predicate WasIn(tables: nat -> set<Org>, o: Org) {
    exists k: nat :: o in tables(k)
  }

  lemma PageReads(tables: nat -> set<Org>, k: nat, after: nat, seen: seq<Org>, page: seq<Org>)
    requires ReadUpTo(tables, after, seen) && IsOrgPage(tables(k), after, page) && page != []
    ensures ReadUpTo(tables, page[|page| - 1].id, seen + page)
  {
    forall id: OrgId | id <= page[|page| - 1].id && Stays(tables, id) ensures Saw(seen + page, id) {
      assert Live(tables(k), id);
      var o :| if id <= after then o in seen && o.id == id else o in tables(k) && o.id == id;
      assert o in seen + page;
    }
  }

  lemma LastPage(tables: nat -> set<Org>, k: nat, after: nat, seen: seq<Org>)
    requires ReadUpTo(tables, after, seen) && IsOrgPage(tables(k), after, [])
    ensures CoversStayers(tables, seen)
  {
    forall id: OrgId | Stays(tables, id) ensures Saw(seen, id) {
      assert Live(tables(k), id);
    }
  }

  /** So many days, or so many months of thirty days, as a duration. */
  function Span(n: nat, unit: nat): nat {
    n * unit
  }

  lemma SpanMaximum(v: nat, w: nat, unit: nat)
    requires unit > 0
    ensures Span(if v > w then v else w, unit) == if Span(v, unit) > Span(w, unit) then Span(v, unit) else Span(w, unit)
  {
    if v > w {
      assert v * unit == w * unit + (v - w) * unit;
    } else {
      assert w * unit == v * unit + (w - v) * unit;
    }
  }

  /** The inner loop: the maxima over one page and what was seen before. */
  method ReadPage(forced: Patch, page: seq<Org>, raw0: nat, event0: nat, ghost seen: seq<Org>)
    returns (raw: nat, event: nat)
    requires raw0 == Span(Widest(Days(forced), seen), DAY) && event0 == Span(Widest(Months(forced), seen), MONTH)
    ensures raw == Span(Widest(Days(forced), seen + page), DAY)
    ensures event == Span(Widest(Months(forced), seen + page), MONTH)
  {
    hide Widest, Span;
    raw, event := raw0, event0;
    assert seen + page[..0] == seen;
    for i := 0 to |page|
      invariant raw == Span(Widest(Days(forced), seen + page[..i]), DAY)
      invariant event == Span(Widest(Months(forced), seen + page[..i]), MONTH)
    {
      WidestStep(Days(forced), seen, page, i);
      WidestStep(Months(forced), seen, page, i);
      SpanMaximum(EffectiveDays(forced, page[i]), Widest(Days(forced), seen + page[..i]), DAY);
      SpanMaximum(EffectiveMonths(forced, page[i]), Widest(Months(forced), seen + page[..i]), MONTH);
      var effRaw, effEvent := Span(EffectiveDays(forced, page[i]), DAY), Span(EffectiveMonths(forced, page[i]), MONTH);
      if effRaw > raw {
        raw := effRaw;
      }
      if effEvent > event {
        event := effEvent;
      }
    }
    assert page[..|page|] == page;
  }

  lemma WidestStep(setting: Org -> nat, seen: seq<Org>, page: seq<Org>, i: nat)
    requires i < |page|
    ensures var w, v := Widest(setting, seen + page[..i]), setting(page[i]);
            Widest(setting, seen + page[..i + 1]) == if v > w then v else w
  {
    var more := seen + page[..i + 1];
    assert more[..|more| - 1] == seen + page[..i] && more[|more| - 1] == page[i];
  }

  /** The answers are the maxima over orgs that were really there when read, every one that stayed
      among them. */
  ghost predicate Reduces(forced: Patch, tables: nat -> set<Org>, read: Option<(nat, nat)>) {
    exists seen: seq<Org> :: IsReduceOf(forced, tables, seen, read)
  }

  ghost predicate IsReduceOf(forced: Patch, tables: nat -> set<Org>, seen: seq<Org>, read: Option<(nat, nat)>) {
    && Answers(forced, seen, read)
    && (forall o :: o in seen ==> WasIn(tables, o))
    && CoversStayers(tables, seen)
  }

  /** `MaxRetention`'s walk while orgs are created, deleted and rewritten between its queries:
      `tables(k)` is the table at the k-th query and `listLive` what the repository answers, None for an
      error. `ever` holds every id there was. The walk ends at an empty page only. */
  method MaxRetention(forced: Patch, listLive: (nat, nat) -> Option<seq<Org>>,
                      ghost tables: nat -> set<Org>, ghost ever: set<nat>)
    returns (read: Option<(nat, nat)>)
    requires forall k: nat, after: nat :: listLive(k, after).Some? ==>
               IsOrgPage(tables(k), after, listLive(k, after).value)
    requires forall k: nat, o :: o in tables(k) ==> o.id in ever
    ensures read.Some? ==> Reduces(forced, tables, read)
    ensures read.None? ==> exists k: nat, after: nat :: listLive(k, after).None?
  {
    var raw, event, after: nat, k: nat := 0, 0, 0, 0;
    ghost var seen: seq<Org> := [];
    while true
      invariant raw == Span(Widest(Days(forced), seen), DAY) && event == Span(Widest(Months(forced), seen), MONTH)
      invariant forall o :: o in seen ==> WasIn(tables, o)
      invariant ReadUpTo(tables, after, seen)
      decreases set x | x in ever && x > after
    {
      var answer := listLive(k, after);
      if answer.None? {
        return None;
      }
      var page := answer.value;
      assert IsOrgPage(tables(k), after, page);
      if page == [] {
        LastPage(tables, k, after, seen);
        read := Some((raw, event));
        assert IsReduceOf(forced, tables, seen, read);
        return;
      }
      var last := page[|page| - 1];
      assert last in page && last in tables(k);
      CursorMoves(ever, after, last.id);
      PageReads(tables, k, after, seen, page);
      raw, event := ReadPage(forced, page, raw, event, seen);
      ghost var before := seen;
      seen := seen + page;
      forall o | o in seen ensures WasIn(tables, o) {
        if o !in before {
          assert o in page && o in tables(k);
        }
      }
      after, k := last.id, k + 1;
    }
  }

  lemma CursorMoves(ever: set<nat>, after: nat, next: nat)
    requires next in ever && next > after
    ensures (set x | x in ever && x > next) < (set x | x in ever && x > after)
  {
    var above, left := set x | x in ever && x > after, set x | x in ever && x > next;
    assert next in above && next !in left;
    assert forall x :: x in left ==> x in above;
  }

  /** When nothing changed during the walk, the answer is the maximum over the table. */
  lemma StableAnswer(forced: Patch, orgs: seq<Org>, tables: nat -> set<Org>, read: Option<(nat, nat)>)
    requires forall i, j :: 0 <= i < j < |orgs| ==> orgs[i].id != orgs[j].id
    requires forall k: nat, o :: o in tables(k) <==> o in orgs
    requires Reduces(forced, tables, read)
    ensures Answers(forced, orgs, read)
  {
    var seen: seq<Org> :| IsReduceOf(forced, tables, seen, read);
    forall o | o in orgs ensures o in seen {
      forall k: nat ensures Live(tables(k), o.id) {
        assert o in tables(k);
      }
      assert Stays(tables, o.id) && Saw(seen, o.id);
      var p :| p in seen && p.id == o.id;
      assert WasIn(tables, p);
      var k: nat :| p in tables(k);
      assert p in orgs;
      var i :| 0 <= i < |orgs| && orgs[i] == o;
      var j :| 0 <= j < |orgs| && orgs[j] == p;
      assert i == j;
    }
    forall o | o in seen ensures o in orgs {
      assert WasIn(tables, o);
    }
    WidestOfSame(Days(forced), seen, orgs);
    WidestOfSame(Months(forced), seen, orgs);
  }

  // ---------------------------------------------------------------- the fold

  /** The settings table's upper bounds; None is a key without one. */
  function WidenToSettingsCeiling(
    rawDays: nat, eventMonths: nat, rawBound: Option<nat>, eventBound: Option<nat>): (nat, nat)
  {
    (if rawBound.Some? && rawBound.value > rawDays then rawBound.value else rawDays,
     if eventBound.Some? && eventBound.value > eventMonths then eventBound.value else eventMonths)
  }

  /** `read` is what `MaxRetention` answered, as durations, or None for an error. */
  function FoldRetention(read: Option<(nat, nat)>, rawDays: nat, eventMonths: nat): (nat, nat) {
    match read
    case None => WidenToSettingsCeiling(rawDays, eventMonths, Some(RAW_MAX), Some(EVENT_MAX))
    case Some((raw, event)) =>
      (if raw / DAY > rawDays then raw / DAY else rawDays,
       if event / DAY / 30 > eventMonths then event / DAY / 30 else eventMonths)
  }

  /** The raw window in days that one tick hands to the dropper. */
  function RawWindow(rawPayloads: nat, read: Option<(nat, nat)>): nat {
    FoldRetention(read, rawPayloads / DAY, 0).0
  }

  /** The answer `MaxRetention` gives over the orgs it read, when it gives one. */
  ghost predicate Answers(forced: Patch, orgs: seq<Org>, read: Option<(nat, nat)>) {
    read.Some? ==> read.value == (Span(Widest(Days(forced), orgs), DAY), Span(Widest(Months(forced), orgs), MONTH))
  }

  /** A read that succeeds gives exactly the larger of the floor and the widest tenant; one that
      fails never gives less than that. No stored setting is assumed to be in bounds. */
  lemma FoldNeverNarrows(rawPayloads: nat, forced: Patch, orgs: seq<Org>, read: Option<(nat, nat)>)
    requires Answers(forced, orgs, read)
    ensures RawWindow(rawPayloads, read) >= rawPayloads / DAY
    ensures forall o :: o in orgs ==> RawWindow(rawPayloads, read) >= EffectiveDays(forced, o)
    ensures read.Some? ==>
              || RawWindow(rawPayloads, read) == rawPayloads / DAY
              || RawWindow(rawPayloads, read) == Widest(Days(forced), orgs)
    ensures read.None? ==>
              RawWindow(rawPayloads, read) == if rawPayloads / DAY > 365 then rawPayloads / DAY else 365
  {
    WidestIsMaximum(Days(forced), orgs);
    forall o | o in orgs ensures EffectiveDays(forced, o) <= Widest(Days(forced), orgs) {
      assert Days(forced)(o) <= Widest(Days(forced), orgs);
    }
    WholeDays(Widest(Days(forced), orgs));
  }

  lemma WholeDays(d: nat)
    ensures Span(d, DAY) / DAY == d && Span(d, MONTH) / DAY / 30 == d
  {
    assert Span(d, MONTH) == d * 30 * DAY;
  }

  /** The same for the event tables: months are kept as thirty days and come back as months. */
  lemma EventMonthsNeverNarrow(
    forced: Patch, orgs: seq<Org>, read: Option<(nat, nat)>, rawDays: nat, eventMonths: nat)
    requires Answers(forced, orgs, read)
    ensures FoldRetention(read, rawDays, eventMonths).1 >= eventMonths
    ensures forall o :: o in orgs ==> FoldRetention(read, rawDays, eventMonths).1 >= EffectiveMonths(forced, o)
    ensures read.Some? ==>
              || FoldRetention(read, rawDays, eventMonths).1 == eventMonths
              || FoldRetention(read, rawDays, eventMonths).1 == Widest(Months(forced), orgs)
    ensures read.None? ==>
              FoldRetention(read, rawDays, eventMonths).1 == if eventMonths > 120 then eventMonths else 120
  {
    WidestIsMaximum(Months(forced), orgs);
    forall o | o in orgs ensures EffectiveMonths(forced, o) <= Widest(Months(forced), orgs) {
      assert Months(forced)(o) <= Widest(Months(forced), orgs);
    }
    WholeDays(Widest(Months(forced), orgs));
  }

  /** A missing bound leaves the window where it was instead of dropping everything. */
  lemma MissingBoundDoesNotNarrow(rawDays: nat, eventMonths: nat, rawBound: Option<nat>, eventBound: Option<nat>)
    ensures var (r, e) := WidenToSettingsCeiling(rawDays, eventMonths, rawBound, eventBound);
            r >= rawDays && e >= eventMonths
  {
  }

  // ---------------------------------------------------------------- the drop rule

  /** `oto_drop_partitions_before` on a daily table: the whole day must be past the cutoff. */
  predicate Droppable(at: nat, rawDays: nat, now: nat) {
    (at / DAY + 1) * DAY + rawDays * DAY <= now
  }

  /** A row can go exactly when every instant of its day is older than the window. */
  lemma DroppableIff(at: nat, rawDays: nat, now: nat)
    ensures Droppable(at, rawDays, now) <==>
            forall other: nat :: SameDay(other, at) ==> other + rawDays * DAY < now
  {
    var end: nat := (at / DAY + 1) * DAY - 1;
    assert SameDay(end, at);
    forall other: nat | SameDay(other, at) ensures other <= end {
      DayEnd(other);
    }
  }

  /** Midnight to midnight, in UTC. */
  predicate SameDay(a: nat, b: nat) {
    a / 86_400_000_000_000 == b / 86_400_000_000_000
  }

  lemma DayEnd(at: nat)
    ensures at / DAY * DAY <= at < (at / DAY + 1) * DAY
  {
  }

  /** A dropped row is older than the window it was dropped under. */
  lemma DroppedIsOld(at: nat, rawDays: nat, now: nat)
    requires Droppable(at, rawDays, now)
    ensures now - at > rawDays * DAY
  {
    DayEnd(at);
  }

  // ---------------------------------------------------------------- the deployment's floor

  lemma PartDays(p: nat, w: nat)
    requires w >= p / DAY
    ensures w * DAY >= p <==> p % DAY == 0 || w > p / DAY
  {
    var f := p / DAY;
    assert p == f * DAY + p % DAY;
    if w > f {
      assert w * DAY >= (f + 1) * DAY;
    }
  }

  /** The config accepts any positive duration and the fold counts whole days. So the deployment's own
      retention is kept to the nanosecond exactly when it is a whole number of days, or the read failed
      and the ceiling is wider, or it succeeded and its answer is wider. */
  lemma FloorIsWholeDays(rawPayloads: nat, read: Option<(nat, nat)>)
    ensures RawWindow(rawPayloads, read) * DAY >= rawPayloads <==>
              || rawPayloads % DAY == 0
              || match read
                 case None => 365 > rawPayloads / DAY
                 case Some((raw, _)) => raw / DAY > rawPayloads / DAY
  {
    PartDays(rawPayloads, RawWindow(rawPayloads, read));
  }

  /** In terms of what is configured: after a read that succeeds, when the retention is whole days or
      some tenant's effective window is more days than it has whole ones. */
  lemma FloorByTenants(rawPayloads: nat, forced: Patch, orgs: seq<Org>, read: Option<(nat, nat)>)
    requires read.Some? && Answers(forced, orgs, read)
    ensures RawWindow(rawPayloads, read) * DAY >= rawPayloads <==>
            rawPayloads % DAY == 0 || exists o :: o in orgs && EffectiveDays(forced, o) > rawPayloads / DAY
  {
    FloorIsWholeDays(rawPayloads, read);
    WidestIsMaximum(Days(forced), orgs);
    WholeDays(Widest(Days(forced), orgs));
    forall o | o in orgs ensures EffectiveDays(forced, o) <= Widest(Days(forced), orgs) {
      assert Days(forced)(o) <= Widest(Days(forced), orgs);
    }
    if Widest(Days(forced), orgs) > rawPayloads / DAY {
      var o :| o in orgs && Days(forced)(o) == Widest(Days(forced), orgs);
      assert EffectiveDays(forced, o) > rawPayloads / DAY;
    }
  }

  /** Thirty-six hours configured, one day kept: a payload aged one day and a nanosecond goes. */
  lemma FloorFailsOnPartDays()
    ensures var rawPayloads, at, now := 36 * HOUR, DAY - 1, 2 * DAY;
            var days := RawWindow(rawPayloads, Some((1 * DAY, 30 * DAY)));
            Droppable(at, days, now) && now - at < rawPayloads
  {
    assert 36 * HOUR / DAY == 1;
    assert (DAY - 1) / DAY == 0;
  }

  // ---------------------------------------------------------------- every sequence of ticks

  datatype Row = Row(org: nat, at: nat)

  /** A row that was dropped, when, and the orgs as they were at that tick. */
  datatype Drop = Drop(row: Row, now: nat, orgs: seq<Org>)

  datatype State = State(orgs: seq<Org>, rows: set<Row>, dropped: set<Drop>)

  /** The orgs change in any way at all, settings included; a tick reads them, or fails to. */
  datatype Event =
    | Change(orgs: seq<Org>)
    | Ingest(row: Row)
    | Tick(now: nat, read: Option<(nat, nat)>)

  ghost predicate Next(rawPayloads: nat, forced: Patch, s: State, e: Event, s': State) {
    match e
    case Change(orgs) => s' == s.(orgs := orgs)
    case Ingest(row) => s' == s.(rows := s.rows + {row})
    case Tick(now, read) =>
      var gone := set r | r in s.rows && Droppable(r.at, RawWindow(rawPayloads, read), now);
      && Answers(forced, s.orgs, read)
      && s' == s.(rows := s.rows - gone, dropped := s.dropped + set r | r in gone :: Drop(r, now, s.orgs))
  }

  ghost predicate IsRun(rawPayloads: nat, forced: Patch, states: seq<State>, events: seq<Event>) {
    && |states| == |events| + 1
    && states[0].dropped == {}
    && forall i :: 0 <= i < |events| ==> Next(rawPayloads, forced, states[i], events[i], states[i + 1])
  }

  /** The row was past the deployment's whole days, and past its org's window at that tick. */
  ghost predicate Expired(rawPayloads: nat, forced: Patch, d: Drop) {
    && d.now - d.row.at > rawPayloads / DAY * DAY
    && forall o :: o in d.orgs && o.id == d.row.org ==> d.now - d.row.at > EffectiveDays(forced, o) * DAY
  }

  /** In every run, whatever was written and however often the read failed, no row was dropped inside
      the deployment's floor or the window its org had at that tick. */
  lemma {:induction false} NoRowDroppedInsideItsWindow(
    rawPayloads: nat, forced: Patch, states: seq<State>, events: seq<Event>, i: nat)
    requires IsRun(rawPayloads, forced, states, events) && i < |states|
    ensures forall d :: d in states[i].dropped ==> Expired(rawPayloads, forced, d)
  {
    if i > 0 {
      NoRowDroppedInsideItsWindow(rawPayloads, forced, states, events, i - 1);
      var s, e, s' := states[i - 1], events[i - 1], states[i];
      assert Next(rawPayloads, forced, states[i - 1], events[i - 1], states[i - 1 + 1]);
      if e.Tick? {
        forall d | d in s'.dropped ensures Expired(rawPayloads, forced, d) {
          if d !in s.dropped {
            DroppedIsExpired(rawPayloads, forced, d, e.read);
          }
        }
      }
    }
  }

  /** And a tick keeps nothing longer than the window it computed: what it leaves has an instant of its day
      inside the window, and what it takes has none. */
  lemma TickDropsExactly(
    rawPayloads: nat, forced: Patch, s: State, now: nat, read: Option<(nat, nat)>, s': State, r: Row)
    requires Next(rawPayloads, forced, s, Tick(now, read), s') && r in s.rows
    ensures r in s'.rows <==>
            exists other: nat :: SameDay(other, r.at) && other + RawWindow(rawPayloads, read) * DAY >= now
    ensures r !in s'.rows ==> Drop(r, now, s.orgs) in s'.dropped
  {
    DroppableIff(r.at, RawWindow(rawPayloads, read), now);
  }

  lemma DroppedIsExpired(rawPayloads: nat, forced: Patch, d: Drop, read: Option<(nat, nat)>)
    requires Answers(forced, d.orgs, read) && Droppable(d.row.at, RawWindow(rawPayloads, read), d.now)
    ensures Expired(rawPayloads, forced, d)
  {
    var w := RawWindow(rawPayloads, read);
    FoldNeverNarrows(rawPayloads, forced, d.orgs, read);
    DroppedIsOld(d.row.at, w, d.now);
    assert w * DAY >= rawPayloads / DAY * DAY;
    forall o | o in d.orgs && o.id == d.row.org ensures d.now - d.row.at > EffectiveDays(forced, o) * DAY {
      assert w * DAY >= EffectiveDays(forced, o) * DAY;
    }
  }
}
