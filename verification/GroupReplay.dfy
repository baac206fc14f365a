/** `Analyse` of `groupreplay`: how Alertmanager grouped a stored corpus against how oto's derived
    key would have. The code fills maps of sets and counts them in map order; the specification is a
    relation, the set of (upstream group, derived group, alert, labels) rows the corpus contains. */
module GroupReplay {
  import opened Labels
  import opened Counting

  /** What both keys hash. */
  datatype Identity = Identity(org: nat, cluster: string, labels: map<string, string>)

  /** The alerts domain as this tool calls it. The alert key is a truncated SHA-256 and is taken to
      be injective; nothing is assumed of the group key. */
  datatype Kernel = Kernel(
    lib: Lib,
    validCluster: string -> bool,
    validLabels: map<string, string> -> bool,
    alertKey: Identity -> string,
    groupKey: Identity -> string)
  {
    ghost predicate Valid() {
      lib.Valid() && forall a, b :: alertKey(a) == alertKey(b) ==> a == b
    }
  }

  const NIL_ORG: nat := 0

  datatype Batch = Batch(
    org: nat,
    source: UuidText,
    cluster: string,
    receiver: string,
    groupLabels: map<string, string>,
    alerts: seq<map<string, string>>,
    truncated: nat)

  datatype Report = Report(
    batches: nat, batchesSkipped: nat, alertRows: nat, truncated: nat,
    distinctAlerts: nat, upstreamGroups: nat, derivedGroups: nat, derivedSingleton: nat,
    upstreamSizes: seq<nat>, derivedSizes: seq<nat>,
    overSplit: nat, extraThreads: nat, worstSplitInto: nat,
    overMergeIntended: nat, overMergeSuspect: nat, worstMergeFrom: nat)

  // ---------------------------------------------------------------- the relation

  datatype Row = Row(ug: string, dg: string, alert: string, gl: string)

  predicate Accepted(k: Kernel, b: Batch) {
    k.validCluster(b.cluster) && b.org != NIL_ORG
  }

  ghost function UpstreamOf(k: Kernel, b: Batch): string
    requires k.Valid()
  {
    UpstreamKey(b.source, b.receiver, RenderLabels(k.lib, b.groupLabels))
  }

  ghost function RowOf(k: Kernel, b: Batch, labels: map<string, string>): Row
    requires k.Valid()
  {
    var id := Identity(b.org, b.cluster, labels);
    Row(UpstreamOf(k, b), k.groupKey(id), k.alertKey(id), RenderLabels(k.lib, b.groupLabels))
  }

  /** Every row the corpus contains: a set, so order and repetition are already gone. */
  ghost function Rows(k: Kernel, batches: seq<Batch>): set<Row>
    requires k.Valid()
  {
    set b, ls | b in batches && Accepted(k, b) && ls in b.alerts && k.validLabels(ls) :: RowOf(k, b, ls)
  }

  /** Every upstream group the corpus names, with or without a readable alert. */
  ghost function Ugs(k: Kernel, batches: seq<Batch>): set<string>
    requires k.Valid()
  {
    set b | b in batches && Accepted(k, b) :: UpstreamOf(k, b)
  }

  ghost function Alerts(rows: set<Row>): set<string> { set r | r in rows :: r.alert }
  ghost function Derived(rows: set<Row>): set<string> { set r | r in rows :: r.dg }
  ghost function Upstreams(rows: set<Row>): set<string> { set r | r in rows :: r.ug }
  ghost function DA(rows: set<Row>): set<(string, string)> { set r | r in rows :: (r.dg, r.alert) }
  ghost function DU(rows: set<Row>): set<(string, string)> { set r | r in rows :: (r.dg, r.ug) }
  ghost function DL(rows: set<Row>): set<(string, string)> { set r | r in rows :: (r.dg, r.gl) }
  ghost function UA(rows: set<Row>): set<(string, string)> { set r | r in rows :: (r.ug, r.alert) }
  ghost function UD(rows: set<Row>): set<(string, string)> { set r | r in rows :: (r.ug, r.dg) }

  lemma FirstsOfRows(rows: set<Row>)
    ensures Firsts(DA(rows)) == Firsts(DU(rows)) == Firsts(DL(rows)) == Derived(rows)
    ensures Firsts(UA(rows)) == Firsts(UD(rows)) == Upstreams(rows)
  {
    forall r | r in rows
      ensures r.dg in Firsts(DA(rows)) && r.dg in Firsts(DU(rows)) && r.dg in Firsts(DL(rows))
      ensures r.ug in Firsts(UA(rows)) && r.ug in Firsts(UD(rows))
    {
      assert (r.dg, r.alert) in DA(rows) && (r.dg, r.ug) in DU(rows) && (r.dg, r.gl) in DL(rows);
      assert (r.ug, r.alert) in UA(rows) && (r.ug, r.dg) in UD(rows);
    }
  }

  // ---------------------------------------------------------------- the report, specified

  type Sets = map<string, set<string>>

  ghost function SizeClass(t: Sets, keys: set<string>, n: nat): set<string> {
    set k | k in keys && k in t && |t[k]| == n
  }

  ghost function Bigger(t: Sets, keys: set<string>): set<string> {
    set k | k in keys && k in t && |t[k]| > 1
  }

  /** The descending list of the sizes of the sets in `t`. */
  ghost predicate IsSizes(s: seq<nat>, t: Sets) {
    && Descending(s)
    && (forall n: nat :: multiset(s)[n] == |SizeClass(t, t.Keys, n)|)
    && Sum(s) == |PairsOn(t, t.Keys)|
  }

  /** The largest size above one among the given keys, or zero when there is none. */
  ghost predicate IsWorst(w: nat, t: Sets, keys: set<string>) {
    && (forall k :: k in keys && k in t ==> |t[k]| <= if w == 0 then 1 else w)
    && (w != 0 ==> w > 1 && exists k :: k in keys && k in t && |t[k]| == w)
  }

  /** Derived groups that hold two or more different groupLabels renderings. */
  ghost function Suspect(rows: set<Row>): set<string> {
    set d | d in Derived(rows) && |Of(DL(rows), d)| > 1
  }

  /** Derived groups that absorbed several upstream groups, all with the same rendering. */
  ghost function Intended(rows: set<Row>): set<string> {
    set d | d in Derived(rows) && |Of(DU(rows), d)| > 1 && |Of(DL(rows), d)| == 1
  }

  function CountAccepted(k: Kernel, batches: seq<Batch>): nat {
    if batches == [] then 0
    else CountAccepted(k, batches[..|batches| - 1]) + if Accepted(k, batches[|batches| - 1]) then 1 else 0
  }

  function CountAlerts(k: Kernel, alerts: seq<map<string, string>>): nat {
    if alerts == [] then 0
    else CountAlerts(k, alerts[..|alerts| - 1]) + if k.validLabels(alerts[|alerts| - 1]) then 1 else 0
  }

  function CountRows(k: Kernel, batches: seq<Batch>): nat {
    if batches == [] then 0
    else
      var b := batches[|batches| - 1];
      CountRows(k, batches[..|batches| - 1]) + if Accepted(k, b) then CountAlerts(k, b.alerts) else 0
  }

  function CountTruncated(k: Kernel, batches: seq<Batch>): nat {
    if batches == [] then 0
    else
      var b := batches[|batches| - 1];
      CountTruncated(k, batches[..|batches| - 1]) + if Accepted(k, b) then b.truncated else 0
  }

  /** The counters that count payload rows. */
  ghost predicate CountsRows(k: Kernel, batches: seq<Batch>, rep: Report) {
    && rep.batches == CountAccepted(k, batches)
    && rep.batches + rep.batchesSkipped == |batches|
    && rep.alertRows == CountRows(k, batches)
    && rep.truncated == CountTruncated(k, batches)
  }

  /** The counters that count distinct alerts and groups, in terms of the relation alone. */
  ghost predicate CountsGroups(ugs: set<string>, rows: set<Row>, rep: Report) {
    CountsSizes(ugs, rows, rep) && CountsDisagreement(ugs, rows, rep)
  }

  ghost predicate CountsSizes(ugs: set<string>, rows: set<Row>, rep: Report) {
    && rep.distinctAlerts == |Alerts(rows)|
    && rep.upstreamGroups == |ugs|
    && rep.derivedGroups == |Derived(rows)|
    && rep.derivedSingleton == |SizeClass(Table(DA(rows), Derived(rows)), Derived(rows), 1)|
    && IsSizes(rep.upstreamSizes, Table(UA(rows), ugs))
    && IsSizes(rep.derivedSizes, Table(DA(rows), Derived(rows)))
  }

  ghost predicate CountsDisagreement(ugs: set<string>, rows: set<Row>, rep: Report) {
    && rep.overSplit == |Bigger(Table(UD(rows), ugs), ugs)|
    && rep.extraThreads == SumSurplus(Table(UD(rows), ugs), ugs)
    && IsWorst(rep.worstSplitInto, Table(UD(rows), ugs), ugs)
    && rep.overMergeIntended == |Intended(rows)|
    && rep.overMergeSuspect == |Suspect(rows)|
    && IsWorst(rep.worstMergeFrom, Table(DU(rows), Derived(rows)), Derived(rows))
  }

  // ---------------------------------------------------------------- filling the maps

  function Put(t: Sets, k: string, v: string): Sets {
    t[k := (if k in t then t[k] else {}) + {v}]
  }

  lemma PutInserts(pairs: set<(string, string)>, keys: set<string>, k: string, v: string)
    requires Firsts(pairs) <= keys
    ensures Put(Table(pairs, keys), k, v) == Table(pairs + {(k, v)}, keys + {k})
  {
    TableInsert(pairs, keys, k, v);
    OfEmptyUnlessFirst(pairs, k);
  }

  lemma OpenInserts(pairs: set<(string, string)>, keys: set<string>, k: string)
    requires Firsts(pairs) <= keys && k !in keys
    ensures Table(pairs, keys)[k := {}] == Table(pairs, keys + {k})
  {
    OfEmptyUnlessFirst(pairs, k);
  }

  class Tables {
    var seenAlert: set<string>
    var derived: Sets
    var upstream: Sets
    var splitInto: Sets
    var mergedFrom: Sets
    var mergedLabels: Sets

    /** The maps hold exactly the relation `rows` and the upstream groups `ugs`. */
    ghost predicate Holds(ugs: set<string>, rows: set<Row>)
      reads this
    {
      && Upstreams(rows) <= ugs
      && seenAlert == Alerts(rows)
      && derived == Table(DA(rows), Derived(rows))
      && mergedFrom == Table(DU(rows), Derived(rows))
      && mergedLabels == Table(DL(rows), Derived(rows))
      && upstream == Table(UA(rows), ugs)
      && splitInto == Table(UD(rows), ugs)
    }

    constructor ()
      ensures Holds({}, {})
    {
      seenAlert, derived, upstream, splitInto, mergedFrom, mergedLabels := {}, map[], map[], map[], map[], map[];
    }

    method Open(ug: string, ghost ugs: set<string>, ghost rows: set<Row>)
      requires Holds(ugs, rows)
      modifies this
      ensures Holds(ugs + {ug}, rows)
    {
      FirstsOfRows(rows);
      if ug !in upstream {
        OpenInserts(UA(rows), ugs, ug);
        OpenInserts(UD(rows), ugs, ug);
        upstream := upstream[ug := {}];
        splitInto := splitInto[ug := {}];
      } else {
        assert ugs + {ug} == ugs;
      }
    }

    method Add(row: Row, ghost ugs: set<string>, ghost rows: set<Row>)
      requires Holds(ugs, rows) && row.ug in ugs
      modifies this
      ensures Holds(ugs, rows + {row})
    {
      hide Table, Alerts, Derived, Upstreams, DA, DU, DL, UA, UD, Put;
      AddToUpstream(ugs, rows, row);
      AddToDerived(rows, row);
      AddToSenders(rows, row);
      AddToLabels(rows, row);
      seenAlert := seenAlert + {row.alert};
      derived := Put(derived, row.dg, row.alert);
      upstream := Put(upstream, row.ug, row.alert);
      splitInto := Put(splitInto, row.ug, row.dg);
      mergedFrom := Put(mergedFrom, row.dg, row.ug);
      mergedLabels := Put(mergedLabels, row.dg, row.gl);
    }
  }

  lemma AddToDerived(rows: set<Row>, row: Row)
    ensures Put(Table(DA(rows), Derived(rows)), row.dg, row.alert) == Table(DA(rows + {row}), Derived(rows + {row}))
  {
    hide Table, Firsts, Put;
    var more := rows + {row};
    FirstsOfRows(rows);
    PutInserts(DA(rows), Derived(rows), row.dg, row.alert);
    assert Derived(more) == Derived(rows) + {row.dg};
    assert DA(more) == DA(rows) + {(row.dg, row.alert)};
  }

  lemma AddToSenders(rows: set<Row>, row: Row)
    ensures Put(Table(DU(rows), Derived(rows)), row.dg, row.ug) == Table(DU(rows + {row}), Derived(rows + {row}))
  {
    hide Table, Firsts, Put;
    var more := rows + {row};
    FirstsOfRows(rows);
    PutInserts(DU(rows), Derived(rows), row.dg, row.ug);
    assert Derived(more) == Derived(rows) + {row.dg};
    assert DU(more) == DU(rows) + {(row.dg, row.ug)};
  }

  lemma AddToLabels(rows: set<Row>, row: Row)
    ensures Put(Table(DL(rows), Derived(rows)), row.dg, row.gl) == Table(DL(rows + {row}), Derived(rows + {row}))
  {
    hide Table, Firsts, Put;
    var more := rows + {row};
    FirstsOfRows(rows);
    PutInserts(DL(rows), Derived(rows), row.dg, row.gl);
    assert Derived(more) == Derived(rows) + {row.dg};
    assert DL(more) == DL(rows) + {(row.dg, row.gl)};
  }

  lemma AddToUpstream(ugs: set<string>, rows: set<Row>, row: Row)
    requires Upstreams(rows) <= ugs && row.ug in ugs
    ensures var more := rows + {row};
            && Upstreams(more) <= ugs
            && Alerts(more) == Alerts(rows) + {row.alert}
            && Put(Table(UA(rows), ugs), row.ug, row.alert) == Table(UA(more), ugs)
            && Put(Table(UD(rows), ugs), row.ug, row.dg) == Table(UD(more), ugs)
  {
    hide Table, Firsts, Put;
    var more := rows + {row};
    FirstsOfRows(rows);
    PutInserts(UA(rows), ugs, row.ug, row.alert);
    PutInserts(UD(rows), ugs, row.ug, row.dg);
    assert ugs + {row.ug} == ugs;
    assert Alerts(more) == Alerts(rows) + {row.alert};
    assert UA(more) == UA(rows) + {(row.ug, row.alert)};
    assert UD(more) == UD(rows) + {(row.ug, row.dg)};
  }

  // ---------------------------------------------------------------- reading the corpus

  /** The rows the first `n` alerts of one accepted batch add. */
  ghost function BatchRows(k: Kernel, b: Batch, n: nat): set<Row>
    requires k.Valid() && n <= |b.alerts|
  {
    set ls | ls in b.alerts[..n] && k.validLabels(ls) :: RowOf(k, b, ls)
  }

  lemma BatchRowsStep(k: Kernel, b: Batch, n: nat)
    requires k.Valid() && n < |b.alerts|
    ensures BatchRows(k, b, n + 1) ==
            BatchRows(k, b, n) + if k.validLabels(b.alerts[n]) then {RowOf(k, b, b.alerts[n])} else {}
  {
    assert b.alerts[..n + 1] == b.alerts[..n] + [b.alerts[n]];
  }

  lemma CorpusStep(k: Kernel, batches: seq<Batch>, n: nat)
    requires k.Valid() && n < |batches|
    ensures var b := batches[n];
            && Rows(k, batches[..n + 1]) ==
               Rows(k, batches[..n]) + (if Accepted(k, b) then BatchRows(k, b, |b.alerts|) else {})
            && Ugs(k, batches[..n + 1]) == Ugs(k, batches[..n]) + (if Accepted(k, b) then {UpstreamOf(k, b)} else {})
  {
    var b := batches[n];
    var more := batches[..n + 1];
    assert more == batches[..n] + [b];
    assert b.alerts[..|b.alerts|] == b.alerts;
    var added := if Accepted(k, b) then BatchRows(k, b, |b.alerts|) else {};
    forall r | r in Rows(k, more) ensures r in Rows(k, batches[..n]) + added {
      var c, ls :| c in more && Accepted(k, c) && ls in c.alerts && k.validLabels(ls) && r == RowOf(k, c, ls);
      if c !in batches[..n] {
        assert c == b && ls in b.alerts[..|b.alerts|];
      }
    }
    forall r | r in added ensures r in Rows(k, more) {
      var ls :| ls in b.alerts && k.validLabels(ls) && r == RowOf(k, b, ls);
      assert b in more;
    }
    forall r | r in Rows(k, batches[..n]) ensures r in Rows(k, more) {
      var c, ls :| c in batches[..n] && Accepted(k, c) && ls in c.alerts && k.validLabels(ls) && r == RowOf(k, c, ls);
      assert c in more;
    }
  }

  method ReadBatch(k: Kernel, b: Batch, t: Tables, ghost ugs: set<string>, ghost rows: set<Row>)
    returns (alertRows: nat)
    requires k.Valid() && Accepted(k, b) && t.Holds(ugs, rows)
    modifies t
    ensures t.Holds(ugs + {UpstreamOf(k, b)}, rows + BatchRows(k, b, |b.alerts|))
    ensures alertRows == CountAlerts(k, b.alerts)
  {
    var glRendered := RenderLabelsLoop(k.lib, b.groupLabels);
    var ug := UpstreamKey(b.source, b.receiver, glRendered);
    t.Open(ug, ugs, rows);
    alertRows := 0;
    assert rows + BatchRows(k, b, 0) == rows;
    for i := 0 to |b.alerts|
      invariant t.Holds(ugs + {ug}, rows + BatchRows(k, b, i))
      invariant alertRows == CountAlerts(k, b.alerts[..i])
    {
      var ls := b.alerts[i];
      assert b.alerts[..i + 1][..i] == b.alerts[..i];
      BatchRowsStep(k, b, i);
      ghost var before := rows + BatchRows(k, b, i);
      if k.validLabels(ls) {
        alertRows := alertRows + 1;
        var id := Identity(b.org, b.cluster, ls);
        var row := Row(ug, k.groupKey(id), k.alertKey(id), glRendered);
        t.Add(row, ugs + {ug}, before);
        assert before + {row} == rows + BatchRows(k, b, i + 1);
      } else {
        assert before == rows + BatchRows(k, b, i + 1);
      }
    }
    assert b.alerts[..|b.alerts|] == b.alerts;
  }

  // ---------------------------------------------------------------- counting the maps

  method SortDescending(s: seq<nat>) returns (r: seq<nat>)
    ensures Descending(r) && multiset(r) == multiset(s) && Sum(r) == Sum(s)
  {
    r := [];
    SumEmpty();
    hide Sum, InsertDescending;
    for i := 0 to |s|
      invariant Descending(r) && multiset(r) == multiset(s[..i]) && Sum(r) == Sum(s[..i])
    {
      InsertAdds(s[i], r);
      InsertKeepsOrder(s[i], r);
      SumAppend(s[..i], s[i]);
      assert s[..i + 1] == s[..i] + [s[i]];
      r := InsertDescending(s[i], r);
    }
    assert s[..|s|] == s;
  }

  /** `range` over a map of sets, in whatever order Go iterates it. */
  method Sizes(t: Sets) returns (sizes: seq<nat>, singletons: nat)
    ensures IsSizes(sizes, t)
    ensures singletons == |SizeClass(t, t.Keys, 1)|
  {
    var todo := t.Keys;
    var list: seq<nat> := [];
    ghost var done: set<string> := {};
    singletons := 0;
    hide PairsOn, Sum, SizeClass, Descending;
    EmptyCounts(t);
    SumEmpty();
    assert SizesOf(list, t, done);
    hide SizesOf;
    while todo != {}
      invariant done !! todo && done + todo == t.Keys
      invariant SizesOf(list, t, done)
      invariant singletons == |SizeClass(t, done, 1)|
      decreases todo
    {
      var k :| k in todo;
      SizesStep(t, done, k, list);
      SizeClassStep(t, done, k, 1);
      list := list + [|t[k]|];
      if |t[k]| == 1 {
        singletons := singletons + 1;
      }
      todo, done := todo - {k}, done + {k};
    }
    assert done == t.Keys;
    sizes := SortDescending(list);
    Sorted(list, sizes, t);
  }

  /** `list` holds, in some order, the sizes of the sets of the given keys. */
  ghost predicate SizesOf(list: seq<nat>, t: Sets, done: set<string>) {
    && (forall n: nat :: multiset(list)[n] == |SizeClass(t, done, n)|)
    && Sum(list) == |PairsOn(t, done)|
  }

  lemma Sorted(list: seq<nat>, sizes: seq<nat>, t: Sets)
    requires SizesOf(list, t, t.Keys)
    requires Descending(sizes) && multiset(sizes) == multiset(list) && Sum(sizes) == Sum(list)
    ensures IsSizes(sizes, t)
  {
    hide Descending, Sum, PairsOn, SizeClass;
  }

  lemma SizesStep(t: Sets, done: set<string>, k: string, list: seq<nat>)
    requires SizesOf(list, t, done) && k in t && k !in done
    ensures SizesOf(list + [|t[k]|], t, done + {k})
  {
    PairsOnStep(t, done, k);
    SumAppend(list, |t[k]|);
    hide SizeClass, PairsOn, Sum;
    forall n: nat ensures multiset(list + [|t[k]|])[n] == |SizeClass(t, done + {k}, n)| {
      SizeClassStep(t, done, k, n);
    }
  }

  lemma SumEmpty()
    ensures Sum([]) == 0
  {
  }

  lemma EmptyCounts(t: Sets)
    ensures PairsOn(t, {}) == {} && Bigger(t, {}) == {} && SumSurplus(t, {}) == 0
    ensures forall n: nat :: SizeClass(t, {}, n) == {}
  {
  }

  lemma SizeClassStep(t: Sets, done: set<string>, k: string, n: nat)
    requires k in t && k !in done
    ensures |SizeClass(t, done + {k}, n)| == |SizeClass(t, done, n)| + if |t[k]| == n then 1 else 0
  {
    if |t[k]| == n {
      assert SizeClass(t, done + {k}, n) == SizeClass(t, done, n) + {k};
    } else {
      assert SizeClass(t, done + {k}, n) == SizeClass(t, done, n);
    }
  }

  /** The three counts of the split loop over the given keys. */
  ghost predicate SplitsOf(t: Sets, done: set<string>, overSplit: nat, extraThreads: nat, worst: nat)
    requires done <= t.Keys
  {
    overSplit == |Bigger(t, done)| && extraThreads == SumSurplus(t, done) && IsWorst(worst, t, done)
  }

  lemma SplitsStep(t: Sets, done: set<string>, ug: string, overSplit: nat, extraThreads: nat, worst: nat)
    requires done <= t.Keys && ug in t && ug !in done && SplitsOf(t, done, overSplit, extraThreads, worst)
    ensures var n := |t[ug]|;
            if n <= 1 then SplitsOf(t, done + {ug}, overSplit, extraThreads, worst)
            else SplitsOf(t, done + {ug}, overSplit + 1, extraThreads + n - 1, if n > worst then n else worst)
  {
    SurplusStep(t, done, ug);
    BiggerStep(t, done, ug);
    WorstStep(worst, t, done, ug);
    hide SumSurplus, Bigger, IsWorst;
  }

  method CountSplits(t: Sets) returns (overSplit: nat, extraThreads: nat, worst: nat)
    ensures overSplit == |Bigger(t, t.Keys)|
    ensures extraThreads == SumSurplus(t, t.Keys)
    ensures IsWorst(worst, t, t.Keys)
  {
    overSplit, extraThreads, worst := 0, 0, 0;
    var todo := t.Keys;
    ghost var done: set<string> := {};
    EmptyCounts(t);
    assert SplitsOf(t, done, 0, 0, 0);
    hide SumSurplus, Bigger, IsWorst;
    while todo != {}
      invariant done !! todo && done + todo == t.Keys
      invariant SplitsOf(t, done, overSplit, extraThreads, worst)
      decreases todo
    {
      var ug :| ug in todo;
      var into := t[ug];
      SplitsStep(t, done, ug, overSplit, extraThreads, worst);
      hide SplitsOf;
      if |into| > 1 {
        overSplit := overSplit + 1;
        extraThreads := extraThreads + |into| - 1;
        if |into| > worst {
          worst := |into|;
        }
      }
      todo, done := todo - {ug}, done + {ug};
    }
    assert done == t.Keys;
  }

  lemma WorstStep(w: nat, t: Sets, done: set<string>, k: string)
    requires IsWorst(w, t, done) && k in t && k !in done
    ensures IsWorst(if |t[k]| > 1 && |t[k]| > w then |t[k]| else w, t, done + {k})
  {
  }

  lemma BiggerStep(t: Sets, done: set<string>, k: string)
    requires k in t && k !in done
    ensures |Bigger(t, done + {k})| == |Bigger(t, done)| + if |t[k]| > 1 then 1 else 0
  {
    if |t[k]| > 1 {
      assert Bigger(t, done + {k}) == Bigger(t, done) + {k};
    } else {
      assert Bigger(t, done + {k}) == Bigger(t, done);
    }
  }

  /** The two classes the merge loop tells apart, as the code tests them. */
  ghost function Merged(from: Sets, labels: Sets, keys: set<string>, one: bool): set<string> {
    set k | k in keys && k in from && k in labels && |from[k]| > 1 && (|labels[k]| == 1) == one
  }

  method CountMerges(from: Sets, labels: Sets) returns (intended: nat, suspect: nat, worst: nat)
    requires labels.Keys == from.Keys
    ensures intended == |Merged(from, labels, from.Keys, true)|
    ensures suspect == |Merged(from, labels, from.Keys, false)|
    ensures IsWorst(worst, from, from.Keys)
  {
    intended, suspect, worst := 0, 0, 0;
    var todo := from.Keys;
    ghost var done: set<string> := {};
    assert Merged(from, labels, done, true) == {} && Merged(from, labels, done, false) == {};
    assert IsWorst(0, from, done);
    hide Merged, IsWorst;
    while todo != {}
      invariant done !! todo && done + todo == from.Keys
      invariant intended == |Merged(from, labels, done, true)|
      invariant suspect == |Merged(from, labels, done, false)|
      invariant IsWorst(worst, from, done)
      decreases todo
    {
      var dg :| dg in todo;
      MergedStep(from, labels, done, dg, true);
      MergedStep(from, labels, done, dg, false);
      WorstStep(worst, from, done, dg);
      if |from[dg]| > 1 {
        if |labels[dg]| == 1 {
          intended := intended + 1;
        } else {
          suspect := suspect + 1;
        }
        if |from[dg]| > worst {
          worst := |from[dg]|;
        }
      }
      todo, done := todo - {dg}, done + {dg};
    }
    assert done == from.Keys;
  }

  lemma MergedStep(from: Sets, labels: Sets, done: set<string>, k: string, one: bool)
    requires k in from && k in labels && k !in done
    ensures |Merged(from, labels, done + {k}, one)| ==
            |Merged(from, labels, done, one)| + if |from[k]| > 1 && (|labels[k]| == 1) == one then 1 else 0
  {
    if |from[k]| > 1 && (|labels[k]| == 1) == one {
      assert Merged(from, labels, done + {k}, one) == Merged(from, labels, done, one) + {k};
    } else {
      assert Merged(from, labels, done + {k}, one) == Merged(from, labels, done, one);
    }
  }

  // ---------------------------------------------------------------- what the keys guarantee

  /** An upstream group has one groupLabels rendering, because its key contains it recoverably. */
  lemma UpstreamNamesLabels(k: Kernel, batches: seq<Batch>, r: Row, s: Row)
    requires k.Valid() && r in Rows(k, batches) && s in Rows(k, batches) && r.ug == s.ug
    ensures r.gl == s.gl
  {
    var b, ls :| b in batches && Accepted(k, b) && ls in b.alerts && k.validLabels(ls) && r == RowOf(k, b, ls);
    var c, ms :| c in batches && Accepted(k, c) && ms in c.alerts && k.validLabels(ms) && s == RowOf(k, c, ms);
    RenderLabelsHasNoNul(k.lib, b.groupLabels);
    RenderLabelsHasNoNul(k.lib, c.groupLabels);
    UpstreamKeyInjective(b.source, b.receiver, r.gl, c.source, c.receiver, s.gl);
  }

  /** An alert lands in one derived group, because both keys hash the same identity. */
  lemma AlertNamesGroup(k: Kernel, batches: seq<Batch>, r: Row, s: Row)
    requires k.Valid() && r in Rows(k, batches) && s in Rows(k, batches) && r.alert == s.alert
    ensures r.dg == s.dg
  {
    var b, ls :| b in batches && Accepted(k, b) && ls in b.alerts && k.validLabels(ls) && r == RowOf(k, b, ls);
    var c, ms :| c in batches && Accepted(k, c) && ms in c.alerts && k.validLabels(ms) && s == RowOf(k, c, ms);
    assert Identity(b.org, b.cluster, ls) == Identity(c.org, c.cluster, ms);
  }

  lemma TwoElements<T>(s: set<T>, a: T, b: T)
    requires a in s && b in s && a != b
    ensures |s| > 1
  {
    assert |s - {a}| > 0 by {
      assert b in s - {a};
    }
  }

  lemma TakeTwo<T>(s: set<T>) returns (a: T, b: T)
    requires |s| > 1
    ensures a in s && b in s && a != b
  {
    a :| a in s;
    assert |s - {a}| > 0;
    b :| b in s - {a};
  }

  /** Two renderings in one derived group came from two upstream groups, so the code's test on
      `from` adds nothing to its test on `labels`. */
  lemma TwoLabelsTwoUpstreams(k: Kernel, batches: seq<Batch>, d: string)
    requires k.Valid() && |Of(DL(Rows(k, batches)), d)| > 1
    ensures |Of(DU(Rows(k, batches)), d)| > 1
  {
    var rows := Rows(k, batches);
    var g, h := TakeTwo(Of(DL(rows), d));
    var r :| r in rows && r.dg == d && r.gl == g;
    var s :| s in rows && s.dg == d && s.gl == h;
    if r.ug == s.ug {
      UpstreamNamesLabels(k, batches, r, s);
    }
    hide Rows;
    assert (r.dg, r.ug) in DU(rows) && (s.dg, s.ug) in DU(rows);
    TwoElements(Of(DU(rows), d), r.ug, s.ug);
  }

  lemma SuspectNeedsNoFrom(k: Kernel, batches: seq<Batch>)
    requires k.Valid()
    ensures var rows := Rows(k, batches);
            var from, labels := Table(DU(rows), Derived(rows)), Table(DL(rows), Derived(rows));
            && Merged(from, labels, from.Keys, true) == Intended(rows)
            && Merged(from, labels, from.Keys, false) == Suspect(rows)
  {
    hide Rows, DL, DU, Derived, Of, Firsts;
    var rows := Rows(k, batches);
    FirstsOfRows(rows);
    forall d | d in Derived(rows)
      ensures |Of(DL(rows), d)| > 0
      ensures |Of(DL(rows), d)| > 1 ==> |Of(DU(rows), d)| > 1
    {
      OfEmptyUnlessFirst(DL(rows), d);
      if |Of(DL(rows), d)| > 1 {
        TwoLabelsTwoUpstreams(k, batches, d);
      }
    }
  }

  lemma NonEmptyUpstreams(rows: set<Row>, ugs: set<string>)
    requires Upstreams(rows) <= ugs
    ensures NonEmpty(Table(UD(rows), ugs), ugs) == Upstreams(rows)
  {
    FirstsOfRows(rows);
    forall u | u in ugs ensures Of(UD(rows), u) == {} <==> u !in Upstreams(rows) {
      OfEmptyUnlessFirst(UD(rows), u);
    }
  }

  // ---------------------------------------------------------------- Analyse

  method CountGroupSizes(t: Tables, rep: Report, ghost ugs: set<string>, ghost rows: set<Row>) returns (r: Report)
    requires t.Holds(ugs, rows)
    ensures CountsSizes(ugs, rows, r)
    ensures SameRowCounters(r, rep)
  {
    var upstreamSizes, _ := Sizes(t.upstream);
    var derivedSizes, singletons := Sizes(t.derived);
    assert t.upstream.Keys == ugs && t.derived.Keys == Derived(rows);
    r := rep.(distinctAlerts := |t.seenAlert|, upstreamGroups := |t.upstream.Keys|,
      derivedGroups := |t.derived.Keys|, derivedSingleton := singletons,
      upstreamSizes := upstreamSizes, derivedSizes := derivedSizes);
  }

  method CountOverSplit(t: Tables, ghost ugs: set<string>, ghost rows: set<Row>)
    returns (overSplit: nat, extra: nat, into: nat)
    requires t.Holds(ugs, rows)
    ensures overSplit == |Bigger(Table(UD(rows), ugs), ugs)|
    ensures extra == SumSurplus(Table(UD(rows), ugs), ugs)
    ensures IsWorst(into, Table(UD(rows), ugs), ugs)
  {
    KeysOfTable(UD(rows), ugs);
    assert t.splitInto == Table(UD(rows), ugs);
    hide *;
    overSplit, extra, into := CountSplits(t.splitInto);
  }

  method CountOverMerge(k: Kernel, ghost batches: seq<Batch>, t: Tables)
    returns (intended: nat, suspect: nat, from: nat)
    requires k.Valid() && t.Holds(Ugs(k, batches), Rows(k, batches))
    ensures intended == |Intended(Rows(k, batches))| && suspect == |Suspect(Rows(k, batches))|
    ensures IsWorst(from, Table(DU(Rows(k, batches)), Derived(Rows(k, batches))), Derived(Rows(k, batches)))
  {
    ghost var rows := Rows(k, batches);
    KeysOfTable(DU(rows), Derived(rows));
    KeysOfTable(DL(rows), Derived(rows));
    SuspectNeedsNoFrom(k, batches);
    hide *;
    intended, suspect, from := CountMerges(t.mergedFrom, t.mergedLabels);
  }

  predicate SameRowCounters(r: Report, s: Report) {
    r.batches == s.batches && r.batchesSkipped == s.batchesSkipped
    && r.alertRows == s.alertRows && r.truncated == s.truncated
  }

  lemma KeysOfTable(pairs: set<(string, string)>, keys: set<string>)
    ensures Table(pairs, keys).Keys == keys
  {
  }

  method Analyse(k: Kernel, batches: seq<Batch>) returns (rep: Report)
    requires k.Valid()
    ensures CountsRows(k, batches, rep)
    ensures CountsGroups(Ugs(k, batches), Rows(k, batches), rep)
  {
    var accepted, skipped, alertRows, truncated := 0, 0, 0, 0;
    var t := new Tables();
    for i := 0 to |batches|
      invariant t.Holds(Ugs(k, batches[..i]), Rows(k, batches[..i])) && fresh(t)
      invariant accepted == CountAccepted(k, batches[..i]) && accepted + skipped == i
      invariant alertRows == CountRows(k, batches[..i]) && truncated == CountTruncated(k, batches[..i])
    {
      var b := batches[i];
      CorpusStep(k, batches, i);
      assert batches[..i + 1][..i] == batches[..i];
      if !k.validCluster(b.cluster) || b.org == NIL_ORG {
        skipped := skipped + 1;
        assert Ugs(k, batches[..i + 1]) == Ugs(k, batches[..i]) && Rows(k, batches[..i + 1]) == Rows(k, batches[..i]);
      } else {
        accepted := accepted + 1;
        truncated := truncated + b.truncated;
        var n := ReadBatch(k, b, t, Ugs(k, batches[..i]), Rows(k, batches[..i]));
        alertRows := alertRows + n;
      }
    }
    assert batches[..|batches|] == batches;
    rep := Report(accepted, skipped, alertRows, truncated, 0, 0, 0, 0, [], [], 0, 0, 0, 0, 0, 0);
    rep := CountGroupSizes(t, rep, Ugs(k, batches), Rows(k, batches));
    var overSplit, extra, into := CountOverSplit(t, Ugs(k, batches), Rows(k, batches));
    var intended, suspect, from := CountOverMerge(k, batches, t);
    rep := rep.(overSplit := overSplit, extraThreads := extra, worstSplitInto := into,
      overMergeIntended := intended, overMergeSuspect := suspect, worstMergeFrom := from);
  }
}
