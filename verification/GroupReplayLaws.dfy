/** What the `groupreplay` report means, for every corpus. */
module GroupReplayLaws {
  import opened Labels
  import opened Counting
  import opened GroupReplay

  lemma SwappedPairs(rows: set<Row>)
    ensures |DU(rows)| == |UD(rows)|
  {
    SwapSize(UD(rows));
    forall r | r in rows ensures (r.dg, r.ug) in Swap(UD(rows)) {
      assert (r.ug, r.dg) in UD(rows);
    }
    assert Swap(UD(rows)) == DU(rows);
  }

  lemma TableSum(pairs: set<(string, string)>, keys: set<string>)
    requires Firsts(pairs) == keys
    ensures Table(pairs, keys).Keys == keys && SumSizes(Table(pairs, keys), keys) == |pairs|
  {
    PairsOnTable(pairs, keys);
    SumSizesIsPairs(Table(pairs, keys), keys);
  }

  lemma UpstreamsAreNamed(k: Kernel, batches: seq<Batch>)
    requires k.Valid()
    ensures Upstreams(Rows(k, batches)) <= Ugs(k, batches)
  {
  }

  /** For every corpus: the extra threads, each split group's derived groups but one, and the upstream
      groups that have alerts account for every (upstream, derived) pair. */
  lemma ExtraThreadsCountPairs(k: Kernel, batches: seq<Batch>, rep: Report)
    requires k.Valid()
    requires rep.extraThreads == SumSurplus(Table(UD(Rows(k, batches)), Ugs(k, batches)), Ugs(k, batches))
    ensures rep.extraThreads + |Upstreams(Rows(k, batches))| == |UD(Rows(k, batches))|
  {
    var ugs, rows := Ugs(k, batches), Rows(k, batches);
    UpstreamsAreNamed(k, batches);
    KeysOfTable(UD(rows), ugs);
    hide *;
    FirstsOfRows(rows);
    SurplusAndFirsts(Table(UD(rows), ugs), ugs);
    PairsOnTable(UD(rows), ugs);
    NonEmptyUpstreams(rows, ugs);
  }

  /** And those pairs are also what the derived groups absorbed, added up. */
  lemma DoubleCounting(rows: set<Row>)
    ensures |UD(rows)| == SumSizes(Table(DU(rows), Derived(rows)), Derived(rows))
  {
    hide *;
    FirstsOfRows(rows);
    TableSum(DU(rows), Derived(rows));
    SwappedPairs(rows);
  }

  lemma AlertsCountPairs(k: Kernel, batches: seq<Batch>)
    requires k.Valid()
    ensures |DA(Rows(k, batches))| == |Alerts(Rows(k, batches))|
  {
    var rows := Rows(k, batches);
    forall p, q | p in DA(rows) && q in DA(rows) && p.1 == q.1 ensures p == q {
      var r :| r in rows && p == (r.dg, r.alert);
      var s :| s in rows && q == (s.dg, s.alert);
      AlertNamesGroup(k, batches, r, s);
    }
    hide Rows;
    SecondsCount(DA(rows));
    forall r | r in rows ensures r.alert in (set p | p in DA(rows) :: p.1) {
      assert (r.dg, r.alert) in DA(rows);
    }
    assert (set p | p in DA(rows) :: p.1) == Alerts(rows);
  }

  /** Derived groups partition the distinct alerts. */
  lemma DerivedGroupsPartition(k: Kernel, batches: seq<Batch>, rep: Report)
    requires k.Valid() && CountsSizes(Ugs(k, batches), Rows(k, batches), rep)
    ensures Sum(rep.derivedSizes) == rep.distinctAlerts
  {
    var rows := Rows(k, batches);
    var t := Table(DA(rows), Derived(rows));
    assert rep.distinctAlerts == |Alerts(rows)| && Sum(rep.derivedSizes) == |PairsOn(t, t.Keys)|;
    hide *;
    FirstsOfRows(rows);
    KeysOfTable(DA(rows), Derived(rows));
    PairsOnTable(DA(rows), Derived(rows));
    AlertsCountPairs(k, batches);
  }

  // ---------------------------------------------------------------- order and repetition

  lemma SizesDetermined(s: seq<nat>, t: seq<nat>, sets: Sets)
    requires IsSizes(s, sets) && IsSizes(t, sets)
    ensures s == t
  {
    forall n: nat ensures multiset(s)[n] == multiset(t)[n] {
      assert multiset(s)[n] == |SizeClass(sets, sets.Keys, n)|;
    }
    assert multiset(s) == multiset(t);
    DescendingUnique(s, t);
  }

  lemma WorstDetermined(v: nat, w: nat, t: Sets, keys: set<string>)
    requires IsWorst(v, t, keys) && IsWorst(w, t, keys)
    ensures v == w
  {
  }

  /** Everything but the four row counters is a function of the relation. */
  lemma GroupCountsDetermined(ugs: set<string>, rows: set<Row>, r: Report, s: Report)
    requires CountsGroups(ugs, rows, r) && CountsGroups(ugs, rows, s)
    ensures s == r.(batches := s.batches, batchesSkipped := s.batchesSkipped, alertRows := s.alertRows,
                    truncated := s.truncated)
  {
    SizesDetermined(r.upstreamSizes, s.upstreamSizes, Table(UA(rows), ugs));
    SizesDetermined(r.derivedSizes, s.derivedSizes, Table(DA(rows), Derived(rows)));
    WorstDetermined(r.worstSplitInto, s.worstSplitInto, Table(UD(rows), ugs), ugs);
    WorstDetermined(r.worstMergeFrom, s.worstMergeFrom, Table(DU(rows), Derived(rows)), Derived(rows));
  }

  lemma SameBatchesSameRelation(k: Kernel, a: seq<Batch>, b: seq<Batch>)
    requires k.Valid() && forall x :: x in a <==> x in b
    ensures Rows(k, a) == Rows(k, b) && Ugs(k, a) == Ugs(k, b)
  {
    RelationGrows(k, a, b);
    RelationGrows(k, b, a);
  }

  lemma RelationGrows(k: Kernel, a: seq<Batch>, b: seq<Batch>)
    requires k.Valid() && forall x :: x in a ==> x in b
    ensures Rows(k, a) <= Rows(k, b) && Ugs(k, a) <= Ugs(k, b)
  {
    forall r | r in Rows(k, a) ensures r in Rows(k, b) {
      var c, ls :| c in a && Accepted(k, c) && ls in c.alerts && k.validLabels(ls) && r == RowOf(k, c, ls);
      assert c in b;
    }
  }

  /** Permuting the batches, or re-sending any of them any number of times, changes no group count,
      no size list and no maximum; the counters of payload rows only grow with re-sending. */
  lemma OrderAndRepetitionDoNotMatter(k: Kernel, a: seq<Batch>, b: seq<Batch>, r: Report, s: Report)
    requires k.Valid() && forall x :: x in a <==> x in b
    ensures CountsGroups(Ugs(k, a), Rows(k, a), r) && CountsGroups(Ugs(k, b), Rows(k, b), s) ==>
              s == r.(batches := s.batches, batchesSkipped := s.batchesSkipped, alertRows := s.alertRows,
                      truncated := s.truncated)
  {
    SameBatchesSameRelation(k, a, b);
    hide *;
    if CountsGroups(Ugs(k, a), Rows(k, a), r) && CountsGroups(Ugs(k, b), Rows(k, b), s) {
      GroupCountsDetermined(Ugs(k, a), Rows(k, a), r, s);
    }
  }

  /** Re-sending a batch adds what it holds to the row counters. */
  lemma {:induction false} RowCountersAdd(k: Kernel, a: seq<Batch>, b: seq<Batch>)
    ensures CountAccepted(k, a + b) == CountAccepted(k, a) + CountAccepted(k, b)
    ensures CountRows(k, a + b) == CountRows(k, a) + CountRows(k, b)
    ensures CountTruncated(k, a + b) == CountTruncated(k, a) + CountTruncated(k, b)
  {
    if b == [] {
      assert a + b == a;
    } else {
      var b' := b[..|b| - 1];
      RowCountersAdd(k, a, b');
      assert (a + b)[..|a + b| - 1] == a + b';
    }
  }

  // ---------------------------------------------------------------- what the keys stand for

  /** The upstream groups are the distinct (source, receiver, groupLabels) of the accepted batches. */
  lemma UpstreamGroupsAreTriples(k: Kernel, b: Batch, c: Batch)
    requires k.Valid()
    ensures UpstreamOf(k, b) == UpstreamOf(k, c) <==>
            b.source == c.source && b.receiver == c.receiver && b.groupLabels == c.groupLabels
  {
    var g, h := RenderLabels(k.lib, b.groupLabels), RenderLabels(k.lib, c.groupLabels);
    RenderLabelsHasNoNul(k.lib, b.groupLabels);
    RenderLabelsHasNoNul(k.lib, c.groupLabels);
    if UpstreamOf(k, b) == UpstreamOf(k, c) {
      UpstreamKeyInjective(b.source, b.receiver, g, c.source, c.receiver, h);
      RenderLabelsInjective(k.lib, b.groupLabels, c.groupLabels);
    }
  }

  /** Batch `b` put an alert into derived group `d`. */
  ghost predicate Feeds(k: Kernel, b: Batch, d: string) {
    && Accepted(k, b)
    && exists ls :: ls in b.alerts && k.validLabels(ls) && k.groupKey(Identity(b.org, b.cluster, ls)) == d
  }

  lemma FeedsIsRow(k: Kernel, batches: seq<Batch>, d: string, g: string)
    requires k.Valid()
    ensures g in Of(DL(Rows(k, batches)), d) <==>
            exists b :: b in batches && Feeds(k, b, d) && RenderLabels(k.lib, b.groupLabels) == g
  {
    var rows := Rows(k, batches);
    if g in Of(DL(rows), d) {
      var r :| r in rows && (r.dg, r.gl) == (d, g);
      var b, ls :| b in batches && Accepted(k, b) && ls in b.alerts && k.validLabels(ls) && r == RowOf(k, b, ls);
      assert Feeds(k, b, d);
    }
    if b :| b in batches && Feeds(k, b, d) && RenderLabels(k.lib, b.groupLabels) == g {
      var ls :| ls in b.alerts && k.validLabels(ls) && k.groupKey(Identity(b.org, b.cluster, ls)) == d;
      var r := RowOf(k, b, ls);
      assert r in rows;
      assert (d, g) in DL(rows);
    }
  }

  /** `OverMergeSuspect` counts exactly the derived groups fed by two batches whose groupLabels
      differ as maps. */
  lemma SuspectMeansDifferentLabels(k: Kernel, batches: seq<Batch>, d: string)
    requires k.Valid()
    ensures d in Suspect(Rows(k, batches)) <==>
            exists b, c ::
              b in batches && c in batches && Feeds(k, b, d) && Feeds(k, c, d) && b.groupLabels != c.groupLabels
  {
    var rows := Rows(k, batches);
    var labels := Of(DL(rows), d);
    if d in Suspect(rows) {
      var g, h := TakeTwo(labels);
      FeedsIsRow(k, batches, d, g);
      FeedsIsRow(k, batches, d, h);
      var b :| b in batches && Feeds(k, b, d) && RenderLabels(k.lib, b.groupLabels) == g;
      var c :| c in batches && Feeds(k, c, d) && RenderLabels(k.lib, c.groupLabels) == h;
      assert b.groupLabels != c.groupLabels;
    }
    if b, c :| b in batches && c in batches && Feeds(k, b, d) && Feeds(k, c, d) && b.groupLabels != c.groupLabels {
      var g, h := RenderLabels(k.lib, b.groupLabels), RenderLabels(k.lib, c.groupLabels);
      if g == h {
        RenderLabelsInjective(k.lib, b.groupLabels, c.groupLabels);
      }
      FeedsIsRow(k, batches, d, g);
      FeedsIsRow(k, batches, d, h);
      TwoElements(labels, g, h);
      FirstsOfRows(rows);
      OfEmptyUnlessFirst(DL(rows), d);
    }
  }

  lemma SenderIsRow(k: Kernel, batches: seq<Batch>, d: string, u: string)
    requires k.Valid()
    ensures u in Of(DU(Rows(k, batches)), d) <==>
            exists b :: b in batches && Feeds(k, b, d) && UpstreamOf(k, b) == u
  {
    var rows := Rows(k, batches);
    if u in Of(DU(rows), d) {
      var r :| r in rows && (r.dg, r.ug) == (d, u);
      var b, ls :| b in batches && Accepted(k, b) && ls in b.alerts && k.validLabels(ls) && r == RowOf(k, b, ls);
      assert Feeds(k, b, d);
    }
    if b :| b in batches && Feeds(k, b, d) && UpstreamOf(k, b) == u {
      var ls :| ls in b.alerts && k.validLabels(ls) && k.groupKey(Identity(b.org, b.cluster, ls)) == d;
      assert RowOf(k, b, ls) in rows;
      assert (d, u) in DU(rows);
    }
  }

  /** Two batches feed the group from different sources or receivers. */
  ghost predicate Absorbs(k: Kernel, batches: seq<Batch>, d: string) {
    exists b, c ::
      && b in batches && c in batches && Feeds(k, b, d) && Feeds(k, c, d)
      && (b.source != c.source || b.receiver != c.receiver || b.groupLabels != c.groupLabels)
  }

  ghost predicate LabelsAgree(k: Kernel, batches: seq<Batch>, d: string) {
    forall b, c :: b in batches && c in batches && Feeds(k, b, d) && Feeds(k, c, d) ==> b.groupLabels == c.groupLabels
  }

  lemma AbsorbsIff(k: Kernel, batches: seq<Batch>, d: string)
    requires k.Valid()
    ensures |Of(DU(Rows(k, batches)), d)| > 1 <==> Absorbs(k, batches, d)
  {
    var from := Of(DU(Rows(k, batches)), d);
    if |from| > 1 {
      var u, v := TakeTwo(from);
      SenderIsRow(k, batches, d, u);
      SenderIsRow(k, batches, d, v);
      var b :| b in batches && Feeds(k, b, d) && UpstreamOf(k, b) == u;
      var c :| c in batches && Feeds(k, c, d) && UpstreamOf(k, c) == v;
      UpstreamGroupsAreTriples(k, b, c);
    }
    if Absorbs(k, batches, d) {
      var b, c :| b in batches && c in batches && Feeds(k, b, d) && Feeds(k, c, d)
        && (b.source != c.source || b.receiver != c.receiver || b.groupLabels != c.groupLabels);
      UpstreamGroupsAreTriples(k, b, c);
      SenderIsRow(k, batches, d, UpstreamOf(k, b));
      SenderIsRow(k, batches, d, UpstreamOf(k, c));
      TwoElements(from, UpstreamOf(k, b), UpstreamOf(k, c));
    }
  }

  /** `OverMergeIntended` counts exactly the derived groups that several upstream groups feed, all with the
      same groupLabels. */
  lemma IntendedMeansSameLabels(k: Kernel, batches: seq<Batch>, d: string)
    requires k.Valid()
    ensures d in Intended(Rows(k, batches)) <==> Absorbs(k, batches, d) && LabelsAgree(k, batches, d)
  {
    var rows := Rows(k, batches);
    AbsorbsIff(k, batches, d);
    SuspectMeansDifferentLabels(k, batches, d);
    assert d in Suspect(rows) <==> !LabelsAgree(k, batches, d);
    FirstsOfRows(rows);
    OfEmptyUnlessFirst(DL(rows), d);
    OfEmptyUnlessFirst(DU(rows), d);
    hide Rows, DL, DU, Of, Absorbs, LabelsAgree;
  }

  // ---------------------------------------------------------------- what is counted

  /** Every alert the corpus holds, by what identifies it: org, cluster and labels. */
  ghost function Identities(k: Kernel, batches: seq<Batch>): set<Identity> {
    set b, ls | b in batches && k.validCluster(b.cluster) && b.org != 0 && ls in b.alerts && k.validLabels(ls) ::
      Identity(b.org, b.cluster, ls)
  }

  /** The alerts a derived key groups. */
  ghost function IdentitiesUnder(k: Kernel, batches: seq<Batch>, d: string): set<Identity> {
    set id | id in Identities(k, batches) && k.groupKey(id) == d
  }

  /** The alerts sent in one upstream group. */
  ghost function IdentitiesFrom(
    k: Kernel, batches: seq<Batch>, source: UuidText, receiver: string, labels: map<string, string>): set<Identity>
  {
    Identities(k, SentBy(batches, source, receiver, labels))
  }

  function SentBy(batches: seq<Batch>, source: UuidText, receiver: string, labels: map<string, string>): seq<Batch> {
    if batches == [] then []
    else
      var b := batches[0];
      (if b.source == source && b.receiver == receiver && b.groupLabels == labels then [b] else [])
      + SentBy(batches[1..], source, receiver, labels)
  }

  lemma {:induction false} SentByMembers(
    batches: seq<Batch>, source: UuidText, receiver: string, labels: map<string, string>, b: Batch)
    ensures b in SentBy(batches, source, receiver, labels) <==>
            b in batches && b.source == source && b.receiver == receiver && b.groupLabels == labels
  {
    if batches != [] {
      SentByMembers(batches[1..], source, receiver, labels, b);
      assert batches == [batches[0]] + batches[1..];
    }
  }

  /** Two readings are one alert exactly when org, cluster and labels are equal. */
  lemma AlertIsIdentity(k: Kernel, b: Batch, ls: map<string, string>, c: Batch, ms: map<string, string>)
    requires k.Valid()
    ensures RowOf(k, b, ls).alert == RowOf(k, c, ms).alert <==> b.org == c.org && b.cluster == c.cluster && ls == ms
  {
    assert k.alertKey(Identity(b.org, b.cluster, ls)) == k.alertKey(Identity(c.org, c.cluster, ms)) ==>
        Identity(b.org, b.cluster, ls) == Identity(c.org, c.cluster, ms);
  }

  ghost function KeysOf(k: Kernel, ids: set<Identity>): set<string> {
    set id | id in ids :: k.alertKey(id)
  }

  /** As many keys as identities. */
  lemma {:induction false} KeysCount(k: Kernel, ids: set<Identity>)
    requires k.Valid()
    ensures |KeysOf(k, ids)| == |ids|
  {
    if ids == {} {
      assert KeysOf(k, ids) == {};
    } else {
      var id :| id in ids;
      KeysCount(k, ids - {id});
      assert KeysOf(k, ids) == KeysOf(k, ids - {id}) + {k.alertKey(id)};
    }
  }

  lemma RowOfIdentity(k: Kernel, batches: seq<Batch>, id: Identity)
    requires k.Valid() && id in Identities(k, batches)
    ensures exists r :: r in Rows(k, batches) && r.alert == k.alertKey(id) && r.dg == k.groupKey(id)
  {
    var b, ls :| b in batches && k.validCluster(b.cluster) && b.org != 0 && ls in b.alerts && k.validLabels(ls)
      && id == Identity(b.org, b.cluster, ls);
    assert RowOf(k, b, ls) in Rows(k, batches);
  }

  lemma IdentityOfRow(k: Kernel, batches: seq<Batch>, r: Row) returns (id: Identity)
    requires k.Valid() && r in Rows(k, batches)
    ensures id in Identities(k, batches) && r.alert == k.alertKey(id) && r.dg == k.groupKey(id)
  {
    var b, ls :| b in batches && Accepted(k, b) && ls in b.alerts && k.validLabels(ls) && r == RowOf(k, b, ls);
    id := Identity(b.org, b.cluster, ls);
  }

  /** The distinct alerts are the distinct identities. */
  lemma AlertsAreIdentities(k: Kernel, batches: seq<Batch>)
    requires k.Valid()
    ensures |Alerts(Rows(k, batches))| == |Identities(k, batches)|
  {
    var ids, rows := Identities(k, batches), Rows(k, batches);
    var keys := KeysOf(k, ids);
    KeysCount(k, ids);
    forall a | a in Alerts(rows) ensures a in keys {
      var r :| r in rows && r.alert == a;
      var id := IdentityOfRow(k, batches, r);
    }
    forall a | a in keys ensures a in Alerts(rows) {
      var id :| id in ids && k.alertKey(id) == a;
      RowOfIdentity(k, batches, id);
    }
    assert keys == Alerts(rows);
  }

  /** The size of a derived group is the number of distinct alerts its key groups. */
  lemma DerivedSizeIsIdentities(k: Kernel, batches: seq<Batch>, d: string)
    requires k.Valid()
    ensures |Of(DA(Rows(k, batches)), d)| == |IdentitiesUnder(k, batches, d)|
  {
    var ids, rows := IdentitiesUnder(k, batches, d), Rows(k, batches);
    var keys := KeysOf(k, ids);
    KeysCount(k, ids);
    forall a | a in Of(DA(rows), d) ensures a in keys {
      var r :| r in rows && r.dg == d && r.alert == a;
      var id := IdentityOfRow(k, batches, r);
      assert id in ids;
    }
    forall a | a in keys ensures a in Of(DA(rows), d) {
      var id :| id in ids && k.alertKey(id) == a;
      RowOfIdentity(k, batches, id);
      var r :| r in rows && r.alert == k.alertKey(id) && r.dg == k.groupKey(id);
      assert (d, a) in DA(rows);
    }
    assert keys == Of(DA(rows), d);
  }

  /** The size of an upstream group is the number of distinct alerts sent in it. */
  lemma UpstreamSizeIsIdentities(k: Kernel, batches: seq<Batch>, b: Batch)
    requires k.Valid()
    ensures |Of(UA(Rows(k, batches)), UpstreamOf(k, b))|
         == |IdentitiesFrom(k, batches, b.source, b.receiver, b.groupLabels)|
  {
    var sent := SentBy(batches, b.source, b.receiver, b.groupLabels);
    var ids, rows, ug := Identities(k, sent), Rows(k, batches), UpstreamOf(k, b);
    var keys := KeysOf(k, ids);
    KeysCount(k, ids);
    forall a | a in Of(UA(rows), ug) ensures a in keys {
      var r :| r in rows && r.ug == ug && r.alert == a;
      var c, ls :| c in batches && Accepted(k, c) && ls in c.alerts && k.validLabels(ls) && r == RowOf(k, c, ls);
      UpstreamGroupsAreTriples(k, b, c);
      SentByMembers(batches, b.source, b.receiver, b.groupLabels, c);
      assert Identity(c.org, c.cluster, ls) in ids;
    }
    forall a | a in keys ensures a in Of(UA(rows), ug) {
      var id :| id in ids && k.alertKey(id) == a;
      var c, ls :| c in sent && k.validCluster(c.cluster) && c.org != 0 && ls in c.alerts && k.validLabels(ls)
        && id == Identity(c.org, c.cluster, ls);
      SentByMembers(batches, b.source, b.receiver, b.groupLabels, c);
      UpstreamGroupsAreTriples(k, b, c);
      var r := RowOf(k, c, ls);
      assert r in rows;
      assert (ug, a) in UA(rows);
    }
    assert keys == Of(UA(rows), ug);
  }
}
