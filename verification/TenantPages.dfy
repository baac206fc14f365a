/** The tenant list as a keyset walk: `orgLister.ScopePage`, the SQL page behind it and the body of
    `jobs.FanOutTenants` that turns a page into queued jobs. */
module TenantPages {

  /** UUIDs are modelled by their order; the nil UUID is zero and no org has it. */
  type OrgId = n: nat | n > 0 witness 1

  const NIL: nat := 0
  const FAN_OUT_LIMIT: nat := 500
  const ORG_PAGE_SIZE: nat := FAN_OUT_LIMIT

  datatype Error = PageTooLarge | Unwired | QueryFailed | EnqueueFailed
  datatype Result<T> = Ok(value: T) | Failed(error: Error)

  /** The payload of a per-tenant periodic: a tick, a continuation or one tenant's pass. */
  datatype Payload = Payload(orgID: nat, after: nat) {
    predicate IsFanOut() {
      orgID == NIL
    }
  }

  ghost predicate Ascending(s: seq<nat>) {
    forall i, j :: 0 <= i < j < |s| ==> s[i] < s[j]
  }

  function Above(live: set<OrgId>, after: nat): set<OrgId> {
    set x | x in live && x > after
  }

  /** `WHERE deleted_at IS NULL AND id > after ORDER BY id LIMIT limit`: the smallest ids above the
      cursor, and all of them unless the limit was reached. */
  ghost predicate IsPage(live: set<OrgId>, after: nat, limit: nat, page: seq<OrgId>) {
    && Ascending(page)
    && |page| <= limit
    && (forall x :: x in page ==> x in live && x > after)
    && forall x :: x in live && x > after && x !in page ==> |page| == limit && forall y :: y in page ==> y < x
  }

  lemma {:induction false} LeastExists(s: set<OrgId>) returns (m: OrgId)
    requires s != {}
    ensures m in s && forall x :: x in s ==> m <= x
  {
    var c :| c in s;
    m := c;
    if s - {c} != {} {
      var k := LeastExists(s - {c});
      m := if k < c then k else c;
      forall x | x in s ensures m <= x {
        assert x == c || x in s - {c};
      }
    } else {
      assert s == {c};
    }
  }

  /** The database always has such a page. */
  lemma {:induction false} PageExists(live: set<OrgId>, after: nat, limit: nat) returns (page: seq<OrgId>)
    ensures IsPage(live, after, limit, page)
    decreases limit
  {
    if limit == 0 || Above(live, after) == {} {
      page := [];
      assert forall x :: x in live && x > after ==> x in Above(live, after);
    } else {
      var m := LeastExists(Above(live, after));
      var rest := PageExists(live, m, limit - 1);
      page := [m] + rest;
      forall j | 0 <= j < |rest| ensures m < rest[j] {
        assert rest[j] in rest;
      }
      forall x | x in live && x > after && x !in page ensures |page| == limit && forall y :: y in page ==> y < x {
        assert x in Above(live, after) && x != m;
      }
    }
  }

  /** The query itself: the least id above the last, until the limit is reached or none is left. */
  method ListOrgIDs(live: set<OrgId>, after: nat, limit: nat) returns (rows: seq<OrgId>)
    ensures IsPage(live, after, limit, rows)
  {
    rows := [];
    var cursor := after;
    while |rows| < limit && Above(live, cursor) != {}
      invariant |rows| <= limit && IsPage(live, after, |rows|, rows)
      invariant cursor == if rows == [] then after else rows[|rows| - 1]
    {
      var above := Above(live, cursor);
      ghost var least := LeastExists(above);
      var m: OrgId :| m in above && forall x :: x in above ==> m <= x;
      NextRow(live, after, rows, cursor, m);
      rows, cursor := rows + [m], m;
    }
    if |rows| < limit {
      NoneLeft(live, after, limit, rows, cursor);
    }
  }

  lemma NoneLeft(live: set<OrgId>, after: nat, limit: nat, rows: seq<OrgId>, cursor: nat)
    requires IsPage(live, after, |rows|, rows) && cursor == (if rows == [] then after else rows[|rows| - 1])
    requires Above(live, cursor) == {} && |rows| <= limit
    ensures IsPage(live, after, limit, rows)
  {
    assert rows != [] ==> cursor in rows;
    assert forall x :: x in live && x > cursor ==> x in Above(live, cursor);
  }

  lemma NextRow(live: set<OrgId>, after: nat, rows: seq<OrgId>, cursor: nat, m: OrgId)
    requires IsPage(live, after, |rows|, rows) && cursor == (if rows == [] then after else rows[|rows| - 1])
    requires m in Above(live, cursor) && forall x :: x in Above(live, cursor) ==> m <= x
    ensures IsPage(live, after, |rows| + 1, rows + [m])
  {
    var more := rows + [m];
    assert rows != [] ==> cursor in rows;
    forall x | x in rows ensures x < m {
      var i :| 0 <= i < |rows| && rows[i] == x;
    }
    forall x | x in live && x > after && x !in more ensures forall y :: y in more ==> y < x {
      assert x in Above(live, cursor) && x != m;
    }
  }

  /** The page size a limit asks for. */
  function Served(limit: int): nat {
    if limit <= 0 then ORG_PAGE_SIZE else limit
  }

  /** A limit the lister cannot serve is an error, never a quietly smaller page. The query, and the scan
      of any row, may fail. */
  method ScopePage(live: set<OrgId>, after: nat, limit: int) returns (r: Result<seq<OrgId>>)
    ensures r == Failed(PageTooLarge) <==> limit > 500
    ensures r.Failed? ==> r.error == PageTooLarge || r.error == QueryFailed
    ensures r.Ok? ==> IsPage(live, after, if limit <= 0 then 500 else limit, r.value)
  {
    if Served(limit) > ORG_PAGE_SIZE {
      return Failed(PageTooLarge);
    }
    var failed: bool := *;
    if failed {
      return Failed(QueryFailed);
    }
    var rows := ListOrgIDs(live, after, Served(limit));
    var out := [];
    for i := 0 to |rows|
      invariant out == rows[..i]
    {
      failed := *;
      if failed {
        return Failed(QueryFailed);
      }
      out := out + [rows[i]];
    }
    assert rows[..|rows|] == rows;
    return Ok(out);
  }

  function TenantJobs(page: seq<OrgId>): seq<Payload> {
    seq(|page|, i requires 0 <= i < |page| => Payload(page[i], NIL))
  }

  /** What a fan-out queues after reading `page`: one pass per tenant, and a continuation from the
      last id exactly when the page came back full. */
  function Queued(page: seq<OrgId>, limit: nat): seq<Payload> {
    TenantJobs(page) + if |page| > 0 && |page| >= limit then [Payload(NIL, page[|page| - 1])] else []
  }

  /** The two sizes agree, so a fan-out is never refused its page; a fan-out that fails has queued
      nothing. */
  method FanOutTenants(wired: bool, live: set<OrgId>, after: nat) returns (r: Result<seq<Payload>>)
    ensures r == Failed(Unwired) <==> !wired
    ensures r.Failed? ==> r.error != PageTooLarge
    ensures r.Ok? ==> exists page :: IsPage(live, after, 500, page) && r.value == Queued(page, 500)
  {
    if !wired {
      return Failed(Unwired);
    }
    var read := ScopePage(live, after, FAN_OUT_LIMIT);
    if read.Failed? {
      return Failed(read.error);
    }
    var page := read.value;
    if |page| == 0 {
      assert Queued(page, FAN_OUT_LIMIT) == [];
      return Ok([]);
    }
    var reqs := [];
    for i := 0 to |page|
      invariant reqs == TenantJobs(page)[..i]
    {
      reqs := reqs + [Payload(page[i], NIL)];
    }
    assert TenantJobs(page)[..|page|] == TenantJobs(page);
    var cursor := page[|page| - 1];
    if |page| >= FAN_OUT_LIMIT {
      reqs := reqs + [Payload(NIL, cursor)];
    }
    var failed: bool := *;
    if failed {
      return Failed(EnqueueFailed);
    }
    return Ok(reqs);
  }

  /** Which tenants the page holds follows from how many live ids lie between the cursor and them. */
  lemma PageMembership(live: set<OrgId>, after: nat, limit: nat, page: seq<OrgId>, x: OrgId)
    requires IsPage(live, after, limit, page) && x in live && x > after
    ensures x in page <==> |set y | y in live && after < y < x| < limit
  {
    var below := set y | y in live && after < y < x;
    if x in page {
      var i :| 0 <= i < |page| && page[i] == x;
      forall y | y in below ensures y in page[..i] {
        assert y in page;
        var j :| 0 <= j < |page| && page[j] == y;
        assert j < i;
        assert page[..i][j] == y;
      }
      SubsetOfList(below, page[..i]);
    } else {
      assert forall y :: y in page ==> y in below;
      ListInSet(page, below);
    }
  }

  lemma {:induction false} SubsetOfList(s: set<OrgId>, l: seq<OrgId>)
    requires forall x :: x in s ==> x in l
    ensures |s| <= |l|
    decreases |l|
  {
    if l == [] {
      assert s == {};
    } else {
      var rest := s - {l[0]};
      assert l == [l[0]] + l[1..];
      SubsetOfList(rest, l[1..]);
      assert s <= rest + {l[0]};
      CardOfAddOne(s, rest, l[0]);
    }
  }

  lemma CardOfAddOne(s: set<OrgId>, rest: set<OrgId>, x: OrgId)
    requires rest == s - {x}
    ensures |s| <= |rest| + 1
  {
  }

  lemma {:induction false} ListInSet(l: seq<OrgId>, s: set<OrgId>)
    requires Ascending(l) && forall x :: x in l ==> x in s
    ensures |l| <= |s|
    decreases |l|
  {
    if l != [] {
      assert l[0] in l;
      forall x | x in l[1..] ensures x in s - {l[0]} {
        var i :| 0 <= i < |l[1..]| && l[1..][i] == x;
        assert l[i + 1] == x && l[0] < l[i + 1];
      }
      ListInSet(l[1..], s - {l[0]});
    }
  }

  /** Why an over-large limit is an error: a pager that served `clamp` ids to a caller that asked for
      more would never return a full page, so no continuation is queued, and at every tick every
      tenant with `clamp` or more live tenants below it is left out. */
  lemma ClampStarves(live: set<OrgId>, clamp: nat, limit: nat, page: seq<OrgId>, x: OrgId)
    requires clamp < limit && IsPage(live, NIL, clamp, page)
    requires x in live && |set y | y in live && NIL < y < x| >= clamp
    ensures Payload(x, NIL) !in Queued(page, limit)
    ensures forall p :: p in Queued(page, limit) ==> !p.IsFanOut()
  {
    PageMembership(live, NIL, clamp, page, x);
    forall p | p in Queued(page, limit) ensures !p.IsFanOut() && p.orgID in page {
      var i :| 0 <= i < |TenantJobs(page)| && TenantJobs(page)[i] == p;
    }
  }
}
