/** One tick of a per-tenant periodic as a transition system: the tick, its continuations and the
    tenant passes are queued jobs that run in any order, while tenants are created and soft-deleted
    between any two of them. `retention.prune` is the periodic modelled, with its global prunes. */
module JobTree {
  import opened TenantPages

  /** `live` and `queue` are the tables. The rest is history: every org that ever existed, the orgs
      live since the tick began, what was enqueued, which passes ran and which of them swept. */
  datatype State = State(
    live: set<OrgId>,
    queue: multiset<Payload>,
    prunes: nat,
    ever: set<OrgId>,
    stayed: set<OrgId>,
    enqueued: seq<OrgId>,
    fanRuns: nat,
    ran: multiset<nat>,
    swept: multiset<nat>)

  datatype Event =
    | Create(x: OrgId)
    | Delete(x: OrgId)
    | RunTenant(p: Payload)
    | RunFanOut(p: Payload, page: seq<OrgId>)

  ghost predicate Init(s: State) {
    s == State(s.live, multiset{Payload(NIL, NIL)}, 0, s.live, s.live, [], 0, multiset{}, multiset{})
  }

  /** A tenant pass resolves its payload against the table when it runs, so a departed tenant is not
      swept. A fan-out prunes globally only when its cursor is nil. */
  ghost predicate Next(limit: nat, s: State, e: Event, s': State) {
    match e
    case Create(x) =>
      x !in s.ever && s' == s.(live := s.live + {x}, ever := s.ever + {x})
    case Delete(x) =>
      x in s.live && s' == s.(live := s.live - {x}, stayed := s.stayed - {x})
    case RunTenant(p) =>
      && p in s.queue && !p.IsFanOut()
      && s' == s.(queue := s.queue - multiset{p}, ran := s.ran + multiset{p.orgID},
                  swept := s.swept + if p.orgID in s.live then multiset{p.orgID} else multiset{})
    case RunFanOut(p, page) =>
      && p in s.queue && p.IsFanOut() && IsPage(s.live, p.after, limit, page)
      && s' == s.(queue := s.queue - multiset{p} + multiset(Queued(page, limit)),
                  prunes := s.prunes + (if p.after == NIL then 1 else 0),
                  enqueued := s.enqueued + page, fanRuns := s.fanRuns + 1)
  }

  ghost predicate IsRun(limit: nat, states: seq<State>, events: seq<Event>) {
    && |states| == |events| + 1
    && Init(states[0])
    && forall i :: 0 <= i < |events| ==> Next(limit, states[i], events[i], states[i + 1])
  }

  // ---------------------------------------------------------------- the invariant

  function Cursor(s: State): nat {
    if s.enqueued == [] then NIL else s.enqueued[|s.enqueued| - 1]
  }

  predicate Walking(s: State) {
    Payload(NIL, Cursor(s)) in s.queue
  }

  /** At most one fan-out job is queued, and its cursor is the last id enqueued. */
  ghost predicate QueueInv(s: State) {
    && (forall p :: p in s.queue ==> p == Payload(NIL, Cursor(s)) || (p.after == NIL && p.orgID in s.enqueued))
    && s.queue[Payload(NIL, Cursor(s))] <= 1
  }

  /** Every enqueued tenant has one pass, queued or run. */
  ghost predicate OncePerTenant(s: State) {
    && Ascending(s.enqueued)
    && (forall x :: x in s.enqueued ==> x in s.ever)
    && (forall x: OrgId :: s.queue[Payload(x, NIL)] + s.ran[x] == if x in s.enqueued then 1 else 0)
    && s.swept <= s.ran
  }

  ghost predicate Covered(s: State) {
    && s.stayed <= s.live <= s.ever
    && (forall x :: x in s.stayed && (x <= Cursor(s) || !Walking(s)) ==> x in s.enqueued)
    && forall x :: x in s.stayed ==> s.swept[x] == s.ran[x]
  }

  /** The ids in `n` full pages. */
  function Pages(limit: nat, n: nat): nat {
    if n == 0 then 0 else limit + Pages(limit, n - 1)
  }

  ghost predicate Bounded(limit: nat, s: State) {
    && s.prunes == (if Walking(s) && s.enqueued == [] then 0 else 1)
    && (Walking(s) ==> Pages(limit, s.fanRuns) <= |s.enqueued|)
    && (!Walking(s) ==> s.fanRuns >= 1 && Pages(limit, s.fanRuns - 1) <= |s.enqueued|)
  }

  ghost predicate Inv(limit: nat, s: State) {
    QueueInv(s) && OncePerTenant(s) && Covered(s) && Bounded(limit, s)
  }

  lemma InitInv(limit: nat, s: State)
    requires Init(s)
    ensures Inv(limit, s)
  {
  }

  lemma {:induction false} TenantJobsOnce(page: seq<OrgId>, x: OrgId)
    requires Ascending(page)
    ensures multiset(TenantJobs(page))[Payload(x, NIL)] == if x in page then 1 else 0
    decreases |page|
  {
    if page != [] {
      var rest := page[1..];
      TenantJobsOnce(rest, x);
      assert TenantJobs(page) == [Payload(page[0], NIL)] + TenantJobs(rest);
      assert page == [page[0]] + rest;
      forall y | y in rest ensures page[0] < y {
        var i :| 0 <= i < |rest| && rest[i] == y;
        assert page[i + 1] == y;
      }
    }
  }

  lemma TenantJobsAreTenants(page: seq<OrgId>, p: Payload)
    ensures p in multiset(TenantJobs(page)) ==> p.after == NIL && p.orgID in page
  {
    if p in multiset(TenantJobs(page)) {
      assert p in TenantJobs(page);
      var i :| 0 <= i < |page| && TenantJobs(page)[i] == p;
    }
  }

  /** How often a payload is queued by a fan-out. */
  lemma QueuedCount(page: seq<OrgId>, limit: nat, p: Payload)
    ensures multiset(Queued(page, limit))[p] == multiset(TenantJobs(page))[p]
              + if |page| > 0 && |page| >= limit && p == Payload(NIL, page[|page| - 1]) then 1 else 0
  {
  }

  /** The only fan-out job is the one at the cursor. */
  lemma FanOutIsAtCursor(s: State, p: Payload)
    requires QueueInv(s) && p in s.queue && p.IsFanOut()
    ensures p == Payload(NIL, Cursor(s))
  {
  }

  lemma CursorBoundsEnqueued(s: State, x: OrgId)
    requires Ascending(s.enqueued) && x in s.enqueued
    ensures x <= Cursor(s)
  {
  }

  lemma CursorIsNilAtStart(s: State)
    ensures Cursor(s) == NIL <==> s.enqueued == []
  {
  }

  /** The queue after a fan-out, payload by payload. */
  lemma QueueAfter(limit: nat, s: State, p: Payload, page: seq<OrgId>, s': State, q: Payload)
    requires Next(limit, s, RunFanOut(p, page), s')
    ensures s'.queue[q] == s.queue[q] - (if q == p then 1 else 0) + multiset(TenantJobs(page))[q]
              + if |page| > 0 && |page| >= limit && q == Payload(NIL, page[|page| - 1]) then 1 else 0
  {
    QueuedCount(page, limit, q);
    hide Queued, TenantJobs, IsPage;
  }

  lemma CursorAfter(s: State, page: seq<OrgId>, s': State)
    requires s'.enqueued == s.enqueued + page
    ensures Cursor(s') == if page == [] then Cursor(s) else page[|page| - 1]
  {
    if page == [] {
      assert s'.enqueued == s.enqueued;
    }
  }

  lemma FanOutQueue(limit: nat, s: State, p: Payload, page: seq<OrgId>, s': State)
    requires limit > 0 && Inv(limit, s) && Next(limit, s, RunFanOut(p, page), s')
    ensures p == Payload(NIL, Cursor(s)) && Walking(s)
    ensures QueueInv(s') && (Walking(s') <==> |page| >= limit)
  {
    FanOutIsAtCursor(s, p);
    CursorAfter(s, page, s');
    var c := Payload(NIL, Cursor(s'));
    forall q ensures q in s'.queue ==> q == c || (q.after == NIL && q.orgID in s'.enqueued) {
      QueueAfter(limit, s, p, page, s', q);
      TenantJobsAreTenants(page, q);
    }
    QueueAfter(limit, s, p, page, s', c);
    TenantJobsAreTenants(page, c);
    if page != [] {
      assert page[|page| - 1] in page;
      assert c != p && c !in s.queue;
    }
  }

  lemma FanOutOrder(s: State, page: seq<OrgId>)
    requires Ascending(s.enqueued) && Ascending(page) && forall x :: x in page ==> x > Cursor(s)
    ensures Ascending(s.enqueued + page)
    ensures forall x: OrgId :: x in page ==> x !in s.enqueued
  {
    var all := s.enqueued + page;
    forall i, j | 0 <= i < j < |all| ensures all[i] < all[j] {
      if i < |s.enqueued| <= j {
        CursorBoundsEnqueued(s, s.enqueued[i]);
        assert page[j - |s.enqueued|] in page;
      }
    }
    forall x: OrgId | x in s.enqueued ensures x <= Cursor(s) {
      CursorBoundsEnqueued(s, x);
    }
  }

  lemma FanOutOnce(limit: nat, s: State, p: Payload, page: seq<OrgId>, s': State)
    requires limit > 0 && Inv(limit, s) && Next(limit, s, RunFanOut(p, page), s')
    ensures OncePerTenant(s')
  {
    FanOutIsAtCursor(s, p);
    FanOutOrder(s, page);
    hide Bounded, Covered, QueueInv, Cursor, Walking, Queued, TenantJobs, Ascending;
    forall x: OrgId ensures s'.queue[Payload(x, NIL)] + s'.ran[x] == if x in s'.enqueued then 1 else 0 {
      QueueAfter(limit, s, p, page, s', Payload(x, NIL));
      TenantJobsOnce(page, x);
      assert s.queue[Payload(x, NIL)] + s.ran[x] == if x in s.enqueued then 1 else 0;
    }
  }

  lemma BeyondThePage(live: set<OrgId>, after: nat, limit: nat, page: seq<OrgId>, x: OrgId)
    requires limit > 0 && IsPage(live, after, limit, page) && x in live
    ensures x <= after || x in page || (|page| == limit && page[limit - 1] < x)
  {
    if |page| == limit {
      assert page[limit - 1] in page;
    }
  }

  lemma FanOutCovers(limit: nat, s: State, p: Payload, page: seq<OrgId>, s': State)
    requires limit > 0 && Inv(limit, s) && Next(limit, s, RunFanOut(p, page), s')
    ensures Covered(s')
  {
    FanOutQueue(limit, s, p, page, s');
    forall x | x in s'.stayed && (x <= Cursor(s') || !Walking(s')) ensures x in s'.enqueued {
      BeyondThePage(s.live, p.after, limit, page, x);
    }
  }

  lemma BoundStep(limit: nat, s: State, n: nat, s': State)
    requires limit > 0 && Bounded(limit, s) && Walking(s)
    requires Walking(s') <==> n >= limit
    requires s'.fanRuns == s.fanRuns + 1 && |s'.enqueued| == |s.enqueued| + n
    requires s'.prunes == s.prunes + if s.enqueued == [] then 1 else 0
    ensures Bounded(limit, s')
  {
    hide Walking;
  }

  lemma FanOutBound(limit: nat, s: State, p: Payload, page: seq<OrgId>, s': State)
    requires limit > 0 && Inv(limit, s) && Next(limit, s, RunFanOut(p, page), s')
    ensures Bounded(limit, s')
  {
    FanOutQueue(limit, s, p, page, s');
    CursorIsNilAtStart(s);
    BoundStep(limit, s, |page|, s');
  }

  lemma TenantQueue(limit: nat, s: State, p: Payload, s': State)
    requires Inv(limit, s) && Next(limit, s, RunTenant(p), s')
    ensures p == Payload(p.orgID, NIL) && p.orgID in s.enqueued
    ensures QueueInv(s') && Cursor(s') == Cursor(s) && (Walking(s') <==> Walking(s))
  {
    hide OncePerTenant, Covered, Bounded;
    forall q ensures s'.queue[q] == s.queue[q] - if q == p then 1 else 0 {
    }
  }

  lemma TenantOnce(limit: nat, s: State, p: Payload, s': State)
    requires Inv(limit, s) && Next(limit, s, RunTenant(p), s') && p == Payload(p.orgID, NIL)
    ensures OncePerTenant(s')
  {
    hide QueueInv, Covered, Bounded, Ascending;
    forall x: OrgId ensures s'.queue[Payload(x, NIL)] + s'.ran[x] == if x in s'.enqueued then 1 else 0 {
      assert s.queue[Payload(x, NIL)] + s.ran[x] == if x in s.enqueued then 1 else 0;
    }
  }

  lemma TenantCovers(limit: nat, s: State, p: Payload, s': State)
    requires Inv(limit, s) && Next(limit, s, RunTenant(p), s')
    requires Cursor(s') == Cursor(s) && (Walking(s') <==> Walking(s))
    ensures Covered(s')
  {
    assert Covered(s);
    hide QueueInv, OncePerTenant, Bounded, Cursor, Walking;
    forall x | x in s'.stayed ensures s'.swept[x] == s'.ran[x] {
      assert x in s.live && s.swept[x] == s.ran[x];
    }
  }

  lemma BoundSame(limit: nat, s: State, s': State)
    requires Bounded(limit, s) && (Walking(s') <==> Walking(s))
    requires s'.prunes == s.prunes && s'.fanRuns == s.fanRuns && s'.enqueued == s.enqueued
    ensures Bounded(limit, s')
  {
    hide Walking;
  }

  lemma TenantKeepsInv(limit: nat, s: State, p: Payload, s': State)
    requires Inv(limit, s) && Next(limit, s, RunTenant(p), s')
    ensures Inv(limit, s')
  {
    hide QueueInv, OncePerTenant, Covered, Bounded, Cursor, Walking;
    TenantQueue(limit, s, p, s');
    TenantOnce(limit, s, p, s');
    TenantCovers(limit, s, p, s');
    BoundSame(limit, s, s');
  }

  lemma CreateKeepsInv(limit: nat, s: State, x: OrgId, s': State)
    requires Inv(limit, s) && Next(limit, s, Create(x), s')
    ensures Inv(limit, s')
  {
    assert Cursor(s') == Cursor(s) && (Walking(s') <==> Walking(s));
    hide Cursor, Walking;
    BoundSame(limit, s, s');
  }

  lemma DeleteKeepsInv(limit: nat, s: State, x: OrgId, s': State)
    requires Inv(limit, s) && Next(limit, s, Delete(x), s')
    ensures Inv(limit, s')
  {
    assert Cursor(s') == Cursor(s) && (Walking(s') <==> Walking(s));
    hide Cursor, Walking;
    BoundSame(limit, s, s');
  }

  lemma NextKeepsInv(limit: nat, s: State, e: Event, s': State)
    requires limit > 0 && Inv(limit, s) && Next(limit, s, e, s')
    ensures Inv(limit, s')
  {
    hide QueueInv, OncePerTenant, Covered, Bounded, Next;
    match e
    case Create(x) =>
      CreateKeepsInv(limit, s, x, s');
    case Delete(x) =>
      DeleteKeepsInv(limit, s, x, s');
    case RunTenant(p) =>
      TenantKeepsInv(limit, s, p, s');
    case RunFanOut(p, page) =>
      FanOutQueue(limit, s, p, page, s');
      FanOutOnce(limit, s, p, page, s');
      FanOutCovers(limit, s, p, page, s');
      FanOutBound(limit, s, p, page, s');
  }

  lemma {:induction false} RunKeepsInv(limit: nat, states: seq<State>, events: seq<Event>, i: nat)
    requires limit > 0 && IsRun(limit, states, events) && i < |states|
    ensures Inv(limit, states[i])
  {
    if i == 0 {
      InitInv(limit, states[0]);
    } else {
      RunKeepsInv(limit, states, events, i - 1);
      assert Next(limit, states[i - 1], events[i - 1], states[i - 1 + 1]);
      NextKeepsInv(limit, states[i - 1], events[i - 1], states[i]);
    }
  }

  // ---------------------------------------------------------------- the theorems

  /** At every point of every run: the global prunes ran at most once, no tenant is enqueued or swept
      twice. Once the walk is over they ran exactly once, and every tenant that stayed live has
      exactly one pass, which sweeps it if it has run. */
  lemma TickIsOnce(limit: nat, states: seq<State>, events: seq<Event>, i: nat)
    requires limit > 0 && IsRun(limit, states, events) && i < |states|
    ensures var s := states[i];
            && s.prunes <= 1
            && Ascending(s.enqueued)
            && (forall x: OrgId :: s.swept[x] <= s.ran[x] <= 1)
            && (!Walking(s) ==>
                 && s.prunes == 1
                 && forall x :: x in s.stayed ==>
                      s.queue[Payload(x, NIL)] + s.ran[x] == 1 && s.swept[x] == s.ran[x])
  {
    RunKeepsInv(limit, states, events, i);
    var s := states[i];
    forall x: OrgId ensures s.swept[x] <= s.ran[x] <= 1 {
      assert s.queue[Payload(x, NIL)] + s.ran[x] == if x in s.enqueued then 1 else 0;
    }
  }

  /** A tenant is swept by a step exactly when that step is a pass of its own and its row is live. */
  lemma SweptIffLive(limit: nat, s: State, e: Event, s': State, x: OrgId)
    requires Next(limit, s, e, s')
    ensures s'.swept[x] > s.swept[x] <==> e.RunTenant? && e.p.orgID == x && x in s.live
    ensures s'.swept[x] >= s.swept[x]
  {
  }

  /** An org that existed and is not live stays so: its id is never created a second time. */
  lemma GoneStaysGone(limit: nat, s: State, e: Event, s': State, x: OrgId)
    requires Next(limit, s, e, s') && x in s.ever && x !in s.live
    ensures x in s'.ever && x !in s'.live && s'.swept[x] == s.swept[x]
  {
    hide IsPage, Queued;
  }

  /** In every run, a soft-deleted tenant is not swept again. */
  lemma {:induction false} DeletedIsNotSwept(
    limit: nat, states: seq<State>, events: seq<Event>, j: nat, i: nat, x: OrgId)
    requires limit > 0 && IsRun(limit, states, events) && j < i < |states| && events[j] == Delete(x)
    ensures x in states[i].ever && x !in states[i].live && states[i].swept[x] == states[j].swept[x]
    decreases i
  {
    assert Next(limit, states[i - 1], events[i - 1], states[i - 1 + 1]);
    if i - 1 == j {
      RunKeepsInv(limit, states, events, j);
    } else {
      DeletedIsNotSwept(limit, states, events, j, i - 1, x);
      hide Next;
      GoneStaysGone(limit, states[i - 1], events[i - 1], states[i], x);
    }
  }

  // ---------------------------------------------------------------- a tick can always finish

  ghost function ToWalk(s: State): nat {
    if Walking(s) then 1 + |Above(s.live, Cursor(s))| else 0
  }

  lemma WalkShrinks(limit: nat, s: State, p: Payload, page: seq<OrgId>, s': State)
    requires limit > 0 && Inv(limit, s) && Next(limit, s, RunFanOut(p, page), s')
    ensures ToWalk(s') < ToWalk(s)
  {
    FanOutQueue(limit, s, p, page, s');
    CursorAfter(s, page, s');
    assert s'.live == s.live && IsPage(s.live, Cursor(s), limit, page);
    hide Next, Inv, Cursor, Walking;
    if Walking(s') {
      assert page[|page| - 1] in page;
      AboveShrinks(s.live, Cursor(s), page[|page| - 1]);
    }
  }

  lemma AboveShrinks(live: set<OrgId>, after: nat, next: OrgId)
    requires next in live && next > after
    ensures |Above(live, next)| < |Above(live, after)|
  {
    var was, now := Above(live, after), Above(live, next);
    assert next in was && next !in now;
    assert was - {next} == now + (was - {next} - now);
  }

  /** In `n` steps, each a queued job run, the queue is empty. */
  ghost predicate Drains(limit: nat, s: State, n: nat)
    decreases n
  {
    if n == 0 then s.queue == multiset{}
    else exists e, s' :: RunsQueued(limit, s, e, s') && Drains(limit, s', n - 1)
  }

  ghost predicate RunsQueued(limit: nat, s: State, e: Event, s': State) {
    (e.RunTenant? || e.RunFanOut?) && Next(limit, s, e, s')
  }

  lemma {:induction false} CanDrain(limit: nat, s: State) returns (n: nat)
    requires limit > 0 && Inv(limit, s)
    ensures Drains(limit, s, n)
    decreases ToWalk(s), |s.queue|
  {
    hide Next, Inv, ToWalk, QueueInv, OncePerTenant, Covered, Bounded;
    if s.queue == multiset{} {
      n := 0;
    } else {
      var e, s' := QueuedStep(limit, s);
      NextKeepsInv(limit, s, e, s');
      var m := CanDrain(limit, s');
      n := m + 1;
      assert RunsQueued(limit, s, e, s') && Drains(limit, s', n - 1);
    }
  }

  /** From any point of any run, the queued jobs alone, run in some order, empty the queue: no pass and no
      page is ever refused, so every tick can finish. */
  lemma EveryTickCanFinish(limit: nat, states: seq<State>, events: seq<Event>, i: nat)
    requires limit > 0 && IsRun(limit, states, events) && i < |states|
    ensures exists n: nat :: Drains(limit, states[i], n)
  {
    RunKeepsInv(limit, states, events, i);
    hide Inv, IsRun;
    var n := CanDrain(limit, states[i]);
  }

  /** Whatever is queued can run, and brings the end nearer. */
  lemma QueuedStep(limit: nat, s: State) returns (e: Event, s': State)
    requires limit > 0 && Inv(limit, s) && s.queue != multiset{}
    ensures (e.RunTenant? || e.RunFanOut?) && Next(limit, s, e, s')
    ensures ToWalk(s') < ToWalk(s) || (ToWalk(s') == ToWalk(s) && |s'.queue| < |s.queue|)
  {
    if Walking(s) {
      e, s' := FanOutStep(limit, s);
    } else {
      e, s' := TenantStep(limit, s);
    }
  }

  lemma FanOutStep(limit: nat, s: State) returns (e: Event, s': State)
    requires limit > 0 && Inv(limit, s) && Walking(s)
    ensures e.RunFanOut? && Next(limit, s, e, s') && ToWalk(s') < ToWalk(s)
  {
    var p := Payload(NIL, Cursor(s));
    var page := PageExists(s.live, p.after, limit);
    e := RunFanOut(p, page);
    s' := s.(queue := s.queue - multiset{p} + multiset(Queued(page, limit)),
      prunes := s.prunes + (if p.after == NIL then 1 else 0), enqueued := s.enqueued + page, fanRuns := s.fanRuns + 1);
    WalkShrinks(limit, s, p, page, s');
  }

  lemma TenantStep(limit: nat, s: State) returns (e: Event, s': State)
    requires limit > 0 && Inv(limit, s) && !Walking(s) && s.queue != multiset{}
    ensures e.RunTenant? && Next(limit, s, e, s') && ToWalk(s') == ToWalk(s) && |s'.queue| < |s.queue|
  {
    var p :| p in s.queue;
    e := RunTenant(p);
    s' := s.(queue := s.queue - multiset{p}, ran := s.ran + multiset{p.orgID},
      swept := s.swept + if p.orgID in s.live then multiset{p.orgID} else multiset{});
    TenantQueue(limit, s, p, s');
  }

  /** When the queue is empty, every tenant live throughout has been swept exactly once. */
  lemma DrainedTickSweptEveryone(limit: nat, states: seq<State>, events: seq<Event>, i: nat, x: OrgId)
    requires limit > 0 && IsRun(limit, states, events) && i < |states|
    requires states[i].queue == multiset{} && x in states[i].stayed
    ensures states[i].swept[x] == 1 && states[i].prunes == 1
  {
    TickIsOnce(limit, states, events, i);
    assert !Walking(states[i]);
  }

  /** The walk advances by a whole page each time it goes on, so the number of fan-out executions is
      bounded by the orgs that ever existed, and so is the number of tenant passes. */
  lemma WalkIsBounded(limit: nat, states: seq<State>, events: seq<Event>, i: nat)
    requires limit > 0 && IsRun(limit, states, events) && i < |states|
    ensures states[i].fanRuns >= 1 ==> Pages(limit, states[i].fanRuns - 1) <= |states[i].ever|
    ensures |states[i].enqueued| <= |states[i].ever|
  {
    RunKeepsInv(limit, states, events, i);
    var s := states[i];
    hide IsRun, QueueInv, Covered, Walking;
    ListInSet(s.enqueued, s.ever);
  }

  /** That is the exact bound: while new tenants keep arriving ahead of the cursor, a walk goes on
      for as many pages as one likes. */
  lemma {:induction false} CreationsKeepItGoing(limit: nat, n: nat) returns (states: seq<State>, events: seq<Event>)
    requires limit > 0
    ensures IsRun(limit, states, events) && Walking(states[|states| - 1]) && states[|states| - 1].fanRuns == n
  {
    if n == 0 {
      states := [State({}, multiset{Payload(NIL, NIL)}, 0, {}, {}, [], 0, multiset{}, multiset{})];
      events := [];
    } else {
      states, events := CreationsKeepItGoing(limit, n - 1);
      states, events := CreateAhead(limit, states, events, limit);
      var s' , e := FullFanOut(limit, states, events);
      states, events := Extend(limit, states, events, e, s');
    }
  }

  /** With a full page ahead of the cursor, the queued fan-out can run and queue another. */
  lemma FullFanOut(limit: nat, states: seq<State>, events: seq<Event>) returns (s': State, e: Event)
    requires limit > 0 && IsRun(limit, states, events)
    requires var s := states[|states| - 1]; Walking(s) && |Above(s.live, Cursor(s))| >= limit
    ensures Next(limit, states[|states| - 1], e, s')
    ensures Walking(s') && s'.fanRuns == states[|states| - 1].fanRuns + 1
  {
    RunKeepsInv(limit, states, events, |states| - 1);
    var s := states[|states| - 1];
    hide IsRun;
    var p := Payload(NIL, Cursor(s));
    var page := PageExists(s.live, p.after, limit);
    PageIsFull(s.live, p.after, limit, page);
    e := RunFanOut(p, page);
    s' := s.(queue := s.queue - multiset{p} + multiset(Queued(page, limit)),
      prunes := s.prunes + (if p.after == NIL then 1 else 0), enqueued := s.enqueued + page, fanRuns := s.fanRuns + 1);
    FanOutQueue(limit, s, p, page, s');
  }

  lemma Extend(limit: nat, states: seq<State>, events: seq<Event>, e: Event, s': State)
    returns (states': seq<State>, events': seq<Event>)
    requires IsRun(limit, states, events) && Next(limit, states[|states| - 1], e, s')
    ensures IsRun(limit, states', events') && states' == states + [s'] && events' == events + [e]
  {
    states', events' := states + [s'], events + [e];
    forall i | 0 <= i < |events'| ensures Next(limit, states'[i], events'[i], states'[i + 1]) {
      if i < |events| {
        assert Next(limit, states[i], events[i], states[i + 1]);
      }
    }
  }

  /** The run extended by `k` creations above everything that exists. */
  lemma {:induction false} CreateAhead(limit: nat, states: seq<State>, events: seq<Event>, k: nat)
    returns (states': seq<State>, events': seq<Event>)
    requires limit > 0 && IsRun(limit, states, events) && Walking(states[|states| - 1])
    ensures IsRun(limit, states', events')
    ensures var s, s' := states[|states| - 1], states'[|states'| - 1];
            && s' == s.(live := s'.live, ever := s'.ever)
            && |Above(s'.live, Cursor(s))| >= k
            && Walking(s')
  {
    if k == 0 {
      states', events' := states, events;
    } else {
      states', events' := CreateAhead(limit, states, events, k - 1);
      var s := states'[|states'| - 1];
      RunKeepsInv(limit, states', events', |states'| - 1);
      var top := UpperBound(s.ever);
      var x: OrgId := top + Cursor(s) + 1;
      var s' := s.(live := s.live + {x}, ever := s.ever + {x});
      assert Above(s'.live, Cursor(s)) == Above(s.live, Cursor(s)) + {x};
      assert x !in s.ever;
      states', events' := Extend(limit, states', events', Create(x), s');
    }
  }

  lemma {:induction false} UpperBound(s: set<OrgId>) returns (top: nat)
    ensures forall x :: x in s ==> x <= top
  {
    if s == {} {
      top := 0;
    } else {
      var c :| c in s;
      var t := UpperBound(s - {c});
      top := if t < c then c else t;
      forall x | x in s ensures x <= top {
        assert x == c || x in s - {c};
      }
    }
  }

  lemma PageIsFull(live: set<OrgId>, after: nat, limit: nat, page: seq<OrgId>)
    requires IsPage(live, after, limit, page) && |Above(live, after)| >= limit
    ensures |page| == limit
  {
    if |page| < limit {
      SubsetOfList(Above(live, after), page);
    }
  }
}
