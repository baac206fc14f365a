/** A Snooze pressed in Slack, delivered any number of times: what `slackIdempotency` makes of a
    press, the claim store that keeps a press from being applied twice, and the notification key
    that keeps it from being announced twice. Every delivery is one transaction; the claim table's
    primary key makes a racing one wait for the other. */
module SlackSnooze {
  import opened Wrappers

  type Alert = nat
  type UserId = nat
  type Time = nat

  const NIL_USER: UserId := 0
  const MAX_KEY_LEN := 200
  const RETENTION_WINDOW: Time := 24 * 3_600_000_000_000

  /** Who pressed: a text that parses as a UUID, or a Slack member id when the lookup failed. */
  datatype Actor = Parsed(user: UserId) | Handle(member: string)

  /** `alertsservice.Idempotency`: a name, and a claim when there is a principal to claim under. A
      key's id is a digest of the key and is modelled by the key. */
  datatype Intent = Intent(keyID: Option<string>, claim: Option<(UserId, string, Alert)>)

  /** The name is set before the principal is looked at: an unparsed or nil actor keeps the name and
      takes no claim; no key at all is neither. */
  function SlackIdempotency(alert: Alert, actor: Actor, key: string): Intent {
    if key == "" then Intent(None, None)
    else if |key| > MAX_KEY_LEN then Intent(None, None)
    else if !actor.Parsed? || actor.user == NIL_USER then Intent(Some(key), None)
    else Intent(Some(key), Some((actor.user, key, alert)))
  }

  /** What tells two announcements about one alert apart. */
  datatype Occasion = ByRequest(key: string) | BySnooze(id: nat)

  /** A row of `idempotency_claims`: whom and what the key was used for, and when. */
  datatype Claim = Claim(target: Alert, ref: nat, at: Time)

  datatype Outcome = Applied | Replayed | ReplayGone | Conflicted | Failed

  /** A snooze that was granted: one `alert_snoozes` row and its events. */
  datatype Grant = Grant(key: string, actor: Actor, alert: Alert, id: nat, at: Time)

  /** `outbox` is the queue of evaluations and `cards` the notifications, each unique by alert and
      occasion. `grants` is history. */
  datatype State = State(
    clock: Time,
    nextId: nat,
    claims: map<(UserId, string), Claim>,
    active: map<Alert, nat>,
    outbox: set<(Alert, Occasion)>,
    cards: seq<(Alert, Occasion)>,
    grants: seq<Grant>)

  /** `ok` is false when the alert is unknown or the snooze is out of bounds; `openCase` says whether
      there is a card to amend. */
  datatype Delivery = Delivery(key: string, actor: Actor, alert: Alert, at: Time, ok: bool, openCase: bool)

  // ---------------------------------------------------------------- one delivery

  function OutcomeOf(s: State, d: Delivery): Outcome {
    var idem := SlackIdempotency(d.alert, d.actor, d.key);
    if !d.ok then Failed
    else if idem.claim.None? then Applied
    else
      var (user, key, target) := idem.claim.value;
      if (user, key) !in s.claims then Applied
      else if s.claims[(user, key)].target != target then Conflicted
      else if target in s.active && s.active[target] == s.claims[(user, key)].ref then Replayed
      else ReplayGone
  }

  function OccasionOf(s: State, d: Delivery): Occasion {
    var idem := SlackIdempotency(d.alert, d.actor, d.key);
    if idem.keyID.Some? then ByRequest(idem.keyID.value) else BySnooze(s.nextId)
  }

  /** Anything but `Applied` rolls the transaction back. */
  function Deliver(s: State, d: Delivery): State {
    var now := s.(clock := d.at);
    if OutcomeOf(s, d) != Applied then now
    else
      var idem := SlackIdempotency(d.alert, d.actor, d.key);
      now.(nextId := s.nextId + 1,
           claims := if idem.claim.None? then s.claims
                     else s.claims[(idem.claim.value.0, idem.claim.value.1) := Claim(d.alert, s.nextId, d.at)],
           active := s.active[d.alert := s.nextId],
           outbox := s.outbox + if d.openCase then {(d.alert, OccasionOf(s, d))} else {},
           grants := s.grants + [Grant(d.key, d.actor, d.alert, s.nextId, d.at)])
  }

  /** `notify.evaluate`, which may run again for one job: the unique key swallows a second card. */
  function Evaluate(s: State, j: (Alert, Occasion)): State {
    if j in s.cards then s else s.(cards := s.cards + [j])
  }

  function Prune(s: State, now: Time): State {
    s.(clock := now, claims := map k | k in s.claims && s.claims[k].at + RETENTION_WINDOW >= now :: s.claims[k])
  }

  datatype Event =
    | Press(d: Delivery)
    | Announce(job: (Alert, Occasion))
    | Sweep(now: Time)
    | Wake(alert: Alert)

  ghost predicate Next(s: State, e: Event, s': State) {
    match e
    case Press(d) => s.clock <= d.at && s' == Deliver(s, d)
    case Announce(j) => j in s.outbox && s' == Evaluate(s, j)
    case Sweep(now) => s.clock <= now && s' == Prune(s, now)
    case Wake(alert) => s' == s.(active := s.active - {alert})
  }

  ghost predicate IsRun(states: seq<State>, events: seq<Event>) {
    && |states| == |events| + 1
    && states[0] == State(0, 0, map[], map[], {}, [], [])
    && forall i :: 0 <= i < |events| ==> Next(states[i], events[i], states[i + 1])
  }

  // ---------------------------------------------------------------- the invariant

  /** The grant took a claim under this user. */
  predicate ClaimedUnder(g: Grant, user: UserId) {
    SlackIdempotency(g.alert, g.actor, g.key).claim == Some((user, g.key, g.alert))
  }

  /** A claimed grant's claim is there, no older than the grant, or its window has passed. */
  ghost predicate ClaimsStand(s: State) {
    forall i, user: UserId :: 0 <= i < |s.grants| && ClaimedUnder(s.grants[i], user) ==>
      || ((user, s.grants[i].key) in s.claims && s.claims[(user, s.grants[i].key)].at >= s.grants[i].at)
      || s.grants[i].at + RETENTION_WINDOW < s.clock
  }

  /** Two grants of one press under one user are more than a window apart. */
  ghost predicate GrantsApart(s: State) {
    forall i, j, user: UserId ::
      (0 <= i < j < |s.grants| && s.grants[i].key == s.grants[j].key
       && ClaimedUnder(s.grants[i], user) && ClaimedUnder(s.grants[j], user)) ==>
        s.grants[i].at + RETENTION_WINDOW < s.grants[j].at
  }

  /** Claim `c` under `k` was taken by grant `g`. */
  predicate TakenBy(k: (UserId, string), c: Claim, g: Grant) {
    ClaimedUnder(g, k.0) && g.key == k.1 && g.alert == c.target && g.id == c.ref && g.at == c.at
  }

  /** Every claim was taken by a grant: same user, key, instant and alert. */
  ghost predicate ClaimsAreOfGrants(s: State) {
    forall k :: k in s.claims ==> exists i :: 0 <= i < |s.grants| && TakenBy(k, s.claims[k], s.grants[i])
  }

  ghost predicate NoDuplicates(cards: seq<(Alert, Occasion)>) {
    forall i, j :: 0 <= i < j < |cards| ==> cards[i] != cards[j]
  }

  /** Every queued announcement, and every card, is of a grant of that alert: named after the press,
      or after the grant when the press has no name. */
  ghost predicate FromGrants(s: State, jobs: set<(Alert, Occasion)>) {
    forall j :: j in jobs ==> exists i :: 0 <= i < |s.grants| && s.grants[i].alert == j.0 && Names(s.grants[i], j.1)
  }

  predicate Names(g: Grant, o: Occasion) {
    match SlackIdempotency(g.alert, g.actor, g.key).keyID
    case Some(k) => o == ByRequest(k)
    case None => o == BySnooze(g.id)
  }

  ghost predicate Inv(s: State) {
    && (forall i :: 0 <= i < |s.grants| ==> s.grants[i].at <= s.clock)
    && ClaimsStand(s) && GrantsApart(s) && ClaimsAreOfGrants(s)
    && NoDuplicates(s.cards) && (forall c :: c in s.cards ==> c in s.outbox) && FromGrants(s, s.outbox)
  }

  lemma ApplyKeepsClaims(s: State, d: Delivery, s': State)
    requires Inv(s) && s.clock <= d.at && s' == Deliver(s, d) && OutcomeOf(s, d) == Applied
    ensures ClaimsStand(s') && GrantsApart(s')
  {
    var n := |s.grants|;
    forall i, user: UserId | 0 <= i < |s'.grants| && ClaimedUnder(s'.grants[i], user)
      ensures ((user, s'.grants[i].key) in s'.claims && s'.claims[(user, s'.grants[i].key)].at >= s'.grants[i].at)
        || s'.grants[i].at + RETENTION_WINDOW < s'.clock
    {
      if i < n {
        assert s'.grants[i] == s.grants[i] && ClaimedUnder(s.grants[i], user);
      }
    }
    forall i, j, user: UserId | 0 <= i < j < |s'.grants| && s'.grants[i].key == s'.grants[j].key
      && ClaimedUnder(s'.grants[i], user) && ClaimedUnder(s'.grants[j], user)
      ensures s'.grants[i].at + RETENTION_WINDOW < s'.grants[j].at
    {
      assert s'.grants[i] == s.grants[i] && ClaimedUnder(s.grants[i], user);
      if j == n {
        assert (user, d.key) !in s.claims;
      }
    }
  }

  lemma ApplyTakesClaim(s: State, d: Delivery, s': State)
    requires ClaimsAreOfGrants(s) && s' == Deliver(s, d) && OutcomeOf(s, d) == Applied
    ensures ClaimsAreOfGrants(s')
  {
    forall k | k in s'.claims ensures exists i :: 0 <= i < |s'.grants| && TakenBy(k, s'.claims[k], s'.grants[i]) {
      if k in s.claims && s'.claims[k] == s.claims[k] {
        var i :| 0 <= i < |s.grants| && TakenBy(k, s.claims[k], s.grants[i]);
        assert s'.grants[i] == s.grants[i];
      } else {
        assert TakenBy(k, s'.claims[k], s'.grants[|s.grants|]);
      }
    }
  }

  lemma ApplyKeepsJobs(s: State, d: Delivery, s': State)
    requires Inv(s) && s' == Deliver(s, d) && OutcomeOf(s, d) == Applied
    ensures FromGrants(s', s'.outbox)
  {
    forall j | j in s'.outbox
      ensures exists i :: 0 <= i < |s'.grants| && s'.grants[i].alert == j.0 && Names(s'.grants[i], j.1)
    {
      if j in s.outbox {
        var i :| 0 <= i < |s.grants| && s.grants[i].alert == j.0 && Names(s.grants[i], j.1);
        assert s'.grants[i] == s.grants[i];
      } else {
        assert s'.grants[|s.grants|] == Grant(d.key, d.actor, d.alert, s.nextId, d.at);
        assert Names(s'.grants[|s.grants|], j.1);
      }
    }
  }

  lemma PressKeepsInv(s: State, d: Delivery, s': State)
    requires Inv(s) && s.clock <= d.at && s' == Deliver(s, d)
    ensures Inv(s')
  {
    if OutcomeOf(s, d) == Applied {
      ApplyKeepsClaims(s, d, s');
      ApplyKeepsJobs(s, d, s');
      ApplyTakesClaim(s, d, s');
      hide ClaimsStand, GrantsApart, FromGrants, ClaimsAreOfGrants;
    } else {
      hide ClaimedUnder, TakenBy, OutcomeOf, Names;
    }
  }

  lemma QuietKeepsInv(s: State, s': State)
    requires Inv(s) && s' == s.(active := s'.active, cards := s'.cards)
    requires NoDuplicates(s'.cards) && forall c :: c in s'.cards ==> c in s.outbox
    ensures Inv(s')
  {
    hide ClaimedUnder, TakenBy, Names;
  }

  lemma SweepKeepsInv(s: State, now: Time)
    requires Inv(s) && s.clock <= now
    ensures Inv(Prune(s, now))
  {
    SweepKeepsClaims(s, now);
    hide ClaimsStand, ClaimsAreOfGrants, ClaimedUnder, Names;
  }

  lemma NextKeepsInv(s: State, e: Event, s': State)
    requires Inv(s) && Next(s, e, s')
    ensures Inv(s')
  {
    match e
    case Press(d) =>
      hide Inv, Deliver;
      PressKeepsInv(s, d, s');
    case Announce(j) =>
      assert NoDuplicates(s.cards) && (forall c :: c in s.cards ==> c in s.outbox);
      hide Inv;
      QuietKeepsInv(s, s');
    case Sweep(now) =>
      hide Inv, Prune;
      SweepKeepsInv(s, now);
    case Wake(alert) =>
      assert NoDuplicates(s.cards) && (forall c :: c in s.cards ==> c in s.outbox);
      hide Inv, NoDuplicates;
      QuietKeepsInv(s, s');
  }

  lemma SweepKeepsClaims(s: State, now: Time)
    requires Inv(s) && s.clock <= now
    ensures ClaimsStand(Prune(s, now)) && ClaimsAreOfGrants(Prune(s, now))
  {
    hide ClaimedUnder, TakenBy;
  }

  lemma {:induction false} RunKeepsInv(states: seq<State>, events: seq<Event>, i: nat)
    requires IsRun(states, events) && i < |states|
    ensures Inv(states[i])
  {
    if i > 0 {
      RunKeepsInv(states, events, i - 1);
      assert Next(states[i - 1], events[i - 1], states[i - 1 + 1]);
      hide Inv, Next;
      NextKeepsInv(states[i - 1], events[i - 1], states[i]);
    }
  }

  // ---------------------------------------------------------------- the theorems

  predicate Named(key: string) {
    1 <= |key| <= 200
  }

  /** Twenty-four hours, in nanoseconds. */
  const ONE_DAY: Time := 86_400_000_000_000

  predicate Linked(a: Actor) {
    a.Parsed? && a.user != NIL_USER
  }

  /** In every run, two grants of one named press that resolved to the same user are more than the
      claim's window apart: inside it, the press is applied at most once. */
  lemma AppliedOncePerWindow(states: seq<State>, events: seq<Event>, n: nat, i: nat, j: nat)
    requires IsRun(states, events) && n < |states| && i < j < |states[n].grants|
    requires var g, h := states[n].grants[i], states[n].grants[j];
             g.key == h.key && Named(g.key) && Linked(g.actor) && h.actor == g.actor
    ensures states[n].grants[i].at + ONE_DAY < states[n].grants[j].at
  {
    RunKeepsInv(states, events, n);
    var g, h := states[n].grants[i], states[n].grants[j];
    assert ClaimedUnder(g, g.actor.user) && ClaimedUnder(h, g.actor.user);
  }

  /** Every named grant with a card to amend queues the one announcement its press names, so all its
      deliveries share it and two presses never do. */
  lemma GrantQueuesItsName(s: State, d: Delivery)
    requires OutcomeOf(s, d) == Applied && d.openCase && Named(d.key)
    ensures (d.alert, ByRequest(d.key)) in Deliver(s, d).outbox
    ensures Deliver(s, d).outbox == s.outbox + {(d.alert, ByRequest(d.key))}
  {
  }

  /** Once evaluated, it is on a card, and stays. */
  lemma {:induction false} CardsStay(states: seq<State>, events: seq<Event>, i: nat, j: nat, c: (Alert, Occasion))
    requires IsRun(states, events) && i <= j < |states| && c in states[i].cards
    ensures c in states[j].cards
    decreases j - i
  {
    if i < j {
      assert Next(states[i], events[i], states[i + 1]);
      CardsStay(states, events, i + 1, j, c);
    }
  }

  /** In every run, a named press that was granted with a card to amend, and evaluated, is announced
      exactly once from then on: whoever its deliveries resolved to, however often it was delivered or
      evaluated, and after its claim is pruned. Two presses have two names, so they are two cards. */
  lemma AnnouncedExactlyOnce(states: seq<State>, events: seq<Event>, i: nat, j: nat, n: nat, d: Delivery)
    requires IsRun(states, events) && i < j < n < |states|
    requires events[i] == Press(d) && OutcomeOf(states[i], d) == Applied && d.openCase && Named(d.key)
    requires events[j] == Announce((d.alert, ByRequest(d.key)))
    ensures (d.alert, ByRequest(d.key)) in states[i + 1].outbox
    ensures exists k :: IsTheCard(states[n].cards, (d.alert, ByRequest(d.key)), k)
  {
    var c := (d.alert, ByRequest(d.key));
    assert Next(states[i], events[i], states[i + 1]);
    GrantQueuesItsName(states[i], d);
    assert Next(states[j], events[j], states[j + 1]);
    assert c in states[j + 1].cards;
    CardsStay(states, events, j + 1, n, c);
    RunKeepsInv(states, events, n);
    var k :| 0 <= k < |states[n].cards| && states[n].cards[k] == c;
    assert IsTheCard(states[n].cards, c, k);
  }

  ghost predicate IsTheCard(cards: seq<(Alert, Occasion)>, c: (Alert, Occasion), k: int) {
    0 <= k < |cards| && cards[k] == c && forall m :: 0 <= m < |cards| && cards[m] == c ==> m == k
  }

  /** A redelivery whose claim stands changes no table. */
  lemma RedeliveryIsRefused(s: State, d: Delivery)
    requires Named(d.key) && Linked(d.actor) && (d.actor.user, d.key) in s.claims
    ensures OutcomeOf(s, d) != Applied && Deliver(s, d) == s.(clock := d.at)
  {
  }

  /** While a granted press is inside its window, its claim is there and is the one it took. */
  lemma ClaimIsOfItsGrant(s: State, i: nat, user: UserId, now: Time)
    requires Inv(s) && i < |s.grants| && ClaimedUnder(s.grants[i], user)
    requires s.clock <= now <= s.grants[i].at + RETENTION_WINDOW
    ensures var k := (user, s.grants[i].key); k in s.claims && TakenBy(k, s.claims[k], s.grants[i])
  {
    var k := (user, s.grants[i].key);
    assert k in s.claims && s.claims[k].at >= s.grants[i].at;
    var j :| 0 <= j < |s.grants| && TakenBy(k, s.claims[k], s.grants[j]);
    assert s.grants[j].at <= s.clock;
    assert i == j;
  }

  /** In every run, a valid redelivery of a granted press, inside the window and under the same user,
      changes no table; it conflicts exactly when it is for another alert, and never replays the first. */
  lemma OtherAlertConflicts(states: seq<State>, events: seq<Event>, n: nat, i: nat, d: Delivery)
    requires IsRun(states, events) && n < |states| && i < |states[n].grants|
    requires var g := states[n].grants[i];
             && Named(g.key) && Linked(g.actor) && d.ok && d.key == g.key && d.actor == g.actor
             && states[n].clock <= d.at <= g.at + ONE_DAY
    ensures OutcomeOf(states[n], d) == Conflicted <==> d.alert != states[n].grants[i].alert
    ensures Deliver(states[n], d) == states[n].(clock := d.at)
  {
    RunKeepsInv(states, events, n);
    hide Inv, IsRun;
    ClaimIsOfItsGrant(states[n], i, d.actor.user, d.at);
  }

  /** A delivery is applied exactly when it is valid and takes no claim or finds none. */
  lemma AppliedIff(s: State, d: Delivery)
    ensures OutcomeOf(s, d) == Applied <==>
            d.ok && !(Named(d.key) && Linked(d.actor) && (d.actor.user, d.key) in s.claims)
  {
  }

  /** What an applied delivery leaves: one more grant, its alert snoozed by that grant, and one announcement
      if there is a card to amend, named after the press, or after the grant when the press has no name. */
  lemma AppliedLeaves(s: State, d: Delivery)
    requires OutcomeOf(s, d) == Applied
    ensures var s' := Deliver(s, d);
            && s'.grants == s.grants + [Grant(d.key, d.actor, d.alert, s.nextId, d.at)]
            && s'.nextId > s.nextId && s'.cards == s.cards
            && d.alert in s'.active && s'.active[d.alert] == s.nextId
            && s'.outbox ==
                 if !d.openCase then s.outbox
                 else s.outbox + {(d.alert, if Named(d.key) then ByRequest(d.key) else BySnooze(s.nextId))}
  {
  }

  // ---------------------------------------------------------------- what a replay answers

  /** Event `p` granted `d`. */
  ghost predicate GrantedAt(states: seq<State>, events: seq<Event>, p: nat, d: Delivery) {
    p < |events| && p < |states| && events[p] == Press(d) && OutcomeOf(states[p], d) == Applied
  }

  ghost predicate Disturbs(s: State, e: Event, alert: Alert) {
    e == Wake(alert) || (e.Press? && e.d.alert == alert && OutcomeOf(s, e.d) == Applied)
  }

  /** Between event `p` and state `n` the alert was neither woken nor snoozed again. */
  ghost predicate Undisturbed(states: seq<State>, events: seq<Event>, p: nat, n: nat, alert: Alert) {
    forall q :: p < q < n && q < |events| && q < |states| ==> !Disturbs(states[q], events[q], alert)
  }

  lemma StepKeepsActive(s: State, e: Event, s': State, alert: Alert, id: nat)
    requires Next(s, e, s') && id < s.nextId
    ensures s.nextId <= s'.nextId && s.grants <= s'.grants
    ensures alert in s'.active && s'.active[alert] == id <==>
            alert in s.active && s.active[alert] == id && !Disturbs(s, e, alert)
  {
    hide SlackIdempotency;
  }

  /** A granted snooze is the active one exactly while nothing disturbs its alert. */
  lemma {:induction false} ActiveIff(states: seq<State>, events: seq<Event>, p: nat, n: nat, d: Delivery)
    requires IsRun(states, events) && p < n < |states| && GrantedAt(states, events, p, d)
    ensures states[p].nextId < states[n].nextId
    ensures |states[p].grants| < |states[n].grants|
    ensures states[n].grants[|states[p].grants|] == Grant(d.key, d.actor, d.alert, states[p].nextId, d.at)
    ensures d.alert in states[n].active && states[n].active[d.alert] == states[p].nextId <==>
            Undisturbed(states, events, p, n, d.alert)
    decreases n
  {
    assert Next(states[n - 1], events[n - 1], states[n - 1 + 1]);
    if n == p + 1 {
      AppliedLeaves(states[p], d);
    } else {
      ActiveIff(states, events, p, n - 1, d);
      StepKeepsActive(states[n - 1], events[n - 1], states[n], d.alert, states[p].nextId);
      hide Next, IsRun, Disturbs;
      assert Undisturbed(states, events, p, n, d.alert) <==>
          Undisturbed(states, events, p, n - 1, d.alert) && !Disturbs(states[n - 1], events[n - 1], d.alert);
    }
  }

  /** In every run, a redelivery of a granted press for the same alert, inside its window and under the
      same user, is answered with the snooze exactly while that snooze is still the active one: while the
      alert was neither woken nor snoozed again. Otherwise it is answered that the snooze has ended. */
  lemma ReplayedIff(states: seq<State>, events: seq<Event>, p: nat, n: nat, d: Delivery, again: Delivery)
    requires IsRun(states, events) && p < n < |states| && GrantedAt(states, events, p, d)
    requires Named(d.key) && Linked(d.actor)
    requires again.ok && again.key == d.key && again.actor == d.actor && again.alert == d.alert
    requires states[n].clock <= again.at <= d.at + ONE_DAY
    ensures OutcomeOf(states[n], again) ==
            if Undisturbed(states, events, p, n, d.alert) then Replayed else ReplayGone
  {
    ActiveIff(states, events, p, n, d);
    RunKeepsInv(states, events, n);
    hide Inv, IsRun, Undisturbed, GrantedAt;
    ClaimIsOfItsGrant(states[n], |states[p].grants|, d.actor.user, again.at);
  }

  // ---------------------------------------------------------------- each condition is needed

  lemma TwoPresses(d: Delivery, d': Delivery) returns (states: seq<State>, events: seq<Event>)
    requires d.at <= d'.at
    ensures IsRun(states, events) && |states| == 3
    ensures states[2] == Deliver(Deliver(State(0, 0, map[], map[], {}, [], []), d), d')
  {
    var s0 := State(0, 0, map[], map[], {}, [], []);
    states := [s0, Deliver(s0, d), Deliver(Deliver(s0, d), d')];
    events := [Press(d), Press(d')];
    assert Next(states[0], events[0], states[1]);
    assert Next(states[1], events[1], states[2]);
  }

  /** A press whose identity lookup fails is applied twice and announced once. */
  lemma UnlinkedIsAppliedTwice(key: string, member: string) returns (states: seq<State>, events: seq<Event>)
    requires Named(key)
    ensures IsRun(states, events)
    ensures |states[|states| - 1].grants| == 2 && states[|states| - 1].outbox == {(5, ByRequest(key))}
  {
    var d := Delivery(key, Handle(member), 5, 1, true, true);
    states, events := TwoPresses(d, d);
  }

  /** So is one whose deliveries resolve to two users. */
  lemma TwoUsersApplyTwice(key: string) returns (states: seq<State>, events: seq<Event>)
    requires Named(key)
    ensures IsRun(states, events)
    ensures |states[|states| - 1].grants| == 2 && states[|states| - 1].outbox == {(5, ByRequest(key))}
  {
    states, events := TwoPresses(
      Delivery(key, Parsed(1), 5, 1, true, true), Delivery(key, Parsed(2), 5, 2, true, true));
  }

  /** A press with no name is applied twice and announced twice. */
  lemma AnonymousIsAnnouncedTwice(user: UserId) returns (states: seq<State>, events: seq<Event>)
    ensures IsRun(states, events)
    ensures |states[|states| - 1].grants| == 2 && states[|states| - 1].outbox == {(5, BySnooze(0)), (5, BySnooze(1))}
  {
    var d := Delivery("", Parsed(user), 5, 1, true, true);
    states, events := TwoPresses(d, d);
  }

  /** And a redelivery after the claim is pruned is applied again, though still announced once. */
  lemma PrunedClaimIsAppliedTwice(key: string, user: UserId) returns (states: seq<State>, events: seq<Event>)
    requires Named(key) && user != NIL_USER
    ensures IsRun(states, events)
    ensures |states[|states| - 1].grants| == 2 && states[|states| - 1].outbox == {(5, ByRequest(key))}
  {
    var d := Delivery(key, Parsed(user), 5, 1, true, true);
    var late := ONE_DAY + 2;
    var s0 := State(0, 0, map[], map[], {}, [], []);
    var s1 := Deliver(s0, d);
    var s2 := Prune(s1, late);
    assert (user, key) !in s2.claims;
    var d' := d.(at := late);
    var s3 := Deliver(s2, d');
    states, events := [s0, s1, s2, s3], [Press(d), Sweep(late), Press(d')];
    assert Next(states[0], events[0], states[1]);
    assert Next(states[1], events[1], states[2]);
    assert Next(states[2], events[2], states[3]);
  }
}
