/** The two-person protocol for an org's Remedy risk rules. Host-shell applies, proposals,
    confirmations and discards are transactions that interleave step by step under READ COMMITTED:
    writes stay in the transaction's buffer until it commits, an advisory lock serialises the first
    three, and a row lock is held from the statement that touches a change until the end.

    One org is modelled; every statement carries its `org_id`. */
module RuleChange {
  import opened Wrappers

  /** A rule set as it is applied, whole: the rules in order and the risk model. */
  datatype RiskRule = RiskRule(name: string, condition: string, approvals: nat)
  datatype Rules = Rules(list: seq<RiskRule>, model: Option<nat>)
  type ChangeId = nat
  type TxId = nat
  type UserId = nat

  /** Who acts. `user` is None where the code has the nil UUID. */
  datatype Requester = Requester(person: nat, user: Option<UserId>)

  datatype Status = Pending | Applied | Discarded | Superseded

  /** A row of `remedy_risk_changes`. `proposedBy` is the column, nulled when that user is deleted;
      `proposer` and `confirmer` are history: who really did it. */
  datatype Change = Change(
    rules: Rules,
    proposer: Requester,
    proposedBy: Option<UserId>,
    status: Status,
    decidedBy: Option<UserId>,
    confirmer: Option<Requester>)

  /** The domain's `ConfirmableBy`. */
  predicate ConfirmableBy(c: Change, who: Requester) {
    c.status == Pending && !(who.user.Some? && c.proposedBy == who.user)
  }

  /** The schema's `remedy_risk_changes_two_people_ck`. */
  predicate TwoPeopleCheck(c: Change) {
    c.status != Applied || c.decidedBy != c.proposedBy || c.decidedBy.None?
  }

  datatype Op =
    | Apply(rules: Rules)
    | Propose(id: ChangeId, who: Requester, rules: Rules)
    | Confirm(id: ChangeId, who: Requester)
    | Discard(id: ChangeId, who: Requester)

  datatype Pc = Started | Locked | Looked | Checked | Wrote | Done

  /** A transaction in flight: what it read `FOR UPDATE`, the rules it wrote and the rows it changed,
      none of it visible to others. */
  datatype Tx = Tx(op: Op, pc: Pc, seen: Option<Change>, wrote: Option<Rules>, marks: map<ChangeId, Change>)

  /** What committed, in order. */
  datatype Entry =
    | ShellWrote(rules: Rules)
    | Proposed(id: ChangeId)
    | Confirmed(id: ChangeId, rules: Rules, who: Requester)
    | Dropped(id: ChangeId)

  datatype Db = Db(inForce: Option<Rules>, changes: map<ChangeId, Change>, users: set<UserId>)

  datatype State = State(
    db: Db,
    lock: Option<TxId>,
    rowLocks: map<ChangeId, TxId>,
    txs: map<TxId, Tx>,
    log: seq<Entry>)

  // ---------------------------------------------------------------- the statements

  predicate IsPending(db: Db, id: ChangeId) {
    id in db.changes && db.changes[id].status == Pending
  }

  predicate RowFree(s: State, t: TxId, id: ChangeId) {
    id in s.rowLocks ==> s.rowLocks[id] == t
  }

  /** A foreign key to `users`. */
  predicate UserOk(db: Db, u: Option<UserId>) {
    u.Some? ==> u.value in db.users
  }

  /** `UPDATE … SET status = 'superseded', decided_by = who WHERE status = 'pending'`. */
  function Superseding(db: Db, who: Option<UserId>): map<ChangeId, Change> {
    map id | id in db.changes && IsPending(db, id) :: db.changes[id].(status := Superseded, decidedBy := who)
  }

  function LockRows(s: State, t: TxId, ids: set<ChangeId>): map<ChangeId, TxId> {
    map id | id in s.rowLocks.Keys + ids :: if id in ids then t else s.rowLocks[id]
  }

  function NewChange(who: Requester, rules: Rules): Change {
    Change(rules, who, who.user, Pending, None, None)
  }

  function AppliedBy(c: Change, who: Requester): Change {
    c.(status := Applied, decidedBy := who.user, confirmer := Some(who))
  }

  function Release(s: State, t: TxId): State {
    s.(lock := if s.lock == Some(t) then None else s.lock,
       rowLocks := map id | id in s.rowLocks && s.rowLocks[id] != t :: s.rowLocks[id],
       txs := s.txs - {t})
  }

  function EntryOf(tx: Tx): Entry {
    match tx.op
    case Apply(rules) => ShellWrote(rules)
    case Propose(id, _, _) => Proposed(id)
    case Confirm(id, who) => if tx.wrote.Some? then Confirmed(id, tx.wrote.value, who) else Dropped(id)
    case Discard(id, _) => Dropped(id)
  }

  function Committed(s: State, tx: Tx): State {
    s.(db := s.db.(inForce := if tx.wrote.Some? then tx.wrote else s.db.inForce, changes := s.db.changes + tx.marks),
       log := s.log + [EntryOf(tx)])
  }

  /** Deleting a user nulls the column on pending rows (`ON DELETE SET NULL`). */
  function NullProposer(changes: map<ChangeId, Change>, u: UserId): map<ChangeId, Change> {
    map id | id in changes ::
      if changes[id].proposedBy == Some(u) then changes[id].(proposedBy := None) else changes[id]
  }

  // ---------------------------------------------------------------- the steps

  datatype Event =
    | Begin(t: TxId, op: Op)
    | Acquire(t: TxId)
    | Look(t: TxId)
    | Check(t: TxId)
    | Write(t: TxId)
    | Mark(t: TxId)
    | Commit(t: TxId)
    | Abort(t: TxId)
    | DeleteUser(u: UserId)

  function With(s: State, t: TxId, tx: Tx): State {
    s.(txs := s.txs[t := tx])
  }

  ghost predicate NextLook(s: State, t: TxId, tx: Tx, s': State) {
    && tx.pc == Locked
    && match tx.op
       case Confirm(id, who) =>
         && id in s.db.changes && RowFree(s, t, id)
         && s' == With(s, t, tx.(pc := Looked, seen := Some(s.db.changes[id]))).(rowLocks := LockRows(s, t, {id}))
       case Propose(id, who, rules) =>
         var marks := Superseding(s.db, who.user);
         && (forall i :: i in marks ==> RowFree(s, t, i)) && UserOk(s.db, who.user)
         && s' == With(s, t, tx.(pc := Looked, marks := marks)).(rowLocks := LockRows(s, t, marks.Keys))
       case _ => false
  }

  ghost predicate NextMark(s: State, t: TxId, tx: Tx, s': State) {
    match tx.op
    case Apply(_) =>
      var marks := Superseding(s.db, None);
      && tx.pc == Wrote && (forall i :: i in marks ==> RowFree(s, t, i))
      && s' == With(s, t, tx.(pc := Done, marks := marks)).(rowLocks := LockRows(s, t, marks.Keys))
    case Propose(id, who, rules) =>
      && tx.pc == Looked && id !in s.db.changes && id !in s.rowLocks && UserOk(s.db, who.user)
      && var marks := tx.marks[id := NewChange(who, rules)];
         s' == With(s, t, tx.(pc := Done, marks := marks)).(rowLocks := LockRows(s, t, {id}))
    case Confirm(id, who) =>
      && tx.pc == Wrote && IsPending(s.db, id) && UserOk(s.db, who.user)
      && var c := AppliedBy(s.db.changes[id], who);
         TwoPeopleCheck(c) && s' == With(s, t, tx.(pc := Done, marks := map[id := c]))
    case Discard(id, who) =>
      && tx.pc == Started && IsPending(s.db, id) && RowFree(s, t, id) && UserOk(s.db, who.user)
      && var c := s.db.changes[id].(status := Discarded, decidedBy := who.user);
         s' == With(s, t, tx.(pc := Done, marks := map[id := c])).(rowLocks := LockRows(s, t, {id}))
  }

  /** A statement that fails, and a check that refuses, has no step here but `Abort`. */
  ghost predicate Next(s: State, e: Event, s': State) {
    match e
    case Begin(t, op) => t !in s.txs && s' == With(s, t, Tx(op, Started, None, None, map[]))
    case Acquire(t) =>
      && t in s.txs && s.txs[t].pc == Started && !s.txs[t].op.Discard? && s.lock == None
      && s' == With(s, t, s.txs[t].(pc := Locked)).(lock := Some(t))
    case Look(t) => t in s.txs && NextLook(s, t, s.txs[t], s')
    case Check(t) =>
      && t in s.txs && s.txs[t].op.Confirm? && s.txs[t].pc == Looked && s.txs[t].seen.Some?
      && ConfirmableBy(s.txs[t].seen.value, s.txs[t].op.who)
      && s' == With(s, t, s.txs[t].(pc := Checked))
    case Write(t) =>
      && t in s.txs
      && var tx := s.txs[t];
         || (tx.op.Apply? && tx.pc == Locked && s' == With(s, t, tx.(pc := Wrote, wrote := Some(tx.op.rules))))
         || (tx.op.Confirm? && tx.pc == Checked && tx.seen.Some?
             && s' == With(s, t, tx.(pc := Wrote, wrote := Some(tx.seen.value.rules))))
    case Mark(t) => t in s.txs && NextMark(s, t, s.txs[t], s')
    case Commit(t) => t in s.txs && s.txs[t].pc == Done && s' == Release(Committed(s, s.txs[t]), t)
    case Abort(t) => t in s.txs && s' == Release(s, t)
    case DeleteUser(u) =>
      && (forall id :: id in s.db.changes && s.db.changes[id].status != Pending ==>
           s.db.changes[id].proposedBy != Some(u) && s.db.changes[id].decidedBy != Some(u))
      && (forall id :: id in s.db.changes && s.db.changes[id].proposedBy == Some(u) ==> id !in s.rowLocks)
      && (forall t, id :: t in s.txs && id in s.txs[t].marks ==>
           s.txs[t].marks[id].proposedBy != Some(u) && s.txs[t].marks[id].decidedBy != Some(u))
      && s' == s.(db := s.db.(users := s.db.users - {u}, changes := NullProposer(s.db.changes, u)))
  }

  ghost predicate Init(s: State) {
    s == State(Db(None, map[], s.db.users), None, map[], map[], [])
  }

  ghost predicate IsRun(states: seq<State>, events: seq<Event>) {
    && |states| == |events| + 1
    && Init(states[0])
    && forall i :: 0 <= i < |events| ==> Next(states[i], events[i], states[i + 1])
  }

  // ---------------------------------------------------------------- invariants of the tables

  /** The rules in force are the ones the last writing entry wrote. */
  function LastWritten(log: seq<Entry>): Option<Rules> {
    if log == [] then None
    else
      match log[|log| - 1]
      case ShellWrote(r) => Some(r)
      case Confirmed(_, r, _) => Some(r)
      case _ => LastWritten(log[..|log| - 1])
  }

  ghost predicate OnePending(db: Db) {
    forall i, j :: IsPending(db, i) && IsPending(db, j) ==> i == j
  }

  /** A logged confirmation is of an applied change, with that change's rules, and there is one. */
  ghost predicate ConfirmationsOk(db: Db, log: seq<Entry>) {
    && (forall k :: 0 <= k < |log| && log[k].Confirmed? ==>
         && log[k].id in db.changes
         && var c := db.changes[log[k].id];
            c.status == Applied && c.rules == log[k].rules && c.confirmer == Some(log[k].who))
    && forall k, m :: 0 <= k < m < |log| && log[k].Confirmed? && log[m].Confirmed? ==> log[k].id != log[m].id
  }

  /** The column names the proposer, unless that user has been deleted since. */
  ghost predicate ProposersOk(db: Db) {
    forall id :: id in db.changes ==> ProposerOk(db, db.changes[id])
  }

  predicate ProposerOk(db: Db, c: Change) {
    || c.proposedBy == c.proposer.user
    || (c.proposedBy.None? && c.proposer.user.Some? && c.proposer.user.value !in db.users)
  }

  ghost predicate TwoPeople(c: Change) {
    c.status == Applied ==>
      c.confirmer.Some? && (c.confirmer.value.user.Some? ==> c.confirmer.value.user != c.proposer.user)
  }

  ghost predicate AllTwoPeople(db: Db) {
    forall id :: id in db.changes ==> TwoPeople(db.changes[id])
  }

  /** `id` was proposed at entry `k` and no host-shell write has committed since. */
  ghost predicate ProposedSince(log: seq<Entry>, id: ChangeId, k: nat) {
    k < |log| && log[k] == Proposed(id) && forall m :: k < m < |log| ==> !log[m].ShellWrote?
  }

  ghost predicate PendingIsFresh(db: Db, log: seq<Entry>) {
    forall id :: IsPending(db, id) ==> exists k: nat :: ProposedSince(log, id, k)
  }

  /** Between a host-shell write and a later confirmation lies the confirmed change's proposal. */
  ghost predicate ShellIsTheLaterWord(log: seq<Entry>) {
    forall i, j :: 0 <= i < j < |log| && log[i].ShellWrote? && log[j].Confirmed? ==>
      exists k :: i < k < j && log[k] == Proposed(log[j].id)
  }

  ghost predicate DbOk(db: Db, log: seq<Entry>) {
    && db.inForce == LastWritten(log)
    && OnePending(db) && ConfirmationsOk(db, log) && ProposersOk(db) && AllTwoPeople(db)
    && PendingIsFresh(db, log) && ShellIsTheLaterWord(log)
  }

  // ---------------------------------------------------------------- invariants of a transaction

  predicate HoldsLock(tx: Tx) {
    !tx.op.Discard? && tx.pc != Started
  }

  /** A buffered row is locked, names users that exist, and ends a pending change without rewriting
      it, or is the proposal's own new row. */
  ghost predicate MarkOk(s: State, t: TxId, tx: Tx, id: ChangeId, c: Change) {
    && id in s.rowLocks && s.rowLocks[id] == t
    && UserOk(s.db, c.decidedBy)
    && if id in s.db.changes then
         var was := s.db.changes[id];
         && was.status == Pending && c.status != Pending
         && c.rules == was.rules && c.proposer == was.proposer && c.proposedBy == was.proposedBy
         && (c.status == Applied ==> tx.op.Confirm? && tx.op.id == id && TwoPeople(c))
       else tx.op.Propose? && tx.op.id == id && tx.pc == Done && c == NewChange(tx.op.who, tx.op.rules)
  }

  ghost predicate PendingMarked(db: Db, tx: Tx) {
    forall id :: IsPending(db, id) ==> id in tx.marks
  }

  ghost predicate OpOk(s: State, t: TxId, tx: Tx) {
    match tx.op
    case Apply(rules) =>
      && tx.wrote == (if tx.pc == Wrote || tx.pc == Done then Some(rules) else None)
      && (tx.pc == Done ==> PendingMarked(s.db, tx))
    case Propose(id, who, rules) =>
      && tx.wrote == None
      && (tx.pc == Looked || tx.pc == Done ==> PendingMarked(s.db, tx))
      && (tx.pc == Done ==> id in tx.marks && id !in s.db.changes && UserOk(s.db, who.user))
    case Confirm(id, who) =>
      && (tx.pc != Started && tx.pc != Locked ==>
           id in s.rowLocks && s.rowLocks[id] == t && id in s.db.changes && tx.seen == Some(s.db.changes[id]))
      && (tx.pc == Checked || tx.pc == Wrote || tx.pc == Done ==> tx.seen.Some? && ConfirmableBy(tx.seen.value, who))
      && tx.wrote == (if (tx.pc == Wrote || tx.pc == Done) && tx.seen.Some? then Some(tx.seen.value.rules) else None)
      && (tx.pc == Done ==> tx.seen.Some? && tx.marks == map[id := AppliedBy(tx.seen.value, who)])
    case Discard(id, who) =>
      && tx.wrote == None
      && forall i :: i in tx.marks ==> tx.marks[i].status == Discarded
  }

  ghost predicate TxOk(s: State, t: TxId, tx: Tx) {
    && (HoldsLock(tx) <==> s.lock == Some(t))
    && (forall id :: id in tx.marks ==> MarkOk(s, t, tx, id, tx.marks[id]))
    && OpOk(s, t, tx)
  }

  ghost predicate Inv(s: State) {
    && DbOk(s.db, s.log)
    && (s.lock.Some? ==> s.lock.value in s.txs)
    && (forall id :: id in s.rowLocks ==> s.rowLocks[id] in s.txs)
    && forall t :: t in s.txs ==> TxOk(s, t, s.txs[t])
  }
}
