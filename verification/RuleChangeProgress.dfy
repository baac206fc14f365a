/** What is not refused: exactly which confirmations pass the check, and that an operation whose
    conditions hold, with its locks free, runs to its end. */
module RuleChangeProgress {
  import opened RuleChange
  import opened RuleChangeProofs
  import opened RuleChangeAtomic
  import opened Wrappers

  /** In every reachable state, a confirmation that has read its change passes the check exactly when the
      change is still pending and is not recorded as proposed by the confirmer's own user. */
  lemma CheckPassesIff(states: seq<State>, events: seq<Event>, i: nat, t: TxId)
    requires IsRun(states, events) && i < |states| && t in states[i].txs
    requires states[i].txs[t].op.Confirm? && states[i].txs[t].pc == Looked
    ensures var s := states[i]; var id, who := s.txs[t].op.id, s.txs[t].op.who;
            && id in s.db.changes
            && ((exists s' :: Next(s, Check(t), s')) <==>
                  && s.db.changes[id].status == Pending
                  && !(who.user.Some? && s.db.changes[id].proposedBy == who.user))
  {
    RunKeepsInv(states, events, i);
    var s := states[i];
    var tx := s.txs[t];
    assert TxOk(s, t, tx);
    hide Inv, IsRun;
    assert tx.seen == Some(s.db.changes[tx.op.id]);
    if ConfirmableBy(s.db.changes[tx.op.id], tx.op.who) {
      assert Next(s, Check(t), With(s, t, tx.(pc := Checked)));
    }
  }

  /** And once checked and written, it is marked exactly when the confirmer's user, if any, still exists. */
  lemma MarkPassesIff(states: seq<State>, events: seq<Event>, i: nat, t: TxId)
    requires IsRun(states, events) && i < |states| && t in states[i].txs
    requires states[i].txs[t].op.Confirm? && states[i].txs[t].pc == Wrote
    ensures var s := states[i]; var who := s.txs[t].op.who;
            (exists s' :: Next(s, Mark(t), s')) <==> (who.user.Some? ==> who.user.value in s.db.users)
  {
    LaterChecksAreRedundant(states, events, i, t);
    var s := states[i];
    var tx := s.txs[t];
    hide IsRun;
    var c := AppliedBy(s.db.changes[tx.op.id], tx.op.who);
    if UserOk(s.db, tx.op.who.user) {
      assert Next(s, Mark(t), With(s, t, tx.(pc := Done, marks := map[tx.op.id := c])));
    }
  }

  // ---------------------------------------------------------------- running to the end

  /** What an operation asks of the tables: foreign keys, and for a change that it is there and pending,
      and not the confirmer's own. */
  ghost predicate Ready(db: Db, op: Op) {
    match op
    case Apply(_) => true
    case Propose(id, who, _) => id !in db.changes && (who.user.Some? ==> who.user.value in db.users)
    case Confirm(id, who) =>
      && id in db.changes && db.changes[id].status == Pending
      && (who.user.Some? ==> who.user.value in db.users && db.changes[id].proposedBy != who.user)
    case Discard(id, who) =>
      && id in db.changes && db.changes[id].status == Pending
      && (who.user.Some? ==> who.user.value in db.users)
  }

  /** The advisory lock is free, and so is every row the operation touches: the pending ones, and the new
      one of a proposal. */
  ghost predicate Free(s: State, op: Op) {
    && s.lock == None
    && (forall id :: IsPending(s.db, id) ==> id !in s.rowLocks)
    && (op.Propose? ==> op.id !in s.rowLocks)
  }

  /** State `s` with transaction `t` at `tx`, holding the lock or not, and the rows. */
  ghost function Hold(s: State, t: TxId, tx: Tx, held: bool, rows: set<ChangeId>): State {
    s.(txs := s.txs[t := tx], lock := if held then Some(t) else None, rowLocks := LockRows(s, t, rows))
  }

  lemma HoldMore(s: State, t: TxId, tx: Tx, held: bool, rows: set<ChangeId>, tx': Tx, more: set<ChangeId>)
    ensures var h := Hold(s, t, tx, held, rows);
            With(h, t, tx').(rowLocks := LockRows(h, t, more)) == Hold(s, t, tx', held, rows + more)
  {
    var h := Hold(s, t, tx, held, rows);
    assert LockRows(h, t, more) == LockRows(s, t, rows + more);
  }

  lemma BeginAndAcquire(s: State, t: TxId, op: Op)
    requires s.lock == None && t !in s.txs
    ensures Next(s, Begin(t, op), Hold(s, t, Tx(op, Started, None, None, map[]), false, {}))
    ensures !op.Discard? ==>
              Next(Hold(s, t, Tx(op, Started, None, None, map[]), false, {}), Acquire(t),
                   Hold(s, t, Tx(op, Locked, None, None, map[]), true, {}))
  {
    assert LockRows(s, t, {}) == s.rowLocks;
  }

  /** The state after `t` committed and let go. */
  ghost function Ended(s: State, tx: Tx): State {
    s.(db := Committed(s, tx).db, log := Committed(s, tx).log)
  }

  lemma CommitHeld(s: State, t: TxId, tx: Tx, held: bool, rows: set<ChangeId>)
    requires Inv(s) && s.lock == None && t !in s.txs && tx.pc == Done
    requires forall id :: id in rows ==> id !in s.rowLocks
    ensures Next(Hold(s, t, tx, held, rows), Commit(t), Ended(s, tx))
  {
    assert forall id :: id in s.rowLocks ==> s.rowLocks[id] != t;
    hide Inv;
    var h := Hold(s, t, tx, held, rows);
    assert Committed(h, tx).db == Committed(s, tx).db && Committed(h, tx).log == Committed(s, tx).log;
    assert Release(Committed(h, tx), t).txs == s.txs;
    assert Release(Committed(h, tx), t).rowLocks == s.rowLocks;
  }

  // Each operation, state by state.

  lemma ApplySteps(s: State, t: TxId, rules: Rules)
    requires Free(s, Apply(rules)) && t !in s.txs
    ensures var op, marks := Apply(rules), Superseding(s.db, None);
            && Next(Hold(s, t, Tx(op, Locked, None, None, map[]), true, {}), Write(t),
                    Hold(s, t, Tx(op, Wrote, None, Some(rules), map[]), true, {}))
            && Next(Hold(s, t, Tx(op, Wrote, None, Some(rules), map[]), true, {}), Mark(t),
                    Hold(s, t, Tx(op, Done, None, Some(rules), marks), true, marks.Keys))
  {
    assert LockRows(s, t, {}) == s.rowLocks;
    var h := Hold(s, t, Tx(Apply(rules), Wrote, None, Some(rules), map[]), true, {});
    assert LockRows(h, t, Superseding(s.db, None).Keys) == LockRows(s, t, Superseding(s.db, None).Keys);
  }

  lemma ProposeLooksAlone(s: State, t: TxId, op: Op)
    requires op.Propose? && Free(s, op) && t !in s.txs && Ready(s.db, op)
    ensures var marks := Superseding(s.db, op.who.user);
            Next(Hold(s, t, Tx(op, Locked, None, None, map[]), true, {}), Look(t),
                 Hold(s, t, Tx(op, Looked, None, None, marks), true, marks.Keys))
  {
    var marks := Superseding(s.db, op.who.user);
    var h := Hold(s, t, Tx(op, Locked, None, None, map[]), true, {});
    assert forall i :: i in marks ==> RowFree(h, t, i);
    assert h.txs[t] == Tx(op, Locked, None, None, map[]) && h.db == s.db;
    HoldMore(s, t, h.txs[t], true, {}, Tx(op, Looked, None, None, marks), marks.Keys);
    assert {} + marks.Keys == marks.Keys;
    hide LockRows, Superseding, Hold, With, IsPending;
  }

  lemma ProposeMarksAlone(s: State, t: TxId, op: Op)
    requires op.Propose? && Free(s, op) && t !in s.txs && Ready(s.db, op)
    ensures var marks := Superseding(s.db, op.who.user);
            var more := marks[op.id := NewChange(op.who, op.rules)];
            Next(Hold(s, t, Tx(op, Looked, None, None, marks), true, marks.Keys), Mark(t),
                 Hold(s, t, Tx(op, Done, None, None, more), true, more.Keys))
  {
    var marks := Superseding(s.db, op.who.user);
    var g := Hold(s, t, Tx(op, Looked, None, None, marks), true, marks.Keys);
    var more := marks[op.id := NewChange(op.who, op.rules)];
    assert op.id !in marks && op.id !in g.rowLocks;
    assert g.txs[t] == Tx(op, Looked, None, None, marks) && g.db == s.db;
    HoldMore(s, t, g.txs[t], true, marks.Keys, Tx(op, Done, None, None, more), {op.id});
    assert more.Keys == marks.Keys + {op.id};
    hide LockRows, Superseding, Hold, With, IsPending;
  }

  lemma ConfirmReads(s: State, t: TxId, op: Op)
    requires op.Confirm? && Free(s, op) && t !in s.txs && Ready(s.db, op)
    ensures var c := s.db.changes[op.id];
            && Next(Hold(s, t, Tx(op, Locked, None, None, map[]), true, {}), Look(t),
                    Hold(s, t, Tx(op, Looked, Some(c), None, map[]), true, {op.id}))
            && Next(Hold(s, t, Tx(op, Looked, Some(c), None, map[]), true, {op.id}), Check(t),
                    Hold(s, t, Tx(op, Checked, Some(c), None, map[]), true, {op.id}))
  {
    var h := Hold(s, t, Tx(op, Locked, None, None, map[]), true, {});
    assert IsPending(s.db, op.id) && RowFree(h, t, op.id);
    HoldMore(s, t, h.txs[t], true, {}, Tx(op, Looked, Some(s.db.changes[op.id]), None, map[]), {op.id});
    assert {} + {op.id} == {op.id};
    hide LockRows;
  }

  lemma ConfirmWrites(s: State, t: TxId, op: Op)
    requires op.Confirm? && Free(s, op) && t !in s.txs && Ready(s.db, op)
    ensures var c := s.db.changes[op.id];
            && Next(Hold(s, t, Tx(op, Checked, Some(c), None, map[]), true, {op.id}), Write(t),
                    Hold(s, t, Tx(op, Wrote, Some(c), Some(c.rules), map[]), true, {op.id}))
            && Next(Hold(s, t, Tx(op, Wrote, Some(c), Some(c.rules), map[]), true, {op.id}), Mark(t),
                    Hold(s, t, Tx(op, Done, Some(c), Some(c.rules), map[op.id := AppliedBy(c, op.who)]), true, {op.id}))
  {
    hide LockRows;
  }

  lemma DiscardSteps(s: State, t: TxId, op: Op)
    requires op.Discard? && Free(s, op) && t !in s.txs && Ready(s.db, op)
    ensures var c := s.db.changes[op.id].(status := Discarded, decidedBy := op.who.user);
            Next(Hold(s, t, Tx(op, Started, None, None, map[]), false, {}), Mark(t),
                 Hold(s, t, Tx(op, Done, None, None, map[op.id := c]), false, {op.id}))
  {
    var h := Hold(s, t, Tx(op, Started, None, None, map[]), false, {});
    assert IsPending(s.db, op.id);
    assert LockRows(h, t, {op.id}) == LockRows(s, t, {op.id});
  }

  /** The run goes on from `origin`, and now stands at `s`. */
  ghost predicate GoesOn(origin: seq<State>, states: seq<State>, events: seq<Event>, s: State) {
    IsRun(states, events) && origin <= states && states[|states| - 1] == s
  }

  lemma Then(origin: seq<State>, states: seq<State>, events: seq<Event>, s: State, e: Event, s': State)
    returns (states': seq<State>, events': seq<Event>)
    requires GoesOn(origin, states, events, s) && Next(s, e, s')
    ensures GoesOn(origin, states', events', s') && events' == events + [e] && |states'| == |states| + 1
    ensures states'[|states|] == s' && states'[|states| - 1] == s
  {
    hide Next;
    states', events' := Extend(states, events, e, s');
  }

  /** The run has gone on from `origin` by one operation, to its commit. */
  ghost predicate Completed(origin: seq<State>, states: seq<State>, events: seq<Event>, t: TxId, op: Op) {
    && IsRun(states, events) && origin != [] && origin <= states && |states| > |origin|
    && events[|events| - 1] == Commit(t)
    && var s, last := origin[|origin| - 1], states[|states| - 2];
       && last.db == s.db && t in last.txs && last.txs[t].op == op
       && states[|states| - 1].txs == s.txs && states[|states| - 1].lock == None
  }

  /** The last step of each operation. */
  lemma Finish(origin: seq<State>, states: seq<State>, events: seq<Event>, s: State, t: TxId, tx: Tx, held: bool,
               rows: set<ChangeId>)
    returns (states': seq<State>, events': seq<Event>)
    requires origin != [] && s == origin[|origin| - 1] && Inv(s) && s.lock == None && t !in s.txs && tx.pc == Done
    requires forall id :: id in rows ==> id !in s.rowLocks
    requires GoesOn(origin, states, events, Hold(s, t, tx, held, rows))
    ensures Completed(origin, states', events', t, tx.op)
  {
    CommitHeld(s, t, tx, held, rows);
    hide Next, Inv, Committed, LockRows;
    states', events' := Then(origin, states, events, Hold(s, t, tx, held, rows), Commit(t), Ended(s, tx));
  }

  lemma RunHasStates(states: seq<State>, events: seq<Event>)
    requires IsRun(states, events)
    ensures |states| == |events| + 1
  {
  }

  lemma ApplyCompletes(states: seq<State>, events: seq<Event>, s: State, t: TxId, op: Op)
    returns (states': seq<State>, events': seq<Event>)
    requires op.Apply? && GoesOn(states, states, events, s) && Inv(s) && t !in s.txs && Free(s, op)
    ensures Completed(states, states', events', t, op)
  {
    var marks := Superseding(s.db, None);
    var tx := Tx(op, Done, None, Some(op.rules), marks);
    var a := Hold(s, t, Tx(op, Started, None, None, map[]), false, {});
    var b := Hold(s, t, Tx(op, Locked, None, None, map[]), true, {});
    var c := Hold(s, t, Tx(op, Wrote, None, Some(op.rules), map[]), true, {});
    BeginAndAcquire(s, t, op);
    ApplySteps(s, t, op.rules);
    assert s.lock == None && (forall id :: id in marks.Keys ==> id !in s.rowLocks) && states != [];
    hide *;
    states', events' := Then(states, states, events, s, Begin(t, op), a);
    states', events' := Then(states, states', events', a, Acquire(t), b);
    states', events' := Then(states, states', events', b, Write(t), c);
    states', events' := Then(states, states', events', c, Mark(t), Hold(s, t, tx, true, marks.Keys));
    assert s == states[|states| - 1];
    states', events' := Finish(states, states', events', s, t, tx, true, marks.Keys);
  }

  lemma ProposeCompletes(states: seq<State>, events: seq<Event>, s: State, t: TxId, op: Op)
    returns (states': seq<State>, events': seq<Event>)
    requires op.Propose? && GoesOn(states, states, events, s) && Inv(s) && t !in s.txs && Free(s, op) && Ready(s.db, op)
    ensures Completed(states, states', events', t, op)
  {
    var marks := Superseding(s.db, op.who.user);
    var more := marks[op.id := NewChange(op.who, op.rules)];
    var tx := Tx(op, Done, None, None, more);
    var a := Hold(s, t, Tx(op, Started, None, None, map[]), false, {});
    var b := Hold(s, t, Tx(op, Locked, None, None, map[]), true, {});
    var c := Hold(s, t, Tx(op, Looked, None, None, marks), true, marks.Keys);
    BeginAndAcquire(s, t, op);
    ProposeLooksAlone(s, t, op);
    ProposeMarksAlone(s, t, op);
    assert s.lock == None && (forall id :: id in more.Keys ==> id !in s.rowLocks) && states != [];
    assert s == states[|states| - 1];
    hide *;
    states', events' := Then(states, states, events, s, Begin(t, op), a);
    states', events' := Then(states, states', events', a, Acquire(t), b);
    states', events' := Then(states, states', events', b, Look(t), c);
    states', events' := Then(states, states', events', c, Mark(t), Hold(s, t, tx, true, more.Keys));
    states', events' := Finish(states, states', events', s, t, tx, true, more.Keys);
  }

  lemma ConfirmCompletes(states: seq<State>, events: seq<Event>, s: State, t: TxId, op: Op)
    returns (states': seq<State>, events': seq<Event>)
    requires op.Confirm? && GoesOn(states, states, events, s) && Inv(s) && t !in s.txs && Free(s, op) && Ready(s.db, op)
    ensures Completed(states, states', events', t, op)
  {
    var row := s.db.changes[op.id];
    var tx := Tx(op, Done, Some(row), Some(row.rules), map[op.id := AppliedBy(row, op.who)]);
    var a := Hold(s, t, Tx(op, Started, None, None, map[]), false, {});
    var b := Hold(s, t, Tx(op, Locked, None, None, map[]), true, {});
    var c := Hold(s, t, Tx(op, Looked, Some(row), None, map[]), true, {op.id});
    var d := Hold(s, t, Tx(op, Checked, Some(row), None, map[]), true, {op.id});
    var f := Hold(s, t, Tx(op, Wrote, Some(row), Some(row.rules), map[]), true, {op.id});
    assert IsPending(s.db, op.id);
    BeginAndAcquire(s, t, op);
    ConfirmReads(s, t, op);
    ConfirmWrites(s, t, op);
    assert s.lock == None && op.id !in s.rowLocks && states != [] && s == states[|states| - 1];
    hide *;
    states', events' := Then(states, states, events, s, Begin(t, op), a);
    states', events' := Then(states, states', events', a, Acquire(t), b);
    states', events' := Then(states, states', events', b, Look(t), c);
    states', events' := Then(states, states', events', c, Check(t), d);
    states', events' := Then(states, states', events', d, Write(t), f);
    states', events' := Then(states, states', events', f, Mark(t), Hold(s, t, tx, true, {op.id}));
    states', events' := Finish(states, states', events', s, t, tx, true, {op.id});
  }

  lemma DiscardCompletes(states: seq<State>, events: seq<Event>, s: State, t: TxId, op: Op)
    returns (states': seq<State>, events': seq<Event>)
    requires op.Discard? && GoesOn(states, states, events, s) && Inv(s) && t !in s.txs && Free(s, op) && Ready(s.db, op)
    ensures Completed(states, states', events', t, op)
  {
    var row := s.db.changes[op.id].(status := Discarded, decidedBy := op.who.user);
    var tx := Tx(op, Done, None, None, map[op.id := row]);
    var a := Hold(s, t, Tx(op, Started, None, None, map[]), false, {});
    assert IsPending(s.db, op.id);
    BeginAndAcquire(s, t, op);
    DiscardSteps(s, t, op);
    assert s.lock == None && op.id !in s.rowLocks && states != [] && s == states[|states| - 1];
    hide *;
    states', events' := Then(states, states, events, s, Begin(t, op), a);
    states', events' := Then(states, states', events', a, Mark(t), Hold(s, t, tx, false, {op.id}));
    states', events' := Finish(states, states', events', s, t, tx, false, {op.id});
  }

  /** From every reachable state, an operation whose conditions hold and whose locks are free can run to
      its commit, and the tables are then what the operation alone makes of them. In particular a pending
      change is confirmed by any existing user other than its recorded proposer. */
  lemma OperationCompletes(states: seq<State>, events: seq<Event>, t: TxId, op: Op)
    returns (states': seq<State>, events': seq<Event>)
    requires IsRun(states, events)
    requires var s := states[|states| - 1]; t !in s.txs && Free(s, op) && Ready(s.db, op)
    ensures IsRun(states', events') && states <= states' && |states'| > |states|
    ensures var s, s' := states[|states| - 1], states'[|states'| - 1];
            Atomic(s.db, op, s'.db) && s'.txs == s.txs && s'.lock == None
  {
    var s := states[|states| - 1];
    RunKeepsInv(states, events, |states| - 1);
    assert GoesOn(states, states, events, s);
    states', events' := AnyCompletes(states, events, s, t, op);
    CompletedIsAtomic(states, states', events', t, op);
    hide *;
  }

  lemma AnyCompletes(states: seq<State>, events: seq<Event>, s: State, t: TxId, op: Op)
    returns (states': seq<State>, events': seq<Event>)
    requires GoesOn(states, states, events, s) && Inv(s) && t !in s.txs && Free(s, op) && Ready(s.db, op)
    ensures Completed(states, states', events', t, op)
  {
    hide *;
    match op {
      case Apply(_) => states', events' := ApplyCompletes(states, events, s, t, op);
      case Propose(_, _, _) => states', events' := ProposeCompletes(states, events, s, t, op);
      case Confirm(_, _) => states', events' := ConfirmCompletes(states, events, s, t, op);
      case Discard(_, _) => states', events' := DiscardCompletes(states, events, s, t, op);
    }
  }

  lemma CompletedIsAtomic(origin: seq<State>, states: seq<State>, events: seq<Event>, t: TxId, op: Op)
    requires Completed(origin, states, events, t, op)
    ensures IsRun(states, events) && origin <= states && |states| > |origin| > 0
    ensures var s, s' := origin[|origin| - 1], states[|states| - 1];
            Atomic(s.db, op, s'.db) && s'.txs == s.txs && s'.lock == None
  {
    RunHasStates(states, events);
    hide IsRun, Atomic;
    var i := |events| - 1;
    RunsAreAtomic(states, events, i);
    assert states[i] == states[|states| - 2] && states[i + 1] == states[|states| - 1];
  }
}
