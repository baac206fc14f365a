/** What the four transactions do, said at once: every run of their statements, interleaved in any way,
    changes the tables as if each committed transaction had run by itself at its commit. */
module RuleChangeAtomic {
  import opened RuleChange
  import opened RuleChangeProofs
  import opened Wrappers

  // ---------------------------------------------------------------- the atomic operations

  /** Every pending change is superseded by `who`, and every other change is as it was. */
  ghost predicate Overtaken(was: map<ChangeId, Change>, now: map<ChangeId, Change>, who: Option<UserId>) {
    forall id :: id in was ==>
      && id in now
      && now[id] == if was[id].status == Pending then was[id].(status := Superseded, decidedBy := who) else was[id]
  }

  /** One operation on the tables. A confirmation is of a pending change, by someone whose user is not the
      one recorded as its proposer. */
  ghost predicate Atomic(db: Db, op: Op, db': Db) {
    && db'.users == db.users
    && match op
       case Apply(rules) =>
         db'.inForce == Some(rules) && db'.changes.Keys == db.changes.Keys && Overtaken(db.changes, db'.changes, None)
       case Propose(id, who, rules) =>
         && db'.inForce == db.inForce && id !in db.changes && db'.changes.Keys == db.changes.Keys + {id}
         && Overtaken(db.changes, db'.changes, who.user)
         && db'.changes[id] == Change(rules, who, who.user, Pending, None, None)
       case Confirm(id, who) =>
         && id in db.changes && db.changes[id].status == Pending
         && (who.user.Some? ==> db.changes[id].proposedBy != who.user)
         && db'.inForce == Some(db.changes[id].rules)
         && db'.changes ==
              db.changes[id := db.changes[id].(status := Applied, decidedBy := who.user, confirmer := Some(who))]
       case Discard(id, who) =>
         && id in db.changes && db.changes[id].status == Pending
         && db'.inForce == db.inForce
         && db'.changes == db.changes[id := db.changes[id].(status := Discarded, decidedBy := who.user)]
  }

  // ---------------------------------------------------------------- what a buffered row will be

  function Outcome(op: Op, was: Change): Change {
    match op
    case Apply(_) => was.(status := Superseded, decidedBy := None)
    case Propose(_, who, _) => was.(status := Superseded, decidedBy := who.user)
    case Confirm(_, who) => was.(status := Applied, decidedBy := who.user, confirmer := Some(who))
    case Discard(_, who) => was.(status := Discarded, decidedBy := who.user)
  }

  ghost predicate Exact(db: Db, tx: Tx) {
    && (forall id :: id in tx.marks && id in db.changes ==> tx.marks[id] == Outcome(tx.op, db.changes[id]))
    && (tx.op.Discard? && tx.pc == Done ==> tx.marks.Keys == {tx.op.id})
  }

  ghost predicate AllExact(s: State) {
    forall t :: t in s.txs ==> Exact(s.db, s.txs[t])
  }

  lemma LookIsExact(s: State, t: TxId, s': State)
    requires t in s.txs && NextLook(s, t, s.txs[t], s') && Exact(s.db, s.txs[t])
    ensures Exact(s'.db, s'.txs[t])
  {
    hide LockRows;
  }

  lemma MarkIsExact(s: State, t: TxId, s': State)
    requires t in s.txs && NextMark(s, t, s.txs[t], s') && Exact(s.db, s.txs[t])
    ensures Exact(s'.db, s'.txs[t])
  {
    hide LockRows, TwoPeopleCheck;
  }

  /** A step of `t` that does not end it leaves the tables and the other transactions alone. */
  lemma OwnStepIsExact(s: State, e: Event, s': State, t: TxId)
    requires AllExact(s) && Next(s, e, s') && !e.DeleteUser? && e.t == t && !e.Commit? && !e.Abort?
    ensures AllExact(s')
  {
    if e.Look? {
      LookIsExact(s, t, s');
    } else if e.Mark? {
      MarkIsExact(s, t, s');
    }
    assert s'.db == s.db && t in s'.txs && s'.txs == s.txs[t := s'.txs[t]] by {
      if e.Look? {
        LookIsPrivate(s, t, s');
      } else if e.Mark? {
        MarkIsPrivate(s, t, s');
      }
    }
    assert Exact(s'.db, s'.txs[t]);
    hide Next, NextLook, NextMark, Exact;
  }

  lemma CommitIsExact(s: State, t: TxId, s': State)
    requires Inv(s) && AllExact(s) && Next(s, Commit(t), s')
    ensures AllExact(s')
  {
    forall u | u in s'.txs ensures Exact(s'.db, s'.txs[u]) {
      var tx := s.txs[u];
      assert Exact(s.db, tx) && TxOk(s, u, tx);
      forall id | id in tx.marks ensures id !in s.txs[t].marks {
        assert MarkOk(s, u, tx, id, tx.marks[id]);
        MarksApart(s, t, u, id);
      }
      hide Inv, TxOk, AllExact;
    }
  }

  lemma DeleteIsExact(s: State, u: UserId, s': State)
    requires Inv(s) && AllExact(s) && Next(s, DeleteUser(u), s')
    ensures AllExact(s')
  {
    forall t | t in s'.txs ensures Exact(s'.db, s'.txs[t]) {
      var tx := s.txs[t];
      assert Exact(s.db, tx) && TxOk(s, t, tx);
      forall id | id in tx.marks && id in s.db.changes ensures s'.db.changes[id] == s.db.changes[id] {
        assert MarkOk(s, t, tx, id, tx.marks[id]);
      }
      hide Inv, TxOk, AllExact;
    }
  }

  lemma {:induction false} RunIsExact(states: seq<State>, events: seq<Event>, i: nat)
    requires IsRun(states, events) && i < |states|
    ensures AllExact(states[i])
  {
    if i > 0 {
      RunIsExact(states, events, i - 1);
      RunKeepsInv(states, events, i - 1);
      var s, e, s' := states[i - 1], events[i - 1], states[i];
      assert Next(states[i - 1], events[i - 1], states[i - 1 + 1]);
      if e.Commit? {
        hide Next, Inv, AllExact;
        CommitIsExact(s, e.t, s');
      } else if e.DeleteUser? {
        hide Next, Inv, AllExact;
        DeleteIsExact(s, e.u, s');
      } else if e.Abort? {
        hide Inv, Exact;
      } else {
        hide Next, Inv, AllExact;
        OwnStepIsExact(s, e, s', e.t);
      }
    }
  }

  // ---------------------------------------------------------------- every commit is atomic

  lemma ApplyDoes(s: State, t: TxId, tx: Tx)
    requires TxOk(s, t, tx) && Exact(s.db, tx) && tx.pc == Done && tx.op.Apply?
    ensures Atomic(s.db, tx.op, Committed(s, tx).db)
  {
    forall id | id in tx.marks ensures id in s.db.changes && s.db.changes[id].status == Pending {
      assert MarkOk(s, t, tx, id, tx.marks[id]);
    }
    hide MarkOk;
  }

  lemma ProposeDoes(s: State, t: TxId, tx: Tx)
    requires TxOk(s, t, tx) && Exact(s.db, tx) && tx.pc == Done && tx.op.Propose?
    ensures Atomic(s.db, tx.op, Committed(s, tx).db)
  {
    var db' := Committed(s, tx).db;
    forall id | id in tx.marks
      ensures if id in s.db.changes then s.db.changes[id].status == Pending
              else id == tx.op.id && tx.marks[id] == NewChange(tx.op.who, tx.op.rules)
    {
      assert MarkOk(s, t, tx, id, tx.marks[id]);
    }
    hide MarkOk;
    assert Overtaken(s.db.changes, db'.changes, tx.op.who.user);
    assert db'.changes.Keys == s.db.changes.Keys + {tx.op.id};
  }

  lemma ConfirmDoes(s: State, t: TxId, tx: Tx)
    requires TxOk(s, t, tx) && tx.pc == Done && tx.op.Confirm?
    ensures Atomic(s.db, tx.op, Committed(s, tx).db)
  {
    hide MarkOk;
    assert Committed(s, tx).db.changes == s.db.changes[tx.op.id := AppliedBy(s.db.changes[tx.op.id], tx.op.who)];
  }

  lemma DiscardDoes(s: State, t: TxId, tx: Tx)
    requires TxOk(s, t, tx) && Exact(s.db, tx) && tx.pc == Done && tx.op.Discard?
    ensures Atomic(s.db, tx.op, Committed(s, tx).db)
  {
    var id := tx.op.id;
    assert MarkOk(s, t, tx, id, tx.marks[id]);
    hide MarkOk;
    assert Committed(s, tx).db.changes == s.db.changes[id := tx.marks[id]];
  }

  lemma CommitDoes(s: State, t: TxId, s': State)
    requires Inv(s) && AllExact(s) && Next(s, Commit(t), s')
    ensures Atomic(s.db, s.txs[t].op, s'.db)
  {
    var tx := s.txs[t];
    assert TxOk(s, t, tx) && Exact(s.db, tx) && tx.pc == Done && s'.db == Committed(s, tx).db;
    hide Next, Inv, AllExact, TxOk, Exact, Committed, Atomic, DbOk;
    match tx.op
    case Apply(_) => ApplyDoes(s, t, tx);
    case Propose(_, _, _) => ProposeDoes(s, t, tx);
    case Confirm(_, _) => ConfirmDoes(s, t, tx);
    case Discard(_, _) => DiscardDoes(s, t, tx);
  }

  /** In every run, each commit changes the tables as its operation alone would, and nothing else changes
      them but the deletion of a user. */
  lemma RunsAreAtomic(states: seq<State>, events: seq<Event>, i: nat)
    requires IsRun(states, events) && i < |events|
    ensures events[i].Commit? ==>
              && events[i].t in states[i].txs
              && Atomic(states[i].db, states[i].txs[events[i].t].op, states[i + 1].db)
    ensures !events[i].Commit? && !events[i].DeleteUser? ==> states[i + 1].db == states[i].db
  {
    assert Next(states[i], events[i], states[i + 1]);
    if events[i].Commit? {
      RunKeepsInv(states, events, i);
      RunIsExact(states, events, i);
      CommitDoes(states[i], events[i].t, states[i + 1]);
    } else {
      FailedStepChangesNothing(states[i], events[i], states[i + 1]);
    }
  }

  // ---------------------------------------------------------------- foreign keys

  /** Every user a change names exists. */
  ghost predicate UsersExist(db: Db) {
    forall id :: id in db.changes ==>
      && (db.changes[id].proposedBy.Some? ==> db.changes[id].proposedBy.value in db.users)
      && (db.changes[id].decidedBy.Some? ==> db.changes[id].decidedBy.value in db.users)
  }

  /** And a change that waits was decided by nobody. */
  ghost predicate NamesOk(db: Db) {
    && UsersExist(db)
    && forall id :: id in db.changes && db.changes[id].status == Pending ==> db.changes[id].decidedBy == None
  }

  lemma CommitKeepsNames(s: State, t: TxId)
    requires NamesOk(s.db) && t in s.txs && TxOk(s, t, s.txs[t]) && s.txs[t].pc == Done
    ensures NamesOk(Committed(s, s.txs[t]).db)
  {
    var tx := s.txs[t];
    var db' := Committed(s, tx).db;
    forall id | id in db'.changes
      ensures UserOk(db', db'.changes[id].proposedBy) && UserOk(db', db'.changes[id].decidedBy)
      ensures db'.changes[id].status == Pending ==> db'.changes[id].decidedBy == None
    {
      if id in tx.marks {
        assert MarkOk(s, t, tx, id, tx.marks[id]);
      }
    }
    hide MarkOk, TxOk;
  }

  lemma DeleteKeepsNames(s: State, u: UserId, s': State)
    requires NamesOk(s.db) && Next(s, DeleteUser(u), s')
    ensures NamesOk(s'.db)
  {
  }

  /** In every run no change names a user that is gone: deleting a user lets go of the changes that wait,
      and is not possible while a decided one names that user. */
  lemma {:induction false} RunKeepsNames(states: seq<State>, events: seq<Event>, i: nat)
    requires IsRun(states, events) && i < |states|
    ensures NamesOk(states[i].db)
  {
    if i > 0 {
      RunKeepsNames(states, events, i - 1);
      RunKeepsInv(states, events, i - 1);
      var s, e, s' := states[i - 1], events[i - 1], states[i];
      assert Next(states[i - 1], events[i - 1], states[i - 1 + 1]);
      if e.Commit? {
        assert TxOk(s, e.t, s.txs[e.t]);
        CommitKeepsNames(s, e.t);
        hide NamesOk, Inv, TxOk;
      } else if e.DeleteUser? {
        DeleteKeepsNames(s, e.u, s');
        hide NamesOk, Inv;
      } else {
        FailedStepChangesNothing(s, e, s');
        hide NamesOk, Inv, Next;
      }
    }
  }
}
