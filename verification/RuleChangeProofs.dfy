/** Every step of the two-person protocol keeps its invariant, and what that means for every run. */
module RuleChangeProofs {
  import opened RuleChange
  import opened Wrappers

  // ---------------------------------------------------------------- steps that stay private

  /** `s'` differs from `s` in transaction `t` and in locks that were free. */
  ghost predicate Private(s: State, t: TxId, s': State) {
    && t in s'.txs && s'.txs == s.txs[t := s'.txs[t]]
    && s'.db == s.db && s'.log == s.log
    && (s'.lock == s.lock || (s.lock == None && s'.lock == Some(t)))
    && (forall id :: id in s.rowLocks ==> id in s'.rowLocks && s'.rowLocks[id] == s.rowLocks[id])
    && (forall id :: id in s'.rowLocks && id !in s.rowLocks ==> s'.rowLocks[id] == t)
  }

  lemma OthersKeep(s: State, t: TxId, s': State, u: TxId)
    requires Private(s, t, s') && u in s.txs && u != t && TxOk(s, u, s.txs[u])
    ensures TxOk(s', u, s'.txs[u])
  {
    var tx := s.txs[u];
    forall id | id in tx.marks ensures MarkOk(s', u, tx, id, tx.marks[id]) {
      assert MarkOk(s, u, tx, id, tx.marks[id]);
    }
    hide MarkOk;
  }

  lemma PrivateKeepsInv(s: State, t: TxId, s': State)
    requires Inv(s) && Private(s, t, s') && TxOk(s', t, s'.txs[t])
    ensures Inv(s')
  {
    hide DbOk, TxOk;
    forall u | u in s'.txs ensures TxOk(s', u, s'.txs[u]) {
      if u != t {
        OthersKeep(s, t, s', u);
      }
    }
  }

  lemma LockedRows(s: State, t: TxId, ids: set<ChangeId>)
    requires forall id :: id in ids ==> RowFree(s, t, id)
    ensures forall id :: id in s.rowLocks ==> id in LockRows(s, t, ids) && LockRows(s, t, ids)[id] == s.rowLocks[id]
    ensures forall id :: id in LockRows(s, t, ids) && id !in s.rowLocks ==> LockRows(s, t, ids)[id] == t
    ensures forall id :: id in ids ==> id in LockRows(s, t, ids) && LockRows(s, t, ids)[id] == t
  {
  }

  lemma BeginKeepsInv(s: State, t: TxId, op: Op, s': State)
    requires Inv(s) && Next(s, Begin(t, op), s')
    ensures Inv(s')
  {
    hide DbOk;
    assert TxOk(s', t, s'.txs[t]);
    hide TxOk, MarkOk, OpOk, Superseding;
    PrivateKeepsInv(s, t, s');
  }

  lemma AcquireKeepsInv(s: State, t: TxId, s': State)
    requires Inv(s) && Next(s, Acquire(t), s')
    ensures Inv(s')
  {
    hide DbOk;
    assert TxOk(s, t, s.txs[t]);
    hide Inv;
    var tx := s'.txs[t];
    forall id | id in tx.marks ensures MarkOk(s', t, tx, id, tx.marks[id]) {
      assert MarkOk(s, t, s.txs[t], id, tx.marks[id]);
    }
    assert TxOk(s', t, tx);
    hide TxOk, MarkOk, OpOk, Superseding;
    PrivateKeepsInv(s, t, s');
  }

  lemma CheckKeepsInv(s: State, t: TxId, s': State)
    requires Inv(s) && Next(s, Check(t), s')
    ensures Inv(s')
  {
    hide DbOk;
    assert TxOk(s, t, s.txs[t]);
    hide Inv;
    var tx := s'.txs[t];
    forall id | id in tx.marks ensures MarkOk(s', t, tx, id, tx.marks[id]) {
      assert MarkOk(s, t, s.txs[t], id, tx.marks[id]);
    }
    assert TxOk(s', t, tx);
    hide TxOk, MarkOk, OpOk, Superseding;
    PrivateKeepsInv(s, t, s');
  }

  lemma WriteKeepsInv(s: State, t: TxId, s': State)
    requires Inv(s) && Next(s, Write(t), s')
    ensures Inv(s')
  {
    hide DbOk;
    assert TxOk(s, t, s.txs[t]);
    hide Inv;
    var tx := s'.txs[t];
    forall id | id in tx.marks ensures MarkOk(s', t, tx, id, tx.marks[id]) {
      assert MarkOk(s, t, s.txs[t], id, tx.marks[id]);
    }
    assert TxOk(s', t, tx);
    hide TxOk, MarkOk, OpOk, Superseding;
    PrivateKeepsInv(s, t, s');
  }

  /** Superseding the pending changes is a lawful set of marks for any transaction. */
  lemma SupersedingOk(s: State, s': State, t: TxId, tx: Tx, who: Option<UserId>)
    requires s'.db == s.db && UserOk(s.db, who)
    requires tx.marks == Superseding(s.db, who)
    requires forall id :: id in tx.marks ==> id in s'.rowLocks && s'.rowLocks[id] == t
    ensures forall id :: id in tx.marks ==> MarkOk(s', t, tx, id, tx.marks[id])
    ensures PendingMarked(s'.db, tx)
  {
  }

  lemma LookIsPrivate(s: State, t: TxId, s': State)
    requires t in s.txs && NextLook(s, t, s.txs[t], s')
    ensures Private(s, t, s')
  {
    hide Superseding;
    match s.txs[t].op {
      case Confirm(id, who) => LockedRows(s, t, {id});
      case Propose(id, who, rules) => LockedRows(s, t, Superseding(s.db, who.user).Keys);
      case _ =>
    }
    hide LockRows;
  }

  lemma LookTxOk(s: State, t: TxId, s': State)
    requires t in s.txs && TxOk(s, t, s.txs[t]) && NextLook(s, t, s.txs[t], s')
    ensures TxOk(s', t, s'.txs[t])
  {
    var tx, tx' := s.txs[t], s'.txs[t];
    match tx.op {
      case Confirm(id, who) =>
        LockedRows(s, t, {id});
        forall i | i in tx.marks ensures MarkOk(s', t, tx', i, tx.marks[i]) {
          assert MarkOk(s, t, tx, i, tx.marks[i]);
        }
      case Propose(id, who, rules) =>
        LockedRows(s, t, Superseding(s.db, who.user).Keys);
        SupersedingOk(s, s', t, tx', who.user);
      case _ =>
    }
    hide MarkOk, Superseding, LockRows;
  }

  lemma LookKeepsInv(s: State, t: TxId, s': State)
    requires Inv(s) && Next(s, Look(t), s')
    ensures Inv(s')
  {
    assert TxOk(s, t, s.txs[t]);
    hide Inv, TxOk, NextLook, Private;
    LookTxOk(s, t, s');
    LookIsPrivate(s, t, s');
    PrivateKeepsInv(s, t, s');
  }

  lemma MarkApply(s: State, t: TxId, s': State)
    requires Inv(s) && Next(s, Mark(t), s') && s.txs[t].op.Apply?
    ensures Inv(s')
  {
    hide DbOk;
    assert TxOk(s, t, s.txs[t]);
    hide Inv;
    LockedRows(s, t, Superseding(s.db, None).Keys);
    SupersedingOk(s, s', t, s'.txs[t], None);
    assert TxOk(s', t, s'.txs[t]);
    hide TxOk, MarkOk, OpOk, Superseding;
    PrivateKeepsInv(s, t, s');
  }

  lemma MarkPropose(s: State, t: TxId, s': State)
    requires Inv(s) && Next(s, Mark(t), s') && s.txs[t].op.Propose?
    ensures Inv(s')
  {
    hide DbOk;
    assert TxOk(s, t, s.txs[t]);
    hide Inv;
    var tx, tx' := s.txs[t], s'.txs[t];
    LockedRows(s, t, {tx.op.id});
    forall id | id in tx'.marks ensures MarkOk(s', t, tx', id, tx'.marks[id]) {
      if id != tx.op.id {
        assert MarkOk(s, t, tx, id, tx.marks[id]);
      }
    }
    assert PendingMarked(s.db, tx);
    assert PendingMarked(s'.db, tx');
    hide MarkOk;
    assert TxOk(s', t, tx');
    hide TxOk, MarkOk, OpOk, Superseding;
    PrivateKeepsInv(s, t, s');
  }

  lemma ConfirmedByAnother(db: Db, c: Change, who: Requester)
    requires ConfirmableBy(c, who) && UserOk(db, who.user) && ProposerOk(db, c)
    ensures TwoPeople(AppliedBy(c, who))
  {
  }

  lemma MarkIsPrivate(s: State, t: TxId, s': State)
    requires t in s.txs && NextMark(s, t, s.txs[t], s')
    ensures Private(s, t, s')
  {
    hide Superseding, AppliedBy, NewChange, TwoPeopleCheck;
    match s.txs[t].op
    case Apply(_) => LockedRows(s, t, Superseding(s.db, None).Keys);
    case Confirm(_, _) =>
    case Propose(id, _, _) => LockedRows(s, t, {id});
    case Discard(id, _) => LockedRows(s, t, {id});
    hide LockRows;
  }

  lemma ConfirmMarkOk(s: State, t: TxId, s': State)
    requires t in s.txs && NextMark(s, t, s.txs[t], s') && s.txs[t].op.Confirm?
    requires ProposersOk(s.db) && TxOk(s, t, s.txs[t])
    ensures TxOk(s', t, s'.txs[t])
  {
    var tx' := s'.txs[t];
    var id, who := tx'.op.id, tx'.op.who;
    ConfirmedByAnother(s.db, s.db.changes[id], who);
    hide TwoPeople, LockRows;
    assert MarkOk(s', t, tx', id, tx'.marks[id]);
    hide MarkOk;
  }

  lemma DiscardMarkOk(s: State, t: TxId, s': State)
    requires t in s.txs && NextMark(s, t, s.txs[t], s') && s.txs[t].op.Discard? && TxOk(s, t, s.txs[t])
    ensures TxOk(s', t, s'.txs[t])
  {
    var tx' := s'.txs[t];
    var id := tx'.op.id;
    LockedRows(s, t, {id});
    hide LockRows;
    assert MarkOk(s', t, tx', id, tx'.marks[id]);
    hide MarkOk;
  }

  lemma MarkConfirm(s: State, t: TxId, s': State)
    requires Inv(s) && Next(s, Mark(t), s') && s.txs[t].op.Confirm?
    ensures Inv(s')
  {
    assert ProposersOk(s.db) && TxOk(s, t, s.txs[t]);
    hide DbOk, Inv, TxOk, NextMark, Private;
    ConfirmMarkOk(s, t, s');
    MarkIsPrivate(s, t, s');
    PrivateKeepsInv(s, t, s');
  }

  lemma MarkDiscard(s: State, t: TxId, s': State)
    requires Inv(s) && Next(s, Mark(t), s') && s.txs[t].op.Discard?
    ensures Inv(s')
  {
    assert TxOk(s, t, s.txs[t]);
    hide DbOk, Inv, TxOk, NextMark, Private;
    DiscardMarkOk(s, t, s');
    MarkIsPrivate(s, t, s');
    PrivateKeepsInv(s, t, s');
  }

  // ---------------------------------------------------------------- ending a transaction

  /** Releasing `t`'s locks leaves the other transactions theirs. */
  lemma ReleaseKeeps(s: State, t: TxId, u: TxId)
    requires u in s.txs && u != t && TxOk(s, u, s.txs[u])
    ensures TxOk(Release(s, t), u, s.txs[u])
  {
    var tx := s.txs[u];
    forall id | id in tx.marks ensures MarkOk(Release(s, t), u, tx, id, tx.marks[id]) {
      assert MarkOk(s, u, tx, id, tx.marks[id]);
    }
    hide MarkOk;
  }

  lemma AbortKeepsInv(s: State, t: TxId, s': State)
    requires Inv(s) && Next(s, Abort(t), s')
    ensures Inv(s')
  {
    hide DbOk, TxOk;
    forall u | u in s'.txs ensures TxOk(s', u, s'.txs[u]) {
      ReleaseKeeps(s, t, u);
    }
  }

  /** Two transactions never hold the same row. */
  lemma MarksApart(s: State, t: TxId, u: TxId, id: ChangeId)
    requires Inv(s) && t in s.txs && u in s.txs && t != u && id in s.rowLocks && s.rowLocks[id] == u
    ensures id !in s.txs[t].marks
  {
    assert TxOk(s, t, s.txs[t]);
    assert id in s.txs[t].marks ==> MarkOk(s, t, s.txs[t], id, s.txs[t].marks[id]);
  }

  /** A commit leaves a transaction that holds other rows as it was. */
  lemma CommitKeepsOther(s: State, t: TxId, u: TxId)
    requires Inv(s) && t in s.txs && s.txs[t].pc == Done && u in s.txs && u != t
    ensures TxOk(Committed(s, s.txs[t]), u, s.txs[u])
  {
    var s' := Committed(s, s.txs[t]);
    var tx := s.txs[u];
    assert TxOk(s, u, tx) && TxOk(s, t, s.txs[t]);
    hide DbOk, Inv;
    forall id | id in tx.marks ensures MarkOk(s', u, tx, id, tx.marks[id]) {
      assert MarkOk(s, u, tx, id, tx.marks[id]);
      MarksApart(s, t, u, id);
    }
    if tx.op.Confirm? && tx.pc != Started && tx.pc != Locked {
      MarksApart(s, t, u, tx.op.id);
    }
    if tx.op.Propose? && tx.pc == Done {
      MarksApart(s, t, u, tx.op.id);
    }
    if HoldsLock(tx) && PendingMarked(s.db, tx) {
      DiscardKeepsMarked(s, t, tx);
    }
    hide MarkOk, Inv;
  }

  lemma DiscardKeepsMarked(s: State, t: TxId, tx: Tx)
    requires t in s.txs && s.txs[t].op.Discard? && OpOk(s, t, s.txs[t]) && PendingMarked(s.db, tx)
    ensures PendingMarked(Committed(s, s.txs[t]).db, tx)
  {
    var db' := Committed(s, s.txs[t]).db;
    forall id | IsPending(db', id) ensures id in tx.marks {
      assert IsPending(s.db, id);
    }
  }

  // ---------------------------------------------------------------- what a commit does to the tables

  lemma LastWrittenAppend(log: seq<Entry>, e: Entry)
    ensures LastWritten(log + [e]) == match e
      case ShellWrote(r) => Some(r)
      case Confirmed(_, r, _) => Some(r)
      case _ => LastWritten(log)
  {
    assert (log + [e])[..|log + [e]| - 1] == log;
  }

  /** What a commit changes: rows that were pending, and the proposal's new one. */
  lemma CommittedRow(s: State, t: TxId, id: ChangeId)
    requires Inv(s) && t in s.txs && id in s.txs[t].marks
    ensures var tx := s.txs[t]; var c := tx.marks[id];
            && (id in s.db.changes ==>
                 && s.db.changes[id].status == Pending && c.status != Pending
                 && c.rules == s.db.changes[id].rules && c.proposer == s.db.changes[id].proposer
                 && c.proposedBy == s.db.changes[id].proposedBy)
            && (id !in s.db.changes ==> tx.op.Propose? && tx.op.id == id && c == NewChange(tx.op.who, tx.op.rules))
            && (c.status == Applied ==> tx.op.Confirm? && tx.op.id == id && TwoPeople(c))
  {
    assert TxOk(s, t, s.txs[t]);
    assert MarkOk(s, t, s.txs[t], id, s.txs[t].marks[id]);
  }

  lemma CommitOnePending(s: State, t: TxId)
    requires Inv(s) && t in s.txs && s.txs[t].pc == Done
    ensures OnePending(Committed(s, s.txs[t]).db)
    ensures s.txs[t].op.Apply? ==> forall id :: !IsPending(Committed(s, s.txs[t]).db, id)
  {
    var tx := s.txs[t];
    var db' := Committed(s, tx).db;
    assert TxOk(s, t, tx);
    forall id | IsPending(db', id)
      ensures (tx.op.Propose? && id == tx.op.id) || (IsPending(s.db, id) && id !in tx.marks)
    {
      if id in tx.marks {
        CommittedRow(s, t, id);
      }
    }
    hide TxOk, MarkOk;
    if tx.op.Propose? || tx.op.Apply? {
      assert PendingMarked(s.db, tx) by {
        assert OpOk(s, t, tx);
      }
    }
  }

  lemma CommitConfirmations(s: State, t: TxId)
    requires Inv(s) && t in s.txs && s.txs[t].pc == Done
    ensures var s' := Committed(s, s.txs[t]); ConfirmationsOk(s'.db, s'.log)
  {
    var tx := s.txs[t];
    var s' := Committed(s, tx);
    assert TxOk(s, t, tx);
    var n := |s.log|;
    forall k | 0 <= k < n && s.log[k].Confirmed?
      ensures s.log[k].id in s'.db.changes && s'.db.changes[s.log[k].id] == s.db.changes[s.log[k].id]
      ensures s.log[k].id !in tx.marks
    {
      var id := s.log[k].id;
      if id in tx.marks {
        CommittedRow(s, t, id);
      }
    }
    if tx.op.Confirm? {
      var id := tx.op.id;
      assert tx.marks == map[id := AppliedBy(tx.seen.value, tx.op.who)];
      assert s'.log[n] == Confirmed(id, tx.seen.value.rules, tx.op.who);
    }
    hide TxOk, Inv;
  }

  lemma CommitProposers(s: State, t: TxId)
    requires Inv(s) && t in s.txs && s.txs[t].pc == Done
    ensures var s' := Committed(s, s.txs[t]); ProposersOk(s'.db) && AllTwoPeople(s'.db)
  {
    var tx := s.txs[t];
    var s' := Committed(s, tx);
    forall id | id in s'.db.changes
      ensures var c := s'.db.changes[id];
              && (c.proposedBy == c.proposer.user
                  || (c.proposedBy.None? && c.proposer.user.Some? && c.proposer.user.value !in s'.db.users))
              && TwoPeople(c)
    {
      if id in tx.marks {
        CommittedRow(s, t, id);
      } else {
        assert TwoPeople(s.db.changes[id]);
      }
    }
    hide Inv;
  }

  lemma CommitFresh(s: State, t: TxId)
    requires Inv(s) && t in s.txs && s.txs[t].pc == Done
    ensures var s' := Committed(s, s.txs[t]); PendingIsFresh(s'.db, s'.log)
  {
    var tx := s.txs[t];
    var s' := Committed(s, tx);
    assert TxOk(s, t, tx);
    CommitOnePending(s, t);
    forall id | IsPending(s'.db, id) ensures exists k: nat :: ProposedSince(s'.log, id, k) {
      if id in tx.marks {
        CommittedRow(s, t, id);
        assert ProposedSince(s'.log, id, |s.log|);
      } else {
        assert IsPending(s.db, id);
        var k: nat :| ProposedSince(s.log, id, k);
        assert ProposedSince(s'.log, id, k);
      }
    }
  }

  lemma OrderAppend(log: seq<Entry>, e: Entry)
    requires ShellIsTheLaterWord(log)
    requires e.Confirmed? ==> exists k: nat :: ProposedSince(log, e.id, k)
    ensures ShellIsTheLaterWord(log + [e])
  {
    var log' := log + [e];
    forall i, j | 0 <= i < j < |log'| && log'[i].ShellWrote? && log'[j].Confirmed?
      ensures exists k :: i < k < j && log'[k] == Proposed(log'[j].id)
    {
      if j < |log| {
        var k :| i < k < j && log[k] == Proposed(log[j].id);
        assert log'[k] == Proposed(log'[j].id);
      } else {
        var k: nat :| ProposedSince(log, e.id, k);
        assert i < k < j && log'[k] == Proposed(log'[j].id);
      }
    }
  }

  lemma CommitOrder(s: State, t: TxId)
    requires Inv(s) && t in s.txs && s.txs[t].pc == Done
    ensures ShellIsTheLaterWord(Committed(s, s.txs[t]).log)
  {
    var tx := s.txs[t];
    assert TxOk(s, t, tx);
    assert ShellIsTheLaterWord(s.log) && PendingIsFresh(s.db, s.log);
    assert EntryOf(tx).Confirmed? ==> tx.op.Confirm? && EntryOf(tx).id == tx.op.id && IsPending(s.db, tx.op.id);
    hide Inv, DbOk, TxOk, ShellIsTheLaterWord, ProposedSince, EntryOf;
    OrderAppend(s.log, EntryOf(tx));
  }

  lemma CommitInForce(s: State, t: TxId)
    requires Inv(s) && t in s.txs && s.txs[t].pc == Done
    ensures var s' := Committed(s, s.txs[t]); s'.db.inForce == LastWritten(s'.log)
  {
    LastWrittenAppend(s.log, EntryOf(s.txs[t]));
    assert OpOk(s, t, s.txs[t]) by {
      assert TxOk(s, t, s.txs[t]);
    }
    assert s.db.inForce == LastWritten(s.log);
    hide Inv, LastWritten;
  }

  lemma CommitKeepsInv(s: State, t: TxId, s': State)
    requires Inv(s) && Next(s, Commit(t), s')
    ensures Inv(s')
  {
    var c := Committed(s, s.txs[t]);
    CommitInForce(s, t);
    CommitOnePending(s, t);
    CommitConfirmations(s, t);
    CommitProposers(s, t);
    CommitFresh(s, t);
    CommitOrder(s, t);
    assert DbOk(c.db, c.log);
    hide DbOk, TxOk;
    forall u | u in s'.txs ensures TxOk(s', u, s'.txs[u]) {
      CommitKeepsOther(s, t, u);
      ReleaseKeeps(c, t, u);
    }
  }

  // ---------------------------------------------------------------- deleting a user

  lemma DeleteKeepsDb(s: State, u: UserId, s': State)
    requires Inv(s) && Next(s, DeleteUser(u), s')
    ensures DbOk(s'.db, s'.log)
  {
    hide TxOk;
    forall id ensures IsPending(s'.db, id) <==> IsPending(s.db, id) {
    }
    forall id | id in s.db.changes && s.db.changes[id].status != Pending ensures s'.db.changes[id] == s.db.changes[id] {
    }
    assert PendingIsFresh(s'.db, s'.log) by {
      assert PendingIsFresh(s.db, s.log);
      hide ProposedSince;
    }
    assert ProposersOk(s'.db) && AllTwoPeople(s'.db) by {
      forall id | id in s'.db.changes ensures TwoPeople(s'.db.changes[id]) {
        assert TwoPeople(s.db.changes[id]);
      }
    }
    hide ProposersOk, AllTwoPeople, PendingIsFresh, LastWritten, ShellIsTheLaterWord;
  }

  lemma DeleteKeepsTx(s: State, u: UserId, s': State, t: TxId)
    requires Inv(s) && Next(s, DeleteUser(u), s') && t in s.txs
    ensures TxOk(s', t, s'.txs[t])
  {
    var tx := s.txs[t];
    assert TxOk(s, t, tx);
    hide DbOk, Inv;
    forall id | id in tx.marks ensures MarkOk(s', t, tx, id, tx.marks[id]) {
      assert MarkOk(s, t, tx, id, tx.marks[id]);
    }
    hide MarkOk;
    forall id ensures IsPending(s'.db, id) <==> IsPending(s.db, id) {
    }
    if tx.op.Propose? && tx.pc == Done {
      assert MarkOk(s, t, tx, tx.op.id, tx.marks[tx.op.id]);
      DeletedIsNotProposing(s, u, s', t);
    }
  }

  lemma DeletedIsNotProposing(s: State, u: UserId, s': State, t: TxId)
    requires Inv(s) && Next(s, DeleteUser(u), s') && t in s.txs && s.txs[t].op.Propose? && s.txs[t].pc == Done
    ensures s.txs[t].op.who.user != Some(u)
  {
    var tx := s.txs[t];
    assert TxOk(s, t, tx);
    assert MarkOk(s, t, tx, tx.op.id, tx.marks[tx.op.id]);
    assert tx.marks[tx.op.id] == NewChange(tx.op.who, tx.op.rules);
  }

  lemma DeleteUserKeepsInv(s: State, u: UserId, s': State)
    requires Inv(s) && Next(s, DeleteUser(u), s')
    ensures Inv(s')
  {
    DeleteKeepsDb(s, u, s');
    hide DbOk, TxOk;
    forall t | t in s'.txs ensures TxOk(s', t, s'.txs[t]) {
      DeleteKeepsTx(s, u, s', t);
    }
  }

  // ---------------------------------------------------------------- every run

  lemma NextKeepsInv(s: State, e: Event, s': State)
    requires Inv(s) && Next(s, e, s')
    ensures Inv(s')
  {
    hide Inv;
    match e
    case Begin(t, op) => BeginKeepsInv(s, t, op, s');
    case Acquire(t) => AcquireKeepsInv(s, t, s');
    case Look(t) => LookKeepsInv(s, t, s');
    case Check(t) => CheckKeepsInv(s, t, s');
    case Write(t) => WriteKeepsInv(s, t, s');
    case Mark(t) =>
      match s.txs[t].op {
        case Apply(_) => MarkApply(s, t, s');
        case Propose(_, _, _) => MarkPropose(s, t, s');
        case Confirm(_, _) => MarkConfirm(s, t, s');
        case Discard(_, _) => MarkDiscard(s, t, s');
      }
    case Commit(t) => CommitKeepsInv(s, t, s');
    case Abort(t) => AbortKeepsInv(s, t, s');
    case DeleteUser(u) => DeleteUserKeepsInv(s, u, s');
  }

  lemma {:induction false} RunKeepsInv(states: seq<State>, events: seq<Event>, i: nat)
    requires IsRun(states, events) && i < |states|
    ensures Inv(states[i])
  {
    if i == 0 {
      assert Init(states[0]);
    } else {
      RunKeepsInv(states, events, i - 1);
      assert Next(states[i - 1], events[i - 1], states[i - 1 + 1]);
      hide Inv, Next;
      NextKeepsInv(states[i - 1], events[i - 1], states[i]);
    }
  }

  /** Every rule set ever in force is the last one a host shell wrote, or the frozen content of a
      change that is applied and was confirmed by someone whose user is not its proposer's. */
  lemma RulesInForceAreAccountedFor(states: seq<State>, events: seq<Event>, i: nat)
    requires IsRun(states, events) && i < |states|
    ensures var s := states[i];
            s.db.inForce.Some? ==> exists k :: WroteLast(s, k)
  {
    RunKeepsInv(states, events, i);
    var s := states[i];
    if s.db.inForce.Some? {
      var k := LastWriter(s.log);
      if s.log[k].Confirmed? {
        assert TwoPeople(s.db.changes[s.log[k].id]);
      }
      assert WroteLast(s, k);
    }
  }

  /** Entry `k` is the last that wrote rules, it wrote the ones in force, and it was entitled to. */
  ghost predicate WroteLast(s: State, k: int) {
    && 0 <= k < |s.log|
    && (forall m :: k < m < |s.log| ==> !s.log[m].ShellWrote? && !s.log[m].Confirmed?)
    && match s.log[k]
       case ShellWrote(r) => s.db.inForce == Some(r)
       case Confirmed(id, r, who) =>
         && s.db.inForce == Some(r) && id in s.db.changes
         && var c := s.db.changes[id];
            && c.status == Applied && c.rules == r && c.confirmer == Some(who)
            && (who.user.Some? ==> who.user != c.proposer.user)
       case _ => false
  }

  lemma {:induction false} LastWriter(log: seq<Entry>) returns (k: nat)
    requires LastWritten(log).Some?
    ensures k < |log| && (forall m :: k < m < |log| ==> !log[m].ShellWrote? && !log[m].Confirmed?)
    ensures match log[k]
            case ShellWrote(r) => LastWritten(log) == Some(r)
            case Confirmed(_, r, _) => LastWritten(log) == Some(r)
            case _ => false
    decreases |log|
  {
    var last := log[|log| - 1];
    if last.ShellWrote? || last.Confirmed? {
      k := |log| - 1;
    } else {
      k := LastWriter(log[..|log| - 1]);
    }
  }

  /** A change is applied at most once. */
  lemma AppliedAtMostOnce(states: seq<State>, events: seq<Event>, i: nat, k: nat, m: nat)
    requires IsRun(states, events) && i < |states| && k < m < |states[i].log|
    requires states[i].log[k].Confirmed? && states[i].log[m].Confirmed?
    ensures states[i].log[k].id != states[i].log[m].id
  {
    RunKeepsInv(states, events, i);
  }

  /** A step never rewrites a proposal, and never touches one that has been decided: a superseded or
      discarded change stays so for ever and is never applied. */
  lemma DecidedIsFrozen(s: State, e: Event, s': State, id: ChangeId)
    requires Inv(s) && Next(s, e, s') && id in s.db.changes
    ensures id in s'.db.changes
    ensures s'.db.changes[id].rules == s.db.changes[id].rules && s'.db.changes[id].proposer == s.db.changes[id].proposer
    ensures s.db.changes[id].status != Pending ==> s'.db.changes[id] == s.db.changes[id]
  {
    if e.Commit? && id in s.txs[e.t].marks {
      CommittedRow(s, e.t, id);
    }
  }

  lemma {:induction false} SupersededIsNeverApplied(
    states: seq<State>, events: seq<Event>, i: nat, j: nat, id: ChangeId)
    requires IsRun(states, events) && i <= j < |states|
    requires id in states[i].db.changes && states[i].db.changes[id].status != Pending
    ensures id in states[j].db.changes && states[j].db.changes[id] == states[i].db.changes[id]
    decreases j - i
  {
    if i < j {
      RunKeepsInv(states, events, i);
      assert Next(states[i], events[i], states[i + 1]);
      DecidedIsFrozen(states[i], events[i], states[i + 1], id);
      SupersededIsNeverApplied(states, events, i + 1, j, id);
    }
  }

  /** A host-shell write is the later word: a change confirmed after it was proposed after it. */
  lemma ConfirmedAfterShellWasProposedAfterIt(states: seq<State>, events: seq<Event>, i: nat, k: nat, m: nat)
    requires IsRun(states, events) && i < |states| && k < m < |states[i].log|
    requires states[i].log[k].ShellWrote? && states[i].log[m].Confirmed?
    ensures exists p :: k < p < m && states[i].log[p] == Proposed(states[i].log[m].id)
  {
    RunKeepsInv(states, events, i);
  }

  /** Only a commit, or deleting a user, changes the tables; a refusal or a failure changes nothing,
      and deleting a user changes no rule in force. */
  lemma FailedStepChangesNothing(s: State, e: Event, s': State)
    requires Next(s, e, s')
    ensures !e.Commit? ==> s'.db.inForce == s.db.inForce && s'.log == s.log
    ensures !e.Commit? && !e.DeleteUser? ==> s'.db == s.db
  {
  }

  /** The later checks never fire: whatever happened between the checks and the mark, the row is still
      pending and the schema's two-person check holds. */
  lemma LaterChecksAreRedundant(states: seq<State>, events: seq<Event>, i: nat, t: TxId)
    requires IsRun(states, events) && i < |states| && t in states[i].txs
    requires states[i].txs[t].op.Confirm? && (states[i].txs[t].pc == Checked || states[i].txs[t].pc == Wrote)
    ensures var s := states[i]; var op := s.txs[t].op;
            IsPending(s.db, op.id) && TwoPeopleCheck(AppliedBy(s.db.changes[op.id], op.who))
  {
    RunKeepsInv(states, events, i);
    assert TxOk(states[i], t, states[i].txs[t]);
  }

  /** By itself the schema refuses an applied row exactly when its confirmer's user is the one recorded as
      its proposer. */
  lemma SchemaRefusesIff(c: Change, who: Requester)
    ensures !TwoPeopleCheck(AppliedBy(c, who)) <==> who.user.Some? && c.proposedBy == who.user
  {
  }

  // ---------------------------------------------------------------- one person

  /** If the proposer confirmed their own change, they acted without a user id. */
  lemma SelfConfirmationNeedsNoUser(states: seq<State>, events: seq<Event>, i: nat, k: nat)
    requires IsRun(states, events) && i < |states| && k < |states[i].log| && states[i].log[k].Confirmed?
    ensures var s := states[i]; var c := s.log[k];
            c.id in s.db.changes && (s.db.changes[c.id].proposer == c.who ==> c.who.user == None)
  {
    RunKeepsInv(states, events, i);
    assert TwoPeople(states[i].db.changes[states[i].log[k].id]);
  }

  /** In every reachable state, the tests of the domain and of the schema let a proposer who still
      exists confirm their own pending change exactly when they act without a user id. */
  lemma SelfConfirmationIff(states: seq<State>, events: seq<Event>, i: nat, id: ChangeId)
    requires IsRun(states, events) && i < |states| && IsPending(states[i].db, id)
    requires UserOk(states[i].db, states[i].db.changes[id].proposer.user)
    ensures var c := states[i].db.changes[id];
            ConfirmableBy(c, c.proposer) && TwoPeopleCheck(AppliedBy(c, c.proposer)) <==> c.proposer.user == None
  {
    RunKeepsInv(states, events, i);
    assert ProposersOk(states[i].db);
  }

  lemma Extend(states: seq<State>, events: seq<Event>, e: Event, s': State)
    returns (states': seq<State>, events': seq<Event>)
    requires IsRun(states, events) && Next(states[|states| - 1], e, s')
    ensures IsRun(states', events') && states' == states + [s'] && events' == events + [e]
  {
    states', events' := states + [s'], events + [e];
    hide Next;
    forall i | 0 <= i < |events'| ensures Next(states'[i], events'[i], states'[i + 1]) {
      if i < |events| {
        assert Next(states[i], events[i], states[i + 1]);
      }
    }
  }

  // The run, state by state: transaction 7 proposes change 1 and transaction 8 confirms it.

  ghost function Proposing(who: Requester, rules: Rules, pc: Pc): State {
    var tx := Tx(Propose(1, who, rules), pc, None, None, if pc == Done then map[1 := NewChange(who, rules)] else map[]);
    State(Db(None, map[], {}), if pc == Started then None else Some(7), if pc == Done then map[1 := 7] else map[],
          map[7 := tx], [])
  }

  ghost function PendingOnly(who: Requester, rules: Rules): State {
    State(Db(None, map[1 := NewChange(who, rules)], {}), None, map[], map[], [Proposed(1)])
  }

  ghost function Confirming(who: Requester, rules: Rules, pc: Pc): State {
    var c := NewChange(who, rules);
    var tx := Tx(Confirm(1, who), pc, if pc == Started || pc == Locked then None else Some(c),
      if pc == Wrote || pc == Done then Some(rules) else None,
      if pc == Done then map[1 := AppliedBy(c, who)] else map[]);
    PendingOnly(who, rules).(lock := if pc == Started then None else Some(8),
      rowLocks := if pc == Started || pc == Locked then map[] else map[1 := 8], txs := map[8 := tx])
  }

  lemma NilUserProposes(who: Requester, rules: Rules) returns (states: seq<State>, events: seq<Event>)
    requires who.user == None
    ensures IsRun(states, events) && states[|states| - 1] == PendingOnly(who, rules)
  {
    var s0 := State(Db(None, map[], {}), None, map[], map[], []);
    states, events := [s0], [];
    assert IsRun(states, events);
    ProposeStarts(who, rules, s0);
    ProposeLooks(who, rules);
    ProposeEnds(who, rules);
    hide *;
    states, events := Extend(states, events, Begin(7, Propose(1, who, rules)), Proposing(who, rules, Started));
    states, events := Extend(states, events, Acquire(7), Proposing(who, rules, Locked));
    states, events := Extend(states, events, Look(7), Proposing(who, rules, Looked));
    states, events := Extend(states, events, Mark(7), Proposing(who, rules, Done));
    states, events := Extend(states, events, Commit(7), PendingOnly(who, rules));
  }

  lemma ProposeStarts(who: Requester, rules: Rules, s0: State)
    requires s0 == State(Db(None, map[], {}), None, map[], map[], [])
    ensures Next(s0, Begin(7, Propose(1, who, rules)), Proposing(who, rules, Started))
    ensures Next(Proposing(who, rules, Started), Acquire(7), Proposing(who, rules, Locked))
  {
  }

  lemma ProposeLooks(who: Requester, rules: Rules)
    requires who.user == None
    ensures Next(Proposing(who, rules, Locked), Look(7), Proposing(who, rules, Looked))
    ensures Next(Proposing(who, rules, Looked), Mark(7), Proposing(who, rules, Done))
  {
    var s := Proposing(who, rules, Locked);
    assert Superseding(s.db, None) == map[] && LockRows(s, 7, {}) == map[];
    assert LockRows(Proposing(who, rules, Looked), 7, {1}) == map[1 := 7];
  }

  lemma ProposeEnds(who: Requester, rules: Rules)
    ensures Next(Proposing(who, rules, Done), Commit(7), PendingOnly(who, rules))
  {
    var s := Proposing(who, rules, Done);
    assert Release(Committed(s, s.txs[7]), 7) == PendingOnly(who, rules);
  }

  lemma ConfirmStarts(who: Requester, rules: Rules)
    ensures Next(PendingOnly(who, rules), Begin(8, Confirm(1, who)), Confirming(who, rules, Started))
    ensures Next(Confirming(who, rules, Started), Acquire(8), Confirming(who, rules, Locked))
  {
  }

  lemma ConfirmLooks(who: Requester, rules: Rules)
    requires who.user == None
    ensures Next(Confirming(who, rules, Locked), Look(8), Confirming(who, rules, Looked))
    ensures Next(Confirming(who, rules, Looked), Check(8), Confirming(who, rules, Checked))
  {
    assert LockRows(Confirming(who, rules, Locked), 8, {1}) == map[1 := 8];
  }

  lemma ConfirmEnds(who: Requester, rules: Rules)
    requires who.user == None
    ensures Next(Confirming(who, rules, Checked), Write(8), Confirming(who, rules, Wrote))
    ensures Next(Confirming(who, rules, Wrote), Mark(8), Confirming(who, rules, Done))
  {
  }

  lemma ConfirmCommits(who: Requester, rules: Rules) returns (end: State)
    ensures Next(Confirming(who, rules, Done), Commit(8), end)
    ensures end.db.inForce == Some(rules) && end.log == [Proposed(1), Confirmed(1, rules, who)]
    ensures 1 in end.db.changes && end.db.changes[1].proposer == who
  {
    var done := Confirming(who, rules, Done);
    end := Release(Committed(done, done.txs[8]), 8);
  }

  /** And without one they can: the domain's test and the schema's both pass a nil user id. */
  lemma NilUserConfirmsOwnChange(person: nat, rules: Rules) returns (states: seq<State>, events: seq<Event>)
    ensures IsRun(states, events)
    ensures var s := states[|states| - 1]; var who := Requester(person, None);
            s.db.inForce == Some(rules) && s.log == [Proposed(1), Confirmed(1, rules, who)]
            && 1 in s.db.changes && s.db.changes[1].proposer == who
  {
    var who := Requester(person, None);
    states, events := NilUserProposes(who, rules);
    ConfirmStarts(who, rules);
    ConfirmLooks(who, rules);
    ConfirmEnds(who, rules);
    var end := ConfirmCommits(who, rules);
    hide *;
    states, events := Extend(states, events, Begin(8, Confirm(1, who)), Confirming(who, rules, Started));
    states, events := Extend(states, events, Acquire(8), Confirming(who, rules, Locked));
    states, events := Extend(states, events, Look(8), Confirming(who, rules, Looked));
    states, events := Extend(states, events, Check(8), Confirming(who, rules, Checked));
    states, events := Extend(states, events, Write(8), Confirming(who, rules, Wrote));
    states, events := Extend(states, events, Mark(8), Confirming(who, rules, Done));
    states, events := Extend(states, events, Commit(8), end);
  }
}
