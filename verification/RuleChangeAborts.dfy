/** A transaction that aborts might as well never have begun: take its steps out of a run and a run
    remains that ends in the same state. It delayed nobody into a different outcome. */
module RuleChangeAborts {
  import opened RuleChange
  import opened RuleChangeProofs
  import opened Wrappers

  function TxOf(e: Event): Option<TxId> {
    if e.DeleteUser? then None else Some(e.t)
  }

  /** The first `i` events, less those of transaction `t` from event `b` on. */
  function Without(events: seq<Event>, t: TxId, b: nat, i: nat): seq<Event>
    requires b <= i <= |events|
    decreases i
  {
    if i == b then events[..b]
    else Without(events, t, b, i - 1) + if TxOf(events[i - 1]) == Some(t) then [] else [events[i - 1]]
  }

  // ---------------------------------------------------------------- one step

  lemma ReleaseLocks(s: State, t: TxId, u: TxId, ids: set<ChangeId>)
    requires u != t
    ensures Release(s.(rowLocks := LockRows(s, u, ids)), t).rowLocks == LockRows(Release(s, t), u, ids)
  {
  }

  lemma ReleaseWithLocks(s: State, t: TxId, u: TxId, tx: Tx, ids: set<ChangeId>)
    requires u != t
    ensures Release(With(s, u, tx).(rowLocks := LockRows(s, u, ids)), t)
         == With(Release(s, t), u, tx).(rowLocks := LockRows(Release(s, t), u, ids))
  {
    ReleaseLocks(s, t, u, ids);
    ReleaseWith(s, t, u, tx);
    hide LockRows;
  }

  lemma ReleaseWith(s: State, t: TxId, u: TxId, tx: Tx)
    requires u != t
    ensures Release(With(s, u, tx), t) == With(Release(s, t), u, tx)
  {
  }

  lemma ReleaseTwice(s: State, t: TxId, u: TxId)
    ensures Release(Release(s, u), t) == Release(Release(s, t), u)
  {
  }

  /** A step of another transaction, or of none, is as possible when `t` holds nothing. */
  lemma LookCommutes(s: State, u: TxId, s': State, t: TxId)
    requires u in s.txs && u != t && NextLook(s, u, s.txs[u], s')
    ensures NextLook(Release(s, t), u, s.txs[u], Release(s', t))
  {
    var tx := s.txs[u];
    match tx.op
    case Confirm(id, who) =>
      ReleaseWithLocks(s, t, u, tx.(pc := Looked, seen := Some(s.db.changes[id])), {id});
      hide LockRows, Superseding;
    case Propose(id, who, rules) =>
      var marks := Superseding(s.db, who.user);
      ReleaseWithLocks(s, t, u, tx.(pc := Looked, marks := marks), marks.Keys);
      hide LockRows, Superseding;
    case _ =>
  }

  lemma MarkCommutes(s: State, u: TxId, s': State, t: TxId)
    requires u in s.txs && u != t && NextMark(s, u, s.txs[u], s')
    ensures NextMark(Release(s, t), u, s.txs[u], Release(s', t))
  {
    var tx, tx' := s.txs[u], s'.txs[u];
    match tx.op
    case Apply(_) =>
      ReleaseWithLocks(s, t, u, tx', tx'.marks.Keys);
      hide LockRows, Superseding;
    case Propose(id, who, rules) =>
      ReleaseWithLocks(s, t, u, tx', {id});
      hide LockRows, Superseding;
    case Confirm(id, who) =>
      ReleaseWith(s, t, u, tx');
      hide LockRows, Superseding;
    case Discard(id, who) =>
      ReleaseWithLocks(s, t, u, tx', {id});
      hide LockRows, Superseding;
  }

  lemma CommitCommutes(s: State, u: TxId, t: TxId)
    requires u in s.txs && u != t
    ensures Release(Release(Committed(s, s.txs[u]), u), t) == Release(Committed(Release(s, t), s.txs[u]), u)
  {
    ReleaseTwice(Committed(s, s.txs[u]), t, u);
    assert Release(Committed(s, s.txs[u]), t) == Committed(Release(s, t), s.txs[u]);
  }

  lemma OtherStep(s: State, e: Event, s': State, t: TxId)
    requires t in s.txs && Next(s, e, s') && TxOf(e) != Some(t)
    ensures t in s'.txs && Next(Release(s, t), e, Release(s', t))
  {
    match e
    case Begin(u, op) => ReleaseWith(s, t, u, s'.txs[u]);
    case Acquire(u) => ReleaseWith(s, t, u, s'.txs[u]);
    case Look(u) => LookCommutes(s, u, s', t);
    case Check(u) => ReleaseWith(s, t, u, s'.txs[u]);
    case Write(u) => ReleaseWith(s, t, u, s'.txs[u]);
    case Mark(u) => MarkCommutes(s, u, s', t);
    case Commit(u) => CommitCommutes(s, u, t);
    case Abort(u) => ReleaseTwice(s, t, u);
    case DeleteUser(u) =>
  }

  lemma PrivateErased(s: State, t: TxId, s': State)
    requires Private(s, t, s')
    ensures Release(s', t) == Release(s, t)
  {
    assert Release(s', t).rowLocks == Release(s, t).rowLocks;
    assert Release(s', t).txs == Release(s, t).txs;
  }

  /** A step of `t` that does not end it changes nothing but what `t` holds. */
  lemma OwnStep(s: State, e: Event, s': State, t: TxId)
    requires t in s.txs && Next(s, e, s') && TxOf(e) == Some(t) && !e.Commit? && !e.Abort?
    ensures t in s'.txs && Release(s', t) == Release(s, t)
  {
    if e.Look? {
      LookIsPrivate(s, t, s');
    } else if e.Mark? {
      MarkIsPrivate(s, t, s');
    }
    hide NextLook, NextMark, Release;
    PrivateErased(s, t, s');
  }

  lemma FirstStep(s: State, t: TxId, op: Op, s': State)
    requires Inv(s) && Next(s, Begin(t, op), s')
    ensures t in s'.txs && Release(s', t) == s
  {
    hide DbOk, TxOk;
  }

  // ---------------------------------------------------------------- the run

  /** Transaction `t` begins at event `b` and aborts at event `a`. */
  ghost predicate AbortsAt(events: seq<Event>, t: TxId, b: nat, a: nat) {
    && b < a < |events|
    && events[b].Begin? && events[b].t == t && events[a] == Abort(t)
    && forall i :: b < i < a ==> events[i] != Commit(t) && events[i] != Abort(t)
  }

  lemma ErasedNext(
    states: seq<State>, events: seq<Event>, t: TxId, b: nat, i: nat, before: seq<State>) returns (after: seq<State>)
    requires IsRun(states, events) && b <= i < |events| && t in states[i].txs
    requires events[i] != Commit(t) && events[i] != Abort(t)
    requires IsRun(before, Without(events, t, b, i)) && before[|before| - 1] == Release(states[i], t)
    ensures IsRun(after, Without(events, t, b, i + 1))
    ensures t in states[i + 1].txs && after[|after| - 1] == Release(states[i + 1], t)
  {
    var s, e, s' := states[i], events[i], states[i + 1];
    assert Next(states[i], events[i], states[i + 1]);
    hide Next, Release;
    if TxOf(e) == Some(t) {
      OwnStep(s, e, s', t);
      after := before;
    } else {
      OtherStep(s, e, s', t);
      hide IsRun;
      var more: seq<Event>;
      after, more := Extend(before, Without(events, t, b, i), e, Release(s', t));
    }
  }

  lemma ErasedBegin(states: seq<State>, events: seq<Event>, t: TxId, b: nat)
    requires IsRun(states, events) && b < |events| && events[b].Begin? && events[b].t == t
    ensures IsRun(states[..b + 1], Without(events, t, b, b + 1))
    ensures t in states[b + 1].txs && states[b] == Release(states[b + 1], t)
  {
    assert Next(states[b], events[b], states[b + 1]);
    RunKeepsInv(states, events, b);
    PrefixRuns(states, events, b);
    FirstStep(states[b], t, events[b].op, states[b + 1]);
    assert Without(events, t, b, b + 1) == events[..b];
  }

  /** While `t` is in flight, the run without its steps is where the run is but for what `t` holds: the
      tables and the history are the same. */
  lemma {:induction false} ErasedInFlight(states: seq<State>, events: seq<Event>, t: TxId, b: nat, a: nat, i: nat)
    returns (states': seq<State>)
    requires IsRun(states, events) && AbortsAt(events, t, b, a) && b < i <= a
    ensures IsRun(states', Without(events, t, b, i))
    ensures t in states[i].txs && states'[|states'| - 1] == Release(states[i], t)
    decreases i
  {
    hide Next, Release, Without;
    if i == b + 1 {
      ErasedBegin(states, events, t, b);
      states' := states[..b + 1];
    } else {
      states' := ErasedInFlight(states, events, t, b, a, i - 1);
      states' := ErasedNext(states, events, t, b, i - 1, states');
    }
  }

  lemma PrefixRuns(states: seq<State>, events: seq<Event>, n: nat)
    requires IsRun(states, events) && n <= |events|
    ensures IsRun(states[..n + 1], events[..n])
  {
    hide Next;
    forall i | 0 <= i < n ensures Next(states[..n + 1][i], events[..n][i], states[..n + 1][i + 1]) {
      assert Next(states[i], events[i], states[i + 1]);
    }
  }

  /** A run that ends where another stands can go on as that one does. */
  lemma Joins(p: seq<State>, pe: seq<Event>, states: seq<State>, events: seq<Event>, n: nat)
    requires IsRun(p, pe) && IsRun(states, events) && n < |states| && p[|p| - 1] == states[n]
    ensures IsRun(p + states[n + 1..], pe + events[n..])
  {
    hide Next;
    var q, qe := p + states[n + 1..], pe + events[n..];
    forall i | 0 <= i < |qe| ensures Next(q[i], qe[i], q[i + 1]) {
      if i < |pe| {
        assert Next(p[i], pe[i], p[i + 1]);
      } else {
        var k := n + (i - |pe|);
        assert Next(states[k], events[k], states[k + 1]);
        assert q[i] == states[k] && q[i + 1] == states[k + 1];
      }
    }
  }

  /** Taking every step of an aborted transaction out of a run leaves a run to the same final state. */
  lemma AbortedNeverBegan(states: seq<State>, events: seq<Event>, t: TxId, b: nat, a: nat)
    returns (states': seq<State>)
    requires IsRun(states, events) && AbortsAt(events, t, b, a)
    ensures IsRun(states', Without(events, t, b, a + 1) + events[a + 1..])
    ensures states'[|states'| - 1] == states[|states| - 1]
  {
    states' := ErasedInFlight(states, events, t, b, a, a);
    assert Next(states[a], events[a], states[a + 1]);
    assert states[a + 1] == Release(states[a], t);
    hide Next, Release;
    assert Without(events, t, b, a + 1) == Without(events, t, b, a);
    hide Without;
    Joins(states', Without(events, t, b, a + 1), states, events, a + 1);
    states' := states' + states[a + 2..];
  }
}
