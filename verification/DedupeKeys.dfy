/** How long an event's dedupe key must outlive the payload it makes replayable: the horizon of
    `dedupeKeyHorizonOf` against the daily partition-drop rule. */
module DedupeKeys {
  import opened Retention
  import opened Wrappers

  const GRAIN_DAYS := 1
  const DEDUPE_KEY_RETENTION: nat := 30 * DAY

  function HorizonOf(rawDays: nat): nat {
    var horizon := (rawDays + GRAIN_DAYS) * DAY;
    if horizon < DEDUPE_KEY_RETENTION then DEDUPE_KEY_RETENTION else horizon
  }

  /** The prune deletes keys with `created_at < now - horizon`. */
  predicate Sweepable(created: nat, horizon: nat, now: nat) {
    created + horizon < now
  }

  /** A payload that is not yet droppable has a key that is not yet sweepable; the key is written
      when the payload is processed, at or after its receipt. */
  lemma KeyOutlivesPayload(rawDays: nat, at: nat, created: nat, now: nat)
    requires at <= created && !Droppable(at, rawDays, now)
    ensures !Sweepable(created, HorizonOf(rawDays), now)
  {
    DayEnd(at);
    assert (at / DAY + 1) * DAY == at / DAY * DAY + DAY;
    assert (rawDays + GRAIN_DAYS) * DAY == rawDays * DAY + DAY;
  }

  ghost predicate Outlives(rawDays: nat, horizon: nat) {
    forall at: nat, created: nat, now: nat ::
      at <= created && !Droppable(at, rawDays, now) ==> !Sweepable(created, horizon, now)
  }

  /** The extra grain day is the drop rule and not a margin: a horizon outlives every payload exactly
      when it reaches a full day past the raw window, to the nanosecond. */
  lemma GrainIsExact(rawDays: nat, horizon: nat)
    ensures Outlives(rawDays, horizon) <==> horizon + 1 >= (rawDays + GRAIN_DAYS) * DAY
  {
    assert (rawDays + GRAIN_DAYS) * DAY == rawDays * DAY + DAY;
    if Outlives(rawDays, horizon) {
      var now: nat := (rawDays + GRAIN_DAYS) * DAY - 1;
      assert !Droppable(0, rawDays, now);
      assert !Sweepable(0, horizon, now);
    }
    if horizon + 1 >= (rawDays + GRAIN_DAYS) * DAY {
      forall at: nat, created: nat, now: nat | at <= created && !Droppable(at, rawDays, now)
        ensures !Sweepable(created, horizon, now)
      {
        DayEnd(at);
        assert (at / DAY + 1) * DAY == at / DAY * DAY + DAY;
      }
    }
  }

  /** So the horizon in use outlives every payload, and past the fixed retention it is the least that
      does, give or take the nanosecond of the strict comparison. */
  lemma HorizonIsLeast(rawDays: nat, shorter: nat)
    ensures Outlives(rawDays, HorizonOf(rawDays))
    ensures HorizonOf(rawDays) >= 30 * DAY
    ensures Outlives(rawDays, 30 * DAY) ==> HorizonOf(rawDays) == 30 * DAY
    ensures HorizonOf(rawDays) > 30 * DAY && shorter + 1 < HorizonOf(rawDays) ==> !Outlives(rawDays, shorter)
  {
    GrainIsExact(rawDays, HorizonOf(rawDays));
    GrainIsExact(rawDays, shorter);
    GrainIsExact(rawDays, 30 * DAY);
    hide Outlives;
  }

  /** With the bare raw window, a batch received five minutes into a day loses its key while its
      payload is still stored. */
  lemma WithoutGrainAKeyDiesEarly(rawDays: nat)
    ensures var at := 5 * HOUR / 60; var now := rawDays * DAY + DAY - 1;
            !Droppable(at, rawDays, now) && Sweepable(at, rawDays * DAY, now)
  {
    assert 5 * HOUR / 60 / DAY == 0;
  }

  // ---------------------------------------------------------------- the two jobs over time

  /** `stored` maps a batch to its receipt, `keys` to when its key was claimed, and `claimed` is
      every batch that was ever processed. */
  datatype Tables = Tables(clock: nat, stored: map<nat, nat>, keys: map<nat, nat>, claimed: set<nat>)

  type Read = Option<(nat, nat)>

  /** `partitions.manage` and `retention.prune` are separate hourly jobs, and each reads the settings for
      itself: `read` is what it was answered, None for a failed read. A prune is bounded, so it deletes
      any part of what it may. */
  datatype Job =
    | Receive(id: nat)
    | Process(id: nat)
    | Manage(read: Read)
    | Prune(read: Read, gone: set<nat>)

  ghost predicate Runs(rawPayloads: nat, s: Tables, e: Job, s': Tables) {
    && s.clock <= s'.clock
    && match e
       case Receive(id) =>
         id !in s.stored && id !in s.claimed && s' == s.(clock := s'.clock, stored := s.stored[id := s'.clock])
       case Process(id) =>
         && id in s.stored && id !in s.claimed && s.stored[id] <= s'.clock
         && s' == s.(clock := s'.clock, keys := s.keys[id := s'.clock], claimed := s.claimed + {id})
       case Manage(read) =>
         s' == s.(clock := s'.clock, stored := Kept(s.stored, RawWindow(rawPayloads, read), s'.clock))
       case Prune(read, gone) =>
         && (forall id :: id in gone ==>
              id in s.keys && Sweepable(s.keys[id], HorizonOf(RawWindow(rawPayloads, read)), s'.clock))
         && s' == s.(clock := s'.clock, keys := s.keys - gone)
  }

  function Kept(stored: map<nat, nat>, rawDays: nat, now: nat): map<nat, nat> {
    map id | id in stored && !Droppable(stored[id], rawDays, now) :: stored[id]
  }

  ghost predicate IsHistory(rawPayloads: nat, states: seq<Tables>, jobs: seq<Job>) {
    && |states| == |jobs| + 1
    && states[0] == Tables(0, map[], map[], {})
    && forall i :: 0 <= i < |jobs| ==> Runs(rawPayloads, states[i], jobs[i], states[i + 1])
  }

  /** `partitions.manage` leaves a payload exactly when some instant of the day it was received is inside
      the window the job read. */
  lemma ManageKeepsIff(rawPayloads: nat, s: Tables, read: Read, s': Tables, id: nat)
    requires Runs(rawPayloads, s, Manage(read), s') && id in s.stored
    ensures id in s'.stored <==>
            exists other: nat :: SameDay(other, s.stored[id]) && other + RawWindow(rawPayloads, read) * DAY >= s'.clock
    ensures id in s'.stored ==> s'.stored[id] == s.stored[id]
    ensures s'.keys == s.keys
  {
    DroppableIff(s.stored[id], RawWindow(rawPayloads, read), s'.clock);
  }

  /** Keys are of processed payloads and no older than their receipts. */
  ghost predicate KeysOk(s: Tables) {
    && (forall id :: id in s.stored && id in s.keys ==> s.stored[id] <= s.keys[id])
    && forall id :: id in s.keys ==> id in s.claimed
  }

  /** The job was a prune that found the processed payload stored and droppable under the window it read itself. */
  ghost predicate PrunedWhileDroppable(rawPayloads: nat, states: seq<Tables>, jobs: seq<Job>, j: int, id: nat) {
    && 0 <= j < |jobs| && j + 1 < |states|
    && jobs[j].Prune? && id in states[j].stored && id in states[j].claimed
    && Droppable(states[j].stored[id], RawWindow(rawPayloads, jobs[j].read), states[j + 1].clock)
  }

  ghost predicate KeyedUnlessPruned(rawPayloads: nat, states: seq<Tables>, jobs: seq<Job>, i: nat, id: nat)
    requires i < |states|
  {
    id in states[i].stored && id in states[i].claimed ==>
      id in states[i].keys || exists j :: j < i && PrunedWhileDroppable(rawPayloads, states, jobs, j, id)
  }

  /** What one job does to a processed, stored payload: it had its key before and has it after, or the
      job is a prune and the payload is droppable under that prune's own window. */
  lemma JobKeepsKey(rawPayloads: nat, s: Tables, e: Job, s': Tables, id: nat)
    requires KeysOk(s) && Runs(rawPayloads, s, e, s')
    ensures KeysOk(s')
    ensures id in s'.stored && id in s'.claimed && id !in s'.keys ==>
              && id in s.stored && id in s.claimed && s'.stored[id] == s.stored[id]
              && (id in s.keys ==> e.Prune? && Droppable(s.stored[id], RawWindow(rawPayloads, e.read), s'.clock))
  {
    if e.Prune? && id in s.keys && id in s.stored {
      var w := RawWindow(rawPayloads, e.read);
      if !Droppable(s.stored[id], w, s'.clock) {
        KeyOutlivesPayload(w, s.stored[id], s.keys[id], s'.clock);
      }
      hide Droppable, Sweepable, HorizonOf, RawWindow;
    } else {
      hide Sweepable, HorizonOf;
    }
  }

  /** In every history, whatever windows the jobs read, a processed payload that is stored without its
      key was droppable, under that prune's own window, at an earlier prune. */
  lemma {:induction false} StoredPayloadsKeepTheirKeys(
    rawPayloads: nat, states: seq<Tables>, jobs: seq<Job>, i: nat, id: nat)
    requires IsHistory(rawPayloads, states, jobs) && i < |states|
    ensures KeysOk(states[i]) && KeyedUnlessPruned(rawPayloads, states, jobs, i, id)
  {
    if i > 0 {
      StoredPayloadsKeepTheirKeys(rawPayloads, states, jobs, i - 1, id);
      var s, e, s' := states[i - 1], jobs[i - 1], states[i];
      assert Runs(rawPayloads, states[i - 1], jobs[i - 1], states[i - 1 + 1]);
      JobKeepsKey(rawPayloads, s, e, s', id);
      hide Runs, Droppable, RawWindow;
      if id in s'.stored && id in s'.claimed && id !in s'.keys {
        if id in s.keys {
          assert PrunedWhileDroppable(rawPayloads, states, jobs, i - 1, id);
        } else {
          var j :| j < i - 1 && PrunedWhileDroppable(rawPayloads, states, jobs, j, id);
          assert j < i;
        }
      }
    }
  }

  lemma {:induction false} ReceiptStays(
    rawPayloads: nat, states: seq<Tables>, jobs: seq<Job>, j: nat, i: nat, id: nat)
    requires IsHistory(rawPayloads, states, jobs) && j <= i < |states|
    requires id in states[j].stored && id in states[i].stored && id in states[j].claimed
    ensures states[i].stored[id] == states[j].stored[id] && states[j].clock <= states[i].clock
    ensures id in states[i].claimed
    decreases i - j
  {
    if j < i {
      assert Runs(rawPayloads, states[j], jobs[j], states[j + 1]);
      if id !in states[j + 1].stored {
        StaysGone(rawPayloads, states, jobs, j + 1, i, id);
      } else {
        ReceiptStays(rawPayloads, states, jobs, j + 1, i, id);
      }
    }
  }

  lemma {:induction false} StaysGone(
    rawPayloads: nat, states: seq<Tables>, jobs: seq<Job>, j: nat, i: nat, id: nat)
    requires IsHistory(rawPayloads, states, jobs) && j <= i < |states|
    requires id in states[j].claimed && id !in states[j].stored
    ensures id !in states[i].stored
    decreases i - j
  {
    if j < i {
      assert Runs(rawPayloads, states[j], jobs[j], states[j + 1]);
      StaysGone(rawPayloads, states, jobs, j + 1, i, id);
    }
  }

  lemma StillDroppable(at: nat, wide: nat, narrow: nat, past: nat, now: nat)
    requires narrow <= wide && past <= now && Droppable(at, wide, past)
    ensures Droppable(at, narrow, now)
  {
    assert narrow * DAY <= wide * DAY;
  }

  ghost predicate PrunedWithin(rawPayloads: nat, jobs: seq<Job>, n: nat, w: nat)
    requires n <= |jobs|
  {
    forall j :: 0 <= j < n && jobs[j].Prune? ==> RawWindow(rawPayloads, jobs[j].read) >= w
  }

  /** So against the narrowest window any prune has read, and against any narrower one, every processed
      payload that is stored and not yet droppable has its key. */
  lemma KeyedAtTheNarrowestWindow(
    rawPayloads: nat, states: seq<Tables>, jobs: seq<Job>, i: nat, w: nat, id: nat)
    requires IsHistory(rawPayloads, states, jobs) && i < |states| && PrunedWithin(rawPayloads, jobs, i, w)
    requires id in states[i].stored && id in states[i].claimed
    ensures id in states[i].keys || Droppable(states[i].stored[id], w, states[i].clock)
  {
    StoredPayloadsKeepTheirKeys(rawPayloads, states, jobs, i, id);
    if id !in states[i].keys {
      var j :| j < i && PrunedWhileDroppable(rawPayloads, states, jobs, j, id);
      assert Runs(rawPayloads, states[j], jobs[j], states[j + 1]);
      assert id in states[j + 1].stored && states[j + 1].stored[id] == states[j].stored[id];
      ReceiptStays(rawPayloads, states, jobs, j + 1, i, id);
      var wide := RawWindow(rawPayloads, jobs[j].read);
      StillDroppable(states[i].stored[id], wide, w, states[j + 1].clock, states[i].clock);
    }
  }

  ghost predicate AllKeyed(s: Tables) {
    forall id :: id in s.stored && id in s.claimed ==> id in s.keys
  }

  /** A prune that reads the narrowest window so far and finds nothing stored droppable under it leaves
      every stored payload its key. */
  lemma PruneAfterManageIsSafe(rawPayloads: nat, states: seq<Tables>, jobs: seq<Job>, i: nat)
    requires IsHistory(rawPayloads, states, jobs) && i < |jobs| && jobs[i].Prune?
    requires PrunedWithin(rawPayloads, jobs, i, RawWindow(rawPayloads, jobs[i].read))
    requires forall id :: id in states[i].stored ==>
               !Droppable(states[i].stored[id], RawWindow(rawPayloads, jobs[i].read), states[i + 1].clock)
    ensures AllKeyed(states[i + 1])
  {
    var w := RawWindow(rawPayloads, jobs[i].read);
    assert Runs(rawPayloads, states[i], jobs[i], states[i + 1]);
    var s := states[i + 1];
    forall id | id in s.stored && id in s.claimed ensures id in s.keys {
      KeyedAtTheNarrowestWindow(rawPayloads, states, jobs, i + 1, w, id);
    }
  }

  /** Exactly when a prune can cost a stored payload its key: from tables where none is missing, every
      prune under this reading and at this instant keeps it so if and only if no stored payload's key is
      sweepable under the horizon of that reading. */
  lemma PruneKeepsKeysIff(rawPayloads: nat, s: Tables, read: Read, now: nat)
    requires KeysOk(s) && AllKeyed(s) && s.clock <= now
    ensures (forall gone, s' :: Runs(rawPayloads, s, Prune(read, gone), s') && s'.clock == now ==> AllKeyed(s')) <==>
            (forall id :: id in s.stored && id in s.keys ==>
               !Sweepable(s.keys[id], HorizonOf(RawWindow(rawPayloads, read)), now))
  {
    var horizon := HorizonOf(RawWindow(rawPayloads, read));
    hide RawWindow, HorizonOf, Sweepable;
    if id :| id in s.stored && id in s.keys && Sweepable(s.keys[id], horizon, now) {
      var s' := s.(clock := now, keys := s.keys - {id});
      assert Runs(rawPayloads, s, Prune(read, {id}), s');
      assert id in s'.stored && id in s'.claimed && id !in s'.keys;
      assert !AllKeyed(s');
    }
  }

  // ---------------------------------------------------------------- two histories

  /** The tables after batch 7 was received and processed at the start of time and pruned at `now`. */
  lemma PruneFirst(now: nat) returns (states: seq<Tables>, jobs: seq<Job>)
    requires now > 31 * DAY
    ensures IsHistory(30 * DAY, states, jobs) && |states| == 4
    ensures states[3] == Tables(now, map[7 := 0], map[], {7}) && jobs[2] == Prune(Some((30 * DAY, MONTH)), {7})
  {
    var stored: map<nat, nat> := map[7 := 0];
    states := [Tables(0, map[], map[], {}), Tables(0, stored, map[], {}), Tables(0, stored, map[7 := 0], {7}),
               Tables(now, stored, map[], {7})];
    var read := Some((30 * DAY, MONTH));
    jobs := [Receive(7), Process(7), Prune(read, {7})];
    assert Runs(30 * DAY, states[0], jobs[0], states[1]);
    assert Runs(30 * DAY, states[1], jobs[1], states[2]);
    assert RawWindow(30 * DAY, read) == 30 && HorizonOf(30) == 31 * DAY;
    assert map[7 := 0] - {7} == map[];
    assert Runs(30 * DAY, states[2], jobs[2], states[3]);
  }

  /** Run the prune first in the hour a partition expires, and a payload is stored without its key. */
  lemma PruneBeforeManageLosesAKey() returns (states: seq<Tables>, jobs: seq<Job>)
    ensures IsHistory(30 * DAY, states, jobs) && |states| == 4
    ensures 7 in states[3].stored && 7 in states[3].claimed && 7 !in states[3].keys
  {
    states, jobs := PruneFirst(31 * DAY + 1);
  }

  /** If the next `partitions.manage` then fails to read the settings, it keeps a year, and the payload
      stays, without its key and not droppable under the window in use. */
  lemma WiderReadingKeepsAKeylessPayload() returns (states: seq<Tables>, jobs: seq<Job>)
    ensures IsHistory(30 * DAY, states, jobs) && |states| == 5 && jobs[3] == Manage(None)
    ensures 7 in states[4].stored && 7 in states[4].claimed && 7 !in states[4].keys
    ensures !Droppable(states[4].stored[7], RawWindow(30 * DAY, jobs[3].read), states[4].clock)
  {
    var before, first := PruneFirst(31 * DAY + 1);
    var s := before[3];
    states, jobs := before + [s], first + [Manage(None)];
    assert RawWindow(30 * DAY, None) == 365;
    assert !Droppable(0, 365, s.clock);
    assert Kept(s.stored, 365, s.clock) == s.stored;
    assert Runs(30 * DAY, s, Manage(None), s);
    forall i | 0 <= i < |jobs| ensures Runs(30 * DAY, states[i], jobs[i], states[i + 1]) {
      if i < 3 {
        assert Runs(30 * DAY, before[i], first[i], before[i + 1]);
      }
    }
  }
}
