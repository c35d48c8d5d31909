/**
 * What every run of the delivery protocol keeps, over all interleavings, answers and crashes.
 */
module DeliverySafety {
  import opened Prelude
  import opened AlertTable
  import T = Telegram
  import C = Cooldown
  import opened Delivery

  /** A start: nobody is at work, and the table may hold any history the code can have left. */
  ghost predicate Start(s: State) {
    && s.locks == map[] && s.workers == map[] && s.log == [] && s.acks == [] && s.outcomes == []
    && TableOk(s)
  }

  ghost predicate TableOk(s: State) {
    && (forall id :: id in s.table && s.table[id].status == Sent ==> s.table[id].SentTime() <= s.now)
    && (forall id :: id in s.table && s.table[id].status != Sent ==>
        s.table[id].sentAt.None? && s.table[id].outcomeFamily.None?)
    && (forall a, b :: a in s.table && b in s.table && a != b ==> !SameSlot(s.table[a], s.table[b]))
  }

  predicate SameSlot(a: AlertRow, b: AlertRow) {
    a.user == b.user && a.symbol == b.symbol && a.kind == b.kind && a.refId == b.refId
  }

  /** The delivery of `job` cleared at `at` respects the earlier sent row. */
  predicate Respects(policy: Policy, job: Job, user: nat, at: int, row: AlertRow) {
    row.user == user && row.symbol == job.symbol && row.status == Sent ==>
      match job
      case EventJob(symbol, _, key, family, _) =>
        row.kind == EventAlert && key != "" && policy.cooldown > 0
        && Matches(policy, row, key, CurrentFamily(policy, symbol, key, family))
        ==> at - row.SentTime() >= policy.cooldown
      case HeartbeatJob(_, _, _) =>
        row.sentAt.Some? ==> at - row.sentAt.value >= HEARTBEAT_SILENCE
  }

  // ---- what every step keeps --------------------------------------------------------------

  ghost predicate LocksOk(s: State) {
    && (forall w :: w in s.workers && Holds(s.workers[w].phase) ==>
        LockOf(s.workers[w]) in s.locks && s.locks[LockOf(s.workers[w])] == w)
    && (forall k :: k in s.locks ==>
        s.locks[k] in s.workers && Holds(s.workers[s.locks[k]].phase) && LockOf(s.workers[s.locks[k]]) == k)
  }

  /** A clearance stays true while its holder keeps the lock. */
  ghost predicate ClearOk(policy: Policy, s: State) {
    forall w :: w in s.workers ==> ClearedOk(policy, s, s.workers[w])
  }

  ghost predicate ClearedOk(policy: Policy, s: State, w: Worker) {
    && (w.phase.Clocked? ==> w.phase.at <= s.now)
    && (w.phase.Quiet? || w.phase.Cleared? || w.phase.Sending? ==>
          w.phase.at <= s.now && forall id :: id in s.table ==>
              Respects(policy, w.job, w.user, w.phase.at, s.table[id]))
    && (w.phase.Cleared? || w.phase.Sending? ==> w.phase.at <= w.phase.freshAt <= s.now)
    && ((w.phase.Cleared? || w.phase.Sending?) && w.job.HeartbeatJob? ==>
        w.phase.freshAt - w.job.generatedAt <= HEARTBEAT_MAX_AGE)
  }

  ghost predicate OwnOk(s: State) {
    forall w :: w in s.workers ==> OwnedOk(s, s.workers[w])
  }

  ghost predicate OwnedOk(s: State, w: Worker) {
    && (w.phase.Sending? ==>
          && w.phase.row in s.table && Slot(s.table[w.phase.row], w.user, w.job)
          && (s.table[w.phase.row].status == Pending || s.table[w.phase.row].status == RetryPending)
          && s.table[w.phase.row].context == w.job.Context()
          && (w.phase.created ==> w.phase.freshAt <= s.table[w.phase.row].createdAt <= s.now)
          && (w.phase.row in s.acks <==> w.phase.send.Finished? && w.phase.send.sent))
    && (w.phase.Recorded? ==>
          && w.phase.row in s.table && Slot(s.table[w.phase.row], w.user, w.job) && s.table[w.phase.row].status == Sent
          && exists j :: 0 <= j < |s.log| && s.log[j].row == w.phase.row && s.log[j].job == w.job
                && forall k :: j < k < |s.log| ==> s.log[k].user != w.user || s.log[k].job.symbol != w.job.symbol)
  }

  ghost predicate AcksOk(s: State) {
    && (forall j, k :: 0 <= j < k < |s.acks| ==> s.acks[j] != s.acks[k])
    && (forall id :: id in s.acks ==> id in s.table && s.table[id].status != Failed)
  }

  /** Row `id` was sent before delivery number `j`: it is older than the run, or logged earlier. */
  predicate Before(log: seq<Delivery>, id: nat, j: nat) {
    forall k :: j <= k < |log| ==> log[k].row != id
  }

  ghost predicate RowLogged(s: State, j: nat)
    requires j < |s.log|
  {
    var d := s.log[j];
    && d.row in s.table && Slot(s.table[d.row], d.user, d.job)
    && s.table[d.row].status == Sent && s.table[d.row].sentAt == Some(d.sentAt) && d.row in s.acks
    && d.clearedAt <= d.freshAt <= d.sentAt <= s.now
    && (d.created ==> d.freshAt <= s.table[d.row].createdAt <= d.sentAt)
    && s.table[d.row].context == d.job.Context()
    && (s.table[d.row].outcomeFamily.None? || (d.job.EventJob? && s.table[d.row].outcomeFamily == d.job.family))
    && (d.job.HeartbeatJob? ==> d.freshAt - d.job.generatedAt <= HEARTBEAT_MAX_AGE)
  }

  ghost predicate LoggedOk(policy: Policy, s: State, j: nat)
    requires j < |s.log|
  {
    var d := s.log[j];
    RowLogged(s, j) && forall id :: id in s.table && Before(s.log, id, j) ==>
        Respects(policy, d.job, d.user, d.clearedAt, s.table[id])
  }

  ghost predicate LogOk(policy: Policy, s: State) {
    && (forall j :: 0 <= j < |s.log| ==> LoggedOk(policy, s, j))
    && (forall j, k :: 0 <= j < k < |s.log| ==> s.log[j].row != s.log[k].row)
  }

  ghost predicate Inv(policy: Policy, s: State) {
    TableOk(s) && LocksOk(s) && ClearOk(policy, s) && OwnOk(s) && AcksOk(s) && LogOk(policy, s)
  }

  /** Nothing but time passed: a worker's clearance and reservation stand. */
  lemma WorkerFrame(policy: Policy, s: State, s': State, w: Worker)
    requires s'.table == s.table && s'.log == s.log && s'.acks == s.acks && s'.now >= s.now
    requires ClearedOk(policy, s, w) && OwnedOk(s, w)
    ensures ClearedOk(policy, s', w) && OwnedOk(s', w)
  {
  }

  lemma LogFrame(policy: Policy, s: State, s': State)
    requires LogOk(policy, s) && s'.log == s.log && s'.now >= s.now && s'.table == s.table && s'.acks == s.acks
    ensures LogOk(policy, s')
  {
    hide Respects;
    forall j | 0 <= j < |s'.log| ensures LoggedOk(policy, s', j) {
      assert LoggedOk(policy, s, j);
    }
  }

  lemma TableFrame(s: State, s': State)
    requires TableOk(s) && AcksOk(s) && s'.table == s.table && s'.acks == s.acks && s'.now >= s.now
    ensures TableOk(s') && AcksOk(s')
  {
  }

  /** What a step that writes no row keeps, locks aside; `i` is the worker that moved. */
  lemma OthersFrame(policy: Policy, s: State, s': State, i: nat)
    requires Inv(policy, s) && s'.table == s.table && s'.log == s.log && s'.acks == s.acks && s'.now >= s.now
    requires forall w :: w in s'.workers && w != i ==> w in s.workers && s'.workers[w] == s.workers[w]
    requires i in s'.workers ==> ClearedOk(policy, s, s'.workers[i]) && OwnedOk(s, s'.workers[i])
    requires LocksOk(s')
    ensures Inv(policy, s')
  {
    hide ClearedOk, OwnedOk, LoggedOk, LocksOk, TableOk, AcksOk, LogOk;
    forall w | w in s'.workers ensures ClearedOk(policy, s', s'.workers[w]) && OwnedOk(s', s'.workers[w]) {
      if w != i { assert ClearedOk(policy, s, s.workers[w]) && OwnedOk(s, s.workers[w]); }
      WorkerFrame(policy, s, s', s'.workers[w]);
    }
    LogFrame(policy, s, s');
    TableFrame(s, s');
  }

  /** A step that only moves worker `i` between phases on the same side of its lock. */
  lemma MovePhase(policy: Policy, s: State, i: nat, phase: Phase, outcomes: seq<Outcome>)
    requires Inv(policy, s) && i in s.workers && Holds(s.workers[i].phase) == Holds(phase)
    requires ClearedOk(policy, s, s.workers[i].(phase := phase)) && OwnedOk(s, s.workers[i].(phase := phase))
    ensures Inv(policy, At(s, i, phase).(outcomes := outcomes))
  {
    hide Inv, ClearedOk, OwnedOk, LocksOk, Holds;
    AllKept(policy, s);
    var s' := At(s, i, phase).(outcomes := outcomes);
    LocksFrame(s, s', i);
    OthersFrame(policy, s, s', i);
  }

  lemma AllKept(policy: Policy, s: State)
    requires Inv(policy, s)
    ensures LocksOk(s) && TableOk(s) && ClearOk(policy, s) && OwnOk(s) && AcksOk(s) && LogOk(policy, s)
  {
  }

  lemma LocksTaken(s: State, s': State, i: nat)
    requires LocksOk(s) && i in s.workers && s.workers[i].phase.Waiting? && LockOf(s.workers[i]) !in s.locks
    requires s'.workers == s.workers[i := s.workers[i].(phase := Locked)]
        && s'.locks == s.locks[LockOf(s.workers[i]) := i]
    ensures LocksOk(s')
  {
  }

  lemma LocksDropped(s: State, s': State, i: nat, phase: Phase)
    requires LocksOk(s) && i in s.workers && Holds(s.workers[i].phase)
    requires s'.workers == s.workers[i := s.workers[i].(phase := phase)] && !Holds(phase)
        && s'.locks == s.locks - {LockOf(s.workers[i])}
    ensures LocksOk(s')
  {
  }

  lemma TakeLock(policy: Policy, s: State, i: nat)
    requires Inv(policy, s) && i in s.workers && s.workers[i].phase.Waiting? && LockOf(s.workers[i]) !in s.locks
    ensures Inv(policy, At(s, i, Locked).(locks := s.locks[LockOf(s.workers[i]) := i]))
  {
    hide Inv, LocksOk, LockOf;
    AllKept(policy, s);
    var s' := At(s, i, Locked).(locks := s.locks[LockOf(s.workers[i]) := i]);
    LocksTaken(s, s', i);
    OthersFrame(policy, s, s', i);
  }

  lemma DropLock(policy: Policy, s: State, i: nat, phase: Phase)
    requires Inv(policy, s) && i in s.workers && Holds(s.workers[i].phase) && (phase == Done || phase == Dead)
    ensures Inv(policy, Unlocked(s, i, phase))
  {
    hide Inv, LocksOk, LockOf;
    AllKept(policy, s);
    LocksDropped(s, Unlocked(s, i, phase), i, phase);
    OthersFrame(policy, s, Unlocked(s, i, phase), i);
  }

  lemma PassTime(policy: Policy, s: State, d: nat)
    requires Inv(policy, s)
    ensures Inv(policy, s.(now := s.now + d))
  {
    AllKept(policy, s);
    assert LocksOk(s.(now := s.now + d));
    assert 0 in s.workers ==> ClearedOk(policy, s, s.workers[0]) && OwnedOk(s, s.workers[0]);
    hide Inv, LocksOk, ClearedOk, OwnedOk, TableOk, AcksOk, LogOk, ClearOk, OwnOk;
    OthersFrame(policy, s, s.(now := s.now + d), 0);
  }

  lemma LocksSpawned(s: State, s': State, i: nat, w: Worker)
    requires LocksOk(s) && i !in s.workers && w.phase == Ready
    requires s'.workers == s.workers[i := w] && s'.locks == s.locks
    ensures LocksOk(s')
  {
  }

  lemma NewWorker(policy: Policy, s: State, i: nat, w: Worker)
    requires Inv(policy, s) && i !in s.workers && w.phase == Ready
    ensures Inv(policy, s.(workers := s.workers[i := w]))
  {
    hide Inv, LocksOk;
    AllKept(policy, s);
    LocksSpawned(s, s.(workers := s.workers[i := w]), i, w);
    OthersFrame(policy, s, s.(workers := s.workers[i := w]), i);
  }

  ghost function Wrote(s: State, i: nat, phase: Phase, row: nat, value: AlertRow, acks: seq<nat>): State
    requires i in s.workers
  {
    At(s, i, phase).(table := s.table[row := value], acks := acks)
  }

  /** The holder of a lock may write an unsent version of a row of its own user and coin. */
  ghost predicate MayWrite(policy: Policy, s: State, i: nat, phase: Phase, row: nat, value: AlertRow, acks: seq<nat>) {
    && i in s.workers && Holds(s.workers[i].phase) && Holds(phase)
    && Slot(value, s.workers[i].user, s.workers[i].job) && value.status != Sent && value.sentAt.None?
        && value.outcomeFamily.None?
    && (if row in s.table then Slot(s.table[row], s.workers[i].user, s.workers[i].job) && s.table[row].status != Sent
        else !exists id :: id in s.table && Slot(s.table[id], s.workers[i].user, s.workers[i].job))
    && (acks == s.acks || (acks == s.acks + [row] && row !in s.acks))
    && (row in acks ==> value.status != Failed)
    && var s' := Wrote(s, i, phase, row, value, acks);
       ClearedOk(policy, s, s'.workers[i]) && OwnedOk(s', s'.workers[i])
  }

  lemma LocksFrame(s: State, s': State, i: nat)
    requires LocksOk(s) && i in s.workers && i in s'.workers && s'.workers == s.workers[i := s'.workers[i]]
    requires Holds(s'.workers[i].phase) == Holds(s.workers[i].phase) && LockOf(s'.workers[i]) == LockOf(s.workers[i])
    requires s'.locks == s.locks
    ensures LocksOk(s')
  {
  }

  /** Two workers inside the lock never serve the same user and coin. */
  lemma Exclusive(s: State, v: nat, w: nat)
    requires LocksOk(s) && v in s.workers && w in s.workers && v != w
    requires Holds(s.workers[v].phase) && Holds(s.workers[w].phase)
    ensures LockOf(s.workers[v]) != LockOf(s.workers[w])
  {
  }

  lemma WriteWorkers(policy: Policy, s: State, i: nat, phase: Phase, row: nat, value: AlertRow, acks: seq<nat>)
    requires Inv(policy, s) && MayWrite(policy, s, i, phase, row, value, acks)
    ensures var s' := Wrote(s, i, phase, row, value, acks); ClearOk(policy, s') && OwnOk(s')
  {
    hide Matches, CurrentFamily, LoggedOk, LogOk, TableOk;
    var s' := Wrote(s, i, phase, row, value, acks);
    forall w | w in s'.workers ensures ClearedOk(policy, s', s'.workers[w]) {
      if w != i { assert ClearedOk(policy, s, s.workers[w]); }
    }
    forall w | w in s'.workers ensures OwnedOk(s', s'.workers[w]) {
      if w != i {
        assert OwnedOk(s, s.workers[w]);
        if Holds(s.workers[w].phase) { Exclusive(s, w, i); }
      }
    }
  }

  lemma WriteLog(policy: Policy, s: State, i: nat, phase: Phase, row: nat, value: AlertRow, acks: seq<nat>)
    requires Inv(policy, s) && MayWrite(policy, s, i, phase, row, value, acks)
    ensures LogOk(policy, Wrote(s, i, phase, row, value, acks))
  {
    var s' := Wrote(s, i, phase, row, value, acks);
    forall j | 0 <= j < |s'.log| ensures LoggedOk(policy, s', j) {
      assert LoggedOk(policy, s, j);
    }
  }

  lemma WriteUnsent(policy: Policy, s: State, i: nat, phase: Phase, row: nat, value: AlertRow, acks: seq<nat>)
    requires Inv(policy, s) && MayWrite(policy, s, i, phase, row, value, acks)
    ensures Inv(policy, Wrote(s, i, phase, row, value, acks))
  {
    hide ClearedOk, OwnedOk, LoggedOk, LogOk;
    var s' := Wrote(s, i, phase, row, value, acks);
    WriteWorkers(policy, s, i, phase, row, value, acks);
    WriteLog(policy, s, i, phase, row, value, acks);
    LocksFrame(s, s', i);
    forall a, b | a in s'.table && b in s'.table && a != b ensures !SameSlot(s'.table[a], s'.table[b]) {
      if row in s.table || (a != row && b != row) {
        assert !SameSlot(s.table[a], s.table[b]);
      }
    }
  }

  /** Rewriting a row in place keeps one row per slot. */
  lemma SlotsFrame(s: State, row: nat, value: AlertRow)
    requires TableOk(s) && row in s.table && SameSlot(value, s.table[row])
    ensures var t := s.table[row := value]; forall a, b :: a in t && b in t && a != b ==> !SameSlot(t[a], t[b])
  {
  }

  predicate MayRecord(s: State, i: nat) {
    && i in s.workers && s.workers[i].phase.Sending? && s.workers[i].phase.row in s.table
    && s.workers[i].phase.send.Finished? && s.workers[i].phase.send.sent
  }

  lemma RecordClear(policy: Policy, s: State, i: nat, s': State)
    requires Inv(policy, s) && MayRecord(s, i) && s' == Recording(s, i)
    ensures ClearOk(policy, s')
  {
  }

  lemma RecordOwned(policy: Policy, s: State, i: nat, s': State)
    requires Inv(policy, s) && MayRecord(s, i) && s' == Recording(s, i)
    ensures OwnOk(s')
  {
    hide Respects, ClearedOk, LoggedOk;
    var w := s.workers[i];
    assert OwnedOk(s, w);
    forall v | v in s'.workers ensures OwnedOk(s', s'.workers[v]) {
      var o := s.workers[v];
      if v == i {
        assert s'.log[|s.log|].row == w.phase.row;
      } else {
        assert OwnedOk(s, o);
        if Holds(o.phase) { Exclusive(s, v, i); }
        if o.phase.Recorded? {
          var j :| 0 <= j < |s.log| && s.log[j].row == o.phase.row && s.log[j].job == o.job
                   && forall k :: j < k < |s.log| ==> s.log[k].user != o.user || s.log[k].job.symbol != o.job.symbol;
          assert s'.log[j].row == o.phase.row;
        }
      }
    }
  }

  lemma RecordLog(policy: Policy, s: State, i: nat, s': State)
    requires Inv(policy, s) && MayRecord(s, i) && s' == Recording(s, i)
    ensures LogOk(policy, s')
  {
    var w := s.workers[i];
    var row := w.phase.row;
    assert ClearedOk(policy, s, w) && OwnedOk(s, w);
    assert s'.log == s.log + [Delivery(row, w.user, w.job, w.phase.at, w.phase.freshAt, s.now, w.phase.created, i)];
    forall j | 0 <= j < |s.log| ensures s.log[j].row != row { assert LoggedOk(policy, s, j); }
    forall j | 0 <= j < |s'.log| ensures LoggedOk(policy, s', j) {
      if j < |s.log| { assert LoggedOk(policy, s, j); }
      forall id | id in s'.table && Before(s'.log, id, j)
        ensures Respects(policy, s'.log[j].job, s'.log[j].user, s'.log[j].clearedAt, s'.table[id])
      {
        assert s'.log[|s.log|].row != id;
        if j < |s.log| {
          forall k | j <= k < |s.log| ensures s.log[k].row != id { assert s'.log[k] == s.log[k]; }
        }
      }
    }
  }

  lemma RecordSuccess(policy: Policy, s: State, i: nat, s': State)
    requires Inv(policy, s) && MayRecord(s, i) && s' == Recording(s, i)
    ensures Inv(policy, s')
  {
    var row := s.workers[i].phase.row;
    assert OwnedOk(s, s.workers[i]);
    RecordClear(policy, s, i, s');
    RecordOwned(policy, s, i, s');
    RecordLog(policy, s, i, s');
    LocksFrame(s, s', i);
    SlotsFrame(s, row, s'.table[row]);
  }

  lemma SaveClear(policy: Policy, s: State, i: nat, s': State)
    requires Inv(policy, s) && i in s.workers && s.workers[i].phase.Recorded? && s.workers[i].phase.row in s.table
        && s' == Saving(s, i)
    ensures ClearOk(policy, s')
  {
    hide Matches, CurrentFamily, LoggedOk, LogOk, AcksOk, TableOk;
    assert OwnedOk(s, s.workers[i]);
    forall v | v in s'.workers ensures ClearedOk(policy, s', s'.workers[v]) {
      if v != i {
        assert ClearedOk(policy, s, s.workers[v]);
        if Holds(s.workers[v].phase) { Exclusive(s, v, i); }
      }
    }
  }

  lemma SaveOwned(policy: Policy, s: State, i: nat, s': State)
    requires Inv(policy, s) && i in s.workers && s.workers[i].phase.Recorded? && s.workers[i].phase.row in s.table
        && s' == Saving(s, i)
    ensures OwnOk(s')
  {
    hide ClearedOk, LoggedOk, LogOk, LocksOk, TableOk;
    forall v | v in s'.workers ensures OwnedOk(s', s'.workers[v]) {
      if v != i { assert OwnedOk(s, s.workers[v]); }
    }
  }

  lemma RespectsOthers(policy: Policy, job: Job, user: nat, at: int, row: AlertRow)
    requires row.user != user || row.symbol != job.symbol
    ensures Respects(policy, job, user, at, row)
  {
  }

  /** Before the outcome row is saved, deliveries logged later than this one go elsewhere. */
  lemma LaterElsewhere(policy: Policy, s: State, i: nat, j: nat)
    requires Inv(policy, s) && i in s.workers && s.workers[i].phase.Recorded? && j < |s.log|
        && Before(s.log, s.workers[i].phase.row, j)
    ensures s.log[j].user != s.workers[i].user || s.log[j].job.symbol != s.workers[i].job.symbol
  {
    hide ClearOk, LogOk, LocksOk, AcksOk, TableOk;
    assert OwnedOk(s, s.workers[i]);
  }

  lemma SaveRowLogged(policy: Policy, s: State, i: nat, s': State, j: nat)
    requires Inv(policy, s) && i in s.workers && s.workers[i].phase.Recorded? && s.workers[i].phase.row in s.table
        && s' == Saving(s, i)
    requires j < |s.log|
    ensures RowLogged(s', j)
  {
    hide Respects, ClearOk, LocksOk, AcksOk, TableOk;
    var w := s.workers[i];
    assert OwnedOk(s, w);
    assert LoggedOk(policy, s, j);
    if s.log[j].row == w.phase.row {
      var last: nat :| last < |s.log| && s.log[last].row == w.phase.row && s.log[last].job == w.job;
      assert last == j;
    }
  }

  lemma SaveLogged(policy: Policy, s: State, i: nat, s': State, j: nat)
    requires Inv(policy, s) && i in s.workers && s.workers[i].phase.Recorded? && s.workers[i].phase.row in s.table
        && s' == Saving(s, i)
    requires j < |s.log|
    ensures LoggedOk(policy, s', j)
  {
    assert LoggedOk(policy, s, j) && OwnedOk(s, s.workers[i]);
    SaveRowLogged(policy, s, i, s', j);
    hide Inv, RowLogged, Respects;
    var d, w := s.log[j], s.workers[i];
    forall id | id in s'.table && Before(s'.log, id, j)
      ensures Respects(policy, d.job, d.user, d.clearedAt, s'.table[id])
    {
      if id == w.phase.row {
        LaterElsewhere(policy, s, i, j);
        RespectsOthers(policy, d.job, d.user, d.clearedAt, s'.table[id]);
      } else {
        assert Respects(policy, d.job, d.user, d.clearedAt, s.table[id]);
      }
    }
  }

  lemma SaveTable(policy: Policy, s: State, i: nat, s': State)
    requires Inv(policy, s) && i in s.workers && s.workers[i].phase.Recorded? && s.workers[i].phase.row in s.table
        && s' == Saving(s, i)
    ensures TableOk(s') && AcksOk(s') && LocksOk(s')
  {
    hide ClearOk, LogOk, LocksOk;
    assert OwnedOk(s, s.workers[i]);
    LocksFrame(s, s', i);
    SlotsFrame(s, s.workers[i].phase.row, s'.table[s.workers[i].phase.row]);
  }

  lemma SaveFamily(policy: Policy, s: State, i: nat, s': State)
    requires Inv(policy, s) && i in s.workers && s.workers[i].phase.Recorded? && s.workers[i].phase.row in s.table
        && s' == Saving(s, i)
    ensures Inv(policy, s')
  {
    SaveClear(policy, s, i, s');
    SaveOwned(policy, s, i, s');
    SaveTable(policy, s, i, s');
    hide ClearedOk, OwnedOk, LoggedOk, LocksOk, ClearOk, OwnOk, TableOk, AcksOk;
    forall j: nat | j < |s'.log| ensures LoggedOk(policy, s', j) {
      SaveLogged(policy, s, i, s', j);
    }
  }

  lemma EligibleRespects(policy: Policy, table: Table, user: nat, job: Job, now: int, baseline: Option<int>)
    requires Eligible(policy, table, user, job, now, baseline)
    ensures forall id :: id in table ==> Respects(policy, job, user, now, table[id])
  {
    forall id | id in table ensures Respects(policy, job, user, now, table[id]) {
      if table[id].user == user && table[id].symbol == job.symbol && table[id].status == Sent {
        assert SentTo(table[id], user, job.symbol, table[id].kind);
      }
    }
  }

  /** The recheck refuses nothing else: an event only because a sent row it repeats is younger than the
      cooldown, a heartbeat only because of any automatic alert within 24 hours or, before the first
      one, because of its activation time. */
  lemma EligibleExactly(policy: Policy, table: Table, user: nat, job: Job, now: int, baseline: Option<int>)
    ensures job.EventJob? ==> (Eligible(policy, table, user, job, now, baseline) <==>
              var current := CurrentFamily(policy, job.symbol, job.key, job.family);
              job.key != "" && policy.cooldown > 0 ==> forall id :: id in table ==>
                var row := table[id];
                row.user == user && row.symbol == job.symbol && row.kind == EventAlert && row.status == Sent
                && (row.context.eventKey == Some(job.key) || (current.Some? && ResolvedFamily(policy, row) == current))
                ==> now - (if row.sentAt.Some? then row.sentAt.value else row.createdAt) >= policy.cooldown)
    ensures job.HeartbeatJob? ==> (Eligible(policy, table, user, job, now, baseline) <==>
              && (forall id :: id in table ==>
                    var row := table[id];
                    row.user == user && row.symbol == job.symbol && row.status == Sent && row.sentAt.Some?
                    ==> now - row.sentAt.value >= 86_400_000_000)
              && ((exists id :: id in table && table[id].user == user && table[id].symbol == job.symbol
                                && table[id].status == Sent && table[id].sentAt.Some?)
                  || (baseline.Some? && now - baseline.value >= 86_400_000_000)))
  {
    hide CurrentFamily, ResolvedFamily;
    if job.HeartbeatJob? {
      forall id | id in table && table[id].user == user && table[id].symbol == job.symbol && table[id].status == Sent
        ensures SentTo(table[id], user, job.symbol, table[id].kind) {}
    }
  }

  /** So what `Cooldown.Filter` returns for one recipient is decided row by row: an event with a key by
      the cooldown of what it repeats, one without a key by the plain cooldown since the last alert,
      which is 30 minutes at most at high urgency. */
  lemma FilterDecides(policy: Policy, table: Table, user: nat, chat: int, job: Job, now: int, plainCooldown: int,
      highUrgency: bool)
    requires job.EventJob?
    ensures var q := C.Query(job.symbol, job.key, job.family, plainCooldown, highUrgency, now);
            var r := C.Recipient(chat, Some(user));
            var plain := if highUrgency && plainCooldown > 1_800_000_000 then 1_800_000_000 else plainCooldown;
            C.AllowedOf(policy, table, q, [r]) == [r] <==>
              && (job.key != "" && policy.cooldown > 0 ==> forall id ::
                    id in table && SentTo(table[id], user, job.symbol, EventAlert)
                    && Matches(policy, table[id], job.key, CurrentFamily(policy, job.symbol, job.key, job.family))
                    ==> now - table[id].SentTime() >= policy.cooldown)
              && (job.key == "" && plain > 0 ==> forall id ::
                    id in table && SentTo(table[id], user, job.symbol, EventAlert) && table[id].sentAt.Some?
                    ==> now - table[id].sentAt.value >= plain)
  {
    var q := C.Query(job.symbol, job.key, job.family, plainCooldown, highUrgency, now);
    var r := C.Recipient(chat, Some(user));
    assert [r][..0] == [] && C.AllowedOf(policy, table, q, []) == [];
    assert C.AllowedOf(policy, table, q, [r]) == if C.Rule(policy, table, q, r) == C.Allowed then [r] else [];
  }

  lemma ReserveKeepsInv(policy: Policy, s: State, i: nat, row: nat)
    requires Inv(policy, s) && i in s.workers && s.workers[i].phase.Cleared? && ClearedOk(policy, s, s.workers[i])
    requires if row in s.table then Slot(s.table[row], s.workers[i].user, s.workers[i].job)
        && s.table[row].status == Failed
             else !exists id :: id in s.table && Slot(s.table[id], s.workers[i].user, s.workers[i].job)
    requires row in s.acks ==> row in s.table && s.table[row].status != Failed
    ensures Inv(policy, Reserving(s, i, row))
  {
    AllKept(policy, s);
    assert row in s.table ==> s.table[row].sentAt.None? && s.table[row].outcomeFamily.None?;
    hide Inv, Respects, LoggedOk, TableOk, LocksOk, ClearOk, OwnOk, AcksOk, LogOk;
    var w, s' := s.workers[i], Reserving(s, i, row);
    WriteUnsent(policy, s, i, s'.workers[i].phase, row, Reserved(s, w, row), s.acks);
  }

  lemma RespondKeepsInv(policy: Policy, s: State, i: nat, answer: T.Answer)
    requires Inv(policy, s) && i in s.workers && s.workers[i].phase.Sending? && ClearedOk(policy, s, s.workers[i])
        && OwnedOk(s, s.workers[i])
    requires T.Awake(s.workers[i].payload, s.workers[i].phase.send).Calling?
    ensures Inv(policy, Responding(s, i, answer))
  {
    AllKept(policy, s);
    hide Inv, Respects, LoggedOk, LocksOk, ClearOk, OwnOk, LogOk;
    var w, s' := s.workers[i], Responding(s, i, answer);
    WriteUnsent(policy, s, i, s'.workers[i].phase, w.phase.row, s'.table[w.phase.row], s'.acks);
  }

  lemma GiveUpKeepsInv(policy: Policy, s: State, i: nat)
    requires Inv(policy, s) && i in s.workers && s.workers[i].phase.Sending? && OwnedOk(s, s.workers[i])
    requires s.workers[i].phase.send.Finished? && !s.workers[i].phase.send.sent
    ensures Inv(policy, GivingUp(s, i))
  {
    AllKept(policy, s);
    hide Inv, Respects, LoggedOk, LocksOk, ClearOk, OwnOk, LogOk;
    var w, s' := s.workers[i], GivingUp(s, i);
    WriteUnsent(policy, s, i, s'.workers[i].phase, w.phase.row, s'.table[w.phase.row], s.acks);
  }

  /** A clock read or a decision only moves its worker on. */
  lemma DecideKeepsInv(policy: Policy, s: State, step: Step, w: Worker)
    requires Inv(policy, s) && (step.Preflight? || step.ReadClock? || step.Query? || step.Freshen?)
    requires step.w in s.workers && s.workers[step.w] == w && ClearedOk(policy, s, w) && OwnedOk(s, w)
    requires Act(policy, s, step, w).Some?
    ensures Inv(policy, Act(policy, s, step, w).value)
  {
    hide Inv, Eligible, Slot, Respects, LoggedOk;
    match step
    case Preflight(i, asOf, baseline) =>
      MovePhase(policy, s, i, Act(policy, s, step, w).value.workers[i].phase, s.outcomes);
    case ReadClock(i) => MovePhase(policy, s, i, Clocked(s.now), s.outcomes);
    case Query(i, baseline) =>
      if Eligible(policy, s.table, w.user, w.job, w.phase.at, baseline) {
        EligibleRespects(policy, s.table, w.user, w.job, w.phase.at, baseline);
      }
      MovePhase(policy, s, i, Act(policy, s, step, w).value.workers[i].phase, s.outcomes);
    case Freshen(i) =>
      MovePhase(policy, s, i, if s.now - w.job.generatedAt <= HEARTBEAT_MAX_AGE then Cleared(w.phase.at, s.now)
          else Closing, s.outcomes);
  }

  lemma ActKeepsInv(policy: Policy, s: State, step: Step, w: Worker)
    requires Inv(policy, s) && !step.Tick? && !step.Spawn? && step.w in s.workers && s.workers[step.w] == w
    requires ClearedOk(policy, s, w) && OwnedOk(s, w)
    requires Act(policy, s, step, w).Some?
    ensures Inv(policy, Act(policy, s, step, w).value)
  {
    hide Inv, Eligible, Slot, Reserving, Responding, Recording, GivingUp, Saving, Respects, LoggedOk;
    match step
    case Acquire(i) => TakeLock(policy, s, i);
    case Reserve(i, row) =>
      if row in s.table && (s.table[row].status != Failed || s.table[row].finalFailed) {
        MovePhase(policy, s, i, Declined(s, w, row), s.outcomes);
      } else {
        AllKept(policy, s);
        ReserveKeepsInv(policy, s, i, row);
      }
    case Respond(i, answer) => RespondKeepsInv(policy, s, i, answer);
    case Record(i) =>
      if w.phase.send.sent {
        RecordSuccess(policy, s, i, Recording(s, i));
      } else {
        GiveUpKeepsInv(policy, s, i);
      }
    case SaveOutcome(i) =>
      if w.phase.Recorded? {
        SaveFamily(policy, s, i, Saving(s, i));
      } else {
        MovePhase(policy, s, i, if w.phase.Turned? then Done else Closing, Act(policy, s, step, w).value.outcomes);
      }
    case Release(i) => DropLock(policy, s, i, Done);
    case Crash(i) =>
      if Holds(w.phase) { DropLock(policy, s, i, Dead); } else { MovePhase(policy, s, i, Dead, s.outcomes); }
    case _ => DecideKeepsInv(policy, s, step, w);
  }

  lemma StepKeepsInv(policy: Policy, s: State, step: Step)
    requires Inv(policy, s) && Take(policy, s, step).Some?
    ensures Inv(policy, Take(policy, s, step).value)
  {
    assert !step.Tick? && !step.Spawn? ==> ClearedOk(policy, s, s.workers[step.w]) && OwnedOk(s, s.workers[step.w]);
    hide Inv, ClearedOk, OwnedOk, Act;
    match step
    case Tick(d) => PassTime(policy, s, d);
    case Spawn(i, user, job, payload) => NewWorker(policy, s, i, Worker(user, job, payload, Ready));
    case _ =>
      var w := s.workers[step.w];
      ActKeepsInv(policy, s, step, w);
  }

  lemma StartInv(policy: Policy, s: State)
    requires Start(s)
    ensures Inv(policy, s)
  {
  }

  lemma {:induction false} RunKeepsInv(policy: Policy, s: State, steps: seq<Step>)
    requires Inv(policy, s) && Run(policy, s, steps).Some?
    ensures Inv(policy, Run(policy, s, steps).value)
    decreases |steps|
  {
    if steps != [] {
      StepKeepsInv(policy, s, steps[0]);
      RunKeepsInv(policy, Take(policy, s, steps[0]).value, steps[1..]);
    }
  }

  // ---- what every run guarantees ----------------------------------------------------------

  ghost predicate Reaches(policy: Policy, start: State, steps: seq<Step>, s: State) {
    Start(start) && Run(policy, start, steps) == Some(s)
  }

  /** Strict semantic cooldown: a recorded Event Alert was rechecked at least one cooldown after
      every earlier sent alert it repeats, and was recorded later still. */
  lemma StrictCooldown(policy: Policy, start: State, steps: seq<Step>, s: State, j: nat, id: nat)
    requires Reaches(policy, start, steps, s) && policy.cooldown > 0
    requires j < |s.log| && s.log[j].job.EventJob? && s.log[j].job.key != ""
    requires id in s.table && Before(s.log, id, j)
    requires var row, job := s.table[id], s.log[j].job;
             && row.user == s.log[j].user && row.symbol == job.symbol && row.kind == EventAlert && row.status == Sent
             && var current := CurrentFamily(policy, job.symbol, job.key, job.family);
             row.context.eventKey == Some(job.key) || (current.Some? && ResolvedFamily(policy, row) == current)
    ensures var row := s.table[id];
            s.log[j].sentAt >= s.log[j].clearedAt
                >= (if row.sentAt.Some? then row.sentAt.value else row.createdAt) + policy.cooldown
  {
    hide CurrentFamily, ResolvedFamily;
    StartInv(policy, start);
    RunKeepsInv(policy, start, steps);
    assert LoggedOk(policy, s, j);
    assert Respects(policy, s.log[j].job, s.log[j].user, s.log[j].clearedAt, s.table[id]);
  }

  /** Two recorded Event Alerts of one run, the second repeating the first: their `sent_at` are
      at least the cooldown apart, whichever workers sent them. */
  lemma CooldownBetween(policy: Policy, start: State, steps: seq<Step>, s: State, i: nat, j: nat)
    requires Reaches(policy, start, steps, s) && policy.cooldown > 0
    requires i < j < |s.log| && s.log[i].job.EventJob? && s.log[j].job.EventJob? && s.log[j].job.key != ""
    requires s.log[i].user == s.log[j].user && s.log[i].job.symbol == s.log[j].job.symbol
    requires s.log[i].row in s.table && Matches(policy, s.table[s.log[i].row], s.log[j].job.key,
                     CurrentFamily(policy, s.log[j].job.symbol, s.log[j].job.key, s.log[j].job.family))
    ensures s.log[j].sentAt - s.log[i].sentAt >= policy.cooldown
  {
    StartInv(policy, start);
    RunKeepsInv(policy, start, steps);
    assert LoggedOk(policy, s, i);
    StrictCooldown(policy, start, steps, s, j, s.log[i].row);
  }

  /** 24-hour silence and fresh content: however stale the preflight was, a recorded heartbeat was
      rechecked at least 24 hours after every automatic alert sent before it, of either kind, and
      its content was at most two hours old at the locked recheck. */
  lemma HeartbeatSilence(policy: Policy, start: State, steps: seq<Step>, s: State, j: nat)
    requires Reaches(policy, start, steps, s) && j < |s.log| && s.log[j].job.HeartbeatJob?
    ensures var d := s.log[j];
            && d.clearedAt <= d.freshAt <= d.sentAt
            && d.freshAt - d.job.generatedAt <= 7_200_000_000
            && forall id, k ::
                id in s.table && Before(s.log, id, j) && SentTo(s.table[id], d.user, d.job.symbol, k)
                && s.table[id].sentAt.Some?
                ==> d.clearedAt - s.table[id].sentAt.value >= 86_400_000_000
  {
    StartInv(policy, start);
    RunKeepsInv(policy, start, steps);
    assert LoggedOk(policy, s, j);
    var d := s.log[j];
    forall id, k | id in s.table && Before(s.log, id, j) && SentTo(s.table[id], d.user, d.job.symbol, k)
        && s.table[id].sentAt.Some?
      ensures d.clearedAt - s.table[id].sentAt.value >= HEARTBEAT_SILENCE
    {
      assert Respects(policy, d.job, d.user, d.clearedAt, s.table[id]);
    }
  }

  /** At most once, crashes included: Telegram acknowledges at most one message per user, coin and
      event (or heartbeat), over all workers and retries; and every recorded delivery was acknowledged. */
  lemma AcknowledgedOnce(policy: Policy, start: State, steps: seq<Step>, s: State)
    requires Reaches(policy, start, steps, s)
    ensures forall j, k :: 0 <= j < k < |s.acks| ==> s.acks[j] in s.table && s.acks[k] in s.table
                                                     && !SameSlot(s.table[s.acks[j]], s.table[s.acks[k]])
    ensures forall j :: 0 <= j < |s.log| ==> s.log[j].row in s.acks
  {
    StartInv(policy, start);
    RunKeepsInv(policy, start, steps);
    forall j | 0 <= j < |s.log| ensures s.log[j].row in s.acks {
      assert LoggedOk(policy, s, j);
    }
  }

  /** Mutual exclusion over whole runs. */
  lemma OneWorkerPerUserAndCoin(policy: Policy, start: State, steps: seq<Step>, s: State, v: nat, w: nat)
    requires Reaches(policy, start, steps, s) && v in s.workers && w in s.workers && v != w
    requires Holds(s.workers[v].phase) && Holds(s.workers[w].phase)
    ensures s.workers[v].user != s.workers[w].user || s.workers[v].job.symbol != s.workers[w].job.symbol
  {
    StartInv(policy, start);
    RunKeepsInv(policy, start, steps);
    Exclusive(s, v, w);
  }

  /** And no lock outlives its worker's stay: whatever ended it, a crash included. */
  lemma NoLockLeft(policy: Policy, start: State, steps: seq<Step>, s: State, user: nat, symbol: string)
    requires Reaches(policy, start, steps, s) && (user, symbol) in s.locks
    ensures var w := s.locks[(user, symbol)];
            && w in s.workers && s.workers[w].user == user && s.workers[w].job.symbol == symbol
            && !s.workers[w].phase.Ready? && !s.workers[w].phase.Turned? && !s.workers[w].phase.Waiting?
            && !s.workers[w].phase.Done? && !s.workers[w].phase.Dead?
  {
    StartInv(policy, start);
    RunKeepsInv(policy, start, steps);
  }
}
