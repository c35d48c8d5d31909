/**
 * Runs of the delivery protocol that do happen: one worker serves one user at once, from any state
 * where nothing stands in its way.
 */
module DeliveryRuns {
  import opened Prelude
  import opened AlertTable
  import T = Telegram
  import opened Delivery
  import opened DeliverySafety

  const PLAIN: T.Payload := T.Payload(false, false, false, 1)

  lemma {:induction false} RunSnoc(policy: Policy, s: State, steps: seq<Step>, step: Step)
    requires Run(policy, s, steps).Some?
    ensures Run(policy, s, steps + [step]) == Take(policy, Run(policy, s, steps).value, step)
    decreases |steps|
  {
    if steps == [] {
      assert [] + [step] == [step];
      var next := Take(policy, s, step);
      if next.Some? { assert Run(policy, next.value, []) == next; }
    } else {
      assert (steps + [step])[1..] == steps[1..] + [step];
      RunSnoc(policy, Take(policy, s, steps[0]).value, steps[1..], step);
    }
  }

  lemma EmptyRun(policy: Policy, s: State)
    ensures Run(policy, s, []) == Some(s)
  {
  }

  lemma Push(policy: Policy, start: State, done: seq<Step>, s: State, step: Step)
    returns (steps: seq<Step>, s': State)
    requires Run(policy, start, done) == Some(s) && Take(policy, s, step).Some?
    ensures Run(policy, start, steps) == Some(s') && Take(policy, s, step) == Some(s')
  {
    RunSnoc(policy, start, done, step);
    steps, s' := done + [step], Take(policy, s, step).value;
  }

  ghost function Serving(s: State, i: nat, user: nat, job: Job, phase: Phase): State {
    s.(workers := s.workers[i := Worker(user, job, PLAIN, phase)])
  }

  /** The outcome row of a success; a heartbeat has none. */
  function Told(i: nat, user: nat, job: Job, row: nat, saved: bool): seq<Outcome> {
    if saved && job.EventJob? then [Outcome(i, user, Delivered(row))] else []
  }

  /** The row a worker may reserve: a failed one not given up, or a new one if its slot is empty. */
  ghost predicate Open(s: State, user: nat, job: Job, row: nat) {
    if row in s.table
    then Slot(s.table[row], user, job) && s.table[row].status == Failed && !s.table[row].finalFailed
         && s.table[row].sentAt.None?
    else !exists id :: id in s.table && Slot(s.table[id], user, job)
  }

  /** The row after a success recorded at once. */
  function SentRow(s: State, user: nat, job: Job, row: nat): AlertRow {
    Reserved(s, Worker(user, job, PLAIN, Ready), row).(status := Sent, sentAt := Some(s.now), finalFailed := false)
  }

  /** The row after its worker saved the outcome, or died just before. */
  function SavedRow(row: AlertRow, job: Job, saved: bool): AlertRow {
    if saved && job.EventJob? && job.family.Some? then row.(outcomeFamily := job.family) else row
  }

  /** Nothing stands in the way at clock `now`: the recheck clears the job, and its content is fresh. */
  ghost predicate Unhindered(policy: Policy, s: State, user: nat, job: Job, baseline: Option<int>) {
    && (user, job.symbol) !in s.locks && Eligible(policy, s.table, user, job, s.now, baseline)
    && (job.HeartbeatJob? ==> s.now - job.generatedAt <= HEARTBEAT_MAX_AGE)
  }

  lemma GetLocked(policy: Policy, start: State, done: seq<Step>, s: State, i: nat, user: nat, job: Job,
      baseline: Option<int>)
    returns (steps: seq<Step>, s': State)
    requires Run(policy, start, done) == Some(s) && i !in s.workers && Unhindered(policy, s, user, job, baseline)
    ensures Run(policy, start, steps) == Some(s')
    ensures s' == Serving(s, i, user, job, Locked).(locks := s.locks[(user, job.symbol) := i])
  {
    hide Run, Eligible;
    steps, s' := Push(policy, start, done, s, Spawn(i, user, job, PLAIN));
    steps, s' := Push(policy, start, steps, s', Preflight(i, s.now, baseline));
    assert s' == Serving(s, i, user, job, Waiting);
    steps, s' := Push(policy, start, steps, s', Acquire(i));
  }

  lemma GetCleared(policy: Policy, start: State, done: seq<Step>, s: State, i: nat, user: nat, job: Job,
      baseline: Option<int>)
    returns (steps: seq<Step>, s': State)
    requires Run(policy, start, done) == Some(s) && i !in s.workers && Unhindered(policy, s, user, job, baseline)
    ensures Run(policy, start, steps) == Some(s')
    ensures s' == Serving(s, i, user, job, Cleared(s.now, s.now)).(locks := s.locks[(user, job.symbol) := i])
  {
    hide Run, Eligible;
    steps, s' := GetLocked(policy, start, done, s, i, user, job, baseline);
    steps, s' := Push(policy, start, steps, s', ReadClock(i));
    steps, s' := Push(policy, start, steps, s', Query(i, baseline));
    if job.HeartbeatJob? {
      assert s'.workers[i].phase == Quiet(s.now);
      steps, s' := Push(policy, start, steps, s', Freshen(i));
    }
  }

  /** Reserved, and the first request acknowledged. */
  lemma GetAnswered(policy: Policy, start: State, done: seq<Step>, s: State, i: nat, row: nat, user: nat, job: Job)
    returns (steps: seq<Step>, s': State)
    requires Run(policy, start, done) == Some(s) && Open(s, user, job, row)
    requires i in s.workers && s.workers[i] == Worker(user, job, PLAIN, Cleared(s.now, s.now))
    ensures Run(policy, start, steps) == Some(s')
    ensures var sent := T.Finished(true, 1, T.NoError);
            s' == Serving(s, i, user, job, Sending(s.now, s.now, row, row !in s.table, sent)).(
                    table := s.table[row := Reserved(s, s.workers[i], row)], acks := s.acks + [row])
  {
    hide Run;
    steps, s' := Push(policy, start, done, s, Reserve(i, row));
    assert s'.workers[i].phase == Sending(s.now, s.now, row, row !in s.table, T.Calling(1, T.Plain));
    steps, s' := Push(policy, start, steps, s', Respond(i, T.Acknowledged));
  }

  lemma GetRecorded(policy: Policy, start: State, done: seq<Step>, s: State, i: nat, row: nat, user: nat, job: Job)
    returns (steps: seq<Step>, s': State)
    requires Run(policy, start, done) == Some(s) && Open(s, user, job, row)
    requires i in s.workers && s.workers[i] == Worker(user, job, PLAIN, Cleared(s.now, s.now))
    ensures Run(policy, start, steps) == Some(s')
    ensures s' == Serving(s, i, user, job, Recorded(row)).(
                    table := s.table[row := SentRow(s, user, job, row)], acks := s.acks + [row],
                    log := s.log + [Delivery(row, user, job, s.now, s.now, s.now, row !in s.table, i)])
  {
    hide Run;
    var t;
    steps, t := GetAnswered(policy, start, done, s, i, row, user, job);
    steps, s' := Push(policy, start, steps, t, Record(i));
  }

  lemma GetReleased(policy: Policy, start: State, done: seq<Step>, s: State, i: nat, row: nat, user: nat, job: Job,
      saved: bool)
    returns (steps: seq<Step>, s': State)
    requires Run(policy, start, done) == Some(s) && row in s.table
    requires i in s.workers && s.workers[i] == Worker(user, job, PLAIN, Recorded(row))
    ensures Run(policy, start, steps) == Some(s')
    ensures s' == Serving(s, i, user, job, if saved then Done else Dead).(
                    table := s.table[row := SavedRow(s.table[row], job, saved)],
                    locks := s.locks - {(user, job.symbol)},
                    outcomes := s.outcomes + Told(i, user, job, row, saved))
  {
    hide Run;
    if saved {
      steps, s' := Push(policy, start, done, s, SaveOutcome(i));
      steps, s' := Push(policy, start, steps, s', Release(i));
    } else {
      steps, s' := Push(policy, start, done, s, Crash(i));
      assert s.table[row := s.table[row]] == s.table;
    }
  }

  /** The state when the worker is through: its row sent, its lock free again. */
  ghost function Handled(s: State, i: nat, row: nat, user: nat, job: Job, saved: bool): State {
    Serving(s, i, user, job, if saved then Done else Dead).(
      table := s.table[row := SavedRow(SentRow(s, user, job, row), job, saved)],
      log := s.log + [Delivery(row, user, job, s.now, s.now, s.now, row !in s.table, i)],
      acks := s.acks + [row],
      outcomes := s.outcomes + Told(i, user, job, row, saved))
  }

  /** One worker delivers `job` at once; it saves its outcome row, or dies just before. */
  lemma Deliver(policy: Policy, start: State, done: seq<Step>, s: State, i: nat, row: nat, user: nat, job: Job,
      saved: bool, baseline: Option<int>)
    returns (steps: seq<Step>, s': State)
    requires Run(policy, start, done) == Some(s) && Open(s, user, job, row)
    requires i !in s.workers && Unhindered(policy, s, user, job, baseline)
    ensures Run(policy, start, steps) == Some(s')
    ensures s' == Handled(s, i, row, user, job, saved)
  {
    hide Run, Eligible, Open, SavedRow, SentRow;
    var cleared, recorded;
    steps, cleared := GetCleared(policy, start, done, s, i, user, job, baseline);
    StillOpen(s, cleared, user, job, row);
    steps, recorded := GetRecorded(policy, start, steps, cleared, i, row, user, job);
    steps, s' := GetReleased(policy, start, steps, recorded, i, row, user, job, saved);
    assert s'.locks == s.locks;
    assert s'.workers == Serving(s, i, user, job, if saved then Done else Dead).workers;
  }

  lemma StillOpen(s: State, t: State, user: nat, job: Job, row: nat)
    requires Open(s, user, job, row) && t.table == s.table && t.now == s.now
    ensures Open(t, user, job, row) && SentRow(t, user, job, row) == SentRow(s, user, job, row)
  {
  }

  lemma GetNoted(policy: Policy, start: State, done: seq<Step>, s: State, i: nat, row: nat, user: nat, job: Job)
    returns (steps: seq<Step>, s': State, verdict: Verdict)
    requires Run(policy, start, done) == Some(s) && job.EventJob? && row in s.table && Slot(s.table[row], user, job)
    requires s.table[row].status != Failed || s.table[row].finalFailed
    requires i in s.workers && s.workers[i] == Worker(user, job, PLAIN, Cleared(s.now, s.now))
    ensures Run(policy, start, steps) == Some(s')
    ensures verdict == if s.table[row].status == Sent then AlreadySent(row) else AlreadyPending(row)
    ensures s' == Serving(s, i, user, job, Closing).(outcomes := s.outcomes + [Outcome(i, user, verdict)])
  {
    hide Run;
    verdict := if s.table[row].status == Sent then AlreadySent(row) else AlreadyPending(row);
    steps, s' := Push(policy, start, done, s, Reserve(i, row));
    assert s' == Serving(s, i, user, job, Noting(verdict));
    steps, s' := Push(policy, start, steps, s', SaveOutcome(i));
  }

  lemma GetFree(policy: Policy, start: State, done: seq<Step>, s: State, i: nat) returns (steps: seq<Step>, t: State)
    requires Run(policy, start, done) == Some(s) && i in s.workers && s.workers[i].phase.Closing?
    ensures Run(policy, start, steps) == Some(t)
    ensures t == s.(workers := s.workers[i := s.workers[i].(phase := Done)],
                    locks := s.locks - {(s.workers[i].user, s.workers[i].job.symbol)})
  {
    hide Run;
    steps, t := Push(policy, start, done, s, Release(i));
  }

  /** The slot is taken by a row that must not be sent again: the worker notes that and leaves. */
  lemma Decline(policy: Policy, start: State, done: seq<Step>, s: State, i: nat, row: nat, user: nat, job: Job)
    returns (steps: seq<Step>, s': State, verdict: Verdict)
    requires Run(policy, start, done) == Some(s) && job.EventJob? && row in s.table && Slot(s.table[row], user, job)
    requires s.table[row].status != Failed || s.table[row].finalFailed
    requires i !in s.workers && (user, job.symbol) !in s.locks && Eligible(policy, s.table, user, job, s.now, None)
    ensures Run(policy, start, steps) == Some(s')
    ensures verdict == if s.table[row].status == Sent then AlreadySent(row) else AlreadyPending(row)
    ensures s' == Serving(s, i, user, job, Done).(outcomes := s.outcomes + [Outcome(i, user, verdict)])
  {
    hide Run, Eligible;
    var t;
    steps, t := GetCleared(policy, start, done, s, i, user, job, None);
    steps, t, verdict := GetNoted(policy, start, steps, t, i, row, user, job);
    steps, s' := GetFree(policy, start, steps, t, i);
    assert s'.locks == s.locks && s'.workers == Serving(s, i, user, job, Done).workers;
  }

  // ---- what is delivered, in numbers ---------------------------------------------------------

  /** The row is new and the slot empty, or it is the slot's failed row that was not given up. */
  ghost predicate Reservable(t: Table, row: nat, user: nat, symbol: string, kind: Kind, refId: nat) {
    if row in t
    then t[row].user == user && t[row].symbol == symbol && t[row].kind == kind && t[row].refId == refId
         && t[row].status == Failed && !t[row].finalFailed && t[row].sentAt.None?
    else forall id :: id in t ==>
        t[id].user != user || t[id].symbol != symbol || t[id].kind != kind || t[id].refId != refId
  }

  /** The delivery was logged now, under `row`, which says so. */
  ghost predicate DeliveredNow(s: State, s': State, i: nat, row: nat, user: nat, job: Job) {
    && s'.now == s.now && s'.locks == s.locks && s'.acks == s.acks + [row]
    && s'.log == s.log + [Delivery(row, user, job, s.now, s.now, s.now, row !in s.table, i)]
    && row in s'.table && s'.table[row].user == user && s'.table[row].symbol == job.symbol
    && s'.table[row].kind == (if job.EventJob? then EventAlert else Heartbeat) && s'.table[row].refId == job.refId
    && s'.table[row].status == Sent && s'.table[row].sentAt == Some(s.now) && !s'.table[row].finalFailed
    && (row !in s.table ==> s'.table[row].createdAt == s.now)
    && s'.table[row].context == (if job.EventJob? then job.context else EventContext(None, None, NoMove))
    && (forall id :: id in s.table && id != row ==> id in s'.table && s'.table[id] == s.table[id])
    && i in s'.workers && s'.workers[i].phase == Done
  }

  lemma DeliverNow(policy: Policy, s: State, i: nat, row: nat, user: nat, job: Job, baseline: Option<int>)
    returns (steps: seq<Step>, s': State)
    requires i !in s.workers && Unhindered(policy, s, user, job, baseline)
    requires Reservable(s.table, row, user, job.symbol, if job.EventJob? then EventAlert else Heartbeat, job.refId)
    ensures Run(policy, s, steps) == Some(s') && DeliveredNow(s, s', i, row, user, job)
    ensures s'.outcomes == s.outcomes + if job.EventJob? then [Outcome(i, user, Delivered(row))] else []
    ensures job.EventJob? && job.family.Some? ==> s'.table[row].outcomeFamily == job.family
  {
    EmptyRun(policy, s);
    hide Run, Unhindered;
    assert Open(s, user, job, row);
    steps, s' := Deliver(policy, s, [], s, i, row, user, job, true, baseline);
  }

  /** A heartbeat of content at most two hours old is delivered: to a user who has had an automatic
      alert of the coin, when the last is 24 hours past, or else 24 hours after activation. */
  lemma HeartbeatDelivered(policy: Policy, s: State, i: nat, row: nat, user: nat, symbol: string, refId: nat,
      generatedAt: int, activated: Option<int>)
    returns (steps: seq<Step>, s': State)
    requires i !in s.workers && (user, symbol) !in s.locks && s.now - generatedAt <= 7_200_000_000
    requires forall id, k :: id in s.table && SentTo(s.table[id], user, symbol, k) && s.table[id].sentAt.Some? ==>
               s.now - s.table[id].sentAt.value >= 86_400_000_000
    requires (exists id ::
                id in s.table && SentTo(s.table[id], user, symbol, s.table[id].kind) && s.table[id].sentAt.Some?)
             || (activated.Some? && s.now - activated.value >= 86_400_000_000)
    requires Reservable(s.table, row, user, symbol, Heartbeat, refId)
    ensures Run(policy, s, steps) == Some(s')
    ensures DeliveredNow(s, s', i, row, user, HeartbeatJob(symbol, refId, generatedAt))
  {
    var job := HeartbeatJob(symbol, refId, generatedAt);
    DueNow(policy, s, user, job, activated);
    hide Reservable, Unhindered, DeliveredNow, Run;
    steps, s' := DeliverNow(policy, s, i, row, user, job, activated);
  }

  lemma DueNow(policy: Policy, s: State, user: nat, job: Job, activated: Option<int>)
    requires job.HeartbeatJob? && (user, job.symbol) !in s.locks && s.now - job.generatedAt <= 7_200_000_000
    requires forall id, k :: id in s.table && SentTo(s.table[id], user, job.symbol, k) && s.table[id].sentAt.Some? ==>
               s.now - s.table[id].sentAt.value >= 86_400_000_000
    requires (exists id ::
                id in s.table && SentTo(s.table[id], user, job.symbol, s.table[id].kind) && s.table[id].sentAt.Some?)
             || (activated.Some? && s.now - activated.value >= 86_400_000_000)
    ensures Unhindered(policy, s, user, job, activated)
  {
  }

  /** An event is delivered to a user none of whose sent Event Alerts of the coin that it repeats is
      younger than the cooldown; and its outcome row says delivered. */
  lemma EventDelivered(policy: Policy, s: State, i: nat, row: nat, user: nat, job: Job)
    returns (steps: seq<Step>, s': State)
    requires job.EventJob? && i !in s.workers && (user, job.symbol) !in s.locks
    requires job.key != "" ==> forall id ::
               id in s.table && SentTo(s.table[id], user, job.symbol, EventAlert)
               && Matches(policy, s.table[id], job.key, CurrentFamily(policy, job.symbol, job.key, job.family))
               ==> s.now - s.table[id].SentTime() >= policy.cooldown
    requires Reservable(s.table, row, user, job.symbol, EventAlert, job.refId)
    ensures Run(policy, s, steps) == Some(s') && DeliveredNow(s, s', i, row, user, job)
    ensures s'.outcomes == s.outcomes + [Outcome(i, user, Delivered(row))]
  {
    assert Unhindered(policy, s, user, job, None);
    hide Reservable, Unhindered, DeliveredNow, Run, Matches, CurrentFamily;
    steps, s' := DeliverNow(policy, s, i, row, user, job, None);
  }

  /** Content older than two hours at the locked check stays unsent, whatever happens next: its worker
      reserves no row in any run. */
  lemma {:induction false} StaleStaysUnsent(policy: Policy, s: State, w: nat, steps: seq<Step>)
    requires w in s.workers && s.workers[w].job.HeartbeatJob? && Run(policy, s, steps).Some?
    requires match s.workers[w].phase
             case Quiet(_) => s.now - s.workers[w].job.generatedAt > 7_200_000_000
             case Closing => true
             case Done => true
             case Dead => true
             case _ => false
    ensures var s' := Run(policy, s, steps).value;
            w in s'.workers && !s'.workers[w].phase.Cleared? && !s'.workers[w].phase.Sending?
                && !s'.workers[w].phase.Recorded?
    ensures forall k, row :: 0 <= k < |steps| ==> steps[k] != Reserve(w, row)
    decreases |steps|
  {
    if steps != [] {
      var next := Take(policy, s, steps[0]).value;
      StaleStep(policy, s, w, steps[0]);
      StaleStaysUnsent(policy, next, w, steps[1..]);
      forall k, row | 0 <= k < |steps| ensures steps[k] != Reserve(w, row) {
        if k > 0 { assert steps[k] == steps[1..][k - 1]; }
      }
    }
  }

  lemma StaleStep(policy: Policy, s: State, w: nat, step: Step)
    requires w in s.workers && s.workers[w].job.HeartbeatJob? && Take(policy, s, step).Some?
    requires s.workers[w].phase.Quiet? || s.workers[w].phase.Closing? || s.workers[w].phase.Done?
        || s.workers[w].phase.Dead?
    requires s.workers[w].phase.Quiet? ==> s.now - s.workers[w].job.generatedAt > 7_200_000_000
    ensures !step.Reserve? || step.w != w
    ensures var s' := Take(policy, s, step).value; var p := s'.workers[w].phase;
            && w in s'.workers && s'.workers[w].job == s.workers[w].job && s'.now >= s.now
            && (if p.Quiet? then s.workers[w].phase.Quiet? else p.Closing? || p.Done? || p.Dead?)
  {
    if step.Tick? || step.Spawn? || step.w != w {
      OthersStay(policy, s, w, step);
    } else {
      StaleMove(policy, s, w, step);
    }
    hide Take;
  }

  lemma OthersStay(policy: Policy, s: State, w: nat, step: Step)
    requires w in s.workers && Take(policy, s, step).Some? && (step.Tick? || step.Spawn? || step.w != w)
    ensures var s' := Take(policy, s, step).value;
            w in s'.workers && s'.workers[w] == s.workers[w] && s'.now >= s.now
  {
    hide Eligible, Slot, Blocked, RepeatOf, T.Answered, T.Awake;
  }

  lemma StaleMove(policy: Policy, s: State, w: nat, step: Step)
    requires !step.Tick? && !step.Spawn? && step.w == w && w in s.workers && s.workers[w].job.HeartbeatJob?
    requires s.workers[w].phase.Quiet? || s.workers[w].phase.Closing? || s.workers[w].phase.Done?
        || s.workers[w].phase.Dead?
    requires s.workers[w].phase.Quiet? ==> s.now - s.workers[w].job.generatedAt > 7_200_000_000
    requires Take(policy, s, step).Some?
    ensures !step.Reserve?
    ensures var s' := Take(policy, s, step).value;
            && w in s'.workers && s'.workers[w].job == s.workers[w].job && s'.now == s.now
            && (s'.workers[w].phase.Closing? || s'.workers[w].phase.Done? || s'.workers[w].phase.Dead?)
  {
    hide Eligible, Slot, Blocked, RepeatOf, Reserving, Responding, Recording, GivingUp, Saving, T.Awake;
  }

  // ---- what is written down ------------------------------------------------------------------

  /** How a send ends is written into its row and, for an event, into the outcome row: with `sent_at`
      unless the row has one, or as failed for good, the chat blocked if the last error says so. */
  lemma EndIsNoted(policy: Policy, s: State, i: nat, at: int, freshAt: int, row: nat, created: bool, sent: bool,
      n: nat, cause: T.Cause)
    returns (steps: seq<Step>, t: State)
    requires i in s.workers && s.workers[i].phase == Sending(at, freshAt, row, created, T.Finished(sent, n, cause))
    requires row in s.table
    ensures Run(policy, s, steps) == Some(t)
    ensures var w, was := s.workers[i], s.table[row];
            var event, time := w.job.EventJob?, if was.sentAt.Some? then was.sentAt.value else s.now;
            && t.now == s.now && t.acks == s.acks
            && t.workers == s.workers[i := w.(phase := Done)] && t.locks == s.locks - {(w.user, w.job.symbol)}
            && t.table == s.table[row :=
                 if !sent then was.(status := Failed, finalFailed := true)
                 else if event && w.job.family.Some?
                 then was.(status := Sent, sentAt := Some(time), finalFailed := false, outcomeFamily := w.job.family)
                 else was.(status := Sent, sentAt := Some(time), finalFailed := false)]
            && t.log == s.log + (if sent then [Delivery(row, w.user, w.job, at, freshAt, time, created, i)] else [])
            && t.outcomes == s.outcomes
                 + if !event then []
                   else if sent then [Outcome(i, w.user, Delivered(row))]
                   else [Outcome(i, w.user, Undelivered(row, cause.Raised? && cause.failure.saysBlocked))]
  {
    EmptyRun(policy, s);
    hide Run;
    var w := s.workers[i];
    steps, t := Push(policy, s, [], s, Record(i));
    assert t == if sent then Recording(s, i) else GivingUp(s, i);
    if sent || w.job.EventJob? {
      steps, t := Push(policy, s, steps, t, SaveOutcome(i));
    }
    hide Take;
    steps, t := GetFree(policy, s, steps, t, i);
    assert t.workers == s.workers[i := w.(phase := Done)];
  }

  /** While a send pauses before the next attempt its row is pending for retry. */
  lemma PauseIsNoted(policy: Policy, s: State, i: nat, answer: T.Answer)
    requires i in s.workers && s.workers[i].phase.Sending? && Take(policy, s, Respond(i, answer)).Some?
    ensures var t, row := Take(policy, s, Respond(i, answer)).value, s.workers[i].phase.row;
            && i in t.workers && t.workers[i].phase.Sending?
            && t.table == (if t.workers[i].phase.send.Sleeping?
                then s.table[row := s.table[row].(status := RetryPending)]
                           else s.table)
            && t.acks == s.acks + (if answer.Acknowledged? then [row] else [])
  {
    hide T.Answered, T.Awake;
    var row := s.workers[i].phase.row;
    assert s.table[row := s.table[row]] == s.table && s.acks + [] == s.acks;
  }

  // ---- a whole fan-out -----------------------------------------------------------------------

  /** Rows of users outside `users` are as they were, and none were added for them. */
  ghost predicate OnlyFor(before: Table, after: Table, users: set<nat>) {
    && (forall id :: id in after && after[id].user !in users ==> id in before && after[id] == before[id])
    && (forall id :: id in before && before[id].user !in users ==> id in after && after[id] == before[id])
  }

  lemma EligibleFrame(policy: Policy, before: Table, after: Table, users: set<nat>, user: nat, job: Job, now: int)
    requires OnlyFor(before, after, users) && user !in users && job.EventJob?
    requires Eligible(policy, before, user, job, now, None)
    ensures Eligible(policy, after, user, job, now, None)
  {
    hide Matches, CurrentFamily;
  }

  lemma {:induction false} Bound(ids: set<nat>) returns (n: nat)
    ensures forall id :: id in ids ==> id < n
    decreases |ids|
  {
    n := 0;
    if ids != {} {
      var id :| id in ids;
      n := Bound(ids - {id});
      n := if id < n then n else id + 1;
      assert ids == ids - {id} + {id};
    }
  }

  /** The slot's row is sent, on its way, or given up for good. */
  ghost predicate SlotTaken(t: Table, user: nat, job: Job) {
    exists id :: id in t && Slot(t[id], user, job) && (t[id].status != Failed || t[id].finalFailed)
  }

  lemma SavedUser(s: State, user: nat, job: Job, row: nat)
    requires Open(s, user, job, row)
    ensures SavedRow(SentRow(s, user, job, row), job, true).user == user
  {
  }

  ghost predicate UnsentFailed(t: Table, user: nat) {
    forall id :: id in t && t[id].user == user && t[id].status == Failed ==> t[id].sentAt.None?
  }

  ghost predicate OneRow(t: Table, user: nat, job: Job) {
    forall a, b :: a in t && b in t && Slot(t[a], user, job) && Slot(t[b], user, job) ==> a == b
  }

  /** A worker, named like its user, serves the user to the end, whatever row the slot has. */
  lemma ServeOne(policy: Policy, start: State, done: seq<Step>, s: State, user: nat, job: Job)
    returns (steps: seq<Step>, s': State, verdict: Verdict)
    requires Run(policy, start, done) == Some(s) && job.EventJob?
    requires user !in s.workers && (user, job.symbol) !in s.locks && Eligible(policy, s.table, user, job, s.now, None)
    requires UnsentFailed(s.table, user)
    requires OneRow(s.table, user, job)
    ensures Run(policy, start, steps) == Some(s') && !verdict.RepeatAtPreflight?
    ensures verdict.Delivered? <==> !SlotTaken(s.table, user, job)
    ensures s'.now == s.now && s'.locks == s.locks && OnlyFor(s.table, s'.table, {user})
    ensures s'.workers == s.workers[user := Worker(user, job, PLAIN, Done)]
    ensures s'.outcomes == s.outcomes + [Outcome(user, user, verdict)]
  {
    hide Run, Eligible, SavedRow, SentRow;
    var row := Bound(s.table.Keys);
    if id :| id in s.table && Slot(s.table[id], user, job) {
      row := id;
    }
    if row in s.table && (s.table[row].status != Failed || s.table[row].finalFailed) {
      steps, s', verdict := Decline(policy, start, done, s, user, row, user, job);
    } else {
      steps, s' := Deliver(policy, start, done, s, user, row, user, job, true, None);
      verdict := Delivered(row);
      SavedUser(s, user, job, row);
    }
  }

  /** Every user of the set is served to the end with the verdict given: delivered unless the slot was taken. */
  ghost predicate AllServed(before: Table, s: State, users: set<nat>, job: Job, verdicts: map<nat, Verdict>) {
    && s.workers.Keys == users == verdicts.Keys
    && forall u :: u in users ==>
         && s.workers[u] == Worker(u, job, PLAIN, Done) && !verdicts[u].RepeatAtPreflight?
         && (verdicts[u].Delivered? <==> !SlotTaken(before, u, job))
         && Outcome(u, u, verdicts[u]) in s.outcomes
  }

  lemma OnlyForBoth(a: Table, b: Table, c: Table, users: set<nat>, user: nat)
    requires OnlyFor(a, b, users) && OnlyFor(b, c, {user})
    ensures OnlyFor(a, c, users + {user})
  {
  }

  lemma OneMore(t: Table, s: State, s': State, users: set<nat>, user: nat, job: Job, verdicts: map<nat, Verdict>,
      verdict: Verdict)
    requires AllServed(t, s, users, job, verdicts) && user !in users && !verdict.RepeatAtPreflight?
    requires verdict.Delivered? <==> !SlotTaken(t, user, job)
    requires s'.workers == s.workers[user := Worker(user, job, PLAIN, Done)]
    requires s'.outcomes == s.outcomes + [Outcome(user, user, verdict)]
    ensures AllServed(t, s', users + {user}, job, verdicts[user := verdict])
  {
    hide SlotTaken;
  }

  lemma {:induction false} ServeAll(policy: Policy, start: State, users: set<nat>, job: Job)
    returns (steps: seq<Step>, s: State, verdicts: map<nat, Verdict>)
    requires start.workers == map[] && start.locks == map[] && TableOk(start) && job.EventJob?
    requires forall u :: u in users ==> Eligible(policy, start.table, u, job, start.now, None)
    ensures Run(policy, start, steps) == Some(s) && AllServed(start.table, s, users, job, verdicts)
    ensures s.now == start.now && s.locks == map[] && OnlyFor(start.table, s.table, users)
    decreases |users|
  {
    hide Run, Eligible, SlotTaken;
    if users == {} {
      steps, s, verdicts := [], start, map[];
      EmptyRun(policy, start);
    } else {
      var u :| u in users;
      var rest := users - {u};
      var before, verdict;
      steps, before, verdicts := ServeAll(policy, start, rest, job);
      assert u !in before.workers;
      EligibleFrame(policy, start.table, before.table, rest, u, job, start.now);
      SlotsOf(start, before.table, rest, u, job);
      hide AllServed, OnlyFor, TableOk, UnsentFailed, OneRow;
      steps, s, verdict := ServeOne(policy, start, steps, before, u, job);
      OneMore(start.table, before, s, rest, u, job, verdicts, verdict);
      OnlyForBoth(start.table, before.table, s.table, rest, u);
      verdicts := verdicts[u := verdict];
      assert users == rest + {u};
    }
  }

  lemma SlotsOf(start: State, after: Table, users: set<nat>, user: nat, job: Job)
    requires TableOk(start) && OnlyFor(start.table, after, users) && user !in users
    ensures UnsentFailed(after, user) && OneRow(after, user, job)
    ensures SlotTaken(after, user, job) <==> SlotTaken(start.table, user, job)
  {
  }
}
