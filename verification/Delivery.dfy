/**
 * The alert delivery protocol as a transition system (bot/alerts.py
 * `_deliver_market_event_alert`, `_deliver_market_heartbeat`; bot/db/alerts.py).
 *
 * A worker is one recipient of one event or heartbeat fan-out. Workers interleave freely:
 * each step below is one atomic action of the code (a clock read, a query, a committed write,
 * one Telegram request). Clock reads and queries are separate steps, a preflight may be
 * arbitrarily stale, Telegram answers anything, and a worker may die at any point, which
 * releases its lock.
 */
module Delivery {
  import opened Prelude
  import opened AlertTable
  import T = Telegram

  datatype Job =
    | EventJob(symbol: string, refId: nat, key: string, family: Option<string>, context: EventContext)
    | HeartbeatJob(symbol: string, refId: nat, generatedAt: int)
  {
    function Kind(): Kind {
      if EventJob? then EventAlert else Heartbeat
    }
    function Context(): EventContext {
      if EventJob? then context else EventContext(None, None, NoMove)
    }
  }

  /** What the outcome row of an event's recipient says; `previous` is the alert that was repeated
      and `at` the clock of the recheck. */
  datatype Verdict =
    | RepeatAtPreflight
    | RepeatUnderLock(previous: nat, at: int)
    | AlreadySent(row: nat)
    | AlreadyPending(row: nat)
    | Delivered(row: nat)
    | Undelivered(row: nat, blocked: bool)

  datatype Outcome = Outcome(worker: nat, user: nat, verdict: Verdict)

  /** `Turned` and `Noting` still have to write their outcome row; `Dead` is a crashed worker. */
  datatype Phase =
    | Ready
    | Turned
    | Waiting
    | Locked
    | Clocked(at: int)
    | Quiet(at: int)
    | Cleared(at: int, freshAt: int)
    | Sending(at: int, freshAt: int, row: nat, created: bool, send: T.SendState)
    | Recorded(row: nat)
    | Noting(verdict: Verdict)
    | Closing
    | Done
    | Dead

  datatype Worker = Worker(user: nat, job: Job, payload: T.Payload, phase: Phase)

  /** A recorded successful delivery, with the clock reads it was decided on; `created` says that
      its row was inserted by this delivery, not taken over from an earlier failed one. */
  datatype Delivery = Delivery(row: nat, user: nat, job: Job, clearedAt: int, freshAt: int, sentAt: int, created: bool,
      worker: nat)

  datatype State = State(
    now: int,
    table: Table,
    locks: map<(nat, string), nat>,
    workers: map<nat, Worker>,
    log: seq<Delivery>,
    acks: seq<nat>,
    outcomes: seq<Outcome>)

  datatype Step =
    | Tick(micros: nat)
    | Spawn(w: nat, user: nat, job: Job, payload: T.Payload)
    | Preflight(w: nat, asOf: int, baseline: Option<int>)
    | Acquire(w: nat)
    | ReadClock(w: nat)
    | Query(w: nat, baseline: Option<int>)
    | Freshen(w: nat)
    | Reserve(w: nat, row: nat)
    | Respond(w: nat, answer: T.Answer)
    | Record(w: nat)
    | SaveOutcome(w: nat)
    | Release(w: nat)
    | Crash(w: nat)

  predicate Holds(p: Phase) {
    !p.Ready? && !p.Turned? && !p.Waiting? && !p.Done? && !p.Dead?
  }

  function LockOf(w: Worker): (nat, string) {
    (w.user, w.job.symbol)
  }

  /** 24 hours without a successful automatic alert of any kind; without one, since activation. */
  ghost predicate HeartbeatDue(table: Table, user: nat, symbol: string, now: int, baseline: Option<int>) {
    if exists id, k :: id in table && SentTo(table[id], user, symbol, k) && table[id].sentAt.Some?
    then forall id, k :: id in table && SentTo(table[id], user, symbol, k) && table[id].sentAt.Some?
                         ==> now - table[id].sentAt.value >= HEARTBEAT_SILENCE
    else baseline.Some? && now - baseline.value >= HEARTBEAT_SILENCE
  }

  /** The eligibility decision at clock `now`, in preflight and again under the lock. */
  ghost predicate Eligible(policy: Policy, table: Table, user: nat, job: Job, now: int, baseline: Option<int>) {
    match job
    case EventJob(symbol, _, key, family, _) => !InCooldown(policy, table, user, symbol, key, family, now)
    case HeartbeatJob(symbol, _, _) => HeartbeatDue(table, user, symbol, now, baseline)
  }

  /** The sent row forbids the event at clock `at`: the same identity, younger than the cooldown. */
  predicate Forbids(policy: Policy, row: AlertRow, user: nat, job: Job, at: int)
    requires job.EventJob?
  {
    && job.key != "" && policy.cooldown > 0 && SentTo(row, user, job.symbol, EventAlert)
    && Matches(policy, row, job.key, CurrentFamily(policy, job.symbol, job.key, job.family))
    && at - row.SentTime() < policy.cooldown
  }

  ghost function RepeatOf(policy: Policy, table: Table, user: nat, job: Job, at: int): (id: nat)
    requires job.EventJob? && !Eligible(policy, table, user, job, at, None)
    ensures id in table && Forbids(policy, table[id], user, job, at)
  {
    var id: nat :| id in table && Forbids(policy, table[id], user, job, at);
    id
  }

  /** Does the final error name a chat that can no longer be reached? */
  predicate Blocked(send: T.SendState) {
    send.Finished? && send.cause.Raised? && send.cause.failure.saysBlocked
  }

  ghost function Noted(s: State, i: nat, phase: Phase, verdict: Verdict): State
    requires i in s.workers
  {
    At(s, i, phase).(outcomes := s.outcomes + [Outcome(i, s.workers[i].user, verdict)])
  }

  predicate Slot(row: AlertRow, user: nat, job: Job) {
    row.user == user && row.symbol == job.symbol && row.kind == job.Kind() && row.refId == job.refId
  }

  ghost function At(s: State, w: nat, phase: Phase): State
    requires w in s.workers
  {
    s.(workers := s.workers[w := s.workers[w].(phase := phase)])
  }

  ghost function Unlocked(s: State, w: nat, phase: Phase): State
    requires w in s.workers
  {
    At(s, w, phase).(locks := s.locks - {LockOf(s.workers[w])})
  }

  /** The row a reservation writes: a new pending row, or a failed one put back to pending. */
  function Reserved(s: State, w: Worker, row: nat): AlertRow {
    if row in s.table
    then s.table[row].(status := Pending, finalFailed := false, context := w.job.Context())
    else AlertRow(w.user, w.job.symbol, w.job.Kind(), w.job.refId, Pending, s.now, None, false, w.job.Context(), None)
  }

  /** The state after a step, or None when the step cannot be taken. */
  ghost function Take(policy: Policy, s: State, step: Step): Option<State> {
    match step
    case Tick(d) => Some(s.(now := s.now + d))
    case Spawn(w, user, job, payload) =>
      if w in s.workers then None
      else Some(s.(workers := s.workers[w := Worker(user, job, payload, Ready)]))
    case _ =>
      if step.w !in s.workers then None else Act(policy, s, step, s.workers[step.w])
  }

  ghost function Act(policy: Policy, s: State, step: Step, w: Worker): Option<State>
    requires !step.Tick? && !step.Spawn? && step.w in s.workers && s.workers[step.w] == w
  {
    match step
    case Preflight(i, asOf, baseline) =>
      if !w.phase.Ready? || asOf > s.now then None
      else Some(At(s, i, if Eligible(policy, s.table, w.user, w.job, asOf, baseline) then Waiting
          else if w.job.EventJob? then Turned else Done))
    case Acquire(i) =>
      if !w.phase.Waiting? || LockOf(w) in s.locks then None
      else Some(At(s, i, Locked).(locks := s.locks[LockOf(w) := i]))
    case ReadClock(i) =>
      if !w.phase.Locked? then None else Some(At(s, i, Clocked(s.now)))
    case Query(i, baseline) =>
      if !w.phase.Clocked? then None
      else Some(At(s, i,
        if !Eligible(policy, s.table, w.user, w.job, w.phase.at, baseline) then
          if w.job.EventJob?
              then Noting(RepeatUnderLock(RepeatOf(policy, s.table, w.user, w.job, w.phase.at), w.phase.at))
              else Closing
        else if w.job.HeartbeatJob? then Quiet(w.phase.at) else Cleared(w.phase.at, w.phase.at)))
    case Freshen(i) =>
      if !w.phase.Quiet? || !w.job.HeartbeatJob? then None
      else Some(At(s, i, if s.now - w.job.generatedAt <= HEARTBEAT_MAX_AGE then Cleared(w.phase.at, s.now)
          else Closing))
    case Reserve(i, row) =>
      if !w.phase.Cleared? then None
      else if row in s.table then
        if !Slot(s.table[row], w.user, w.job) then None
        else if s.table[row].status != Failed || s.table[row].finalFailed then Some(At(s, i, Declined(s, w, row)))
        else Some(Reserving(s, i, row))
      else if exists id :: id in s.table && Slot(s.table[id], w.user, w.job) then None
      else Some(Reserving(s, i, row))
    case Respond(i, answer) =>
      if !w.phase.Sending? || w.phase.row !in s.table || !T.Awake(w.payload, w.phase.send).Calling? then None
      else Some(Responding(s, i, answer))
    case Record(i) =>
      if !w.phase.Sending? || w.phase.row !in s.table || !w.phase.send.Finished? then None
      else Some(if w.phase.send.sent then Recording(s, i) else GivingUp(s, i))
    case SaveOutcome(i) =>
      if w.phase.Turned? then Some(Noted(s, i, Done, RepeatAtPreflight))
      else if w.phase.Noting? then Some(Noted(s, i, Closing, w.phase.verdict))
      else if !w.phase.Recorded? || w.phase.row !in s.table then None
      else Some(Saving(s, i))
    case Release(i) =>
      if !w.phase.Closing? then None else Some(Unlocked(s, i, Done))
    case Crash(i) =>
      if w.phase.Done? || w.phase.Dead? then None
      else if Holds(w.phase) then Some(Unlocked(s, i, Dead)) else Some(At(s, i, Dead))
  }

  /** The reservation found a row that must not be sent again. */
  function Declined(s: State, w: Worker, row: nat): Phase
    requires row in s.table
  {
    if w.job.HeartbeatJob? then Closing
    else if s.table[row].status == Sent then Noting(AlreadySent(row)) else Noting(AlreadyPending(row))
  }

  ghost function Reserving(s: State, i: nat, row: nat): State
    requires i in s.workers && s.workers[i].phase.Cleared?
  {
    var w := s.workers[i];
    At(s, i, Sending(w.phase.at, w.phase.freshAt, row, row !in s.table, T.Begin(w.payload, 1))).(
      table := s.table[row := Reserved(s, w, row)])
  }

  ghost function Responding(s: State, i: nat, answer: T.Answer): State
    requires i in s.workers && s.workers[i].phase.Sending? && s.workers[i].phase.row in s.table
    requires T.Awake(s.workers[i].payload, s.workers[i].phase.send).Calling?
  {
    var w := s.workers[i];
    var call := T.Awake(w.payload, w.phase.send);
    var next := T.Answered(w.payload, call.attempt, call.channel, answer);
    var row := s.table[w.phase.row];
    At(s, i, w.phase.(send := next)).(
      table := s.table[w.phase.row := if next.Sleeping? then row.(status := RetryPending) else row],
      acks := if answer.Acknowledged? then s.acks + [w.phase.row] else s.acks)
  }

  /** A success is written, with `sent_at` unless the row has one. */
  ghost function Recording(s: State, i: nat): State
    requires i in s.workers && s.workers[i].phase.Sending? && s.workers[i].phase.row in s.table
  {
    var w := s.workers[i];
    var row := s.table[w.phase.row];
    var at := if row.sentAt.Some? then row.sentAt.value else s.now;
    At(s, i, Recorded(w.phase.row)).(
      table := s.table[w.phase.row := row.(status := Sent, sentAt := Some(at), finalFailed := false)],
      log := s.log + [Delivery(w.phase.row, w.user, w.job, w.phase.at, w.phase.freshAt, at, w.phase.created, i)])
  }

  ghost function GivingUp(s: State, i: nat): State
    requires i in s.workers && s.workers[i].phase.Sending? && s.workers[i].phase.row in s.table
  {
    var w := s.workers[i];
    At(s, i, if w.job.EventJob? then Noting(Undelivered(w.phase.row, Blocked(w.phase.send))) else Closing).(
      table := s.table[w.phase.row := s.table[w.phase.row].(status := Failed, finalFailed := true)])
  }

  /** The outcome row of a delivered event carries its family; a heartbeat writes none. */
  ghost function Saving(s: State, i: nat): State
    requires i in s.workers && s.workers[i].phase.Recorded? && s.workers[i].phase.row in s.table
  {
    var w := s.workers[i];
    var row := s.table[w.phase.row];
    (if w.job.EventJob? then Noted(s, i, Closing, Delivered(w.phase.row)) else At(s, i, Closing)).(
      table := s.table[w.phase.row := if w.job.EventJob? && w.job.family.Some? then row.(outcomeFamily := w.job.family)
          else row])
  }

  ghost function Run(policy: Policy, s: State, steps: seq<Step>): Option<State>
    decreases |steps|
  {
    if steps == [] then Some(s)
    else
      var next := Take(policy, s, steps[0]);
      if next.None? then None else Run(policy, next.value, steps[1..])
  }
}
