/**
 * The outcome rows of an event's recipients (bot/alerts.py `_record_recipient_outcomes`,
 * `_record_alert_delivery_outcome`): how many each worker writes, and what they say about the log
 * and the table, over all runs of the delivery protocol.
 */
module DeliveryOutcomes {
  import opened Prelude
  import opened AlertTable
  import T = Telegram
  import opened Delivery
  import opened DeliverySafety

  /** Recorded a success, or is past its outcome row. */
  predicate Past(p: Phase) {
    p.Recorded? || p.Closing? || p.Done? || p.Dead?
  }

  predicate Finished(p: Phase) {
    p.Closing? || p.Done?
  }

  ghost predicate LoggedBy(s: State, w: nat) {
    exists j: nat :: j < |s.log| && s.log[j].worker == w
  }

  ghost predicate RowBy(s: State, w: nat, row: nat) {
    exists j: nat :: j < |s.log| && s.log[j].worker == w && s.log[j].row == row
  }

  ghost predicate NotedBy(s: State, w: nat) {
    exists k: nat :: k < |s.outcomes| && s.outcomes[k].worker == w
  }

  /** The row will not be written again: sent and done with, or given up for good. */
  ghost predicate Standing(s: State, id: nat) {
    && id in s.table
    && if s.table[id].status == Sent then forall w :: w in s.workers ==> s.workers[w].phase != Recorded(id)
       else s.table[id].status == Failed && s.table[id].finalFailed
  }

  /** What a verdict about `w`'s recipient says about the table. */
  ghost predicate Meant(policy: Policy, s: State, w: Worker, verdict: Verdict) {
    w.job.EventJob? &&
    match verdict
    case RepeatAtPreflight => true
    case RepeatUnderLock(previous, at) => Standing(s, previous) && Forbids(policy, s.table[previous], w.user, w.job, at)
    case AlreadySent(row) => Standing(s, row) && s.table[row].status == Sent && Slot(s.table[row], w.user, w.job)
    case AlreadyPending(row) => row in s.table && Slot(s.table[row], w.user, w.job)
    case Delivered(row) => row in s.table && s.table[row].status == Sent && Slot(s.table[row], w.user, w.job)
    case Undelivered(row, _) => Standing(s, row) && s.table[row].status == Failed && Slot(s.table[row], w.user, w.job)
  }

  // ---------- invariant

  ghost predicate LogBooks(s: State) {
    && (forall j: nat :: j < |s.log| ==> s.log[j].worker in s.workers && Past(s.workers[s.log[j].worker].phase))
    && (forall j: nat, k: nat :: j < k < |s.log| ==> s.log[j].worker != s.log[k].worker)
    && (forall w :: w in s.workers && s.workers[w].phase.Recorded? ==> RowBy(s, w, s.workers[w].phase.row))
  }

  predicate HasWritten(p: Phase) {
    p.Closing? || p.Done? || p.Dead?
  }

  ghost predicate OutcomeBooks(s: State) {
    && (forall k: nat :: k < |s.outcomes| ==>
          s.outcomes[k].worker in s.workers && HasWritten(s.workers[s.outcomes[k].worker].phase)
          && s.workers[s.outcomes[k].worker].user == s.outcomes[k].user)
    && (forall j: nat, k: nat :: j < k < |s.outcomes| ==> s.outcomes[j].worker != s.outcomes[k].worker)
    && (forall w :: w in s.workers && s.workers[w].job.EventJob? && Finished(s.workers[w].phase) ==> NotedBy(s, w))
  }

  ghost predicate TrueOf(s: State, o: Outcome) {
    (o.verdict.Delivered? <==> LoggedBy(s, o.worker)) && (o.verdict.Delivered? ==> RowBy(s, o.worker, o.verdict.row))
  }

  ghost predicate VerdictsTrue(s: State) {
    forall k: nat :: k < |s.outcomes| ==> TrueOf(s, s.outcomes[k])
  }

  ghost predicate MeaningOk(policy: Policy, s: State) {
    && (forall k: nat :: k < |s.outcomes| ==>
        s.outcomes[k].worker in s.workers && Meant(policy, s, s.workers[s.outcomes[k].worker], s.outcomes[k].verdict))
    && (forall w :: w in s.workers && s.workers[w].phase.Noting? ==>
          !s.workers[w].phase.verdict.Delivered? && Meant(policy, s, s.workers[w], s.workers[w].phase.verdict))
    && (forall w :: w in s.workers && s.workers[w].phase.Turned? ==> s.workers[w].job.EventJob?)
  }

  ghost predicate Books(policy: Policy, s: State) {
    LogBooks(s) && OutcomeBooks(s) && VerdictsTrue(s) && MeaningOk(policy, s)
  }

  // ---------- what one step can do to workers, log and outcomes

  predicate LogMove(s: State, s': State, i: nat)
    requires i in s.workers && i in s'.workers
  {
    if s.workers[i].phase.Sending? && s'.workers[i].phase.Recorded? then
      && |s'.log| == |s.log| + 1 && s'.log[..|s.log|] == s.log
      && s'.log[|s.log|].worker == i && s'.log[|s.log|].row == s'.workers[i].phase.row
    else s'.log == s.log && (s'.workers[i].phase.Recorded? ==> s'.workers[i].phase == s.workers[i].phase)
  }

  predicate OutcomeMove(s: State, s': State, i: nat)
    requires i in s.workers && i in s'.workers
  {
    var p, q := s.workers[i].phase, s'.workers[i].phase;
    if p.Turned? && q.Done? then s'.outcomes == s.outcomes + [Outcome(i, s.workers[i].user, RepeatAtPreflight)]
    else if p.Noting? && q.Closing? then s'.outcomes == s.outcomes + [Outcome(i, s.workers[i].user, p.verdict)]
    else if p.Recorded? && q.Closing? && s.workers[i].job.EventJob?
        then s'.outcomes == s.outcomes + [Outcome(i, s.workers[i].user, Delivered(p.row))]
    else s'.outcomes == s.outcomes && (s.workers[i].job.EventJob? && Finished(q) ==> p.Closing?)
  }

  predicate Moved(s: State, s': State, i: nat) {
    && i in s.workers && i in s'.workers && s'.workers == s.workers[i := s'.workers[i]]
    && s'.workers[i].user == s.workers[i].user && s'.workers[i].job == s.workers[i].job
    && (Past(s.workers[i].phase) ==> Past(s'.workers[i].phase))
    && (HasWritten(s.workers[i].phase) ==> HasWritten(s'.workers[i].phase))
    && LogMove(s, s', i) && OutcomeMove(s, s', i)
  }

  predicate Quietly(step: Step) {
    !step.Tick? && !step.Spawn? && !step.SaveOutcome? && !step.Record? && !step.Respond? && !step.Reserve?
  }

  lemma QuietMoves(policy: Policy, s: State, step: Step)
    requires Quietly(step) && Take(policy, s, step).Some?
    ensures Moved(s, Take(policy, s, step).value, step.w) && Take(policy, s, step).value.table == s.table
  {
    hide Eligible, RepeatOf;
  }

  lemma SendMoves(policy: Policy, s: State, step: Step)
    requires (step.Record? || step.Respond? || step.Reserve?) && Take(policy, s, step).Some?
    ensures Moved(s, Take(policy, s, step).value, step.w)
  {
    hide Slot, Blocked, T.Answered, T.Awake;
  }

  lemma SaveMoves(policy: Policy, s: State, step: Step)
    requires step.SaveOutcome? && Take(policy, s, step).Some?
    ensures Moved(s, Take(policy, s, step).value, step.w)
  {
  }

  lemma StepMoves(policy: Policy, s: State, step: Step)
    requires !step.Tick? && !step.Spawn? && Take(policy, s, step).Some?
    ensures Moved(s, Take(policy, s, step).value, step.w)
  {
    hide Take, Moved;
    if Quietly(step) {
      QuietMoves(policy, s, step);
    } else if step.SaveOutcome? {
      SaveMoves(policy, s, step);
    } else {
      SendMoves(policy, s, step);
    }
  }

  lemma MovedLog(s: State, s': State, i: nat)
    requires LogBooks(s) && Moved(s, s', i)
    ensures LogBooks(s')
  {
    hide OutcomeMove;
    forall w | w in s'.workers && s'.workers[w].phase.Recorded? ensures RowBy(s', w, s'.workers[w].phase.row) {
      if s'.workers[w].phase == s.workers[w].phase {
        assert RowBy(s, w, s.workers[w].phase.row);
        var j: nat :| j < |s.log| && s.log[j].worker == w && s.log[j].row == s.workers[w].phase.row;
        assert s'.log[j] == s.log[j];
      } else {
        assert s'.log[|s.log|].worker == w;
      }
    }
    forall j: nat | j < |s.log| ensures s'.log[j] == s.log[j] {}
  }

  lemma MovedOutcomes(s: State, s': State, i: nat)
    requires OutcomeBooks(s) && Moved(s, s', i)
    ensures OutcomeBooks(s')
  {
    hide LogMove;
    forall k: nat | k < |s.outcomes| ensures s'.outcomes[k] == s.outcomes[k] {}
    forall w | w in s'.workers && s'.workers[w].job.EventJob? && Finished(s'.workers[w].phase) ensures NotedBy(s', w) {
      if NotedBy(s, w) {
        var k: nat :| k < |s.outcomes| && s.outcomes[k].worker == w;
        assert s'.outcomes[k].worker == w;
      } else {
        assert s'.outcomes[|s.outcomes|].worker == w;
      }
    }
  }

  lemma LogKept(s: State, s': State, i: nat, w: nat)
    requires Moved(s, s', i) && (LoggedBy(s', w) ==> w != i || s'.log == s.log)
    ensures LoggedBy(s', w) <==> LoggedBy(s, w)
    ensures forall row :: RowBy(s, w, row) ==> RowBy(s', w, row)
  {
    hide OutcomeMove;
    forall j: nat | j < |s.log| ensures s'.log[j] == s.log[j] {}
  }

  lemma MovedVerdicts(policy: Policy, s: State, s': State, i: nat)
    requires LogBooks(s) && OutcomeBooks(s) && VerdictsTrue(s) && MeaningOk(policy, s) && Moved(s, s', i)
    ensures VerdictsTrue(s')
  {
    forall k: nat | k < |s'.outcomes| ensures TrueOf(s', s'.outcomes[k]) {
      if k < |s.outcomes| {
        assert s'.outcomes[k] == s.outcomes[k] && TrueOf(s, s.outcomes[k]);
        LogKept(s, s', i, s.outcomes[k].worker);
      } else {
        LogKept(s, s', i, i);
        if s.workers[i].phase.Recorded? { assert RowBy(s, i, s.workers[i].phase.row); }
      }
    }
  }

  // ---------- rows that stand

  predicate SameIdentity(a: AlertRow, b: AlertRow) {
    SameSlot(a, b) && (a.status == Sent ==> b.status == Sent)
  }

  /** A step leaves the row alone, or it is neither standing nor loses its identity. */
  ghost predicate Spares(s: State, s': State, id: nat)
    requires id in s.table
  {
    id in s'.table && SameIdentity(s.table[id], s'.table[id]) && (Standing(s, id) ==> s'.table[id] == s.table[id])
  }

  lemma SendSpares(policy: Policy, s: State, step: Step, id: nat)
    requires (step.Record? || step.Respond? || step.Reserve?) && Take(policy, s, step).Some? && id in s.table
    requires OwnedOk(s, s.workers[step.w])
    ensures Spares(s, Take(policy, s, step).value, id)
  {
    hide Blocked, T.Answered, T.Awake;
  }

  lemma SaveSpares(policy: Policy, s: State, step: Step, id: nat)
    requires step.SaveOutcome? && Take(policy, s, step).Some? && id in s.table
    requires OwnedOk(s, s.workers[step.w])
    ensures Spares(s, Take(policy, s, step).value, id)
  {
    hide Slot;
  }

  lemma StepSpares(policy: Policy, s: State, step: Step, id: nat)
    requires Inv(policy, s) && Take(policy, s, step).Some? && id in s.table
    ensures Spares(s, Take(policy, s, step).value, id)
  {
    if !step.Tick? && !step.Spawn? {
      assert OwnedOk(s, s.workers[step.w]);
      hide Take, Inv, OwnedOk;
      if Quietly(step) {
        QuietMoves(policy, s, step);
      } else if step.SaveOutcome? {
        SaveSpares(policy, s, step, id);
      } else {
        SendSpares(policy, s, step, id);
      }
    }
  }

  lemma NoneRecorded(policy: Policy, s: State, step: Step, id: nat, w: nat)
    requires Inv(policy, s) && Take(policy, s, step).Some? && Standing(s, id) && s.table[id].status == Sent
    requires w in Take(policy, s, step).value.workers
    ensures Take(policy, s, step).value.workers[w].phase != Recorded(id)
  {
    if !step.Tick? && !step.Spawn? {
      StepMoves(policy, s, step);
      assert OwnedOk(s, s.workers[step.w]);
      RecordedRow(policy, s, step);
      hide Take, Inv;
    }
  }

  /** A worker that has just recorded recorded the row it was sending. */
  lemma RecordedRow(policy: Policy, s: State, step: Step)
    requires !step.Tick? && !step.Spawn? && Take(policy, s, step).Some?
    ensures var p, q := s.workers[step.w].phase, Take(policy, s, step).value.workers[step.w].phase;
            q.Recorded? && p != q ==> p.Sending? && q.row == p.row
  {
    hide Eligible, Slot, Blocked, RepeatOf, T.Answered, T.Awake;
  }

  lemma StepStands(policy: Policy, s: State, step: Step, id: nat)
    requires Inv(policy, s) && Take(policy, s, step).Some? && Standing(s, id)
    ensures Standing(Take(policy, s, step).value, id) && Take(policy, s, step).value.table[id] == s.table[id]
  {
    hide Take, Inv;
    var s' := Take(policy, s, step).value;
    StepSpares(policy, s, step, id);
    if s.table[id].status == Sent {
      forall w | w in s'.workers ensures s'.workers[w].phase != Recorded(id) {
        NoneRecorded(policy, s, step, id, w);
      }
    }
  }

  lemma StepMeant(policy: Policy, s: State, step: Step, w: Worker, w': Worker, verdict: Verdict)
    requires Inv(policy, s) && Take(policy, s, step).Some? && Meant(policy, s, w, verdict) && w'.user == w.user
        && w'.job == w.job
    ensures Meant(policy, Take(policy, s, step).value, w', verdict)
  {
    hide Inv, Take, Standing;
    match verdict
    case RepeatAtPreflight =>
    case RepeatUnderLock(previous, at) => StepStands(policy, s, step, previous);
    case AlreadySent(row) => StepStands(policy, s, step, row);
    case AlreadyPending(row) => StepSpares(policy, s, step, row);
    case Delivered(row) => StepSpares(policy, s, step, row);
    case Undelivered(row, _) => StepStands(policy, s, step, row);
  }

  /** The holder of the lock knows that nobody is between recording and noting on its rows. */
  lemma OwnRowsStand(policy: Policy, s: State, i: nat, id: nat)
    requires Inv(policy, s) && i in s.workers && Holds(s.workers[i].phase) && !s.workers[i].phase.Recorded?
    requires id in s.table && s.table[id].status == Sent && s.table[id].user == s.workers[i].user
        && s.table[id].symbol == s.workers[i].job.symbol
    ensures Standing(s, id)
  {
    forall w | w in s.workers ensures s.workers[w].phase != Recorded(id) {
      if s.workers[w].phase == Recorded(id) {
        assert OwnedOk(s, s.workers[w]);
        Exclusive(s, w, i);
      }
    }
  }

  /** A verdict just reached is true, and is not that of a delivery. */
  ghost predicate ReachedMeant(policy: Policy, s: State, i: nat) {
    && i in s.workers && s.workers[i].phase.Noting? && !s.workers[i].phase.verdict.Delivered?
    && Meant(policy, s, s.workers[i], s.workers[i].phase.verdict)
  }

  lemma RepeatReached(policy: Policy, s: State, i: nat, baseline: Option<int>)
    requires Inv(policy, s) && Take(policy, s, Query(i, baseline)).Some?
    requires Take(policy, s, Query(i, baseline)).value.workers[i].phase.Noting?
    ensures ReachedMeant(policy, Take(policy, s, Query(i, baseline)).value, i)
  {
    var w := s.workers[i];
    OwnRowsStand(policy, s, i, RepeatOf(policy, s.table, w.user, w.job, w.phase.at));
    hide Inv, Eligible;
  }

  lemma TakenReached(policy: Policy, s: State, i: nat, row: nat)
    requires Inv(policy, s) && Take(policy, s, Reserve(i, row)).Some?
    requires Take(policy, s, Reserve(i, row)).value.workers[i].phase.Noting?
    ensures ReachedMeant(policy, Take(policy, s, Reserve(i, row)).value, i)
  {
    if s.table[row].status == Sent { OwnRowsStand(policy, s, i, row); }
    hide Inv, Eligible, Forbids;
  }

  lemma FailureReached(policy: Policy, s: State, i: nat)
    requires Inv(policy, s) && Take(policy, s, Record(i)).Some?
    requires Take(policy, s, Record(i)).value.workers[i].phase.Noting?
    ensures ReachedMeant(policy, Take(policy, s, Record(i)).value, i)
  {
    assert OwnedOk(s, s.workers[i]);
    hide Inv, Eligible, Forbids, Blocked;
  }

  /** Whatever verdict a worker is about to note is true when it is reached. */
  lemma VerdictReached(policy: Policy, s: State, step: Step)
    requires Inv(policy, s) && !step.Tick? && !step.Spawn? && Take(policy, s, step).Some?
    requires Take(policy, s, step).value.workers[step.w].phase.Noting? && !s.workers[step.w].phase.Noting?
    ensures ReachedMeant(policy, Take(policy, s, step).value, step.w)
  {
    hide Inv, Eligible, Forbids, Blocked, ReachedMeant, Slot, T.Answered, T.Awake;
    match step {
      case Query(i, baseline) => RepeatReached(policy, s, i, baseline);
      case Reserve(i, row) => TakenReached(policy, s, i, row);
      case Record(i) => FailureReached(policy, s, i);
    }
  }

  lemma DeliveredMeant(policy: Policy, s: State, i: nat)
    requires Inv(policy, s) && i in s.workers && s.workers[i].phase.Recorded? && s.workers[i].job.EventJob?
        && Take(policy, s, SaveOutcome(i)).Some?
    ensures Meant(policy, Take(policy, s, SaveOutcome(i)).value, s.workers[i], Delivered(s.workers[i].phase.row))
  {
    assert OwnedOk(s, s.workers[i]);
  }

  lemma StepNoting(policy: Policy, s: State, step: Step, w: nat)
    requires Inv(policy, s) && MeaningOk(policy, s) && !step.Tick? && !step.Spawn? && Take(policy, s, step).Some?
    requires w in Take(policy, s, step).value.workers && Take(policy, s, step).value.workers[w].phase.Noting?
    ensures var s' := Take(policy, s, step).value;
            !s'.workers[w].phase.verdict.Delivered? && Meant(policy, s', s'.workers[w], s'.workers[w].phase.verdict)
  {
    StepMoves(policy, s, step);
    StepTurns(policy, s, step);
    hide Inv, Take, Meant, LogMove, OutcomeMove;
    if w != step.w {
      StepMeant(policy, s, step, s.workers[w], Take(policy, s, step).value.workers[w], s.workers[w].phase.verdict);
    } else {
      VerdictReached(policy, s, step);
    }
  }

  lemma StepNoted(policy: Policy, s: State, step: Step, k: nat)
    requires Inv(policy, s) && MeaningOk(policy, s) && !step.Tick? && !step.Spawn? && Take(policy, s, step).Some?
    requires k < |Take(policy, s, step).value.outcomes|
    ensures var s' := Take(policy, s, step).value; var o := s'.outcomes[k];
            o.worker in s'.workers && Meant(policy, s', s'.workers[o.worker], o.verdict)
  {
    StepMoves(policy, s, step);
    StepTurns(policy, s, step);
    hide Inv, Take, Meant, LogMove;
    if k < |s.outcomes| {
      var s' := Take(policy, s, step).value;
      assert s'.outcomes[k] == s.outcomes[k];
      var w := s.outcomes[k].worker;
      StepMeant(policy, s, step, s.workers[w], s'.workers[w], s.outcomes[k].verdict);
    } else {
      NewMeant(policy, s, step);
    }
  }

  lemma StepMeanings(policy: Policy, s: State, step: Step)
    requires Inv(policy, s) && MeaningOk(policy, s) && !step.Tick? && !step.Spawn? && Take(policy, s, step).Some?
    ensures MeaningOk(policy, Take(policy, s, step).value)
  {
    var s' := Take(policy, s, step).value;
    forall w | w in s'.workers && s'.workers[w].phase.Noting?
      ensures !s'.workers[w].phase.verdict.Delivered? && Meant(policy, s', s'.workers[w], s'.workers[w].phase.verdict)
    {
      StepNoting(policy, s, step, w);
    }
    forall k: nat | k < |s'.outcomes|
      ensures s'.outcomes[k].worker in s'.workers
          && Meant(policy, s', s'.workers[s'.outcomes[k].worker], s'.outcomes[k].verdict)
    {
      StepNoted(policy, s, step, k);
    }
    StepMoves(policy, s, step);
    StepTurns(policy, s, step);
    hide Inv, Take, Meant, LogMove, OutcomeMove;
  }

  /** A turned-away worker is an event's; a worker stops noting when it has noted. */
  lemma StepTurns(policy: Policy, s: State, step: Step)
    requires !step.Tick? && !step.Spawn? && Take(policy, s, step).Some?
    ensures var s' := Take(policy, s, step).value;
            && (s'.workers[step.w].phase.Turned? ==> s'.workers[step.w].job.EventJob?)
            && (s.workers[step.w].phase.Noting? ==> !s'.workers[step.w].phase.Noting?)
            && (s'.outcomes != s.outcomes ==> step.SaveOutcome?)
  {
    hide Eligible, Slot, Blocked, RepeatOf;
  }

  lemma NewMeant(policy: Policy, s: State, step: Step)
    requires Inv(policy, s) && MeaningOk(policy, s) && step.SaveOutcome? && Take(policy, s, step).Some?
    requires |Take(policy, s, step).value.outcomes| > |s.outcomes|
    ensures var s' := Take(policy, s, step).value;
            && |s'.outcomes| == |s.outcomes| + 1 && s'.outcomes[|s.outcomes|].worker == step.w
            && Meant(policy, s', s'.workers[step.w], s'.outcomes[|s.outcomes|].verdict)
  {
    var i, w := step.w, s.workers[step.w];
    var s' := Take(policy, s, step).value;
    if w.phase.Turned? {
      StepMeant(policy, s, step, w, s'.workers[i], RepeatAtPreflight);
    } else if w.phase.Noting? {
      StepMeant(policy, s, step, w, s'.workers[i], w.phase.verdict);
    } else if w.phase.Recorded? {
      DeliveredMeant(policy, s, i);
    }
  }

  lemma ActKeepsBooks(policy: Policy, s: State, step: Step)
    requires Inv(policy, s) && Books(policy, s) && !step.Tick? && !step.Spawn? && Take(policy, s, step).Some?
    ensures Books(policy, Take(policy, s, step).value)
  {
    hide Inv, Take, Moved, LogBooks, OutcomeBooks, VerdictsTrue, MeaningOk;
    var s' := Take(policy, s, step).value;
    StepMoves(policy, s, step);
    StepMeanings(policy, s, step);
    MovedLog(s, s', step.w);
    MovedOutcomes(s, s', step.w);
    MovedVerdicts(policy, s, s', step.w);
  }

  lemma StepKeepsBooks(policy: Policy, s: State, step: Step)
    requires Inv(policy, s) && Books(policy, s) && Take(policy, s, step).Some?
    ensures Books(policy, Take(policy, s, step).value)
  {
    hide Inv, Act, Books;
    match step
    case Tick(d) => TickKeepsBooks(policy, s, d);
    case Spawn(i, user, job, payload) => SpawnKeepsBooks(policy, s, i, Worker(user, job, payload, Ready));
    case _ => ActKeepsBooks(policy, s, step);
  }

  lemma TickKeepsBooks(policy: Policy, s: State, d: nat)
    requires Books(policy, s)
    ensures Books(policy, s.(now := s.now + d))
  {
  }

  lemma SpawnKeepsBooks(policy: Policy, s: State, i: nat, w: Worker)
    requires Books(policy, s) && i !in s.workers && w.phase == Ready
    ensures Books(policy, s.(workers := s.workers[i := w]))
  {
    var s' := s.(workers := s.workers[i := w]);
    SpawnKeepsMeaning(policy, s, i, w);
    hide Meant, MeaningOk;
    forall v | v in s.workers && s.workers[v].phase.Recorded? ensures RowBy(s', v, s.workers[v].phase.row) {
      assert RowBy(s, v, s.workers[v].phase.row);
    }
  }

  lemma SpawnKeepsMeaning(policy: Policy, s: State, i: nat, w: Worker)
    requires MeaningOk(policy, s) && i !in s.workers && w.phase == Ready
    ensures MeaningOk(policy, s.(workers := s.workers[i := w]))
  {
    hide Forbids, Slot;
  }

  lemma {:induction false} RunKeepsBooks(policy: Policy, s: State, steps: seq<Step>)
    requires Inv(policy, s) && Books(policy, s) && Run(policy, s, steps).Some?
    ensures Books(policy, Run(policy, s, steps).value)
    decreases |steps|
  {
    if steps != [] {
      StepKeepsInv(policy, s, steps[0]);
      StepKeepsBooks(policy, s, steps[0]);
      RunKeepsBooks(policy, Take(policy, s, steps[0]).value, steps[1..]);
    }
  }

  lemma RunBooks(policy: Policy, start: State, steps: seq<Step>, s: State)
    requires Reaches(policy, start, steps, s)
    ensures Books(policy, s) && Inv(policy, s)
  {
    StartInv(policy, start);
    assert Books(policy, start);
    hide Inv, Books;
    RunKeepsInv(policy, start, steps);
    RunKeepsBooks(policy, start, steps);
  }

  // ---------- what every run guarantees

  ghost predicate OneOutcome(s: State, w: nat, k: nat) {
    && k < |s.outcomes| && s.outcomes[k].worker == w
    && forall j: nat :: j < |s.outcomes| && s.outcomes[j].worker == w ==> j == k
  }

  /** In every run a worker writes at most one outcome row; one that has not crashed and is done with an
      event's recipient has written exactly one, about its own user. */
  lemma OneOutcomePerWorker(policy: Policy, start: State, steps: seq<Step>, s: State)
    requires Reaches(policy, start, steps, s)
    ensures forall j: nat, k: nat :: j < k < |s.outcomes| ==> s.outcomes[j].worker != s.outcomes[k].worker
    ensures forall w :: w in s.workers && s.workers[w].job.EventJob? && s.workers[w].phase.Done? ==>
              exists k: nat :: OneOutcome(s, w, k) && s.outcomes[k].user == s.workers[w].user
  {
    RunBooks(policy, start, steps, s);
    hide Inv, LogBooks, VerdictsTrue, MeaningOk;
    forall w | w in s.workers && s.workers[w].job.EventJob? && s.workers[w].phase.Done?
      ensures exists k: nat :: OneOutcome(s, w, k) && s.outcomes[k].user == s.workers[w].user
    {
      assert NotedBy(s, w);
      var k: nat :| k < |s.outcomes| && s.outcomes[k].worker == w;
      assert OneOutcome(s, w, k);
    }
  }

  /** A row says delivered if and only if that worker's own delivery is in the log, under the same alert
      row; and Telegram acknowledged it. */
  lemma DeliveredIffLogged(policy: Policy, start: State, steps: seq<Step>, s: State, k: nat)
    requires Reaches(policy, start, steps, s) && k < |s.outcomes|
    ensures s.outcomes[k].verdict.Delivered? <==> LoggedBy(s, s.outcomes[k].worker)
    ensures s.outcomes[k].verdict.Delivered? ==>
        RowBy(s, s.outcomes[k].worker, s.outcomes[k].verdict.row) && s.outcomes[k].verdict.row in s.acks
  {
    RunBooks(policy, start, steps, s);
    hide LogBooks, OutcomeBooks, MeaningOk;
    assert TrueOf(s, s.outcomes[k]);
    if s.outcomes[k].verdict.Delivered? {
      AcknowledgedOnce(policy, start, steps, s);
    }
  }

  /** A row says suppressed under the lock only if a sent alert of the same identity, still in the table,
      was younger than the cooldown at the recheck; already delivered only if that row is sent; failed
      only if its row is given up for good. */
  lemma VerdictsMean(policy: Policy, start: State, steps: seq<Step>, s: State, k: nat)
    requires Reaches(policy, start, steps, s) && k < |s.outcomes|
    ensures s.outcomes[k].worker in s.workers && s.workers[s.outcomes[k].worker].job.EventJob?
    ensures var w, v := s.workers[s.outcomes[k].worker], s.outcomes[k].verdict;
            && (v.RepeatUnderLock? ==>
                v.previous in s.table && Forbids(policy, s.table[v.previous], w.user, w.job, v.at))
            && (v.AlreadySent? ==>
                v.row in s.table && s.table[v.row].status == Sent && Slot(s.table[v.row], w.user, w.job))
            && (v.Delivered? ==>
                v.row in s.table && s.table[v.row].status == Sent && Slot(s.table[v.row], w.user, w.job))
            && (v.Undelivered? ==>
                v.row in s.table && s.table[v.row].status == Failed && s.table[v.row].finalFailed
                && Slot(s.table[v.row], w.user, w.job))
  {
    RunBooks(policy, start, steps, s);
    hide Inv, LogBooks, OutcomeBooks, VerdictsTrue;
    assert Meant(policy, s, s.workers[s.outcomes[k].worker], s.outcomes[k].verdict);
  }
}
