/**
 * The report cache of one report type under concurrent callers (bot/reports.py
 * `get_or_generate_report`, `refresh_report_cache_scheduled`, `_save_or_remember_report`).
 *
 * Callers interleave wherever the source awaits; the wall clock and the monotonic clock only move
 * forward; a generation ends as the adversary likes, or is cancelled.
 */
module Reports {
  import opened Prelude

  const GRACE := 1800
  const RATE_LIMIT_BACKOFF := 300
  const SCHEDULED_BACKOFF := 3600
  const UPGRADE_RETRY := 3600

  datatype Kind = Command | Scheduled

  datatype Report = Report(expires: int, completed: bool, outdated: bool)

  datatype Phase =
    | Arrived
    | Waiting                              // for the lock
    | Entered                              // holds the lock, about to check again
    | Generating(saw: Option<Report>)
    | Done

  datatype Caller = Caller(kind: Kind, phase: Phase)

  /** One call of `generate_report_cache`; a cancelled one has no end. */
  datatype Generation = Generation(kind: Kind, wall: int, mono: int, upgrade: bool, end: Option<End>)

  datatype End = End(mono: int, completed: bool, rateLimited: bool)

  datatype Reason = Kept | BackedOff | RetryLater | Made

  /** What a caller got; `saw` is the unexpired cached report at its last check. */
  datatype Reply = Reply(caller: nat, kind: Kind, locked: bool, saw: Option<Report>, why: Reason,
      report: Option<Report>)

  datatype State = State(
    database: bool, period: nat, wall: int, mono: int, cache: Option<Report>, lock: Option<nat>,
    backoffUntil: Option<int>, upgradeUntil: int,
    callers: map<nat, Caller>, generations: seq<Generation>, replies: seq<Reply>)

  datatype Step =
    | Tick(wall: nat, mono: nat)
    | Arrive(caller: nat, kind: Kind)
    | CheckFirst(caller: nat)
    | Acquire(caller: nat)
    | CheckAgain(caller: nat)
    | Finish(caller: nat, completed: bool, rateLimited: bool)
    | Cancel(caller: nat)

  predicate Fresh(r: Report, wall: int) {
    r.completed && r.expires > wall
  }

  function Seen(s: State): Option<Report> {
    if s.cache.Some? && Fresh(s.cache.value, s.wall) then s.cache else None
  }

  predicate BackoffActive(s: State) {
    s.backoffUntil.Some? && s.mono < s.backoffUntil.value
  }

  predicate SurvivesGrace(r: Report, wall: int) {
    r.expires - wall > GRACE
  }

  datatype Choice = Answer(why: Reason, report: Option<Report>) | Generate

  /** The check before the lock and the check under it. */
  function Choose(s: State, kind: Kind): Choice {
    var saw := Seen(s);
    match kind
    case Command =>
      if saw.Some? && !saw.value.outdated then Answer(Kept, saw)
      else if BackoffActive(s) then Answer(BackedOff, saw)
      else if saw.Some? && s.mono < s.upgradeUntil then Answer(RetryLater, saw)
      else Generate
    case Scheduled =>
      if saw.Some? && SurvivesGrace(saw.value, s.wall) then Answer(Kept, saw)
      else if BackoffActive(s) then Answer(BackedOff, None)
      else Generate
  }

  /** What a finished attempt leaves in the cache: a failed one must not evict a fresh report. */
  function Remembered(s: State, r: Report): Option<Report> {
    if r.completed || (!s.database && Seen(s).None?) then Some(r) else s.cache
  }

  /** A scheduled failure backs off for an hour, a rate limit for five minutes. */
  function BackoffLeft(s: State, kind: Kind, completed: bool, rateLimited: bool): Option<int> {
    if kind == Scheduled && !completed then Some(s.mono + SCHEDULED_BACKOFF)
    else if rateLimited then Some(s.mono + RATE_LIMIT_BACKOFF)
    else s.backoffUntil
  }

  function Put(s: State, c: nat, phase: Phase): State
    requires c in s.callers
  {
    s.(callers := s.callers[c := s.callers[c].(phase := phase)])
  }

  function Answered(s: State, c: nat, locked: bool, why: Reason, report: Option<Report>): State
    requires c in s.callers
  {
    Put(s, c, Done).(replies := s.replies + [Reply(c, s.callers[c].kind, locked, Seen(s), why, report)])
  }

  function Finished(s: State, c: nat, completed: bool, rateLimited: bool): State
    requires c in s.callers && s.callers[c].phase.Generating? && s.generations != []
  {
    var n, kind, saw := |s.generations| - 1, s.callers[c].kind, s.callers[c].phase.saw;
    var g := s.generations[n];
    var made := Report(g.wall + s.period, completed, false);
    var failedUpgrade := kind == Command && g.upgrade && !completed;
    Put(s, c, Done).(
      lock := None,
      cache := Remembered(s, made),
      backoffUntil := BackoffLeft(s, kind, completed, rateLimited),
      upgradeUntil := if failedUpgrade then s.mono + UPGRADE_RETRY else s.upgradeUntil,
      generations := s.generations[n := g.(end := Some(End(s.mono, completed, rateLimited)))],
      replies := s.replies + [Reply(c, kind, true, saw, Made, if failedUpgrade then saw else Some(made))])
  }

  function Take(s: State, step: Step): Option<State> {
    match step
    case Tick(wall, mono) => Some(s.(wall := s.wall + wall, mono := s.mono + mono))
    case Arrive(c, kind) =>
      if c in s.callers then None else Some(s.(callers := s.callers[c := Caller(kind, Arrived)]))
    case CheckFirst(c) =>
      if c !in s.callers || s.callers[c].phase != Arrived then None
      else
        var choice := Choose(s, s.callers[c].kind);
        Some(if choice.Answer? then Answered(s, c, false, choice.why, choice.report) else Put(s, c, Waiting))
    case Acquire(c) =>
      if c !in s.callers || s.callers[c].phase != Waiting || s.lock.Some? then None
      else Some(Put(s, c, Entered).(lock := Some(c)))
    case CheckAgain(c) =>
      if c !in s.callers || s.callers[c].phase != Entered then None
      else
        var kind, saw := s.callers[c].kind, Seen(s);
        var choice := Choose(s, kind);
        Some(if choice.Answer? then Answered(s, c, true, choice.why, choice.report).(lock := None)
             else Put(s, c, Generating(saw)).(generations := s.generations
               + [Generation(kind, s.wall, s.mono, kind == Command && saw.Some?, None)]))
    case Finish(c, completed, rateLimited) =>
      if c !in s.callers || !s.callers[c].phase.Generating? || s.generations == [] || (completed && rateLimited)
          then None
      else Some(Finished(s, c, completed, rateLimited))
    case Cancel(c) =>
      if c !in s.callers || s.callers[c].phase == Done then None
      else Some(Put(s, c, Done).(lock := if s.lock == Some(c) then None else s.lock))
  }

  function Run(s: State, steps: seq<Step>): Option<State>
    decreases |steps|
  {
    if steps == [] then Some(s)
    else
      var next := Take(s, steps[0]);
      if next.None? then None else Run(next.value, steps[1..])
  }

  // ---------- invariant

  predicate Holds(k: Caller) {
    k.phase.Entered? || k.phase.Generating?
  }

  predicate InFlight(s: State, c: nat) {
    c in s.callers && s.callers[c].phase.Generating?
  }

  ghost predicate LockOk(s: State) {
    && (forall c: nat :: c in s.callers && Holds(s.callers[c]) ==> s.lock == Some(c))
    && (s.lock.Some? ==> s.lock.value in s.callers && Holds(s.callers[s.lock.value]))
  }

  /** The last generation is the one in flight. */
  ghost predicate FlightOk(s: State) {
    forall c: nat :: InFlight(s, c) ==>
      && s.generations != []
      && var g := s.generations[|s.generations| - 1];
      && g.end == None && g.kind == s.callers[c].kind
      && g.upgrade == (g.kind == Command && s.callers[c].phase.saw.Some?)
      && (s.callers[c].phase.saw.Some? ==> s.callers[c].phase.saw.value.completed)
  }

  predicate Succeeded(g: Generation) {
    g.end.Some? && g.end.value.completed
  }

  function BackoffOf(g: Generation): int {
    if g.end.None? || g.end.value.completed then 0
    else if g.kind == Scheduled then SCHEDULED_BACKOFF
    else if g.end.value.rateLimited then RATE_LIMIT_BACKOFF
    else 0
  }

  predicate FailedUpgrade(g: Generation) {
    g.end.Some? && !g.end.value.completed && g.upgrade
  }

  /** What an ended generation `i` demands of every later one. */
  predicate Spaced(period: nat, i: Generation, j: Generation) {
    && i.wall <= j.wall
    && (Succeeded(i) ==> j.wall >= i.wall + period - if j.kind == Scheduled then GRACE else 0)
    && (i.end.Some? ==> j.mono >= i.end.value.mono + BackoffOf(i))
    && (FailedUpgrade(i) && j.upgrade ==> j.mono >= i.end.value.mono + UPGRADE_RETRY)
  }

  ghost predicate SpacingOk(s: State) {
    forall i: nat, j: nat :: i < j < |s.generations| ==> Spaced(s.period, s.generations[i], s.generations[j])
  }

  /** What the current state still holds back on account of `g`. */
  predicate Remembers(s: State, g: Generation) {
    && g.wall <= s.wall && g.mono <= s.mono && (g.end.Some? ==> g.end.value.mono <= s.mono)
    && (Succeeded(g) ==> s.wall >= g.wall + s.period
                         || (s.cache.Some? && s.cache.value.completed && !s.cache.value.outdated
                             && s.cache.value.expires >= g.wall + s.period))
    && (g.end.Some? ==> s.mono >= g.end.value.mono + BackoffOf(g)
                        || (s.backoffUntil.Some? && s.backoffUntil.value >= g.end.value.mono + BackoffOf(g)))
    && (FailedUpgrade(g) ==> s.upgradeUntil >= g.end.value.mono + UPGRADE_RETRY)
  }

  ghost predicate MemoryOk(s: State) {
    forall i: nat :: i < |s.generations| ==> Remembers(s, s.generations[i])
  }

  predicate ReplyOk(r: Reply) {
    r.kind == Command && r.saw.Some? ==> r.report.Some? && r.report.value.completed
  }

  ghost predicate Inv(s: State) {
    LockOk(s) && FlightOk(s) && SpacingOk(s) && MemoryOk(s)
    && forall k :: 0 <= k < |s.replies| ==> ReplyOk(s.replies[k])
  }

  /** Any cached report and any clocks; nobody here yet. */
  predicate Start(s: State) {
    s.callers == map[] && s.generations == [] && s.replies == [] && s.lock == None
  }

  lemma BeginKeepsSpacing(s: State, c: nat)
    requires Inv(s) && c in s.callers && s.callers[c].phase == Entered && Choose(s, s.callers[c].kind).Generate?
    ensures SpacingOk(Take(s, CheckAgain(c)).value) && MemoryOk(Take(s, CheckAgain(c)).value)
  {
  }

  lemma FinishKeepsSpacing(s: State, c: nat, completed: bool, rateLimited: bool)
    requires Inv(s) && InFlight(s, c) && !(completed && rateLimited)
    ensures s.generations != [] && SpacingOk(Finished(s, c, completed, rateLimited))
        && MemoryOk(Finished(s, c, completed, rateLimited))
  {
  }

  lemma TickKeepsMemory(s: State, wall: nat, mono: nat)
    requires Inv(s)
    ensures MemoryOk(s.(wall := s.wall + wall, mono := s.mono + mono))
  {
  }

  /** Steps that leave clocks, cache, generations and both delays alone keep what is remembered. */
  lemma SameMemory(s: State, s': State)
    requires MemoryOk(s) && s'.generations == s.generations && s'.period == s.period && s'.wall == s.wall
        && s'.mono == s.mono
    requires s'.cache == s.cache && s'.backoffUntil == s.backoffUntil && s'.upgradeUntil == s.upgradeUntil
    ensures MemoryOk(s')
  {
  }

  lemma StepKeepsLocks(s: State, step: Step)
    requires Inv(s) && Take(s, step).Some?
    ensures LockOk(Take(s, step).value) && FlightOk(Take(s, step).value)
  {
    hide SpacingOk, MemoryOk, ReplyOk, Remembered, BackoffLeft, BackoffActive, SurvivesGrace;
  }

  lemma StepKeepsReplies(s: State, step: Step)
    requires Inv(s) && Take(s, step).Some?
    ensures forall k :: 0 <= k < |Take(s, step).value.replies| ==> ReplyOk(Take(s, step).value.replies[k])
  {
  }

  lemma StepKeepsInv(s: State, step: Step)
    requires Inv(s) && Take(s, step).Some?
    ensures Inv(Take(s, step).value)
  {
    StepKeepsLocks(s, step);
    StepKeepsReplies(s, step);
    hide LockOk, FlightOk, Remembers, Spaced;
    match step {
      case Tick(wall, mono) => TickKeepsMemory(s, wall, mono);
      case Finish(c, completed, rateLimited) => FinishKeepsSpacing(s, c, completed, rateLimited);
      case CheckAgain(c) =>
        if Choose(s, s.callers[c].kind).Generate? {
          BeginKeepsSpacing(s, c);
        } else {
          SameMemory(s, Take(s, step).value);
        }
      case _ => SameMemory(s, Take(s, step).value);
    }
  }

  lemma {:induction false} RunKeepsInv(s: State, steps: seq<Step>)
    requires Inv(s) && Run(s, steps).Some?
    ensures Inv(Run(s, steps).value) && Run(s, steps).value.period == s.period
    decreases |steps|
  {
    if steps != [] {
      StepKeepsInv(s, steps[0]);
      RunKeepsInv(Take(s, steps[0]).value, steps[1..]);
    }
  }

  ghost predicate Reaches(start: State, steps: seq<Step>, s: State) {
    Start(start) && Run(start, steps) == Some(s)
  }

  // ---------- what every run keeps

  /** At most one generation is in flight, and its caller holds the lock. */
  lemma OneInFlight(start: State, steps: seq<Step>, s: State, c: nat, d: nat)
    requires Reaches(start, steps, s) && InFlight(s, c) && InFlight(s, d)
    ensures c == d && s.lock == Some(c)
  {
    RunKeepsInv(start, steps);
  }

  /** The lock is free whenever no caller is between taking it and leaving. */
  lemma LockNotLeft(start: State, steps: seq<Step>, s: State)
    requires Reaches(start, steps, s)
    requires forall c :: c in s.callers ==> s.callers[c].phase in [Arrived, Waiting, Done]
    ensures s.lock == None
  {
    RunKeepsInv(start, steps);
  }

  /** After a success, no command caller starts another generation before that report expires, however
      many were waiting; a scheduled refresh may, but only within the grace. */
  lemma OneSuccessPerPeriod(start: State, steps: seq<Step>, s: State, i: nat, j: nat)
    requires Reaches(start, steps, s) && i < j < |s.generations| && Succeeded(s.generations[i])
    ensures s.generations[j].kind == Command ==> s.generations[j].wall >= s.generations[i].wall + start.period
    ensures s.generations[j].wall >= s.generations[i].wall + start.period - 1800
  {
    RunKeepsInv(start, steps);
    assert Spaced(s.period, s.generations[i], s.generations[j]);
  }

  /** So while its report lasts, a success is the last generation that command callers cause: however
      many waited on an empty cache, they cause exactly one if it succeeds. */
  lemma LastWhileItLasts(start: State, steps: seq<Step>, s: State, i: nat)
    requires Reaches(start, steps, s) && i < |s.generations| && Succeeded(s.generations[i])
    requires forall g :: g in s.generations ==> g.kind == Command
    ensures i == |s.generations| - 1 || s.wall >= s.generations[i].wall + start.period
  {
    RunKeepsInv(start, steps);
    if i + 1 < |s.generations| {
      OneSuccessPerPeriod(start, steps, s, i, i + 1);
      assert Remembers(s, s.generations[i + 1]);
    }
  }

  /** No generation starts while a backoff is running, and a failed upgrade is not repeated within the hour. */
  lemma DelaysRespected(start: State, steps: seq<Step>, s: State, i: nat, j: nat)
    requires Reaches(start, steps, s) && i < j < |s.generations| && s.generations[i].end.Some?
    ensures var g, end, later := s.generations[i], s.generations[i].end.value, s.generations[j];
            && later.mono >= end.mono
            && (!end.completed && g.kind == Scheduled ==> later.mono >= end.mono + 3600)
            && (!end.completed && end.rateLimited ==> later.mono >= end.mono + 300)
            && (!end.completed && g.upgrade && later.upgrade ==> later.mono >= end.mono + 3600)
  {
    RunKeepsInv(start, steps);
    assert Spaced(s.period, s.generations[i], s.generations[j]);
  }

  /** A command caller that sees an unexpired completed report at its last check gets a completed one. */
  lemma CommandGetsReport(start: State, steps: seq<Step>, s: State, k: nat)
    requires Reaches(start, steps, s) && k < |s.replies| && s.replies[k].kind == Command && s.replies[k].saw.Some?
    ensures s.replies[k].report.Some? && s.replies[k].report.value.completed
  {
    RunKeepsInv(start, steps);
    assert ReplyOk(s.replies[k]);
  }

  /** A step replaces an unexpired report only by a newly completed one. */
  lemma FreshNotEvicted(s: State, step: Step)
    requires Inv(s) && Take(s, step).Some? && Seen(s).Some?
    ensures Take(s, step).value.cache != s.cache ==>
        step.Finish? && step.completed && Take(s, step).value.cache.value.completed
  {
  }

  lemma {:induction false} RunKeepsReplies(s: State, steps: seq<Step>)
    requires Run(s, steps).Some?
    ensures s.replies <= Run(s, steps).value.replies
    decreases |steps|
  {
    if steps != [] {
      var t := Take(s, steps[0]).value;
      assert s.replies <= t.replies;
      RunKeepsReplies(t, steps[1..]);
    }
  }

  /** The first reply after `s` is to `c`, and it is a completed report. */
  predicate Served(s: State, s': State, c: nat) {
    |s'.replies| > |s.replies| && s'.replies[|s.replies|].caller == c
    ==> s'.replies[|s.replies|].report.Some? && s'.replies[|s.replies|].report.value.completed
  }

  /** A scheduled refresh that sees an unexpired report under the lock is sure to get a completed one
      exactly when that report outlives the grace: otherwise it can come back with nothing, or with
      its own failure. */
  lemma ScheduledServedIff(s: State, c: nat)
    requires c in s.callers && s.callers[c] == Caller(Scheduled, Entered) && Seen(s).Some?
    ensures SurvivesGrace(Seen(s).value, s.wall) <==> forall steps, s' ::
              Run(s, [CheckAgain(c)] + steps) == Some(s') ==> Served(s, s', c)
  {
    var t := Take(s, CheckAgain(c)).value;
    if SurvivesGrace(Seen(s).value, s.wall) {
      forall steps, s' | Run(s, [CheckAgain(c)] + steps) == Some(s') ensures Served(s, s', c) {
        assert ([CheckAgain(c)] + steps)[1..] == steps;
        RunKeepsReplies(t, steps);
      }
    } else if BackoffActive(s) {
      assert ([CheckAgain(c)] + [])[1..] == [];
      assert Run(s, [CheckAgain(c)] + []) == Some(t);
      assert !Served(s, t, c);
    } else {
      var rest := [Finish(c, false, false)];
      var u := Take(t, rest[0]).value;
      assert rest[1..] == [] && ([CheckAgain(c)] + rest)[1..] == rest;
      assert Run(t, rest) == Some(u);
      assert Run(s, [CheckAgain(c)] + rest) == Some(u);
      assert !Served(s, u, c);
    }
  }

  // ---------- one caller, in the cache's own fields and in seconds

  /** A caller's way to the second check. */
  function Visit(c: nat, kind: Kind): seq<Step> {
    [Arrive(c, kind), CheckFirst(c), Acquire(c), CheckAgain(c)]
  }

  lemma TwoSteps(s: State, a: Step, b: Step)
    ensures Run(s, [a, b]) == if Take(s, a).None? then None else Take(Take(s, a).value, b)
  {
    hide Take;
    assert [a, b][1..] == [b] && [b][1..] == [];
    if Take(s, a).Some? {
      var t := Take(s, a).value;
      assert Run(t, [b]) == Take(t, b) by {
        if Take(t, b).Some? { assert Run(Take(t, b).value, []) == Take(t, b); }
      }
    }
  }

  lemma FourSteps(s: State, a: Step, b: Step, c: Step, d: Step)
    ensures Run(s, [a, b, c, d]) == if Run(s, [a, b]).None? then None else Run(Run(s, [a, b]).value, [c, d])
  {
    hide Take;
    TwoSteps(s, a, b);
    assert [a, b, c, d][1..] == [b, c, d] && [b, c, d][1..] == [c, d];
  }

  function At(s: State, c: nat, kind: Kind, phase: Phase): State {
    s.(callers := s.callers[c := Caller(kind, phase)])
  }

  /** `s` with the caller at work on a new generation. */
  function Working(s: State, c: nat, kind: Kind): State {
    At(s, c, kind, Generating(Seen(s))).(
      lock := Some(c),
      generations := s.generations + [Generation(kind, s.wall, s.mono, kind == Command && Seen(s).Some?, None)])
  }

  lemma FirstCheck(s: State, c: nat, kind: Kind)
    requires c !in s.callers
    ensures Run(s, [Arrive(c, kind), CheckFirst(c)]) == Some(
              var choice := Choose(s, kind);
              if choice.Answer? then Answered(At(s, c, kind, Arrived), c, false, choice.why, choice.report)
              else At(s, c, kind, Waiting))
  {
    TwoSteps(s, Arrive(c, kind), CheckFirst(c));
    var t := At(s, c, kind, Arrived);
    assert Choose(t, kind) == Choose(s, kind);
    hide Choose, Seen;
    assert Put(t, c, Waiting).callers == At(s, c, kind, Waiting).callers;
  }

  lemma SecondCheck(s: State, c: nat, kind: Kind)
    requires s.lock == None
    ensures Run(At(s, c, kind, Waiting), [Acquire(c), CheckAgain(c)]).Some?
    ensures Choose(s, kind).Generate? ==>
              Run(At(s, c, kind, Waiting), [Acquire(c), CheckAgain(c)]) == Some(Working(s, c, kind))
  {
    var w := At(s, c, kind, Waiting);
    TwoSteps(w, Acquire(c), CheckAgain(c));
    var t := At(s, c, kind, Entered).(lock := Some(c));
    assert Put(w, c, Entered).callers == t.callers;
    assert Choose(t, kind) == Choose(s, kind) && Seen(t) == Seen(s);
    hide Choose, Seen;
    assert Put(t, c, Generating(Seen(s))).callers == At(s, c, kind, Generating(Seen(s))).callers;
  }

  lemma Visited(s: State, c: nat, kind: Kind)
    requires s.lock == None && c !in s.callers
    ensures Choose(s, kind).Generate? ==> Run(s, Visit(c, kind)) == Some(Working(s, c, kind))
    ensures Choose(s, kind).Answer? ==>
              && Run(s, Visit(c, kind)) == None
              && Run(s, [Arrive(c, kind), CheckFirst(c)])
                 == Some(Answered(At(s, c, kind, Arrived), c, false, Choose(s, kind).why, Choose(s, kind).report))
  {
    FirstCheck(s, c, kind);
    FourSteps(s, Arrive(c, kind), CheckFirst(c), Acquire(c), CheckAgain(c));
    if Choose(s, kind).Generate? {
      SecondCheck(s, c, kind);
    } else {
      var t := Run(s, [Arrive(c, kind), CheckFirst(c)]).value;
      TwoSteps(t, Acquire(c), CheckAgain(c));
    }
  }

  /** Where nobody holds the lock, a caller starts a generation exactly when no backoff runs and: on a
      command, there is no unexpired completed report, or it is outdated and its upgrade may be tried
      again; on schedule, there is none that lasts half an hour longer. Otherwise it is answered at
      once, with that report if the cache has one it may use. */
  lemma StartsIff(s: State, c: nat, kind: Kind)
    requires s.lock == None && c !in s.callers
    ensures var usable := s.cache.Some? && s.cache.value.completed && s.cache.value.expires > s.wall;
            var ends := Run(s, Visit(c, kind));
            var starts := (s.backoffUntil.Some? ==> s.mono >= s.backoffUntil.value)
              && (usable && kind == Command ==> s.cache.value.outdated && s.mono >= s.upgradeUntil)
              && (usable && kind == Scheduled ==> s.cache.value.expires - s.wall <= 1800);
            if starts then
              ends.Some? && InFlight(ends.value, c) && ends.value.cache == s.cache && ends.value.replies == s.replies
            else
              var t := Run(s, Visit(c, kind)[..2]);
              && ends.None? && t.Some? && |t.value.replies| == |s.replies| + 1
              && t.value.replies[|s.replies|].caller == c
              && t.value.replies[|s.replies|].report
                 == if usable && (kind == Command || s.cache.value.expires - s.wall > 1800) then s.cache else None
  {
    Visited(s, c, kind);
    assert Visit(c, kind)[..2] == [Arrive(c, kind), CheckFirst(c)];
    hide Run, Take;
  }

  /** What that generation leaves when it ends `wall` and `mono` seconds later: a completed one is
      cached and returned, for a period from its start; a failed one is cached only where there is no
      database and nothing usable, backs off for an hour on schedule and for five minutes after a rate
      limit, and after a failed upgrade the caller gets the report it had. */
  lemma GenerationLeaves(s: State, c: nat, kind: Kind, wall: nat, mono: nat, completed: bool, rateLimited: bool)
    requires s.lock == None && c !in s.callers && !(completed && rateLimited)
    requires Run(s, Visit(c, kind)).Some? && InFlight(Run(s, Visit(c, kind)).value, c)
    ensures var made := Report(s.wall + s.period, completed, false);
            var had := kind == Command && s.cache.Some? && s.cache.value.completed && s.cache.value.expires > s.wall;
            var has := s.cache.Some? && s.cache.value.completed && s.cache.value.expires > s.wall + wall;
            var ends := Run(Run(s, Visit(c, kind)).value, [Tick(wall, mono), Finish(c, completed, rateLimited)]);
            && ends.Some?
            && var t, now := ends.value, s.mono + mono;
            && t.lock == None && s.replies <= t.replies && |t.replies| == |s.replies| + 1
            && t.cache == (if completed || (!s.database && !has) then Some(made) else s.cache)
            && t.replies[|s.replies|].report == (if had && !completed then s.cache else Some(made))
            && t.upgradeUntil == (if had && !completed then now + 3600 else s.upgradeUntil)
            && t.backoffUntil == (if kind == Scheduled && !completed then Some(now + 3600)
                                  else if rateLimited then Some(now + 300) else s.backoffUntil)
  {
    Visited(s, c, kind);
    TwoSteps(Working(s, c, kind), Tick(wall, mono), Finish(c, completed, rateLimited));
    hide Run;
  }

  // ---------- the module's dictionaries

  /** In `s` caller `c` ends the generation that made `made`, and the cache is as in `view`. */
  predicate Ends(s: State, c: nat, kind: Kind, made: Report, view: State) {
    && c in s.callers && s.callers[c].kind == kind && s.callers[c].phase.Generating? && s.generations != []
    && made == Report(s.generations[|s.generations| - 1].wall + s.period, made.completed, false)
    && s.database == view.database && s.wall == view.wall && s.mono == view.mono
    && s.cache == view.cache && s.backoffUntil == view.backoffUntil
  }

  /** `_memory_report_cache` and `_report_provider_backoff_until`, by report type. */
  class Cache {
    var memory: map<string, Report>
    var backoffUntil: map<string, int>

    /** One report type's part of them, as the step system has it. */
    function View(kind: string, wall: int, mono: int): State
      reads this
    {
      State(false, 0, wall, mono, if kind in memory then Some(memory[kind]) else None, None,
        if kind in backoffUntil then Some(backoffUntil[kind]) else None, 0, map[], [], [])
    }

    /** An expired entry is dropped on the way. */
    method IsBackoffActive(kind: string, mono: int) returns (active: bool)
      modifies this`backoffUntil
      ensures active == BackoffActive(old(View(kind, 0, mono))) == BackoffActive(View(kind, 0, mono))
      ensures forall other :: other != kind ==> View(other, 0, mono) == old(View(other, 0, mono))
      ensures kind in backoffUntil ==> active
    {
      if kind !in backoffUntil { return false; }
      if backoffUntil[kind] <= mono {
        backoffUntil := backoffUntil - {kind};
        return false;
      }
      active := true;
    }

    method StartBackoff(kind: string, mono: int, seconds: int)
      modifies this`backoffUntil
      ensures backoffUntil == old(backoffUntil)[kind := mono + seconds]
      ensures forall now :: BackoffActive(View(kind, 0, now)) <==> now < mono + seconds
    {
      backoffUntil := backoffUntil[kind := mono + seconds];
    }

    method GetFresh(kind: string, wall: int) returns (r: Option<Report>)
      ensures r == Seen(View(kind, wall, 0))
    {
      r := None;
      if kind in memory && Fresh(memory[kind], wall) {
        r := Some(memory[kind]);
      }
    }

    /** `_save_or_remember_report` without a database. */
    method Remember(kind: string, r: Report, wall: int)
      modifies this`memory
      ensures View(kind, wall, 0).cache == Remembered(old(View(kind, wall, 0)), r)
      ensures memory == old(memory) || memory == old(memory)[kind := r]
      ensures forall other :: other != kind ==> View(other, wall, 0) == old(View(other, wall, 0))
    {
      var usable := GetFresh(kind, wall);
      if r.completed || usable.None? {
        memory := memory[kind := r];
      }
    }

    /** The end of a generation: the failure branch for a rate limit, then the cache, then what the
        scheduled caller does about a failure. */
    method EndGeneration(kind: string, caller: Kind, made: Report, rateLimited: bool, wall: int, mono: int)
      requires rateLimited ==> !made.completed
      modifies this
      ensures forall s, c :: Ends(s, c, caller, made, old(View(kind, wall, mono))) ==>
                var end := Finished(s, c, made.completed, rateLimited);
                View(kind, wall, mono).cache == end.cache && View(kind, wall, mono).backoffUntil == end.backoffUntil
      ensures forall other :: other != kind ==> View(other, wall, mono) == old(View(other, wall, mono))
    {
      ghost var before := View(kind, wall, mono);
      if rateLimited { StartBackoff(kind, mono, RATE_LIMIT_BACKOFF); }
      assert View(kind, wall, 0).cache == before.cache;
      Remember(kind, made, wall);
      if caller == Scheduled && !made.completed { StartBackoff(kind, mono, SCHEDULED_BACKOFF); }
      ghost var after := View(kind, wall, mono);
      assert after.cache == Remembered(before, made)
          && after.backoffUntil == BackoffLeft(before, caller, made.completed, rateLimited);
      forall s, c | Ends(s, c, caller, made, before)
        ensures after.cache == Finished(s, c, made.completed, rateLimited).cache
        ensures after.backoffUntil == Finished(s, c, made.completed, rateLimited).backoffUntil
      {
        assert Remembered(s, made) == Remembered(before, made);
      }
    }
  }
}
