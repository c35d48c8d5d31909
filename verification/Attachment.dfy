/**
 * One attached analysis per market event (bot/alerts.py `_get_or_create_event_alert_market_event`
 * and the attach block of `automatic_price_check`; bot/db/alerts.py
 * `attach_analysis_to_market_event`, `get_or_create_market_event`).
 *
 * Checks of several workers interleave between their database statements. The two unique
 * indexes (one row per event instance key, one event analysis per event) are the table's own.
 */
module Attachment {
  import opened Prelude

  /** A row of `event_ai_analyses` of type event_analysis; `usable` is success with should_alert. */
  datatype Analysis = Analysis(usable: bool, event: Option<nat>)

  datatype Phase =
    | Begun
    | Accepted                           // its analysis is saved as a success that alerts
    | NoEvent                            // looked up the instance key and found nothing
    | HasEvent(event: nat)
    | NoneYet(event: nat)                // looked up an attached analysis and found none
    | Attaching(event: nat, own: nat)    // about to commit its own analysis to the event
    | Using(event: nat, analysis: Option<nat>)
    | Dead

  /** A check of one market situation; `own` is the analysis row it saved, if it made one. */
  datatype Check = Check(instanceKey: string, own: Option<nat>, phase: Phase)

  datatype Sending = Sending(check: nat, event: nat, user: nat, analysis: Option<nat>)

  datatype State = State(events: map<string, nat>, analyses: map<nat, Analysis>, checks: map<nat, Check>,
      log: seq<Sending>)

  datatype Step =
    | NewCheck(c: nat, key: string)
    | NewReuse(c: nat, key: string, event: nat, analysis: nat)
    | SaveAnalysis(c: nat, row: nat, usable: bool)
    | FindEvent(c: nat)
    | InsertEvent(c: nat, event: nat)
    | FindAnalysis(c: nat)
    | BeginAttach(c: nat)
    | CommitAttach(c: nat)
    | Send(c: nat, user: nat)

  predicate Attached(s: State, event: nat, row: nat) {
    row in s.analyses && s.analyses[row].event == Some(event)
  }

  /** `get_latest_success_event_ai_analysis`: the lowest usable row attached to the event. */
  ghost predicate Canonical(s: State, event: nat, row: nat) {
    Attached(s, event, row) && s.analyses[row].usable
    && forall r :: Attached(s, event, r) && s.analyses[r].usable ==> row <= r
  }

  ghost function CanonicalOf(s: State, event: nat): Option<nat> {
    if exists row: nat :: Canonical(s, event, row) then
      var row: nat :| Canonical(s, event, row);
      Some(row)
    else None
  }

  function Put(s: State, c: nat, phase: Phase): State
    requires c in s.checks
  {
    s.(checks := s.checks[c := s.checks[c].(phase := phase)])
  }

  ghost function Take(s: State, step: Step): Option<State> {
    match step
    case NewCheck(c, key) =>
      if c in s.checks then None else Some(s.(checks := s.checks[c := Check(key, None, Begun)]))
    case NewReuse(c, key, event, analysis) =>
      // an exact-context candidate is a usable analysis joined to its event
      if c in s.checks || !Attached(s, event, analysis) || !s.analyses[analysis].usable then None
      else Some(s.(checks := s.checks[c := Check(key, None, Using(event, Some(analysis)))]))
    case _ => if step.c !in s.checks then None else Act(s, step, s.checks[step.c])
  }

  ghost function Act(s: State, step: Step, k: Check): Option<State>
    requires !step.NewCheck? && !step.NewReuse? && step.c in s.checks && s.checks[step.c] == k
  {
    match step
    case SaveAnalysis(c, row, usable) =>
      // every outcome that does not alert, or fails to save, ends the check here
      if !k.phase.Begun? || row in s.analyses then None
      else Some(s.(analyses := s.analyses[row := Analysis(usable, None)],
                   checks := s.checks[c := k.(own := Some(row), phase := if usable then Accepted else Dead)]))
    case FindEvent(c) =>
      if !k.phase.Accepted? then None
      else Some(Put(s, c, if k.instanceKey in s.events then HasEvent(s.events[k.instanceKey]) else NoEvent))
    case InsertEvent(c, event) =>
      if !k.phase.NoEvent? then None
      else if k.instanceKey in s.events then Some(Put(s, c, HasEvent(s.events[k.instanceKey])))
      else if event in s.events.Values then None
      else Some(Put(s, c, HasEvent(event)).(events := s.events[k.instanceKey := event]))
    case FindAnalysis(c) =>
      if !k.phase.HasEvent? then None
      else Some(Put(s, c, if CanonicalOf(s, k.phase.event).Some?
          then Using(k.phase.event, CanonicalOf(s, k.phase.event)) else NoneYet(k.phase.event)))
    case BeginAttach(c) =>
      if !k.phase.NoneYet? then None
      else
        var e := k.phase.event;
        Some(Put(s, c,
          if CanonicalOf(s, e).Some? then Using(e, CanonicalOf(s, e))
          else if k.own.Some? && k.own.value in s.analyses && s.analyses[k.own.value].usable
              then Attaching(e, k.own.value)
          else Using(e, k.own)))
    case CommitAttach(c) =>
      if !k.phase.Attaching? || k.phase.own !in s.analyses then None
      else
        var e, own := k.phase.event, k.phase.own;
        if exists r: nat :: r != own && Attached(s, e, r) then
          // unique index: roll back and read again
          Some(Put(s, c, if CanonicalOf(s, e).Some? then Using(e, CanonicalOf(s, e)) else Dead))
        else
          Some(Put(s, c, Using(e, Some(own))).(analyses := s.analyses[own := s.analyses[own].(event := Some(e))]))
    case Send(c, user) =>
      if !k.phase.Using? then None
      else Some(s.(log := s.log + [Sending(c, k.phase.event, user, k.phase.analysis)]))
  }

  ghost function Run(s: State, steps: seq<Step>): Option<State>
    decreases |steps|
  {
    if steps == [] then Some(s)
    else
      var next := Take(s, steps[0]);
      if next.None? then None else Run(next.value, steps[1..])
  }

  /** A start: any events and attached analyses the indexes allow, nobody at work. */
  ghost predicate Start(s: State) {
    s.checks == map[] && s.log == [] && IndexOk(s)
  }

  ghost predicate IndexOk(s: State) {
    && (forall e, a, b :: Attached(s, e, a) && Attached(s, e, b) ==> a == b)
    && (forall k, l :: k in s.events && l in s.events && s.events[k] == s.events[l] ==> k == l)
  }

  /** The analysis is the one attached to the event, and usable. */
  predicate Anchor(s: State, event: nat, analysis: Option<nat>) {
    analysis.Some? && Attached(s, event, analysis.value) && s.analyses[analysis.value].usable
  }

  predicate OnTheWay(p: Phase) {
    p.Accepted? || p.NoEvent? || p.HasEvent? || p.NoneYet? || p.Attaching?
  }

  /** Until it uses one, a check holds a usable analysis of its own that is attached to nothing. */
  ghost predicate CheckOk(s: State, c: nat)
    requires c in s.checks
  {
    var k := s.checks[c];
    && (k.own.Some? ==> k.own.value in s.analyses)
    && (k.phase.Begun? ==> k.own.None?)
    && (OnTheWay(k.phase) ==> k.own.Some? && s.analyses[k.own.value] == Analysis(true, None))
    && (k.phase.Attaching? ==> k.own == Some(k.phase.own))
    && (k.phase.Using? ==> Anchor(s, k.phase.event, k.phase.analysis))
  }

  ghost predicate Inv(s: State) {
    && IndexOk(s)
    && (forall c :: c in s.checks ==> CheckOk(s, c))
    && (forall c, d :: c in s.checks && d in s.checks && c != d && s.checks[c].own.Some? ==>
        s.checks[c].own != s.checks[d].own)
    && (forall i :: 0 <= i < |s.log| ==> Anchor(s, s.log[i].event, s.log[i].analysis))
  }

  /** No step detaches or reattaches an analysis, or changes its verdict. */
  lemma StepKeepsAttached(s: State, step: Step)
    requires Inv(s) && Take(s, step).Some?
    ensures var s' := Take(s, step).value;
            && (forall e, row :: Attached(s, e, row) ==> Attached(s', e, row))
            && (forall row :: row in s.analyses ==>
                row in s'.analyses && s'.analyses[row].usable == s.analyses[row].usable)
            && s.log <= s'.log
            && (forall key :: key in s.events ==> key in s'.events && s'.events[key] == s.events[key])
  {
  }

  /** What the unique index is for: a commit that would attach a second analysis fails. */
  lemma AttachOnce(s: State, step: Step, e: nat, a: nat, b: nat)
    requires Inv(s) && Take(s, step).Some?
    requires Attached(Take(s, step).value, e, a) && Attached(Take(s, step).value, e, b)
    ensures a == b
  {
    var s' := Take(s, step).value;
    forall row | Attached(s', e, row) && !Attached(s, e, row)
      ensures step.CommitAttach? && row == s.checks[step.c].own.value && forall r: nat :: Attached(s, e, r) ==> r == row
    {
      assert step.c in s.checks && CheckOk(s, step.c);
    }
    assert Attached(s', e, a) && Attached(s', e, b);
  }

  /** A commit that attaches, or finds another attached, leaves its check with the attached one. */
  lemma CommitAnchors(s: State, c: nat)
    requires Inv(s) && Take(s, CommitAttach(c)).Some?
    ensures CheckOk(Take(s, CommitAttach(c)).value, c)
  {
    assert CheckOk(s, c);
  }

  lemma StepKeepsOthers(s: State, step: Step, c: nat)
    requires Inv(s) && Take(s, step).Some? && c in s.checks && c != step.c
    ensures c in Take(s, step).value.checks && CheckOk(Take(s, step).value, c)
  {
    StepKeepsAttached(s, step);
    hide Canonical, IndexOk;
    assert CheckOk(s, c);
    if step.CommitAttach? {
      assert CheckOk(s, step.c) && s.checks[step.c].own != s.checks[c].own;
    }
  }

  lemma StepKeepsOwner(s: State, step: Step)
    requires Inv(s) && Take(s, step).Some? && !step.CommitAttach?
    ensures step.c in Take(s, step).value.checks && CheckOk(Take(s, step).value, step.c)
  {
    hide IndexOk;
    if step.c in s.checks {
      assert CheckOk(s, step.c);
    }
  }

  lemma StepKeepsUse(s: State, step: Step, i: nat)
    requires Inv(s) && Take(s, step).Some? && i < |Take(s, step).value.log|
    ensures var s' := Take(s, step).value; Anchor(s', s'.log[i].event, s'.log[i].analysis)
  {
    StepKeepsAttached(s, step);
    if i < |s.log| {
      assert Anchor(s, s.log[i].event, s.log[i].analysis);
    } else {
      assert CheckOk(s, step.c);
    }
  }

  lemma StepKeepsInv(s: State, step: Step)
    requires Inv(s) && Take(s, step).Some?
    ensures Inv(Take(s, step).value)
  {
    var s' := Take(s, step).value;
    forall c | c in s'.checks ensures CheckOk(s', c) {
      if c != step.c {
        StepKeepsOthers(s, step, c);
      } else if step.CommitAttach? {
        CommitAnchors(s, c);
      } else {
        StepKeepsOwner(s, step);
      }
    }
    forall i: nat | i < |s'.log| ensures Anchor(s', s'.log[i].event, s'.log[i].analysis) {
      StepKeepsUse(s, step, i);
    }
    forall e, a, b | Attached(s', e, a) && Attached(s', e, b) ensures a == b {
      AttachOnce(s, step, e, a, b);
    }
    StepKeepsOwn(s, step);
  }

  /** Analysis rows are a check's own: event rows and own rows stay distinct. */
  lemma StepKeepsOwn(s: State, step: Step)
    requires Inv(s) && Take(s, step).Some?
    ensures var s' := Take(s, step).value;
            && (forall c, d :: c in s'.checks && d in s'.checks && c != d && s'.checks[c].own.Some? ==>
                s'.checks[c].own != s'.checks[d].own)
            && (forall k, l :: k in s'.events && l in s'.events && s'.events[k] == s'.events[l] ==> k == l)
  {
  }

  lemma {:induction false} RunKeepsInv(s: State, steps: seq<Step>)
    requires Inv(s) && Run(s, steps).Some?
    ensures Inv(Run(s, steps).value)
    decreases |steps|
  {
    if steps != [] {
      StepKeepsInv(s, steps[0]);
      RunKeepsInv(Take(s, steps[0]).value, steps[1..]);
    }
  }

  /** Once attached, always attached. */
  lemma {:induction false} RunKeepsAttached(s: State, steps: seq<Step>, event: nat, row: nat)
    requires Inv(s) && Run(s, steps).Some? && Attached(s, event, row)
    ensures Attached(Run(s, steps).value, event, row)
    decreases |steps|
  {
    if steps != [] {
      StepKeepsInv(s, steps[0]);
      StepKeepsAttached(s, steps[0]);
      RunKeepsAttached(Take(s, steps[0]).value, steps[1..], event, row);
    }
  }

  /** In every run: at most one analysis is attached to an event, every delivery carries the attached
      one, usable, and so all deliveries of one event carry the same, whether their check created it,
      found it, lost the race to attach its own, or reused it by exact context. */
  lemma OneAnalysisPerEvent(start: State, steps: seq<Step>, s: State)
    requires Start(start) && Run(start, steps) == Some(s)
    ensures forall e, a, b :: Attached(s, e, a) && Attached(s, e, b) ==> a == b
    ensures forall i :: 0 <= i < |s.log| ==> Anchor(s, s.log[i].event, s.log[i].analysis)
    ensures forall i, j :: 0 <= i < |s.log| && 0 <= j < |s.log| && s.log[i].event == s.log[j].event
              ==> s.log[i].analysis == s.log[j].analysis
  {
    assert Inv(start);
    RunKeepsInv(start, steps);
  }

  /** The branch that would deliver under a check's own unattached analysis is never taken. */
  lemma NeverUnattached(start: State, steps: seq<Step>, s: State, c: nat)
    requires Start(start) && Run(start, steps) == Some(s) && Take(s, BeginAttach(c)).Some?
    ensures var k := Take(s, BeginAttach(c)).value.checks[c];
            k.phase.Attaching? || (k.phase.Using? && Anchor(s, k.phase.event, k.phase.analysis))
  {
    assert Inv(start);
    RunKeepsInv(start, steps);
    assert CheckOk(s, c);
  }

  // ---------- a check gets there

  lemma {:induction false} RunAppend(s: State, first: seq<Step>, rest: seq<Step>)
    requires Run(s, first).Some?
    ensures Run(s, first + rest) == Run(Run(s, first).value, rest)
    decreases |first|
  {
    hide Take;
    if first == [] {
      assert [] + rest == rest;
    } else {
      assert (first + rest)[1..] == first[1..] + rest;
      RunAppend(Take(s, first[0]).value, first[1..], rest);
    }
  }

  lemma RunSnoc(s: State, steps: seq<Step>, step: Step)
    requires Run(s, steps).Some?
    ensures Run(s, steps + [step]) == Take(Run(s, steps).value, step)
  {
    hide Take;
    RunAppend(s, steps, [step]);
    assert [step][1..] == [];
  }

  /** The event of a new check: the one stored under its key, or the one it inserts. */
  function EventFor(s: State, key: string, event: nat): nat {
    if key in s.events then s.events[key] else event
  }

  lemma FindsEvent(s: State, c: nat, key: string, row: nat, event: nat) returns (steps: seq<Step>, t: State)
    requires Inv(s) && c !in s.checks && row !in s.analyses && event !in s.events.Values
    ensures Run(s, steps) == Some(t) && forall k :: 0 <= k < |steps| ==> steps[k].c == c
    ensures t == State(s.events[key := EventFor(s, key, event)], s.analyses[row := Analysis(true, None)],
                   s.checks[c := Check(key, Some(row), HasEvent(EventFor(s, key, event)))], s.log)
  {
    steps := [];
    assert Run(s, steps) == Some(s);
    RunSnoc(s, steps, NewCheck(c, key));
    steps := steps + [NewCheck(c, key)];
    RunSnoc(s, steps, SaveAnalysis(c, row, true));
    steps := steps + [SaveAnalysis(c, row, true)];
    RunSnoc(s, steps, FindEvent(c));
    steps := steps + [FindEvent(c)];
    if key !in s.events {
      RunSnoc(s, steps, InsertEvent(c, event));
      steps := steps + [InsertEvent(c, event)];
    }
    t := Run(s, steps).value;
    assert t.checks == s.checks[c := Check(key, Some(row), HasEvent(EventFor(s, key, event)))];
    assert t.events == s.events[key := EventFor(s, key, event)];
  }

  ghost function OwnerOf(s: State, e: nat): (r: nat)
    requires exists r :: r in s.analyses && s.analyses[r].event == Some(e)
    ensures Attached(s, e, r)
  {
    var r: nat :| r in s.analyses && s.analyses[r].event == Some(e);
    r
  }

  lemma NothingAttached(s: State, e: nat)
    requires forall r :: r in s.analyses ==> s.analyses[r].event != Some(e)
    ensures CanonicalOf(s, e) == None
  {
  }

  lemma OneOwner(s: State, e: nat, a: nat)
    requires Inv(s) && Attached(s, e, a)
    ensures forall q :: Attached(s, e, q) ==> q == a
  {
  }

  lemma OneAttached(s: State, e: nat, r: nat)
    requires (forall q :: Attached(s, e, q) ==> q == r) && Attached(s, e, r) && s.analyses[r].usable
    ensures CanonicalOf(s, e) == Some(r)
  {
    assert Canonical(s, e, r);
  }

  lemma UsesAttached(u: State, c: nat, e: nat, a: nat, user: nat) returns (steps: seq<Step>, t: State)
    requires c in u.checks && u.checks[c].phase == HasEvent(e)
    requires (forall q :: Attached(u, e, q) ==> q == a) && Attached(u, e, a) && u.analyses[a].usable
    ensures Run(u, steps) == Some(t) && forall k :: 0 <= k < |steps| ==> steps[k].c == c
    ensures t.events == u.events && t.analyses == u.analyses && t.log == u.log + [Sending(c, e, user, Some(a))]
  {
    OneAttached(u, e, a);
    hide CanonicalOf;
    assert Run(u, []) == Some(u) && [] + [FindAnalysis(c)] == [FindAnalysis(c)];
    RunSnoc(u, [], FindAnalysis(c));
    steps := [FindAnalysis(c)];
    RunSnoc(u, steps, Send(c, user));
    steps := steps + [Send(c, user)];
    t := Run(u, steps).value;
  }

  lemma AttachesOwn(u: State, c: nat, e: nat, row: nat, user: nat) returns (steps: seq<Step>, t: State)
    requires c in u.checks && u.checks[c].phase == HasEvent(e) && u.checks[c].own == Some(row)
    requires row in u.analyses && u.analyses[row] == Analysis(true, None)
        && (forall r :: r in u.analyses ==> u.analyses[r].event != Some(e))
    ensures Run(u, steps) == Some(t) && forall k :: 0 <= k < |steps| ==> steps[k].c == c
    ensures t.events == u.events && t.analyses == u.analyses[row := Analysis(true, Some(e))]
    ensures t.log == u.log + [Sending(c, e, user, Some(row))]
  {
    NothingAttached(u, e);
    steps := [];
    RunSnoc(u, steps, FindAnalysis(c));
    steps := steps + [FindAnalysis(c)];
    var v := Run(u, steps).value;
    NothingAttached(v, e);
    RunSnoc(u, steps, BeginAttach(c));
    steps := steps + [BeginAttach(c)];
    var w := Run(u, steps).value;
    hide CanonicalOf;
    RunSnoc(u, steps, CommitAttach(c));
    steps := steps + [CommitAttach(c)];
    RunSnoc(u, steps, Send(c, user));
    steps := steps + [Send(c, user)];
    t := Run(u, steps).value;
  }

  /** A new check whose analysis is saved as usable attaches it where its event has none, uses the one
      it has otherwise, and sends it, provided no unusable one is in the way. */
  lemma FreshCheckSends(s: State, c: nat, key: string, row: nat, event: nat, user: nat)
    returns (steps: seq<Step>, t: State, a: nat)
    requires Inv(s) && c !in s.checks && row !in s.analyses && event !in s.events.Values
    requires forall r :: r in s.analyses && s.analyses[r].event == Some(EventFor(s, key, event)) ==>
               s.analyses[r].usable
    ensures Run(s, steps) == Some(t) && forall k :: 0 <= k < |steps| ==> steps[k].c == c
    ensures key in t.events && t.events[key] == (if key in s.events then s.events[key] else event)
    ensures t.log == s.log + [Sending(c, t.events[key], user, Some(a))]
    ensures a in t.analyses && t.analyses[a] == Analysis(true, Some(t.events[key]))
    ensures if exists r :: r in s.analyses && s.analyses[r].event == Some(t.events[key])
            then a in s.analyses && s.analyses[a].event == Some(t.events[key]) else a == row
  {
    hide Inv, Run, Take;
    var first, u := FindsEvent(s, c, key, row, event);
    var e := EventFor(s, key, event);
    var rest;
    if exists r :: r in s.analyses && s.analyses[r].event == Some(e) {
      a := OwnerOf(s, e);
      OneOwner(s, e, a);
      forall q | Attached(u, e, q) ensures q == a {
        assert Attached(s, e, q);
      }
      rest, t := UsesAttached(u, c, e, a, user);
    } else {
      a := row;
      rest, t := AttachesOwn(u, c, e, row, user);
    }
    RunAppend(s, first, rest);
    steps := first + rest;
  }

  /** A check that was about to attach its own when another came first sends the other's. */
  lemma LostRaceSends(s: State, c: nat, e: nat, own: nat, r: nat, user: nat)
    requires Inv(s) && c in s.checks && s.checks[c].phase == Attaching(e, own)
    requires r in s.analyses && s.analyses[r] == Analysis(true, Some(e))
    ensures var t := Run(s, [CommitAttach(c)] + [Send(c, user)]);
            t.Some? && t.value.analyses == s.analyses && t.value.log == s.log + [Sending(c, e, user, Some(r))]
  {
    assert CheckOk(s, c) && own != r && Attached(s, e, r);
    OneOwner(s, e, r);
    OneAttached(s, e, r);
    hide Inv, CanonicalOf;
    assert [CommitAttach(c)][1..] == [];
    RunSnoc(s, [CommitAttach(c)], Send(c, user));
  }

  /** So does one that had found none when it next looks. */
  lemma SecondLookSends(s: State, c: nat, e: nat, r: nat, user: nat)
    requires Inv(s) && c in s.checks && s.checks[c].phase == NoneYet(e)
    requires r in s.analyses && s.analyses[r] == Analysis(true, Some(e))
    ensures var t := Run(s, [BeginAttach(c)] + [Send(c, user)]);
            t.Some? && t.value.analyses == s.analyses && t.value.log == s.log + [Sending(c, e, user, Some(r))]
  {
    assert Attached(s, e, r);
    OneOwner(s, e, r);
    OneAttached(s, e, r);
    hide Inv, CanonicalOf;
    assert [BeginAttach(c)][1..] == [];
    RunSnoc(s, [BeginAttach(c)], Send(c, user));
  }

  /** An exact-context candidate is delivered with its event's analysis. */
  lemma ReuseSends(s: State, c: nat, key: string, event: nat, a: nat, user: nat)
    requires c !in s.checks && a in s.analyses && s.analyses[a] == Analysis(true, Some(event))
    ensures var t := Run(s, [NewReuse(c, key, event, a)] + [Send(c, user)]);
            t.Some? && t.value.log == s.log + [Sending(c, event, user, Some(a))]
  {
    assert [NewReuse(c, key, event, a)][1..] == [];
    RunSnoc(s, [NewReuse(c, key, event, a)], Send(c, user));
  }

  /** An unusable analysis in the way keeps every check from delivering its event. */
  lemma UnusableBlocks(start: State, steps: seq<Step>, s: State, event: nat, row: nat)
    requires Start(start) && Run(start, steps) == Some(s)
    requires row in s.analyses && s.analyses[row] == Analysis(false, Some(event))
    ensures forall i :: 0 <= i < |s.log| ==> s.log[i].event != event
  {
    OneAnalysisPerEvent(start, steps, s);
    assert Attached(s, event, row);
  }
}
