/**
 * Conservation of recipients over one event (bot/alerts.py `resolve_alert_recipient_outcomes`,
 * the dispatch block of `automatic_price_check`, `_deliver_market_event_alert`): every active user
 * loaded for the event ends in exactly one outcome row, the right one.
 */
module Recipients {
  import opened Prelude
  import opened AlertTable
  import opened Cooldown
  import D = Delivery
  import DS = DeliverySafety
  import O = DeliveryOutcomes
  import R = DeliveryRuns

  datatype User = User(id: nat, chat: Option<int>, enabled: bool, unlocked: bool)

  datatype Status = Filtered | SuppressedStatus | CooldownStatus | NotScheduled | DeliveredStatus | FailedStatus

  datatype Reason =
    | NotEligible(detail: string)
    | WatchlistDisabled
    | PremiumRequired
    | SimilarEventSuppressed
    | CooldownActive
    | AlreadyDelivered
    | DeliveryNotScheduled
    | DeliveredReason
    | TelegramBotBlocked
    | TelegramSendFailed

  /** A row of `alert_delivery_outcomes`; a row about no recipient has no user. */
  datatype Outcome = Outcome(user: Option<nat>, status: Status, reason: Reason, eligible: bool)

  datatype Resolution = Resolution(recipients: seq<Recipient>, filtered: seq<Outcome>)

  predicate Reachable(u: User) {
    u.chat.Some? && u.enabled && u.unlocked
  }

  /** Why user number `i` is not a recipient: its own settings, or an earlier user with its chat. */
  function Problem(users: seq<User>, i: nat): Option<Reason>
    requires i < |users|
  {
    var u := users[i];
    if u.chat.None? then Some(NotEligible("missing_telegram_chat"))
    else if !u.enabled then Some(WatchlistDisabled)
    else if !u.unlocked then Some(PremiumRequired)
    else if exists j :: 0 <= j < i && Reachable(users[j]) && users[j].chat == u.chat
        then Some(NotEligible("duplicate_chat_id"))
    else None
  }

  /** The row for what a delivery worker reports. */
  function LockedRow(user: Option<nat>, v: D.Verdict): (o: Outcome)
    ensures o.user == user
    ensures o.status == DeliveredStatus <==> v.Delivered?
    ensures o.reason == SimilarEventSuppressed <==> v.RepeatAtPreflight? || v.RepeatUnderLock?
  {
    match v
    case RepeatAtPreflight => Outcome(user, SuppressedStatus, SimilarEventSuppressed, false)
    case RepeatUnderLock(_, _) => Outcome(user, SuppressedStatus, SimilarEventSuppressed, false)
    case AlreadySent(_) => Outcome(user, SuppressedStatus, AlreadyDelivered, false)
    case AlreadyPending(_) => Outcome(user, NotScheduled, DeliveryNotScheduled, false)
    case Delivered(_) => Outcome(user, DeliveredStatus, DeliveredReason, true)
    case Undelivered(_, blocked) =>
        Outcome(user, FailedStatus, if blocked then TelegramBotBlocked else TelegramSendFailed, true)
  }

  function RefusalRow(user: Option<nat>, v: Verdict): (o: Outcome)
    ensures o.user == user
  {
    if v == SimilarEvent then Outcome(user, SuppressedStatus, SimilarEventSuppressed, false)
    else Outcome(user, CooldownStatus, CooldownActive, false)
  }

  /** The one outcome of user number `i`, from the rules alone. */
  ghost function Expected(policy: Policy, table: Table, q: Query, users: seq<User>, locked: nat -> D.Verdict,
      i: nat): Outcome
    requires i < |users|
  {
    var u := users[i];
    if Problem(users, i).Some? then Outcome(Some(u.id), Filtered, Problem(users, i).value, false)
    else
      var v := Rule(policy, table, q, Recipient(u.chat.value, Some(u.id)));
      if v != Allowed then RefusalRow(Some(u.id), v) else LockedRow(Some(u.id), locked(u.id))
  }

  // ---- accounting by user -----------------------------------------------------------------

  /** Rows about `x`. */
  function RowsFor(rows: seq<Outcome>, x: Option<nat>): nat {
    if rows == [] then 0 else RowsFor(rows[..|rows| - 1], x) + if rows[|rows| - 1].user == x then 1 else 0
  }

  lemma RowsForSnoc(a: seq<Outcome>, o: Outcome, x: Option<nat>)
    ensures RowsFor(a + [o], x) == RowsFor(a, x) + if o.user == x then 1 else 0
  {
  }

  lemma {:induction false} RowsForAppend(a: seq<Outcome>, b: seq<Outcome>, x: Option<nat>)
    ensures RowsFor(a + b, x) == RowsFor(a, x) + RowsFor(b, x)
  {
    if b == [] {
      assert a + b == a;
    } else {
      assert (a + b)[..|a + b| - 1] == a + b[..|b| - 1];
      RowsForAppend(a, b[..|b| - 1], x);
    }
  }

  function Chosen(users: seq<User>, n: nat): seq<Recipient>
    requires n <= |users|
  {
    if n == 0 then []
    else if Problem(users, n - 1).None?
        then Chosen(users, n - 1) + [Recipient(users[n - 1].chat.value, Some(users[n - 1].id))]
    else Chosen(users, n - 1)
  }

  function Dropped(users: seq<User>, n: nat): seq<Outcome>
    requires n <= |users|
  {
    if n == 0 then []
    else if Problem(users, n - 1).Some?
        then Dropped(users, n - 1) + [Outcome(Some(users[n - 1].id), Filtered, Problem(users, n - 1).value, false)]
    else Dropped(users, n - 1)
  }

  /** The recipients chosen have distinct chats. */
  lemma {:induction false} ChosenDistinct(users: seq<User>, n: nat)
    requires n <= |users|
    ensures forall r :: r in Chosen(users, n) ==>
        exists i :: 0 <= i < n && Problem(users, i).None? && r == Recipient(users[i].chat.value, Some(users[i].id))
    ensures forall j, k :: 0 <= j < k < |Chosen(users, n)| ==> Chosen(users, n)[j].chat != Chosen(users, n)[k].chat
  {
    if n > 0 {
      ChosenDistinct(users, n - 1);
      if Problem(users, n - 1).None? {
        forall r | r in Chosen(users, n - 1) ensures Some(r.chat) != users[n - 1].chat {
          var i :| 0 <= i < n - 1 && Problem(users, i).None? && r == Recipient(users[i].chat.value, Some(users[i].id));
          assert Reachable(users[i]);
        }
      }
    }
  }

  /** All the rows of one dispatch, stage by stage. */
  ghost function AllRows(policy: Policy, table: Table, q: Query, users: seq<User>,
      locked: nat -> D.Verdict): seq<Outcome>
  {
    var rs := Chosen(users, |users|);
    Dropped(users, |users|) + RefusalRows(policy, table, q, rs) + LockedRows(policy, table, q, rs, locked)
  }

  ghost function RefusalRows(policy: Policy, table: Table, q: Query, rs: seq<Recipient>): seq<Outcome> {
    if rs == [] then []
    else
      var r, v := rs[|rs| - 1], Rule(policy, table, q, rs[|rs| - 1]);
      var init := RefusalRows(policy, table, q, rs[..|rs| - 1]);
      if v == Allowed then init else init + [RefusalRow(r.user, v)]
  }

  ghost function LockedRows(policy: Policy, table: Table, q: Query, rs: seq<Recipient>,
      locked: nat -> D.Verdict): seq<Outcome>
  {
    if rs == [] then []
    else
      var r, v := rs[|rs| - 1], Rule(policy, table, q, rs[|rs| - 1]);
      var init := LockedRows(policy, table, q, rs[..|rs| - 1], locked);
      if v == Allowed && r.user.Some? then init + [LockedRow(r.user, locked(r.user.value))] else init
  }

  ghost predicate Loaded(users: seq<User>, n: nat, id: nat)
    requires n <= |users|
  {
    exists i :: 0 <= i < n && users[i].id == id
  }

  /** A user loaded once is a recipient or dropped, once. */
  lemma {:induction false} ResolveConserves(users: seq<User>, n: nat, id: nat)
    requires n <= |users| && forall i, j :: 0 <= i < j < |users| ==> users[i].id != users[j].id
    ensures RowsFor(Dropped(users, n), Some(id)) + Addressed(Chosen(users, n), Some(id))
            == if Loaded(users, n, id) then 1 else 0
  {
    hide Problem;
    if n > 0 {
      ResolveConserves(users, n - 1, id);
      assert Loaded(users, n, id) <==> Loaded(users, n - 1, id) || users[n - 1].id == id;
      assert users[n - 1].id == id ==> !Loaded(users, n - 1, id);
      var u := users[n - 1];
      if Problem(users, n - 1).Some? {
        RowsForSnoc(Dropped(users, n - 1), Outcome(Some(u.id), Filtered, Problem(users, n - 1).value, false), Some(id));
      } else {
        assert Chosen(users, n)[..|Chosen(users, n)| - 1] == Chosen(users, n - 1);
      }
    }
  }

  function Addressed(rs: seq<Recipient>, x: Option<nat>): nat {
    if rs == [] then 0 else Addressed(rs[..|rs| - 1], x) + if rs[|rs| - 1].user == x then 1 else 0
  }

  lemma {:induction false} StagesConserve(policy: Policy, table: Table, q: Query, rs: seq<Recipient>,
      locked: nat -> D.Verdict, x: Option<nat>)
    requires x.Some?
    ensures RowsFor(RefusalRows(policy, table, q, rs), x) + RowsFor(LockedRows(policy, table, q, rs, locked), x)
        == Addressed(rs, x)
  {
    hide Rule, RefusalRow, LockedRow;
    if rs != [] {
      var init, r, v := rs[..|rs| - 1], rs[|rs| - 1], Rule(policy, table, q, rs[|rs| - 1]);
      StagesConserve(policy, table, q, init, locked, x);
      if v == Allowed {
        if r.user.Some? { RowsForSnoc(LockedRows(policy, table, q, init, locked),
            LockedRow(r.user, locked(r.user.value)), x); }
      } else {
        RowsForSnoc(RefusalRows(policy, table, q, init), RefusalRow(r.user, v), x);
      }
    }
  }

  /** Exactly one outcome row per loaded user, over all stages. */
  lemma OneRowPerUser(policy: Policy, table: Table, q: Query, users: seq<User>, locked: nat -> D.Verdict, i: nat)
    requires i < |users| && forall i, j :: 0 <= i < j < |users| ==> users[i].id != users[j].id
    ensures RowsFor(AllRows(policy, table, q, users, locked), Some(users[i].id)) == 1
  {
    var rs, x := Chosen(users, |users|), Some(users[i].id);
    RowsForAppend(Dropped(users, |users|) + RefusalRows(policy, table, q, rs), LockedRows(policy, table, q, rs, locked),
        x);
    RowsForAppend(Dropped(users, |users|), RefusalRows(policy, table, q, rs), x);
    ResolveConserves(users, |users|, users[i].id);
    assert Loaded(users, |users|, users[i].id);
    StagesConserve(policy, table, q, rs, locked, x);
  }

  lemma {:induction false} DroppedRight(users: seq<User>, n: nat)
    requires n <= |users|
    ensures forall o :: o in Dropped(users, n) ==>
        exists i :: 0 <= i < n && Problem(users, i).Some? && o == Outcome(Some(users[i].id), Filtered,
        Problem(users, i).value, false)
  {
    if n > 0 { DroppedRight(users, n - 1); }
  }

  lemma {:induction false} StageRowsRight(policy: Policy, table: Table, q: Query, rs: seq<Recipient>,
      locked: nat -> D.Verdict)
    ensures forall o :: o in RefusalRows(policy, table, q, rs) ==>
              exists r :: r in rs && Rule(policy, table, q, r) != Allowed && o == RefusalRow(r.user,
                  Rule(policy, table, q, r))
    ensures forall o :: o in LockedRows(policy, table, q, rs, locked) ==>
              exists r :: r in rs && Rule(policy, table, q, r) == Allowed && r.user.Some? && o == LockedRow(r.user,
                  locked(r.user.value))
  {
    if rs != [] {
      StageRowsRight(policy, table, q, rs[..|rs| - 1], locked);
      assert rs == rs[..|rs| - 1] + [rs[|rs| - 1]];
    }
  }

  /** And it is the row the rules call for. */
  lemma RowsAreRight(policy: Policy, table: Table, q: Query, users: seq<User>, locked: nat -> D.Verdict)
    ensures forall o :: o in AllRows(policy, table, q, users, locked) ==>
        exists i :: 0 <= i < |users| && o == Expected(policy, table, q, users, locked, i)
  {
    var rs := Chosen(users, |users|);
    DroppedRight(users, |users|);
    ChosenDistinct(users, |users|);
    StageRowsRight(policy, table, q, rs, locked);
    forall o | o in AllRows(policy, table, q, users, locked)
      ensures exists i :: 0 <= i < |users| && o == Expected(policy, table, q, users, locked, i) {
      if o in Dropped(users, |users|) {
        var i :| 0 <= i < |users| && Problem(users, i).Some?
            && o == Outcome(Some(users[i].id), Filtered, Problem(users, i).value, false);
        assert o == Expected(policy, table, q, users, locked, i);
      } else {
        var r :| r in rs
            && (if Rule(policy, table, q, r) != Allowed then o == RefusalRow(r.user, Rule(policy, table, q, r))
                             else r.user.Some? && o == LockedRow(r.user, locked(r.user.value)));
        var i :| 0 <= i < |users| && Problem(users, i).None? && r == Recipient(users[i].chat.value, Some(users[i].id));
        assert o == Expected(policy, table, q, users, locked, i);
      }
    }
  }

  // ---- in the users' own settings -----------------------------------------------------------

  /** A recipient is chosen if and only if it is a user with a chat, enabled and unlocked, whose chat no
      earlier such user has; and recipients come in the users' order. */
  lemma ChosenExactly(users: seq<User>, r: Recipient)
    ensures r in Chosen(users, |users|) <==> exists i ::
              && 0 <= i < |users| && users[i].chat.Some? && users[i].enabled && users[i].unlocked
              && r == Recipient(users[i].chat.value, Some(users[i].id))
              && forall j :: 0 <= j < i && users[j].enabled && users[j].unlocked ==> users[j].chat != users[i].chat
  {
    ChosenDistinct(users, |users|);
    if i :| 0 <= i < |users| && Problem(users, i).None? && r == Recipient(users[i].chat.value, Some(users[i].id)) {
      ChosenHas(users, |users|, i);
      Unproblematic(users, i);
    } else {
      forall i: nat | i < |users| && r.user == Some(users[i].id) && users[i].chat == Some(r.chat)
        ensures !(users[i].enabled && users[i].unlocked
                  && forall j :: 0 <= j < i && users[j].enabled && users[j].unlocked ==> users[j].chat != users[i].chat)
      {
        Unproblematic(users, i);
      }
    }
  }

  /** Nothing is wrong with a user exactly when all its settings are right and its chat is new. */
  lemma Unproblematic(users: seq<User>, i: nat)
    requires i < |users|
    ensures Problem(users, i).None? <==>
              && users[i].chat.Some? && users[i].enabled && users[i].unlocked
              && forall j :: 0 <= j < i && users[j].enabled && users[j].unlocked ==> users[j].chat != users[i].chat
  {
  }

  lemma {:induction false} ChosenInOrder(users: seq<User>, n: nat, i: nat, j: nat)
    requires i < j < n <= |users| && Problem(users, i).None? && Problem(users, j).None?
    ensures |Chosen(users, i)| < |Chosen(users, j)| < |Chosen(users, n)|
    ensures Chosen(users, n)[|Chosen(users, i)|] == Recipient(users[i].chat.value, Some(users[i].id))
    ensures Chosen(users, n)[|Chosen(users, j)|] == Recipient(users[j].chat.value, Some(users[j].id))
  {
    hide Problem;
    ChosenAt(users, j, i);
    ChosenAt(users, n, i);
    ChosenAt(users, n, j);
  }

  lemma {:induction false} ChosenAt(users: seq<User>, n: nat, i: nat)
    requires i < n <= |users| && Problem(users, i).None?
    ensures |Chosen(users, i)| < |Chosen(users, n)|
    ensures Chosen(users, n)[|Chosen(users, i)|] == Recipient(users[i].chat.value, Some(users[i].id))
  {
    hide Problem;
    if i < n - 1 { ChosenAt(users, n - 1, i); }
  }

  /** The one row of a user, setting by setting: the first that is missing names the reason; then the
      cooldowns; then what its worker reports. */
  lemma UserRow(policy: Policy, table: Table, q: Query, users: seq<User>, locked: nat -> D.Verdict, i: nat, o: Outcome)
    requires i < |users| && forall i, j :: 0 <= i < j < |users| ==> users[i].id != users[j].id
    requires o in AllRows(policy, table, q, users, locked) && o.user == Some(users[i].id)
    ensures RowsFor(AllRows(policy, table, q, users, locked), o.user) == 1
    ensures var u := users[i];
            var plain := if q.highUrgency && q.plainCooldown > 1_800_000_000 then 1_800_000_000 else q.plainCooldown;
            if u.chat.None? then o == Outcome(o.user, Filtered, NotEligible("missing_telegram_chat"), false)
            else if !u.enabled then o == Outcome(o.user, Filtered, WatchlistDisabled, false)
            else if !u.unlocked then o == Outcome(o.user, Filtered, PremiumRequired, false)
            else if exists j :: 0 <= j < i && users[j].enabled && users[j].unlocked && users[j].chat == u.chat
            then o == Outcome(o.user, Filtered, NotEligible("duplicate_chat_id"), false)
            else if InCooldown(policy, table, u.id, q.symbol, q.key, q.family, q.now)
            then o == Outcome(o.user, SuppressedStatus, SimilarEventSuppressed, false)
            else if q.key == "" && plain > 0 && exists id ::
                      id in table && SentTo(table[id], u.id, q.symbol, EventAlert) && table[id].sentAt.Some?
                      && q.now - table[id].sentAt.value < plain
            then o == Outcome(o.user, CooldownStatus, CooldownActive, false)
            else match locked(u.id)
              case RepeatAtPreflight => o == Outcome(o.user, SuppressedStatus, SimilarEventSuppressed, false)
              case RepeatUnderLock(_, _) => o == Outcome(o.user, SuppressedStatus, SimilarEventSuppressed, false)
              case AlreadySent(_) => o == Outcome(o.user, SuppressedStatus, AlreadyDelivered, false)
              case AlreadyPending(_) => o == Outcome(o.user, NotScheduled, DeliveryNotScheduled, false)
              case Delivered(_) => o == Outcome(o.user, DeliveredStatus, DeliveredReason, true)
              case Undelivered(_, true) => o == Outcome(o.user, FailedStatus, TelegramBotBlocked, true)
              case Undelivered(_, false) => o == Outcome(o.user, FailedStatus, TelegramSendFailed, true)
  {
    OneRowPerUser(policy, table, q, users, locked, i);
    RowsAreRight(policy, table, q, users, locked);
    var j :| 0 <= j < |users| && o == Expected(policy, table, q, users, locked, j);
    ExpectedUser(policy, table, q, users, locked, j);
    assert j == i;
    hide AllRows, RowsFor, InCooldown;
  }

  lemma ExpectedUser(policy: Policy, table: Table, q: Query, users: seq<User>, locked: nat -> D.Verdict, i: nat)
    requires i < |users|
    ensures Expected(policy, table, q, users, locked, i).user == Some(users[i].id)
  {
  }

  // ---- the dispatch -----------------------------------------------------------------------

  lemma {:induction false} LockedOfAllowed(policy: Policy, table: Table, q: Query, rs: seq<Recipient>,
      locked: nat -> D.Verdict)
    requires forall r :: r in rs ==> r.user.Some?
    ensures LockedRows(policy, table, q, rs, locked) == LockedOf(AllowedOf(policy, table, q, rs), locked)
  {
    if rs != [] {
      var init := rs[..|rs| - 1];
      assert forall x :: x in init ==> x in rs;
      LockedOfAllowed(policy, table, q, init, locked);
      var r := rs[|rs| - 1];
      assert r in rs && forall x :: x in init ==> x in rs;
      if Rule(policy, table, q, r) == Allowed {
        var before, after := AllowedOf(policy, table, q, init), AllowedOf(policy, table, q, rs);
        assert after == before + [r] && after[..|after| - 1] == before;
      }
    }
  }

  function LockedOf(rs: seq<Recipient>, locked: nat -> D.Verdict): seq<Outcome> {
    if rs == [] then []
    else
      var init, r := LockedOf(rs[..|rs| - 1], locked), rs[|rs| - 1];
      if r.user.Some? then init + [LockedRow(r.user, locked(r.user.value))] else init
  }

  function Refusals(pairs: seq<(Recipient, Verdict)>): seq<Outcome> {
    if pairs == [] then []
    else Refusals(pairs[..|pairs| - 1]) + [RefusalRow(pairs[|pairs| - 1].0.user, pairs[|pairs| - 1].1)]
  }

  lemma {:induction false} RefusalsOfRefused(policy: Policy, table: Table, q: Query, rs: seq<Recipient>)
    ensures RefusalRows(policy, table, q, rs) == Refusals(RefusedOf(policy, table, q, rs))
  {
    if rs != [] {
      var init, v := rs[..|rs| - 1], Rule(policy, table, q, rs[|rs| - 1]);
      RefusalsOfRefused(policy, table, q, init);
      if v != Allowed {
        var before, after := RefusedOf(policy, table, q, init), RefusedOf(policy, table, q, rs);
        assert after == before + [(rs[|rs| - 1], v)] && after[..|after| - 1] == before;
        assert Refusals(after) == Refusals(before) + [RefusalRow(rs[|rs| - 1].user, v)];
      }
    }
  }

  function Resolved(users: seq<User>): Resolution {
    Resolution(Chosen(users, |users|), Dropped(users, |users|))
  }

  /** One pass over the users with the set of chats seen so far. */
  method ResolveRecipients(users: seq<User>) returns (r: Resolution)
    ensures r == Resolved(users)
    ensures |r.recipients| + |r.filtered| == |users|
    ensures forall j, k :: 0 <= j < k < |r.recipients| ==> r.recipients[j].chat != r.recipients[k].chat
    ensures forall x :: x in r.recipients <==> exists i ::
              && 0 <= i < |users| && users[i].chat.Some? && users[i].enabled && users[i].unlocked
              && x == Recipient(users[i].chat.value, Some(users[i].id))
              && forall j :: 0 <= j < i && users[j].enabled && users[j].unlocked ==> users[j].chat != users[i].chat
  {
    var chosen: seq<Recipient>, dropped: seq<Outcome> := [], [];
    var seen: set<int> := {};
    for i := 0 to |users|
      invariant forall c :: c in seen <==> exists j :: 0 <= j < i && Reachable(users[j]) && users[j].chat == Some(c)
      invariant chosen == Chosen(users, i) && dropped == Dropped(users, i) && |chosen| + |dropped| == i
    {
      var u := users[i];
      if u.chat.None? {
        dropped := dropped + [Outcome(Some(u.id), Filtered, NotEligible("missing_telegram_chat"), false)];
      } else if !u.enabled {
        dropped := dropped + [Outcome(Some(u.id), Filtered, WatchlistDisabled, false)];
      } else if !u.unlocked {
        dropped := dropped + [Outcome(Some(u.id), Filtered, PremiumRequired, false)];
      } else if u.chat.value in seen {
        dropped := dropped + [Outcome(Some(u.id), Filtered, NotEligible("duplicate_chat_id"), false)];
      } else {
        seen := seen + {u.chat.value};
        chosen := chosen + [Recipient(u.chat.value, Some(u.id))];
      }
    }
    ChosenDistinct(users, |users|);
    forall x { ChosenExactly(users, x); }
    r := Resolution(chosen, dropped);
  }

  // ---------- the fan-out as a run of the delivery protocol

  /** A run of the protocol, and which of its workers serves a user of this event. */
  datatype Fanout = Fanout(policy: Policy, start: D.State, steps: seq<D.Step>, end: D.State, event: D.Job,
      worker: nat -> nat)
  {
    ghost predicate Possible() {
      DS.Reaches(policy, start, steps, end) && event.EventJob?
    }

    ghost predicate Serves(q: Query) {
      event.EventJob? && event.symbol == q.symbol && event.key == q.key && event.family == q.family
    }

    /** The user's worker is done, and this is the verdict it noted. */
    ghost predicate Reported(user: nat, verdict: D.Verdict) {
      && worker(user) in end.workers && end.workers[worker(user)].user == user
      && end.workers[worker(user)].job == event && end.workers[worker(user)].phase.Done?
      && exists k: nat ::
          k < |end.outcomes| && end.outcomes[k].worker == worker(user) && end.outcomes[k].verdict == verdict
    }

    ghost predicate Logged(user: nat) {
      O.LoggedBy(end, worker(user))
    }
  }

  /** Every recipient's worker got past the preflight and is done, with the verdict given. */
  ghost predicate Ended(run: Fanout, locked: nat -> D.Verdict, rs: seq<Recipient>) {
    forall r :: r in rs && r.user.Some? ==>
        run.Reported(r.user.value, locked(r.user.value)) && !locked(r.user.value).RepeatAtPreflight?
  }

  ghost function LoggedOf(run: Fanout, rs: seq<Recipient>): seq<Recipient> {
    if rs == [] then []
    else
      var init, r := LoggedOf(run, rs[..|rs| - 1]), rs[|rs| - 1];
      if r.user.Some? && run.Logged(r.user.value) then init + [r] else init
  }

  lemma {:induction false} LoggedSome(run: Fanout, rs: seq<Recipient>)
    ensures |LoggedOf(run, rs)| > 0 <==> exists r :: r in rs && r.user.Some? && run.Logged(r.user.value)
  {
    if rs != [] {
      LoggedSome(run, rs[..|rs| - 1]);
      assert rs == rs[..|rs| - 1] + [rs[|rs| - 1]];
    }
  }

  lemma EndedLogged(run: Fanout, locked: nat -> D.Verdict, rs: seq<Recipient>, r: Recipient)
    requires run.Possible() && Ended(run, locked, rs) && r in rs && r.user.Some?
    ensures locked(r.user.value).Delivered? <==> run.Logged(r.user.value)
  {
    var u := r.user.value;
    assert run.Reported(u, locked(u));
    var k: nat :| k < |run.end.outcomes| && run.end.outcomes[k].worker == run.worker(u)
        && run.end.outcomes[k].verdict == locked(u);
    O.DeliveredIffLogged(run.policy, run.start, run.steps, run.end, k);
  }

  /** Such verdicts exist, and are determined, for any run in which the workers are done. */
  lemma VerdictReported(run: Fanout, user: nat) returns (verdict: D.Verdict)
    requires run.Possible() && run.worker(user) in run.end.workers
    requires var w := run.end.workers[run.worker(user)]; w.user == user && w.job == run.event && w.phase.Done?
    ensures run.Reported(user, verdict)
    ensures forall other :: run.Reported(user, other) ==> other == verdict
  {
    O.OneOutcomePerWorker(run.policy, run.start, run.steps, run.end);
    var k: nat :| O.OneOutcome(run.end, run.worker(user), k);
    verdict := run.end.outcomes[k].verdict;
  }

  /** Conservation over runs: every loaded user has exactly one outcome row over all stages. It says
      delivered if and only if the user's worker logged a delivery; and similar event if and only if
      the event was found in cooldown, by the filter or, by a row still there, at the locked recheck. */
  lemma EveryUserOnce(run: Fanout, table: Table, q: Query, users: seq<User>, locked: nat -> D.Verdict, i: nat)
    requires run.Possible() && run.Serves(q)
        && Ended(run, locked, AllowedOf(run.policy, table, q, Chosen(users, |users|)))
    requires i < |users| && forall i, j :: 0 <= i < j < |users| ==> users[i].id != users[j].id
    ensures RowsFor(AllRows(run.policy, table, q, users, locked), Some(users[i].id)) == 1
    ensures var row, id, v := Expected(run.policy, table, q, users, locked, i), users[i].id, locked(users[i].id);
            var kept := Recipient(if users[i].chat.Some? then users[i].chat.value
                else 0, Some(id)) in AllowedOf(run.policy, table, q, Chosen(users, |users|));
            && row in AllRows(run.policy, table, q, users, locked) && row.user == Some(id)
            && (row.status == DeliveredStatus <==> kept && run.Logged(id))
            && (row.reason == SimilarEventSuppressed <==>
                  if kept then v.RepeatUnderLock?
                      && InCooldown(run.policy, run.end.table, id, q.symbol, q.key, q.family, v.at)
                  else Problem(users, i).None? && InCooldown(run.policy, table, id, q.symbol, q.key, q.family, q.now))
  {
    OneRowPerUser(run.policy, table, q, users, locked, i);
    RowsAreRight(run.policy, table, q, users, locked);
    RowPresent(AllRows(run.policy, table, q, users, locked), Some(users[i].id));
    UserKept(run.policy, table, q, users, i);
    var id, kept := users[i].id, AllowedOf(run.policy, table, q, Chosen(users, |users|));
    hide AllRows, AllowedOf, Chosen, Ended;
    if Problem(users, i).None? {
      var r := Recipient(users[i].chat.value, Some(id));
      if r in kept {
        EndedLogged(run, locked, kept, r);
        EndedMeans(run, locked, kept, r);
      }
    }
  }

  lemma {:induction false} RowPresent(rows: seq<Outcome>, x: Option<nat>)
    requires RowsFor(rows, x) > 0
    ensures exists o :: o in rows && o.user == x
  {
    if rows[|rows| - 1].user != x { RowPresent(rows[..|rows| - 1], x); }
  }

  lemma EndedMeans(run: Fanout, locked: nat -> D.Verdict, rs: seq<Recipient>, r: Recipient)
    requires run.Possible() && Ended(run, locked, rs) && r in rs && r.user.Some?
    ensures var u := r.user.value; var v := locked(u);
            && !v.RepeatAtPreflight?
            && (v.RepeatUnderLock? ==>
                v.previous in run.end.table && D.Forbids(run.policy, run.end.table[v.previous], u, run.event, v.at))
  {
    var u := r.user.value;
    assert run.Reported(u, locked(u));
    var k: nat :| k < |run.end.outcomes| && run.end.outcomes[k].worker == run.worker(u)
        && run.end.outcomes[k].verdict == locked(u);
    O.VerdictsMean(run.policy, run.start, run.steps, run.end, k);
  }

  lemma {:induction false} ChosenHas(users: seq<User>, n: nat, i: nat)
    requires i < n <= |users| && Problem(users, i).None?
    ensures Recipient(users[i].chat.value, Some(users[i].id)) in Chosen(users, n)
  {
    hide Problem;
    if i < n - 1 { ChosenHas(users, n - 1, i); }
  }

  lemma {:induction false} AllowedExactly(policy: Policy, table: Table, q: Query, rs: seq<Recipient>, r: Recipient)
    ensures r in AllowedOf(policy, table, q, rs) <==> r in rs && Rule(policy, table, q, r) == Allowed
  {
    hide Rule;
    if rs != [] {
      AllowedExactly(policy, table, q, rs[..|rs| - 1], r);
      assert rs == rs[..|rs| - 1] + [rs[|rs| - 1]];
    }
  }

  /** A user is kept exactly when nothing is wrong with it and the rule allows it. */
  lemma UserKept(policy: Policy, table: Table, q: Query, users: seq<User>, i: nat)
    requires i < |users| && forall i, j :: 0 <= i < j < |users| ==> users[i].id != users[j].id
    ensures var r := Recipient(if users[i].chat.Some? then users[i].chat.value else 0, Some(users[i].id));
            r in AllowedOf(policy, table, q, Chosen(users, |users|)) <==>
                Problem(users, i).None? && Rule(policy, table, q, r) == Allowed
  {
    var r := Recipient(if users[i].chat.Some? then users[i].chat.value else 0, Some(users[i].id));
    AllowedExactly(policy, table, q, Chosen(users, |users|), r);
    ChosenDistinct(users, |users|);
    hide Rule, AllowedOf;
    if r in Chosen(users, |users|) {
      var j :| 0 <= j < |users| && Problem(users, j).None? && r == Recipient(users[j].chat.value, Some(users[j].id));
      assert i == j;
    }
    if Problem(users, i).None? { ChosenHas(users, |users|, i); }
  }

  lemma KeptEligible(policy: Policy, table: Table, q: Query, rs: seq<Recipient>, job: D.Job, r: Recipient)
    requires r in AllowedOf(policy, table, q, rs) && r.user.Some?
    requires job.EventJob? && job.symbol == q.symbol && job.key == q.key && job.family == q.family
    ensures D.Eligible(policy, table, r.user.value, job, q.now, None)
  {
    AllowedExactly(policy, table, q, rs, r);
  }

  /** Such a fan-out is possible from the very table and clock the filter saw, whatever rows and users
      there are: every recipient it kept is served to the end. */
  lemma FanoutExists(policy: Policy, table: Table, q: Query, users: seq<User>, refId: nat, context: EventContext)
    returns (run: Fanout, locked: nat -> D.Verdict)
    requires DS.TableOk(D.State(q.now, table, map[], map[], [], [], []))
    ensures run.Possible() && run.Serves(q) && run.policy == policy && run.start.table == table
        && run.start.now == q.now
    ensures Ended(run, locked, AllowedOf(policy, table, q, Chosen(users, |users|)))
    ensures forall r :: r in AllowedOf(policy, table, q, Chosen(users, |users|)) && r.user.Some? ==>
              (locked(r.user.value).Delivered? <==> !R.SlotTaken(table, r.user.value, run.event))
  {
    var start := D.State(q.now, table, map[], map[], [], [], []);
    var job := D.EventJob(q.symbol, refId, q.key, q.family, context);
    var kept := AllowedOf(policy, table, q, Chosen(users, |users|));
    var ids := set r | r in kept && r.user.Some? :: r.user.value;
    forall u | u in ids ensures D.Eligible(policy, table, u, job, q.now, None) {
      var r :| r in kept && r.user == Some(u);
      KeptEligible(policy, table, q, Chosen(users, |users|), job, r);
    }
    hide D.Eligible, AllowedOf, Chosen, D.Run, R.SlotTaken, R.AllServed;
    var steps, s, verdicts := R.ServeAll(policy, start, ids, job);
    run := Fanout(policy, start, steps, s, job, u => u);
    locked := u => if u in verdicts then verdicts[u] else D.RepeatAtPreflight;
    forall r | r in kept && r.user.Some?
      ensures run.Reported(r.user.value, locked(r.user.value)) && !locked(r.user.value).RepeatAtPreflight?
      ensures locked(r.user.value).Delivered? <==> !R.SlotTaken(table, r.user.value, job)
    {
      assert r.user.value in ids;
      ServedReports(run, table, ids, verdicts, r.user.value);
    }
  }

  lemma ServedReports(run: Fanout, table: Table, users: set<nat>, verdicts: map<nat, D.Verdict>, u: nat)
    requires R.AllServed(table, run.end, users, run.event, verdicts) && u in users && run.worker(u) == u
    ensures run.Reported(u, verdicts[u]) && !verdicts[u].RepeatAtPreflight?
    ensures verdicts[u].Delivered? <==> !R.SlotTaken(table, u, run.event)
  {
    hide R.SlotTaken;
    var k: nat :| k < |run.end.outcomes| && run.end.outcomes[k] == D.Outcome(u, u, verdicts[u]);
  }

  class Dispatch {
    var outcomes: seq<Outcome>

    constructor ()
      ensures outcomes == []
    {
      outcomes := [];
    }

    /** The fan-out: each recipient writes the row its worker's run ended with, and counts as sent,
        skipped or failed; as sent exactly when its delivery was logged. */
    method DeliverAll(recipients: seq<Recipient>, locked: nat -> D.Verdict, ghost run: Fanout)
      returns (sent: nat, skipped: nat, failed: nat)
      requires forall r :: r in recipients ==> r.user.Some?
      requires run.Possible() && Ended(run, locked, recipients)
      modifies this
      ensures outcomes == old(outcomes) + LockedOf(recipients, locked)
      ensures sent == |LoggedOf(run, recipients)|
      ensures sent + skipped + failed == |recipients|
      ensures sent > 0 <==> exists r :: r in recipients && run.Logged(r.user.value)
    {
      hide LockedRow, O.LoggedBy, Ended;
      sent, skipped, failed := 0, 0, 0;
      assert recipients[..0] == [];
      for i := 0 to |recipients|
        invariant outcomes == old(outcomes) + LockedOf(recipients[..i], locked)
        invariant sent + skipped + failed == i && sent == |LoggedOf(run, recipients[..i])|
      {
        var r := recipients[i];
        assert r in recipients && recipients[..i + 1][..i] == recipients[..i];
        var v := locked(r.user.value);
        EndedLogged(run, locked, recipients, r);
        outcomes := outcomes + [LockedRow(r.user, v)];
        if v.Delivered? {
          sent := sent + 1;
        } else if v.Undelivered? {
          failed := failed + 1;
        } else {
          skipped := skipped + 1;
        }
      }
      assert recipients[..|recipients|] == recipients;
      LoggedSome(run, recipients);
    }

    method RecordRefusals(suppressed: seq<Suppressed>)
      modifies this
      ensures outcomes == old(outcomes) + Refusals(Names(suppressed))
    {
      for i := 0 to |suppressed|
        invariant outcomes == old(outcomes) + Refusals(Names(suppressed)[..i])
      {
        assert Names(suppressed)[..i + 1][..i] == Names(suppressed)[..i];
        outcomes := outcomes + [RefusalRow(suppressed[i].recipient.user, suppressed[i].verdict)];
      }
      assert Names(suppressed)[..|suppressed|] == Names(suppressed);
    }

    /** The rows of those filtered out, and the recipients. */
    method Resolve(users: seq<User>) returns (recipients: seq<Recipient>)
      modifies this
      ensures recipients == Chosen(users, |users|)
      ensures outcomes == old(outcomes) + Dropped(users, |users|)
    {
      hide Chosen, Dropped;
      var resolution := ResolveRecipients(users);
      recipients, outcomes := resolution.recipients, outcomes + resolution.filtered;
    }

    /** The preflight: refusals get their rows, the others go on. */
    method Preflight(policy: Policy, table: Table, q: Query, recipients: seq<Recipient>, contexts: seq<nat>,
        lastSent: map<nat, Option<int>>)
      returns (kept: seq<Recipient>, similar: nat, exact: nat)
      requires RecentContexts(policy, table, q, contexts)
      requires forall r :: r in recipients ==> r.user.Some? && Known(table, q.symbol, lastSent, r.user.value)
      modifies this
      ensures outcomes == old(outcomes) + RefusalRows(policy, table, q, recipients)
      ensures kept == AllowedOf(policy, table, q, recipients) && |kept| + similar + exact == |recipients|
      ensures if q.key == "" then similar == 0 else exact == 0
    {
      var suppressed;
      kept, suppressed, similar, exact := Filter(policy, table, q, recipients, contexts, lastSent);
      RefusalsOfRefused(policy, table, q, recipients);
      RecordRefusals(suppressed);
    }

    /** The whole dispatch of one event: resolve, preflight, deliver. It adds the rows of
        `AllRows`, about which `EveryUserOnce` and `RowsAreRight` speak, and, only when nobody
        reaches the lock, one more row about no recipient. */
    method Run(policy: Policy, table: Table, q: Query, users: seq<User>, contexts: seq<nat>,
        lastSent: map<nat, Option<int>>,
      locked: nat -> D.Verdict, ghost run: Fanout)
      requires RecentContexts(policy, table, q, contexts)
      requires forall u :: u in users ==> Known(table, q.symbol, lastSent, u.id)
      requires run.Possible() && run.policy == policy
          && Ended(run, locked, AllowedOf(policy, table, q, Chosen(users, |users|)))
      modifies this
      ensures var rows, kept := AllRows(policy, table, q, users, locked),
          AllowedOf(policy, table, q, Chosen(users, |users|));
              if kept != [] then outcomes == old(outcomes) + rows
              else outcomes == old(outcomes) + rows + [
                     if q.key != "" && exists u :: u in users && u.chat.Some? && u.enabled && u.unlocked
                     then Outcome(None, SuppressedStatus, SimilarEventSuppressed, false)
                     else Outcome(None, CooldownStatus, CooldownActive, false)]
    {
      hide AllowedOf, RefusalRows, LockedRows, LockedOf, Chosen, Dropped, RecentContexts, Known, Ended;
      ghost var before := outcomes;
      var recipients := Resolve(users);
      ghost var filtered := Dropped(users, |users|);
      RecipientsKnown(table, q.symbol, lastSent, users);
      var kept, similar, exact := Preflight(policy, table, q, recipients, contexts, lastSent);
      ghost var refused := RefusalRows(policy, table, q, recipients);
      assert outcomes == before + filtered + refused;
      if kept == [] {
        NobodyLocked(policy, table, q, users, locked);
        ChosenSome(users);
        var last := RefusalRow(None, if similar > exact then SimilarEvent else ExactCooldown);
        outcomes := outcomes + [last];
        assert outcomes == before + (filtered + refused) + [last];
      } else {
        AllowedAreRecipients(policy, table, q, recipients);
        LockedOfAllowed(policy, table, q, recipients, locked);
        var _, _, _ := DeliverAll(kept, locked, run);
        assert outcomes == before + (filtered + refused + LockedOf(kept, locked));
      }
    }
  }

  lemma ChosenSome(users: seq<User>)
    ensures Chosen(users, |users|) != [] <==> exists u :: u in users && u.chat.Some? && u.enabled && u.unlocked
  {
    if Chosen(users, |users|) != [] {
      var x := Chosen(users, |users|)[0];
      assert x in Chosen(users, |users|);
      ChosenExactly(users, x);
      var i :| 0 <= i < |users| && users[i].chat.Some? && users[i].enabled && users[i].unlocked;
      assert users[i] in users;
    }
    if u :| u in users && u.chat.Some? && u.enabled && u.unlocked {
      var i := FirstReachable(users, u);
      ChosenHas(users, |users|, i);
    }
  }

  lemma {:induction false} FirstReachable(users: seq<User>, u: User) returns (i: nat)
    requires u in users && u.chat.Some? && u.enabled && u.unlocked
    ensures i < |users| && Problem(users, i).None?
  {
    i := 0;
    while i < |users| && !Reachable(users[i])
      invariant forall j :: 0 <= j < i && j < |users| ==> !Reachable(users[j])
    {
      i := i + 1;
    }
  }

  lemma NobodyLocked(policy: Policy, table: Table, q: Query, users: seq<User>, locked: nat -> D.Verdict)
    requires AllowedOf(policy, table, q, Chosen(users, |users|)) == []
    ensures AllRows(policy, table, q, users, locked) == Dropped(users, |users|)
        + RefusalRows(policy, table, q, Chosen(users, |users|))
  {
    ChosenDistinct(users, |users|);
    LockedOfAllowed(policy, table, q, Chosen(users, |users|), locked);
  }

  /** The database's answer about one user. */
  ghost predicate Known(table: Table, symbol: string, lastSent: map<nat, Option<int>>, user: nat) {
    user in lastSent && LastSentAt(table, symbol, user, lastSent[user])
  }

  lemma RecipientsKnown(table: Table, symbol: string, lastSent: map<nat, Option<int>>, users: seq<User>)
    requires forall u :: u in users ==> Known(table, symbol, lastSent, u.id)
    ensures forall r :: r in Chosen(users, |users|) ==> r.user.Some? && Known(table, symbol, lastSent, r.user.value)
  {
    ChosenDistinct(users, |users|);
    forall r | r in Chosen(users, |users|) ensures r.user.Some? && Known(table, symbol, lastSent, r.user.value) {
      var i :| 0 <= i < |users| && Problem(users, i).None? && r == Recipient(users[i].chat.value, Some(users[i].id));
      assert users[i] in users;
    }
  }

  lemma {:induction false} AllowedAreRecipients(policy: Policy, table: Table, q: Query, rs: seq<Recipient>)
    ensures forall r :: r in AllowedOf(policy, table, q, rs) ==> r in rs
  {
    if rs != [] {
      AllowedAreRecipients(policy, table, q, rs[..|rs| - 1]);
      assert rs == rs[..|rs| - 1] + [rs[|rs| - 1]];
    }
  }
}
