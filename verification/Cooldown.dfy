/**
 * The per-recipient cooldown filter, used in bulk before delivery and again, for one
 * recipient, under the delivery lock (bot/alerts.py `_filter_event_recipients_for_cooldown`).
 */
module Cooldown {
  import opened Prelude
  import opened AlertTable

  datatype Recipient = Recipient(chat: int, user: Option<nat>)

  datatype Verdict = Allowed | SimilarEvent | ExactCooldown

  datatype Suppressed = Suppressed(recipient: Recipient, verdict: Verdict, previous: Option<nat>)

  /** One filter call: the event's identity, the plain cooldown, and the clock it is given. */
  datatype Query = Query(symbol: string, key: string, family: Option<string>, plainCooldown: int, highUrgency: bool,
      now: int)
  {
    function Effective(): int {
      if highUrgency && plainCooldown > 1800 * SECOND then 1800 * SECOND else plainCooldown
    }
  }

  predicate Recent(policy: Policy, table: Table, q: Query, id: nat) {
    id in table && table[id].symbol == q.symbol && table[id].kind == EventAlert && table[id].status == Sent
    && table[id].SentTime() >= q.now - policy.cooldown
  }

  predicate Newer(table: Table, a: nat, b: nat)
    requires a in table && b in table
  {
    table[a].SentTime() > table[b].SentTime() || (table[a].SentTime() == table[b].SentTime() && a > b)
  }

  /** Contract of `get_recent_sent_event_alert_contexts`: every sent Event Alert of the coin in
      the window, newest first. (Rows of users nobody asked about are never read.) */
  ghost predicate RecentContexts(policy: Policy, table: Table, q: Query, contexts: seq<nat>) {
    (forall k :: 0 <= k < |contexts| ==> Recent(policy, table, q, contexts[k]))
    && (forall id :: Recent(policy, table, q, id) ==> id in contexts)
    && (forall j, k :: 0 <= j < k < |contexts| ==>
        contexts[j] in table && contexts[k] in table && Newer(table, contexts[j], contexts[k]))
  }

  /** Contract of `get_last_sent_alert_at`: the latest `sent_at` of the user's Event Alerts. */
  ghost predicate LastSentAt(table: Table, symbol: string, user: nat, last: Option<int>) {
    match last
    case None => forall id :: id in table && SentTo(table[id], user, symbol, EventAlert) ==> table[id].sentAt.None?
    case Some(at) =>
      (exists id :: id in table && SentTo(table[id], user, symbol, EventAlert) && table[id].sentAt == Some(at))
      && forall id :: id in table && SentTo(table[id], user, symbol, EventAlert) && table[id].sentAt.Some? ==>
          table[id].sentAt.value <= at
  }

  /** What the product rule says of one recipient, without the scan. */
  ghost function Rule(policy: Policy, table: Table, q: Query, r: Recipient): Verdict {
    if r.user.None? then Allowed
    else if InCooldown(policy, table, r.user.value, q.symbol, q.key, q.family, q.now) then SimilarEvent
    else if q.key == "" && exists id :: id in table && SentTo(table[id], r.user.value, q.symbol, EventAlert)
                                       && table[id].sentAt.Some? && q.now - table[id].sentAt.value < q.Effective()
                                       && q.Effective() > 0
    then ExactCooldown
    else Allowed
  }

  predicate Repeats(policy: Policy, table: Table, q: Query, user: nat, id: nat) {
    id in table && table[id].user == user
        && Matches(policy, table[id], q.key, CurrentFamily(policy, q.symbol, q.key, q.family))
  }

  /** The scan stops at the first context that repeats the event; being newest first, that one
      decides for all of them. */
  method NewestRepeat(policy: Policy, table: Table, q: Query, contexts: seq<nat>, user: nat) returns (hit: Option<nat>)
    requires RecentContexts(policy, table, q, contexts)
    requires q.key != "" && policy.cooldown > 0
    ensures hit.Some? ==> Repeats(policy, table, q, user, hit.value) && hit.value in contexts
    ensures InCooldown(policy, table, user, q.symbol, q.key, q.family, q.now)
            <==> hit.Some? && q.now - table[hit.value].SentTime() < policy.cooldown
  {
    var k := 0;
    while k < |contexts|
      invariant 0 <= k <= |contexts|
      invariant forall j :: 0 <= j < k ==> !Repeats(policy, table, q, user, contexts[j])
    {
      if Repeats(policy, table, q, user, contexts[k]) {
        forall id | Repeats(policy, table, q, user, id) && SentTo(table[id], user, q.symbol, EventAlert)
                    && q.now - table[id].SentTime() < policy.cooldown
          ensures table[id].SentTime() <= table[contexts[k]].SentTime()
        {
          assert Recent(policy, table, q, id);
          assert id in contexts && id !in contexts[..k];
        }
        return Some(contexts[k]);
      }
      k := k + 1;
    }
    forall id | Repeats(policy, table, q, user, id) && SentTo(table[id], user, q.symbol, EventAlert)
      ensures q.now - table[id].SentTime() >= policy.cooldown
    {
      assert id !in contexts;
      assert !Recent(policy, table, q, id);
    }
    return None;
  }

  ghost function AllowedOf(policy: Policy, table: Table, q: Query, rs: seq<Recipient>): seq<Recipient> {
    if rs == [] then []
    else
      var init, r := AllowedOf(policy, table, q, rs[..|rs| - 1]), rs[|rs| - 1];
      if Rule(policy, table, q, r) == Allowed then init + [r] else init
  }

  ghost function RefusedOf(policy: Policy, table: Table, q: Query, rs: seq<Recipient>): seq<(Recipient, Verdict)> {
    if rs == [] then []
    else
      var init, r := RefusedOf(policy, table, q, rs[..|rs| - 1]), rs[|rs| - 1];
      if Rule(policy, table, q, r) == Allowed then init else init + [(r, Rule(policy, table, q, r))]
  }

  /** The recipients the rule allows, and the others with its reasons. */
  ghost function Filtered(policy: Policy, table: Table, q: Query, rs: seq<Recipient>):
    (seq<Recipient>, seq<(Recipient, Verdict)>)
  {
    (AllowedOf(policy, table, q, rs), RefusedOf(policy, table, q, rs))
  }

  function Names(s: seq<Suppressed>): (r: seq<(Recipient, Verdict)>)
    ensures |r| == |s|
  {
    seq(|s|, i requires 0 <= i < |s| => (s[i].recipient, s[i].verdict))
  }

  /** The filter keeps exactly the recipients the rule allows, in order, gives every other one a
      refusal with the rule's reason, and its two counters add up to the refusals. */
  method Filter(policy: Policy, table: Table, q: Query, recipients: seq<Recipient>, contexts: seq<nat>,
      lastSent: map<nat, Option<int>>)
    returns (kept: seq<Recipient>, suppressed: seq<Suppressed>, similar: nat, exact: nat)
    requires RecentContexts(policy, table, q, contexts)
    requires forall r :: r in recipients && r.user.Some? ==>
        r.user.value in lastSent && LastSentAt(table, q.symbol, r.user.value, lastSent[r.user.value])
    ensures (kept, Names(suppressed)) == Filtered(policy, table, q, recipients)
    ensures similar == (if q.key == "" then 0 else |suppressed|) && exact == |suppressed| - similar
    ensures |kept| + |suppressed| == |recipients|
    ensures forall s :: s in suppressed && s.verdict == SimilarEvent ==>
              s.previous.Some? && s.recipient.user.Some?
                  && Repeats(policy, table, q, s.recipient.user.value, s.previous.value)
  {
    hide Repeats, RecentContexts, Matches, CurrentFamily;
    kept, suppressed, similar, exact := [], [], 0, 0;
    for i := 0 to |recipients|
      invariant kept == AllowedOf(policy, table, q, recipients[..i])
      invariant Names(suppressed) == RefusedOf(policy, table, q, recipients[..i])
      invariant similar + exact == |suppressed| && |kept| + |suppressed| == i
      invariant if q.key == "" then similar == 0 else exact == 0
      invariant forall s :: s in suppressed && s.verdict == SimilarEvent ==>
                  s.previous.Some? && s.recipient.user.Some?
                      && Repeats(policy, table, q, s.recipient.user.value, s.previous.value)
    {
      var r := recipients[i];
      assert recipients[..i + 1][..i] == recipients[..i];
      var hit: Option<nat>, verdict := None, Allowed;
      if r.user.Some? && q.key != "" && policy.cooldown > 0 {
        hit := NewestRepeat(policy, table, q, contexts, r.user.value);
        if hit.Some? && q.now - table[hit.value].SentTime() < policy.cooldown {
          verdict := SimilarEvent;
        }
      }
      if r.user.Some? && verdict == Allowed && q.key == "" && q.Effective() > 0 {
        var last := lastSent[r.user.value];
        if last.Some? && q.now - last.value < q.Effective() {
          verdict := ExactCooldown;
        }
      }
      assert verdict == Rule(policy, table, q, r);
      if verdict == Allowed {
        kept := kept + [r];
      } else {
        if verdict == SimilarEvent { similar := similar + 1; } else { exact := exact + 1; }
        suppressed := suppressed + [Suppressed(r, verdict, hit)];
      }
    }
    assert recipients[..|recipients|] == recipients;
  }

  /** Newest first matters: with the same rows oldest first, the scan would stop at a row exactly
      one cooldown old and let a younger repeat through. */
  lemma OldestFirstWouldAllow(policy: Policy, key: string)
    requires key != "" && policy.cooldown > 0
    ensures exists table: Table, q: Query ::
              && q.key == key && Recent(policy, table, q, 0) && Recent(policy, table, q, 1)
              && Repeats(policy, table, q, 7, 0) && Newer(table, 1, 0)
              && q.now - table[0].SentTime() >= policy.cooldown
              && InCooldown(policy, table, 7, q.symbol, q.key, q.family, q.now)
  {
    var context := EventContext(Some(key), None, NoMove);
    var first := AlertRow(7, "BTC", EventAlert, 0, Sent, 0, Some(0), false, context, None);
    var young := first.(refId := 1, sentAt := Some(policy.cooldown));
    var table: Table := map[0 := first, 1 := young];
    var q := Query("BTC", key, None, 0, false, policy.cooldown);
    assert SentTo(table[1], 7, "BTC", EventAlert);
    assert Recent(policy, table, q, 0) && Recent(policy, table, q, 1);
  }
}
