/**
 * The cooldown audit of the ops agent (ops_agent/alert_similarity.py `_suppression_effectiveness`):
 * group analyses by coin and family (or event key), then scan each group's verified deliveries in
 * time order against the previous delivery to the same recipient.
 */
module Audit {
  import opened Prelude
  import opened TextOrder

  /** One delivery membership; absent or unusable references and times are None. */
  datatype Member = Member(recipient: Option<string>, alert: Option<string>, sentAt: Option<int>)

  datatype EvidenceRow = EvidenceRow(
    symbol: string,
    shouldAlert: bool,
    eventKey: string,
    family: string,
    sentCount: nat,
    members: seq<Member>)

  type Key = (string, string)

  datatype Hit = Hit(at: int, recipient: string, alert: string)

  datatype Tally = Tally(events: nat, delivered: nat, suppressed: nat, rows: seq<EvidenceRow>)

  function KeyOf(row: EvidenceRow): Key {
    (row.symbol, if row.family != "" then row.family else row.eventKey)
  }

  predicate Audited(row: EvidenceRow) {
    row.shouldAlert && row.eventKey != ""
  }

  predicate Verified(m: Member) {
    m.recipient.Some? && m.recipient.value != "" && m.alert.Some? && m.alert.value != "" && m.sentAt.Some?
  }

  function HitOf(m: Member): Hit
    requires Verified(m)
  {
    Hit(m.sentAt.value, m.recipient.value, m.alert.value)
  }

  // ---- grouping ---------------------------------------------------------------------------

  function Group(rows: seq<EvidenceRow>, key: Key): Tally {
    if rows == [] then Tally(0, 0, 0, [])
    else
      var t, row := Group(rows[..|rows| - 1], key), rows[|rows| - 1];
      if !Audited(row) || KeyOf(row) != key then t
      else if row.sentCount > 0 then t.(events := t.events + 1, delivered := t.delivered + 1, rows := t.rows + [row])
      else t.(events := t.events + 1, suppressed := t.suppressed + 1)
  }

  method Collect(rows: seq<EvidenceRow>) returns (groups: map<Key, Tally>)
    ensures forall key :: key in groups <==> Group(rows, key).events > 0
    ensures forall key :: key in groups ==> groups[key] == Group(rows, key)
  {
    groups := map[];
    for i := 0 to |rows|
      invariant forall key :: key in groups <==> Group(rows[..i], key).events > 0
      invariant forall key :: key in groups ==> groups[key] == Group(rows[..i], key)
      invariant forall key :: key !in groups ==> Group(rows[..i], key) == Tally(0, 0, 0, [])
    {
      var row := rows[i];
      assert rows[..i + 1][..i] == rows[..i];
      if Audited(row) {
        var key := KeyOf(row);
        var t := if key in groups then groups[key] else Tally(0, 0, 0, []);
        t := t.(events := t.events + 1);
        t := if row.sentCount > 0 then t.(delivered := t.delivered + 1, rows := t.rows + [row])
             else t.(suppressed := t.suppressed + 1);
        assert t == Group(rows[..i + 1], key);
        groups := groups[key := t];
      }
    }
    assert rows[..|rows|] == rows;
  }

  /** A group exists for a key some audited row carries, its rows are the delivered ones among
      them, and every audited row of the key is either delivered or counted as suppressed. */
  lemma {:induction false} GroupRows(rows: seq<EvidenceRow>, key: Key)
    ensures var t := Group(rows, key);
            && (forall row :: row in t.rows <==>
                  && row in rows && row.shouldAlert && row.eventKey != "" && row.sentCount > 0
                  && key == (row.symbol, if row.family != "" then row.family else row.eventKey))
            && (t.events > 0 <==> exists row ::
                  && row in rows && row.shouldAlert && row.eventKey != ""
                  && key == (row.symbol, if row.family != "" then row.family else row.eventKey))
            && t.events == t.delivered + t.suppressed && t.delivered == |t.rows|
  {
    if rows != [] {
      var init, row := rows[..|rows| - 1], rows[|rows| - 1];
      GroupRows(init, key);
      assert rows == init + [row];
    }
  }

  lemma InGroup(rows: seq<EvidenceRow>, key: Key)
    ensures forall row :: row in Group(rows, key).rows ==> row in rows && Audited(row) && KeyOf(row) == key
  {
    GroupRows(rows, key);
    hide Group;
  }

  // ---- the order-free definition ----------------------------------------------------------

  predicate HitLeq(a: Hit, b: Hit) {
    a.at < b.at || (a.at == b.at && (
      (a.recipient != b.recipient && TextLeq(a.recipient, b.recipient))
      || (a.recipient == b.recipient && TextLeq(a.alert, b.alert))))
  }

  /** Distinct alert references among a row's verified members. */
  function VerifiedAlerts(members: seq<Member>): set<string> {
    set m | m in members && Verified(m) :: m.alert.value
  }

  /** The verified members of one row; of several with the same alert, the first. */
  function RowHits(members: seq<Member>): seq<Hit> {
    if members == [] then []
    else
      var init, m := members[..|members| - 1], members[|members| - 1];
      RowHits(init) + if Verified(m) && m.alert.value !in VerifiedAlerts(init) then [HitOf(m)] else []
  }

  function HitsOf(rows: seq<EvidenceRow>): seq<Hit> {
    if rows == [] then [] else HitsOf(rows[..|rows| - 1]) + RowHits(rows[|rows| - 1].members)
  }

  lemma {:induction false} RowHitsVerified(members: seq<Member>)
    ensures forall h :: h in RowHits(members) ==> exists m :: m in members && Verified(m) && HitOf(m) == h
    ensures (forall m, n :: m in members && n in members && Verified(m) && Verified(n) && m.alert == n.alert ==> m == n)
            ==> forall m :: m in members && Verified(m) ==> HitOf(m) in RowHits(members)
  {
    if members != [] {
      var init, m := members[..|members| - 1], members[|members| - 1];
      RowHitsVerified(init);
      assert members == init + [m];
    }
  }

  /** Audited hits are verified members, and all of them when no row names an alert twice. */
  lemma {:induction false} HitsVerified(rows: seq<EvidenceRow>)
    ensures forall h :: h in HitsOf(rows) ==>
        exists row, m :: row in rows && m in row.members && Verified(m) && HitOf(m) == h
    ensures UniqueRefs(rows) ==> forall row, m :: row in rows && m in row.members && Verified(m) ==>
        HitOf(m) in HitsOf(rows)
  {
    if rows != [] {
      var init, row := rows[..|rows| - 1], rows[|rows| - 1];
      HitsVerified(init);
      RowHitsVerified(row.members);
      assert rows == init + [row];
    }
  }

  ghost predicate UniqueRefs(rows: seq<EvidenceRow>) {
    forall row, m, n ::
        row in rows && m in row.members && n in row.members && Verified(m) && Verified(n) && m.alert == n.alert ==>
        m == n
  }

  predicate SameDelivery(a: Hit, b: Hit) {
    a.recipient == b.recipient && a.alert == b.alert
  }

  /** Each (recipient, alert) pair counts once, at its earliest time. */
  function Kept(hits: set<Hit>): set<Hit> {
    set h | h in hits && forall g | g in hits && SameDelivery(g, h) :: h.at <= g.at
  }

  /** `h` follows an earlier delivery to its recipient by less than the cooldown. */
  predicate TooSoon(kept: set<Hit>, h: Hit, cooldown: int) {
    exists g :: g in kept && g != h && g.recipient == h.recipient && HitLeq(g, h) && h.at - g.at < cooldown
  }

  function Violations(kept: set<Hit>, cooldown: int): set<Hit> {
    set h | h in kept && TooSoon(kept, h, cooldown)
  }

  /** Same recipient, neighbours or not, at least the cooldown apart. */
  ghost predicate Spaced(kept: set<Hit>, cooldown: int) {
    forall g, h :: g in kept && h in kept && g != h && g.recipient == h.recipient && g.at <= h.at ==>
        h.at - g.at >= cooldown
  }

  lemma HitTotal(a: Hit, b: Hit)
    ensures HitLeq(a, b) || HitLeq(b, a)
    ensures HitLeq(a, b) && HitLeq(b, a) ==> a == b
  {
    TextTotal(a.recipient, b.recipient);
    TextTotal(a.alert, b.alert);
  }

  lemma HitTransitive(a: Hit, b: Hit, c: Hit)
    requires HitLeq(a, b) && HitLeq(b, c)
    ensures HitLeq(a, c)
  {
    if a.at == b.at && b.at == c.at {
      if a.recipient != b.recipient && b.recipient != c.recipient {
        TextTransitive(a.recipient, b.recipient, c.recipient);
        TextTotal(a.recipient, b.recipient);
      } else if a.recipient == b.recipient && b.recipient == c.recipient {
        TextTransitive(a.alert, b.alert, c.alert);
      }
    }
  }

  lemma ZeroIffSpaced(kept: set<Hit>, cooldown: int)
    requires cooldown > 0
    ensures |Violations(kept, cooldown)| == 0 <==> Spaced(kept, cooldown)
  {
    if Violations(kept, cooldown) == {} {
      forall g, h | g in kept && h in kept && g != h && g.recipient == h.recipient && g.at <= h.at
        ensures h.at - g.at >= cooldown
      {
        HitTotal(g, h);
        assert h !in Violations(kept, cooldown) && g !in Violations(kept, cooldown);
      }
    } else {
      var h :| h in Violations(kept, cooldown);
      assert TooSoon(kept, h, cooldown);
    }
  }

  // ---- the scan ---------------------------------------------------------------------------

  ghost predicate Sorted(s: seq<Hit>) {
    forall i, j :: 0 <= i < j < |s| ==> HitLeq(s[i], s[j])
  }

  function Elements(s: seq<Hit>): set<Hit> {
    set h | h in s
  }

  /** Python's `sorted` on the tuples. */
  method SortHits(s: seq<Hit>) returns (r: seq<Hit>)
    ensures Sorted(r) && Elements(r) == Elements(s)
  {
    r := [];
    for i := 0 to |s|
      invariant Sorted(r) && Elements(r) == Elements(s[..i])
    {
      var k := |r|;
      while k > 0 && !HitLeq(r[k - 1], s[i])
        invariant 0 <= k <= |r|
        invariant forall j :: k <= j < |r| ==> HitLeq(s[i], r[j])
      {
        HitTotal(r[k - 1], s[i]);
        k := k - 1;
      }
      ghost var before := r;
      r := InsertAt(r, k, s[i]);
      if k > 0 {
        forall j | 0 <= j < k ensures HitLeq(before[j], s[i]) {
          if j < k - 1 { HitTransitive(before[j], before[k - 1], s[i]); }
        }
      }
      assert s[..i + 1] == s[..i] + [s[i]];
    }
    assert s[..|s|] == s;
  }

  function InsertAt(s: seq<Hit>, k: nat, h: Hit): (r: seq<Hit>)
    requires k <= |s|
    ensures Elements(r) == Elements(s) + {h}
  {
    assert s == s[..k] + s[k..];
    s[..k] + [h] + s[k..]
  }

  ghost predicate Repeated(done: set<Hit>, h: Hit) {
    exists g :: g in done && SameDelivery(g, h)
  }

  /** `last` is the time of the latest kept delivery to `recipient`. */
  ghost predicate Latest(kept: set<Hit>, recipient: string, last: Option<int>) {
    match last
    case None => forall g :: g in kept ==> g.recipient != recipient
    case Some(at) => (exists g :: g in kept && g.recipient == recipient && g.at == at)
                     && forall g :: g in kept && g.recipient == recipient ==> g.at <= at
  }

  lemma RepeatChangesNothing(done: set<Hit>, h: Hit)
    requires forall g :: g in done ==> HitLeq(g, h)
    requires Repeated(done, h)
    ensures Kept(done + {h}) == Kept(done)
  {
  }

  /** A new pair, last in sort order, is a violation exactly when the latest delivery kept for its
      recipient is too close; what was counted before stays as it was. */
  lemma NewHit(done: set<Hit>, h: Hit, last: Option<int>, cooldown: int)
    requires forall g :: g in done ==> HitLeq(g, h)
    requires !Repeated(done, h) && Latest(Kept(done), h.recipient, last)
    ensures Kept(done + {h}) == Kept(done) + {h} && h !in Violations(Kept(done), cooldown)
    ensures Violations(Kept(done) + {h}, cooldown) ==
            Violations(Kept(done), cooldown) + if last.Some? && h.at - last.value < cooldown then {h} else {}
  {
    var kept := Kept(done);
    assert Kept(done + {h}) == kept + {h};
    forall x | x in kept ensures TooSoon(kept + {h}, x, cooldown) <==> TooSoon(kept, x, cooldown) {
      HitTotal(x, h);
    }
    if last.Some? {
      var g :| g in kept && g.recipient == h.recipient && g.at == last.value;
      assert g != h && g in kept + {h};
    }
    assert TooSoon(kept + {h}, h, cooldown) <==> last.Some? && h.at - last.value < cooldown;
  }

  function LookUp(previous: map<string, int>, r: string): Option<int> {
    if r in previous then Some(previous[r]) else None
  }

  ghost predicate AllLatest(kept: set<Hit>, previous: map<string, int>) {
    forall r :: Latest(kept, r, LookUp(previous, r))
  }

  lemma Advance(kept: set<Hit>, h: Hit, previous: map<string, int>, next: map<string, int>)
    requires AllLatest(kept, previous) && next == previous[h.recipient := h.at]
    requires forall g :: g in kept ==> g.at <= h.at
    ensures AllLatest(kept + {h}, next)
  {
    forall r ensures Latest(kept + {h}, r, LookUp(next, r)) {
      assert Latest(kept, r, LookUp(previous, r));
      if r == h.recipient { assert h in kept + {h}; }
    }
  }

  lemma LatestOf(done: set<Hit>, h: Hit, previous: map<string, int>)
    requires AllLatest(Kept(done), previous) && forall g :: g in done ==> HitLeq(g, h)
    ensures Latest(Kept(done), h.recipient, LookUp(previous, h.recipient))
    ensures forall g :: g in Kept(done) ==> g.at <= h.at
  {
  }

  function PairsOf(hits: set<Hit>): set<(string, string)> {
    set g | g in hits :: (g.recipient, g.alert)
  }

  lemma PairsStep(done: set<Hit>, h: Hit)
    ensures PairsOf(done + {h}) == PairsOf(done) + {(h.recipient, h.alert)}
    ensures (h.recipient, h.alert) in PairsOf(done) <==> Repeated(done, h)
  {
  }

  lemma PrefixStep(order: seq<Hit>, i: nat)
    requires Sorted(order) && i < |order|
    ensures Elements(order[..i + 1]) == Elements(order[..i]) + {order[i]}
    ensures forall g :: g in Elements(order[..i]) ==> HitLeq(g, order[i])
  {
  }

  method Scan(hits: seq<Hit>, cooldown: int) returns (candidates: nat)
    ensures candidates == if cooldown > 0 then |Violations(Kept(Elements(hits)), cooldown)| else 0
  {
    var order := SortHits(hits);
    var previous: map<string, int> := map[];
    var seen: set<(string, string)> := {};
    candidates := 0;
    ghost var done: set<Hit> := {};
    for i := 0 to |order|
      invariant done == Elements(order[..i])
      invariant seen == PairsOf(done)
      invariant AllLatest(Kept(done), previous)
      invariant candidates == if cooldown > 0 then |Violations(Kept(done), cooldown)| else 0
    {
      PrefixStep(order, i);
      candidates, previous, seen := ScanOne(done, order[i], cooldown, candidates, previous, seen);
      done := done + {order[i]};
    }
    assert order[..|order|] == order;
  }

  /** The body of the scan, for one delivery in sort order. */
  method ScanOne(ghost done: set<Hit>, h: Hit, cooldown: int, count: nat, previous: map<string, int>,
      seen: set<(string, string)>)
    returns (count': nat, previous': map<string, int>, seen': set<(string, string)>)
    requires forall g :: g in done ==> HitLeq(g, h)
    requires seen == PairsOf(done)
    requires AllLatest(Kept(done), previous)
    requires count == if cooldown > 0 then |Violations(Kept(done), cooldown)| else 0
    ensures seen' == PairsOf(done + {h})
    ensures AllLatest(Kept(done + {h}), previous')
    ensures count' == if cooldown > 0 then |Violations(Kept(done + {h}), cooldown)| else 0
  {
    hide HitLeq, Kept, Violations, PairsOf, AllLatest, Latest, Repeated;
    count', previous', seen' := count, previous, seen;
    PairsStep(done, h);
    if (h.recipient, h.alert) in seen {
      RepeatChangesNothing(done, h);
      return;
    }
    seen' := seen + {(h.recipient, h.alert)};
    var last := LookUp(previous, h.recipient);
    LatestOf(done, h, previous);
    NewHit(done, h, last, cooldown);
    if last.Some? && cooldown > 0 && h.at - last.value < cooldown {
      count' := count + 1;
    }
    previous' := previous[h.recipient := h.at];
    Advance(Kept(done), h, previous, previous');
  }

  function Unverified(rows: seq<EvidenceRow>): nat {
    if rows == [] then 0
    else
      var row, n := rows[|rows| - 1], Unverified(rows[..|rows| - 1]);
      n + if row.sentCount > |VerifiedAlerts(row.members)| then row.sentCount - |VerifiedAlerts(row.members)| else 0
  }

  method RowScan(members: seq<Member>) returns (hits: seq<Hit>, seen: set<string>)
    ensures hits == RowHits(members) && seen == VerifiedAlerts(members)
  {
    hits, seen := [], {};
    for j := 0 to |members|
      invariant hits == RowHits(members[..j]) && seen == VerifiedAlerts(members[..j])
    {
      var m := members[j];
      assert members[..j + 1] == members[..j] + [m] && members[..j + 1][..j] == members[..j];
      if Verified(m) && m.alert.value !in seen {
        seen := seen + {m.alert.value};
        hits := hits + [HitOf(m)];
      }
    }
    assert members[..|members|] == members;
  }

  /** One group: the members with a recipient, an alert and a time, one per alert and row, then
      the scan. */
  method AuditGroup(rows: seq<EvidenceRow>, cooldown: int) returns (candidates: nat, unverified: nat)
    ensures candidates == if cooldown > 0 then |Violations(Kept(Elements(HitsOf(rows))), cooldown)| else 0
    ensures unverified == Unverified(rows)
  {
    var delivered: seq<Hit> := [];
    unverified := 0;
    for i := 0 to |rows|
      invariant delivered == HitsOf(rows[..i])
      invariant unverified == Unverified(rows[..i])
    {
      assert rows[..i + 1][..i] == rows[..i];
      var hits, seen := RowScan(rows[i].members);
      delivered := delivered + hits;
      unverified := unverified + if rows[i].sentCount > |seen| then rows[i].sentCount - |seen| else 0;
    }
    assert rows[..|rows|] == rows;
    candidates := Scan(delivered, cooldown);
  }

  /** What lowers the audit's confidence, row by row: of the sends a row counts, those beyond its distinct
      alerts that a recipient, an alert reference and a time come with. */
  lemma {:induction false} UnverifiedAdds(a: seq<EvidenceRow>, b: seq<EvidenceRow>)
    ensures Unverified(a + b) == Unverified(a) + Unverified(b)
  {
    if b == [] {
      assert a + b == a;
    } else {
      assert (a + b)[..|a + b| - 1] == a + b[..|b| - 1];
      UnverifiedAdds(a, b[..|b| - 1]);
    }
  }

  lemma UnverifiedRow(row: EvidenceRow, alerts: set<string>)
    requires forall x :: x in alerts <==> exists m ::
               m in row.members && m.recipient.Some? && m.recipient.value != "" && m.sentAt.Some?
               && m.alert == Some(x) && x != ""
    ensures Unverified([row]) == if row.sentCount > |alerts| then row.sentCount - |alerts| else 0
  {
    assert [row][..0] == [];
    assert VerifiedAlerts(row.members) == alerts by {
      forall x ensures x in VerifiedAlerts(row.members) <==> x in alerts {
        if x in alerts {
          var m :| m in row.members && m.recipient.Some? && m.recipient.value != "" && m.sentAt.Some?
            && m.alert == Some(x) && x != "";
          assert Verified(m) && m.alert.value == x;
        }
      }
    }
  }

  /** A row of the group names a delivery of `alert` to `recipient` at that time. */
  ghost predicate Names(rows: seq<EvidenceRow>, recipient: string, alert: string, at: int) {
    recipient != "" && alert != ""
    && exists row :: row in rows && Member(Some(recipient), Some(alert), Some(at)) in row.members
  }

  /** And none at an earlier one. */
  ghost predicate FirstNamed(rows: seq<EvidenceRow>, recipient: string, alert: string, at: int) {
    Names(rows, recipient, alert, at) && forall t :: Names(rows, recipient, alert, t) ==> at <= t
  }

  lemma HitsNamed(rows: seq<EvidenceRow>, h: Hit)
    requires UniqueRefs(rows)
    ensures h in Elements(HitsOf(rows)) <==> Names(rows, h.recipient, h.alert, h.at)
  {
    HitsVerified(rows);
    var m := Member(Some(h.recipient), Some(h.alert), Some(h.at));
    if h in HitsOf(rows) {
      var row, n :| row in rows && n in row.members && Verified(n) && HitOf(n) == h;
      assert n == m;
    }
    if Names(rows, h.recipient, h.alert, h.at) {
      assert Verified(m) && HitOf(m) == h;
    }
  }

  lemma KeptNamed(rows: seq<EvidenceRow>, h: Hit)
    requires UniqueRefs(rows)
    ensures h in Kept(Elements(HitsOf(rows))) <==> FirstNamed(rows, h.recipient, h.alert, h.at)
  {
    hide HitsOf, Elements, Names;
    forall t ensures Hit(t, h.recipient, h.alert) in Elements(HitsOf(rows)) <==> Names(rows, h.recipient, h.alert, t) {
      HitsNamed(rows, Hit(t, h.recipient, h.alert));
    }
    forall g | g in Elements(HitsOf(rows)) && SameDelivery(g, h) ensures g == Hit(g.at, h.recipient, h.alert) {}
  }

  /** A group whose rows name each alert once has no candidate if and only if any two alerts to one
      recipient are a cooldown apart, each taken at the earliest time it is named with. */
  lemma SilentIff(rows: seq<EvidenceRow>, cooldown: int)
    requires UniqueRefs(rows) && cooldown > 0
    ensures |Violations(Kept(Elements(HitsOf(rows))), cooldown)| == 0 <==>
              forall recipient, a, b, at, bt ::
                a != b && FirstNamed(rows, recipient, a, at) && FirstNamed(rows, recipient, b, bt) && at <= bt
                ==> bt - at >= cooldown
  {
    var kept := Kept(Elements(HitsOf(rows)));
    ZeroIffSpaced(kept, cooldown);
    forall h: Hit { KeptNamed(rows, h); }
    hide HitsOf, Elements, Kept, Violations, FirstNamed;
    if Spaced(kept, cooldown) {
      forall recipient, a, b, at, bt |
        a != b && FirstNamed(rows, recipient, a, at) && FirstNamed(rows, recipient, b, bt) && at <= bt
        ensures bt - at >= cooldown
      {
        assert Hit(at, recipient, a) in kept && Hit(bt, recipient, b) in kept;
      }
    } else {
      var g, h :| g in kept && h in kept && g != h && g.recipient == h.recipient && g.at <= h.at
          && h.at - g.at < cooldown;
      OneTime(rows, g, h);
      assert FirstNamed(rows, g.recipient, g.alert, g.at) && FirstNamed(rows, g.recipient, h.alert, h.at);
    }
  }

  lemma OneTime(rows: seq<EvidenceRow>, g: Hit, h: Hit)
    requires FirstNamed(rows, g.recipient, g.alert, g.at) && FirstNamed(rows, h.recipient, h.alert, h.at)
    ensures g.recipient == h.recipient && g.alert == h.alert ==> g == h
  {
  }
}
