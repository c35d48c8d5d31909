/**
 * Protocol and audit together: for which events is a log the protocol can produce always one the
 * audit calls clean?
 *
 * The recheck compares an event with the *resolved* family of an earlier delivery. The audit groups
 * by the family, or else the key, that the export gives a whole event, and that is the label of one
 * of its checks: the same event can be delivered without a family and, reused, with one. So the
 * answer depends on the events served.
 */
module EndToEnd {
  import opened Prelude
  import opened AlertTable
  import opened Delivery
  import opened DeliverySafety
  import opened DeliveryRuns
  import Audit

  /** Bundle-local references of recipients and alerts (HMAC, taken as injective). */
  datatype Refs = Refs(user: nat -> string, alert: nat -> string)

  ghost predicate Injective(refs: Refs) {
    && (forall a, b :: refs.user(a) == refs.user(b) ==> a == b)
    && (forall a, b :: refs.alert(a) == refs.alert(b) ==> a == b)
    && (forall a :: refs.user(a) != "" && refs.alert(a) != "")
  }

  function FamilyText(job: Job): string
    requires job.EventJob?
  {
    var f := FirstOf(job.family, job.context.contextFamily);
    if f.Some? then f.value else ""
  }

  function KeyText(job: Job): string
    requires job.EventJob?
  {
    if job.context.eventKey.Some? then job.context.eventKey.value else ""
  }

  /** The audit group a delivery of `job` puts its event in; events without a key are not audited. */
  function AuditKey(job: Job): Audit.Key
    requires job.EventJob?
  {
    (job.symbol, if FamilyText(job) != "" then FamilyText(job) else KeyText(job))
  }

  /** Checks of one stored market event. */
  predicate SameEvent(a: Job, b: Job) {
    a.EventJob? && b.EventJob? && a.symbol == b.symbol && a.refId == b.refId
  }

  /** The export labels an event's row by one of the event's checks, its latest. */
  ghost predicate Labels(s: State, row: Audit.EvidenceRow, k: Job) {
    && k.EventJob? && row.symbol == k.symbol && row.eventKey == KeyText(k) && row.family == FamilyText(k)
    && exists w :: w in s.workers && s.workers[w].job == k
  }

  /** A verified member stands for a logged delivery of the event: its references, and a time no
      earlier than the recheck and no later than the recording. */
  ghost predicate Shows(refs: Refs, s: State, k: Job, m: Audit.Member, j: nat)
    requires Audit.Verified(m)
  {
    j < |s.log| && SameEvent(s.log[j].job, k)
    && m.recipient.value == refs.user(s.log[j].user) && m.alert.value == refs.alert(s.log[j].row)
    && s.log[j].clearedAt <= m.sentAt.value <= s.log[j].sentAt
  }

  /** Whatever check gave a row its label, its members are deliveries of that check's event. */
  ghost predicate Evidence(refs: Refs, s: State, rows: seq<Audit.EvidenceRow>) {
    forall row, m :: row in rows && m in row.members && Audit.Verified(m) ==>
      exists k, j :: Labels(s, row, k) && Shows(refs, s, k, m, j)
  }

  ghost predicate Clean(rows: seq<Audit.EvidenceRow>, cooldown: int) {
    forall key :: Audit.Violations(Audit.Kept(Audit.Elements(Audit.HitsOf(Audit.Group(rows, key).rows))),
        cooldown) == {}
  }

  /** The row a delivery of `job` leaves behind; its worker may have died before the outcome row. */
  function Stored(job: Job, saved: bool): AlertRow
    requires job.EventJob?
  {
    AlertRow(0, job.symbol, EventAlert, job.refId, Sent, 0, Some(0), false, job.context,
      if saved then job.family else None)
  }

  predicate Suppresses(policy: Policy, prior: Job, saved: bool, current: Job)
    requires prior.EventJob? && current.EventJob?
  {
    && current.key != ""
    && Matches(policy, Stored(prior, saved), current.key,
        CurrentFamily(policy, current.symbol, current.key, current.family))
  }

  /** Checks `k` and `l` of two events give these the same label. */
  predicate SameLabel(k: Job, l: Job) {
    k.EventJob? && l.EventJob? && KeyText(k) != "" && KeyText(l) != "" && AuditKey(k) == AuditKey(l)
  }

  /** Checks of different events that the audit can put in one group. */
  ghost predicate Comparable(jobs: set<Job>, a: Job, b: Job) {
    && a.EventJob? && b.EventJob? && a.refId != b.refId
    && exists k, l :: k in jobs && l in jobs && SameEvent(k, a) && SameEvent(l, b) && SameLabel(k, l)
  }

  /** Of any two comparable checks served, each suppresses the other. */
  ghost predicate Coherent(policy: Policy, jobs: set<Job>) {
    forall a, b, saved :: a in jobs && b in jobs && Comparable(jobs, a, b) ==> Suppresses(policy, a, saved, b)
  }

  ghost predicate Serves(s: State, jobs: set<Job>) {
    && (forall j :: 0 <= j < |s.log| && s.log[j].job.EventJob? ==> s.log[j].job in jobs)
    && (forall w :: w in s.workers && s.workers[w].job.EventJob? ==> s.workers[w].job in jobs)
  }

  /** Over coherent events, whatever the run: comparable logged deliveries to one user are spaced. */
  lemma CoherentSpacing(policy: Policy, jobs: set<Job>, start: State, steps: seq<Step>, s: State, i: nat, j: nat)
    requires Reaches(policy, start, steps, s) && policy.cooldown > 0
    requires Coherent(policy, jobs) && Serves(s, jobs)
    requires i < j < |s.log| && s.log[i].job.EventJob? && s.log[j].job.EventJob?
    requires s.log[i].user == s.log[j].user && s.log[i].job.symbol == s.log[j].job.symbol
    requires s.log[i].job.refId != s.log[j].job.refId ==> Comparable(jobs, s.log[i].job, s.log[j].job)
    ensures s.log[j].clearedAt - s.log[i].sentAt >= policy.cooldown
  {
    StartInv(policy, start);
    RunKeepsInv(policy, start, steps);
    assert LoggedOk(policy, s, i) && LoggedOk(policy, s, j);
    var a, b, row := s.log[i].job, s.log[j].job, s.table[s.log[i].row];
    assert !SameSlot(row, s.table[s.log[j].row]);
    hide Comparable;
    var saved := row.outcomeFamily.Some?;
    assert Suppresses(policy, a, saved, b);
    assert ResolvedFamily(policy, row) == ResolvedFamily(policy, Stored(a, saved));
    StrictCooldown(policy, start, steps, s, j, s.log[i].row);
  }

  lemma HitsSpaced(policy: Policy, refs: Refs, jobs: set<Job>, start: State, steps: seq<Step>, s: State,
                   rowG: Audit.EvidenceRow, m: Audit.Member, rowH: Audit.EvidenceRow, n: Audit.Member)
    requires Reaches(policy, start, steps, s) && policy.cooldown > 0 && Injective(refs)
    requires Coherent(policy, jobs) && Serves(s, jobs)
    requires Audit.Audited(rowG) && Audit.Audited(rowH) && Audit.KeyOf(rowG) == Audit.KeyOf(rowH)
    requires Audit.Verified(m) && Audit.Verified(n) && m.recipient == n.recipient && m.alert != n.alert
    requires m.sentAt.value <= n.sentAt.value
    requires exists k, i :: Labels(s, rowG, k) && Shows(refs, s, k, m, i)
    requires exists l, j :: Labels(s, rowH, l) && Shows(refs, s, l, n, j)
    ensures n.sentAt.value - m.sentAt.value >= policy.cooldown
  {
    var k, i: nat :| Labels(s, rowG, k) && Shows(refs, s, k, m, i);
    var l, j: nat :| Labels(s, rowH, l) && Shows(refs, s, l, n, j);
    assert SameLabel(k, l) && SameLabel(l, k);
    assert k in jobs && l in jobs;
    hide Reaches, Coherent, Serves;
    if i < j {
      CoherentSpacing(policy, jobs, start, steps, s, i, j);
    } else {
      assert j < i;
      CoherentSpacing(policy, jobs, start, steps, s, j, i);
    }
  }

  lemma GroupSpaced(policy: Policy, refs: Refs, jobs: set<Job>, start: State, steps: seq<Step>, s: State,
      rows: seq<Audit.EvidenceRow>, key: Audit.Key)
    requires Reaches(policy, start, steps, s) && policy.cooldown > 0 && Injective(refs)
    requires Coherent(policy, jobs) && Serves(s, jobs) && Evidence(refs, s, rows)
    ensures Audit.Spaced(Audit.Kept(Audit.Elements(Audit.HitsOf(Audit.Group(rows, key).rows))), policy.cooldown)
  {
    hide Reaches, Coherent, Serves, Injective, Labels, Shows, Audit.Group, Audit.HitsOf, Audit.Audited, Audit.KeyOf;
    var group := Audit.Group(rows, key).rows;
    var kept := Audit.Kept(Audit.Elements(Audit.HitsOf(group)));
    Audit.InGroup(rows, key);
    Audit.HitsVerified(group);
    forall g, h | g in kept && h in kept && g != h && g.recipient == h.recipient && g.at <= h.at
      ensures h.at - g.at >= policy.cooldown
    {
      assert !Audit.SameDelivery(g, h);
      var rowG, m :| rowG in group && m in rowG.members && Audit.Verified(m) && Audit.HitOf(m) == g;
      var rowH, n :| rowH in group && n in rowH.members && Audit.Verified(n) && Audit.HitOf(n) == h;
      HitsSpaced(policy, refs, jobs, start, steps, s, rowG, m, rowH, n);
    }
  }

  lemma CoherentIsClean(policy: Policy, refs: Refs, jobs: set<Job>, start: State, steps: seq<Step>, s: State,
      rows: seq<Audit.EvidenceRow>)
    requires Reaches(policy, start, steps, s) && policy.cooldown > 0 && Injective(refs)
    requires Coherent(policy, jobs) && Serves(s, jobs) && Evidence(refs, s, rows)
    ensures Clean(rows, policy.cooldown)
  {
    forall key ensures Audit.Violations(Audit.Kept(Audit.Elements(Audit.HitsOf(Audit.Group(rows, key).rows))),
        policy.cooldown) == {} {
      GroupSpaced(policy, refs, jobs, start, steps, s, rows, key);
      Audit.ZeroIffSpaced(Audit.Kept(Audit.Elements(Audit.HitsOf(Audit.Group(rows, key).rows))), policy.cooldown);
    }
  }

  // ---- the converse: an incoherent pair of checks has a run the audit reports ---------------

  function Once(user: nat, job: Job, row: nat): Delivery {
    Delivery(row, user, job, 0, 0, 0, true, row)
  }

  /** Checks `a` and `b` delivered to user 0, and later checks of the two events to others, all at once. */
  ghost predicate Delivered4(s: State, a: Job, b: Job, k: Job, l: Job) {
    && s.log == [Once(0, a, 0), Once(0, b, 1), Once(1, k, 2), Once(2, l, 3)]
    && s.workers.Keys == {0, 1, 2, 3}
    && s.workers[0].job == a && s.workers[1].job == b && s.workers[2].job == k && s.workers[3].job == l
  }

  lemma Fresh(policy: Policy, s: State, user: nat, job: Job, row: nat)
    requires job.EventJob? && row !in s.table && forall id :: id in s.table ==> s.table[id].user != user
    ensures Open(s, user, job, row) && Eligible(policy, s.table, user, job, s.now, None)
  {
  }

  lemma FreshRow(s: State, job: Job, row: nat, saved: bool)
    requires job.EventJob? && row !in s.table
    ensures var r := SavedRow(SentRow(s, 0, job, row), job, saved);
            && r == Stored(job, saved).(createdAt := s.now, sentAt := Some(s.now))
            && forall policy :: ResolvedFamily(policy, r) == ResolvedFamily(policy, Stored(job, saved))
  {
  }

  /** One user gets both events at once, the second not being suppressed by the first. */
  lemma BothToOne(policy: Policy, a: Job, b: Job, saved: bool)
    returns (start: State, steps: seq<Step>, s: State)
    requires a.EventJob? && b.EventJob? && a.refId != b.refId && !Suppresses(policy, a, saved, b)
    ensures Start(start) && Run(policy, start, steps) == Some(s)
    ensures s.now == 0 && s.locks == map[] && s.log == [Once(0, a, 0), Once(0, b, 1)]
    ensures s.workers.Keys == {0, 1} && s.workers[0].job == a && s.workers[1].job == b
    ensures s.table.Keys == {0, 1} && s.table[0].user == 0 && s.table[1].user == 0
  {
    start := State(0, map[], map[], map[], [], [], []);
    assert Run(policy, start, []) == Some(start);
    Fresh(policy, start, 0, a, 0);
    var mid;
    steps, mid := Deliver(policy, start, [], start, 0, 0, 0, a, saved, None);
    FreshRow(start, a, 0, saved);
    assert mid.table.Keys == {0} && mid.table[0].refId == a.refId;
    assert Eligible(policy, mid.table, 0, b, 0, None);
    assert Open(mid, 0, b, 1);
    hide Run, Eligible, Open, Suppresses, SavedRow, SentRow;
    steps, s := Deliver(policy, start, steps, mid, 1, 1, 0, b, true, None);
    SavedUser(mid, 0, b, 1);
  }

  /** Two comparable checks, the second not suppressed by the first: one user gets both at once,
      and the labels that make them comparable are the latest of their events. */
  lemma BothDelivered(policy: Policy, a: Job, b: Job, k: Job, l: Job, saved: bool)
    returns (start: State, steps: seq<Step>, s: State)
    requires a.refId != b.refId && SameEvent(k, a) && SameEvent(l, b) && !Suppresses(policy, a, saved, b)
    ensures Reaches(policy, start, steps, s) && Delivered4(s, a, b, k, l)
  {
    var mid;
    start, steps, mid := BothToOne(policy, a, b, saved);
    hide Run, Eligible, Open, SavedRow, SentRow, Suppresses;
    Fresh(policy, mid, 1, k, 2);
    var next;
    steps, next := Deliver(policy, start, steps, mid, 2, 2, 1, k, true, None);
    SavedUser(mid, 1, k, 2);
    Fresh(policy, next, 2, l, 3);
    steps, s := Deliver(policy, start, steps, next, 3, 3, 2, l, true, None);
  }

  /** The row the export makes of an event with two deliveries, labelled by check `k`. */
  function TwoMembers(refs: Refs, k: Job, first: (nat, nat), second: (nat, nat)): Audit.EvidenceRow
    requires k.EventJob?
  {
    Audit.EvidenceRow(k.symbol, true, KeyText(k), FamilyText(k), 2,
      [Audit.Member(Some(refs.user(first.0)), Some(refs.alert(first.1)), Some(0)),
       Audit.Member(Some(refs.user(second.0)), Some(refs.alert(second.1)), Some(0))])
  }

  lemma CloseHits(hits: set<Audit.Hit>, g: Audit.Hit, h: Audit.Hit, cooldown: int)
    requires cooldown > 0 && g in hits && h in hits && forall x :: x in hits ==> x.at == 0
    requires g.recipient == h.recipient && g.alert != h.alert
    ensures !Audit.Spaced(Audit.Kept(hits), cooldown)
  {
    assert g in Audit.Kept(hits) && h in Audit.Kept(hits);
  }

  ghost function BothRows(refs: Refs, k: Job, l: Job): seq<Audit.EvidenceRow>
    requires k.EventJob? && l.EventJob?
  {
    [TwoMembers(refs, k, (0, 0), (1, 2)), TwoMembers(refs, l, (0, 1), (2, 3))]
  }

  lemma BothShown(refs: Refs, a: Job, b: Job, k: Job, l: Job, s: State)
    requires Injective(refs) && Delivered4(s, a, b, k, l) && SameEvent(k, a) && SameEvent(l, b)
    ensures Evidence(refs, s, BothRows(refs, k, l))
  {
    hide FamilyText, KeyText;
    var rowA, rowB := BothRows(refs, k, l)[0], BothRows(refs, k, l)[1];
    assert Labels(s, rowA, k) by { assert s.workers[2].job == k; }
    assert Labels(s, rowB, l) by { assert s.workers[3].job == l; }
    assert Shows(refs, s, k, rowA.members[0], 0) && Shows(refs, s, k, rowA.members[1], 2);
    assert Shows(refs, s, l, rowB.members[0], 1) && Shows(refs, s, l, rowB.members[1], 3);
  }

  lemma BothReported(refs: Refs, k: Job, l: Job, cooldown: int)
    requires cooldown > 0 && Injective(refs) && SameLabel(k, l)
    ensures !Clean(BothRows(refs, k, l), cooldown)
  {
    var rows, key := BothRows(refs, k, l), AuditKey(k);
    assert refs.alert(0) != refs.alert(1) && refs.alert(0) != refs.alert(2) && refs.alert(1) != refs.alert(3);
    TwoRows(rows[0], rows[1], key);
    var g, h := Audit.HitOf(rows[0].members[0]), Audit.HitOf(rows[1].members[0]);
    hide Audit.Group, Audit.HitsOf, Audit.Kept, Audit.Spaced, Audit.Violations;
    var hits := Audit.HitsOf(Audit.Group(rows, key).rows);
    assert hits[0] == g && hits[2] == h;
    CloseHits(Audit.Elements(hits), g, h, cooldown);
    Audit.ZeroIffSpaced(Audit.Kept(Audit.Elements(hits)), cooldown);
  }

  /** Rows of one group with two members each, no alert named twice. */
  lemma TwoRows(a: Audit.EvidenceRow, b: Audit.EvidenceRow, key: Audit.Key)
    requires Audit.Audited(a) && Audit.Audited(b) && Audit.KeyOf(a) == key && Audit.KeyOf(b) == key
    requires a.sentCount > 0 && b.sentCount > 0 && TwoVerified(a.members) && TwoVerified(b.members)
    ensures Audit.HitsOf(Audit.Group([a, b], key).rows) ==
            [Audit.HitOf(a.members[0]), Audit.HitOf(a.members[1]), Audit.HitOf(b.members[0]), Audit.HitOf(b.members[1])]
  {
    assert [a, b][..1] == [a] && [a][..0] == [];
    assert Audit.Group([a], key).rows == [a];
    assert Audit.Group([a, b], key).rows == [a, b];
    TwoHits(a.members);
    TwoHits(b.members);
    assert Audit.HitsOf([a]) == Audit.RowHits(a.members);
    assert Audit.HitsOf([a, b]) == Audit.HitsOf([a]) + Audit.RowHits(b.members);
  }

  predicate TwoVerified(members: seq<Audit.Member>) {
    && |members| == 2 && Audit.Verified(members[0]) && Audit.Verified(members[1])
    && members[0].alert != members[1].alert
  }

  lemma TwoHits(members: seq<Audit.Member>)
    requires TwoVerified(members)
    ensures Audit.RowHits(members) == [Audit.HitOf(members[0]), Audit.HitOf(members[1])]
  {
    var init := members[..1];
    assert init[..0] == [] && init[0] == members[0] && members[..|members| - 1] == init;
    assert Audit.RowHits(init) == [Audit.HitOf(members[0])];
    assert Audit.VerifiedAlerts(init) == {members[0].alert.value};
  }

  ghost predicate AlwaysClean(policy: Policy, refs: Refs, jobs: set<Job>) {
    forall start, steps, s, rows ::
      Reaches(policy, start, steps, s) && Serves(s, jobs) && Evidence(refs, s, rows) ==> Clean(rows, policy.cooldown)
  }

  /** End to end: every run over these checks is reported clean if and only if any two of them whose
      events the audit can put in one group suppress each other. */
  lemma AuditCleanIff(policy: Policy, refs: Refs, jobs: set<Job>)
    requires policy.cooldown > 0 && Injective(refs)
    ensures AlwaysClean(policy, refs, jobs) <==> Coherent(policy, jobs)
  {
    if Coherent(policy, jobs) {
      forall start, steps, s, rows | Reaches(policy, start, steps, s) && Serves(s, jobs) && Evidence(refs, s, rows)
        ensures Clean(rows, policy.cooldown)
      {
        CoherentIsClean(policy, refs, jobs, start, steps, s, rows);
      }
    } else {
      IncoherentIsReported(policy, refs, jobs);
    }
  }

  lemma IncoherentIsReported(policy: Policy, refs: Refs, jobs: set<Job>)
    requires policy.cooldown > 0 && Injective(refs) && !Coherent(policy, jobs)
    ensures !AlwaysClean(policy, refs, jobs)
  {
    var a, b, saved :| a in jobs && b in jobs && Comparable(jobs, a, b) && !Suppresses(policy, a, saved, b);
    var k, l :| k in jobs && l in jobs && SameEvent(k, a) && SameEvent(l, b) && SameLabel(k, l);
    assert a.refId != b.refId;
    hide Suppresses, SameEvent, SameLabel, Clean, Evidence, Reaches, Coherent, Comparable;
    var start, steps, s := BothDelivered(policy, a, b, k, l, saved);
    assert Serves(s, jobs);
    BothShown(refs, a, b, k, l, s);
    BothReported(refs, k, l, policy.cooldown);
  }

  // ---- a condition on single checks ----------------------------------------------------------

  /** Families are never empty and already stripped and lower-case. */
  predicate Tidy(policy: Policy, family: Option<string>) {
    family.Some? ==> family.value != "" && policy.normalise(family.value) == family.value
  }

  /** It has a key, one tidy family in both places, a price family only with its own window's sign,
      and without a family it is stored under its own key. */
  predicate WellLabelled(policy: Policy, job: Job) {
    && job.EventJob? && job.key != "" && job.context.contextFamily == job.family && Tidy(policy, job.family)
    && if job.family.None? then job.context.eventKey == Some(job.key)
       else IsPriceFamily(job.family) ==> DirectionalFamily(job.context.move) in {None, job.family}
  }

  /** No family of one event reads like the key of another that has none. */
  ghost predicate NoClash(jobs: set<Job>) {
    forall a, b :: a in jobs && b in jobs && a.refId != b.refId && SameLabel(a, b) && FamilyText(b) == "" ==>
        FamilyText(a) == ""
  }

  /** All checks of one event agree on its label. */
  ghost predicate OneLabel(jobs: set<Job>) {
    forall a, b :: a in jobs && b in jobs && SameEvent(a, b) ==>
        FamilyText(a) == FamilyText(b) && KeyText(a) == KeyText(b)
  }

  lemma WellLabelledIsCoherent(policy: Policy, jobs: set<Job>)
    requires forall job :: job in jobs ==> WellLabelled(policy, job)
    requires NoClash(jobs) && OneLabel(jobs)
    ensures Coherent(policy, jobs)
  {
    forall a, b, saved | a in jobs && b in jobs && Comparable(jobs, a, b) ensures Suppresses(policy, a, saved, b) {
      var k, l :| k in jobs && l in jobs && SameEvent(k, a) && SameEvent(l, b) && SameLabel(k, l);
      assert SameLabel(a, b) && SameLabel(b, a);
    }
  }

  /** The collector exports the reservation time (`created_at`) as the delivery time. For a row the
      delivery created, that is a time the theorem above admits, and so is `sent_at`. */
  lemma ExportedTimes(policy: Policy, start: State, steps: seq<Step>, s: State, j: nat)
    requires Reaches(policy, start, steps, s) && j < |s.log| && s.log[j].created
    ensures var d := s.log[j];
            d.row in s.table && d.clearedAt <= s.table[d.row].createdAt <= d.sentAt
                && s.table[d.row].sentAt == Some(d.sentAt)
  {
    StartInv(policy, start);
    RunKeepsInv(policy, start, steps);
    assert LoggedOk(policy, s, j);
  }
}
