/**
 * The events the code serves (bot/alerting/event_analysis.py `canonicalize_event_key`;
 * bot/alerts.py `_create_event_analysis_decision`, `_get_reusable_event_analysis_by_context`):
 * which of them the audit is sure to call clean.
 *
 * An event is created by a fresh check, whose raw key is always empty, and may then be checked
 * again by exact reuse, which reads the stored key as if it were a raw one.
 */
module ServedEvents {
  import opened Prelude
  import opened AlertTable
  import opened Delivery
  import opened EndToEnd

  /** One check: what the canonicaliser reads, the sign of the window, and on reuse the stored key. */
  datatype Check = Check(symbol: string, refId: nat, wording: Wording, move: Move, stored: Option<string>)

  /** One canonicalisation gives key and family; outcome row and numeric context get that family,
      and the context the window whose sign it followed. */
  function Served(policy: Policy, c: Check): (job: Job)
    ensures job.EventJob?
  {
    var key := CanonicalKey(policy, c.symbol, c.wording, c.move);
    var family := SemanticFamily(policy, c.symbol, c.wording, c.move);
    EventJob(c.symbol, c.refId, key, family, EventContext(Some(EventKey(policy, c)), family, c.move))
  }

  /** The key of the stored market event. */
  function EventKey(policy: Policy, c: Check): string {
    if c.stored.Some? then c.stored.value else CanonicalKey(policy, c.symbol, c.wording, c.move)
  }

  ghost function AllServed(policy: Policy, checks: set<Check>): set<Job> {
    set c | c in checks :: Served(policy, c)
  }

  // ---- what the code grants ------------------------------------------------------------------

  predicate OwnKey(policy: Policy, symbol: string, key: string) {
    policy.coin(symbol) + "_" <= key
  }

  /** Of the canonicaliser's vocabulary: tidy, and not of the form of a key. */
  predicate IsFamily(policy: Policy, symbol: string, family: Option<string>) {
    Tidy(policy, family) && (family.Some? ==> !OwnKey(policy, symbol, family.value))
  }

  /** Every family is one of the vocabulary; a fresh check has no raw key; fallbacks and the keys the
      canonicaliser stored begin with the coin. */
  predicate Plausible(policy: Policy, c: Check) {
    && IsFamily(policy, c.symbol, Some(PRICE_UPTREND)) && IsFamily(policy, c.symbol, Some(PRICE_DOWNTREND))
    && IsFamily(policy, c.symbol, c.wording.found) && OwnKey(policy, c.symbol, c.wording.fallback)
    && (if c.stored.None? then c.wording.text == "" else OwnKey(policy, c.symbol, c.stored.value))
  }

  /** A market event is of one coin and has one key. */
  ghost predicate Possible(policy: Policy, checks: set<Check>) {
    && (forall c :: c in checks ==> Plausible(policy, c))
    && forall c, d :: c in checks && d in checks && c.refId == d.refId ==>
         c.symbol == d.symbol && EventKey(policy, c) == EventKey(policy, d)
  }

  // ---- how two served checks compare ---------------------------------------------------------

  /** The family the recheck gives the check itself, its own or a price family its key names. */
  function Claimed(policy: Policy, job: Job): Option<string>
    requires job.EventJob?
  {
    CurrentFamily(policy, job.symbol, job.key, job.family)
  }

  /** The family later rechecks give its delivery. */
  function Remembered(policy: Policy, job: Job): Option<string>
    requires job.EventJob?
  {
    ResolvedFamily(policy, Stored(job, true))
  }

  /** `b` has the key `a`'s event is stored under, or claims the family `a` is remembered by. */
  predicate HeldBack(policy: Policy, a: Job, b: Job)
    requires a.EventJob? && b.EventJob?
  {
    || a.context.eventKey == Some(b.key)
    || (Claimed(policy, b).Some? && Remembered(policy, a) == Claimed(policy, b))
  }

  predicate SameName(k: Job, l: Job)
    requires k.EventJob? && l.EventJob?
  {
    k.symbol == l.symbol && k.family == l.family && (k.family.None? ==> k.context.eventKey == l.context.eventKey)
  }

  /** Two events meet when some check of each has the same family, or neither has one and they are
      stored under one key. */
  ghost predicate Meet(jobs: set<Job>, a: Job, b: Job) {
    && a.EventJob? && b.EventJob? && a.refId != b.refId
    && exists k, l :: k in jobs && l in jobs && SameEvent(k, a) && SameEvent(l, b) && SameName(k, l)
  }

  lemma ServedShape(policy: Policy, c: Check)
    requires Plausible(policy, c)
    ensures var job := Served(policy, c);
            && IsFamily(policy, c.symbol, job.family) && job.key != ""
            && OwnKey(policy, c.symbol, KeyText(job)) && KeyText(job) != ""
            && FamilyText(job) == (if job.family.Some? then job.family.value else "")
            && (job.family.Some? ==> job.key == policy.coin(c.symbol) + "_" + job.family.value)
            && (IsPriceFamily(job.family) ==> DirectionalFamily(c.move) in {None, job.family})
  {
    hide TextTrend;
    var job := Served(policy, c);
    assert policy.coin(c.symbol) + "_" <= policy.coin(c.symbol) + "_" + (if job.family.Some? then job.family.value
        else "");
  }

  lemma ServedClaims(policy: Policy, c: Check, saved: bool)
    requires Plausible(policy, c)
    ensures var job := Served(policy, c);
            && ResolvedFamily(policy, Stored(job, saved)) == Remembered(policy, job)
            && (job.family.Some? ==> Claimed(policy, job) == job.family && Remembered(policy, job) == job.family)
  {
    ServedShape(policy, c);
    hide SemanticFamily, CanonicalKey, KeyFamily;
  }

  lemma SameNameIff(policy: Policy, c: Check, d: Check)
    requires Plausible(policy, c) && Plausible(policy, d)
    ensures SameLabel(Served(policy, c), Served(policy, d)) <==> SameName(Served(policy, c), Served(policy, d))
  {
    ServedShape(policy, c);
    ServedShape(policy, d);
    hide SemanticFamily, CanonicalKey, Tidy;
  }

  lemma ServedSuppresses(policy: Policy, c: Check, d: Check, saved: bool)
    requires Plausible(policy, c) && Plausible(policy, d)
    ensures Suppresses(policy, Served(policy, c), saved, Served(policy, d)) <==>
        HeldBack(policy, Served(policy, c), Served(policy, d))
  {
    ServedShape(policy, d);
    ServedClaims(policy, c, saved);
    hide ResolvedFamily, CurrentFamily, SemanticFamily, CanonicalKey;
  }

  lemma MeetIff(policy: Policy, checks: set<Check>, a: Job, b: Job)
    requires Possible(policy, checks)
    ensures Comparable(AllServed(policy, checks), a, b) <==> Meet(AllServed(policy, checks), a, b)
  {
    var jobs := AllServed(policy, checks);
    hide SameLabel, SameName, Plausible, Served;
    forall k, l | k in jobs && l in jobs ensures SameLabel(k, l) <==> SameName(k, l) {
      var c :| c in checks && k == Served(policy, c);
      var d :| d in checks && l == Served(policy, d);
      SameNameIff(policy, c, d);
    }
  }

  ghost predicate MeetingHeldBack(policy: Policy, jobs: set<Job>) {
    forall a, b :: a in jobs && b in jobs && Meet(jobs, a, b) ==> HeldBack(policy, a, b)
  }

  lemma ServedCoherent(policy: Policy, checks: set<Check>)
    requires Possible(policy, checks)
    ensures Coherent(policy, AllServed(policy, checks)) <==> MeetingHeldBack(policy, AllServed(policy, checks))
  {
    var jobs := AllServed(policy, checks);
    hide Comparable, Meet, HeldBack, Suppresses, Plausible, Served;
    forall a, b | a in jobs && b in jobs
      ensures Comparable(jobs, a, b) <==> Meet(jobs, a, b)
      ensures forall saved :: Suppresses(policy, a, saved, b) <==> HeldBack(policy, a, b)
    {
      MeetIff(policy, checks, a, b);
      var c :| c in checks && a == Served(policy, c);
      var d :| d in checks && b == Served(policy, d);
      forall saved ensures Suppresses(policy, a, saved, b) <==> HeldBack(policy, a, b) {
        ServedSuppresses(policy, c, d, saved);
      }
    }
    assert !MeetingHeldBack(policy, jobs) ==>
        exists a, b :: a in jobs && b in jobs && Comparable(jobs, a, b) && !Suppresses(policy, a, true, b);
  }

  /** Over the events the code can serve, fresh or reused, every run is audited clean if and only if
      any two checks whose events meet hold each other back. */
  lemma ServedCleanIff(policy: Policy, refs: Refs, checks: set<Check>)
    requires policy.cooldown > 0 && Injective(refs) && Possible(policy, checks)
    ensures AlwaysClean(policy, refs, AllServed(policy, checks)) <==> MeetingHeldBack(policy, AllServed(policy, checks))
  {
    AuditCleanIff(policy, refs, AllServed(policy, checks));
    ServedCoherent(policy, checks);
  }

  /** A check is well labelled unless it has no family and was reused under another key. */
  lemma ServedWellLabelled(policy: Policy, c: Check)
    requires Plausible(policy, c)
    ensures var job := Served(policy, c);
            WellLabelled(policy, job) <==> job.family.Some? || c.stored in {None, Some(job.key)}
  {
    ServedShape(policy, c);
  }

  // ---- events that keep their key ------------------------------------------------------------

  lemma SteadyHeldBack(policy: Policy, checks: set<Check>, a: Job, b: Job)
    requires Possible(policy, checks) && forall c :: c in checks ==> Served(policy, c).key == EventKey(policy, c)
    requires a in AllServed(policy, checks) && b in AllServed(policy, checks) && Meet(AllServed(policy, checks), a, b)
    ensures HeldBack(policy, a, b)
  {
    var jobs := AllServed(policy, checks);
    var k, l :| k in jobs && l in jobs && SameEvent(k, a) && SameEvent(l, b) && SameName(k, l);
    var c :| c in checks && k == Served(policy, c);
    var d :| d in checks && l == Served(policy, d);
    var e :| e in checks && a == Served(policy, e);
    var f :| f in checks && b == Served(policy, f);
    ServedShape(policy, c);
    ServedShape(policy, d);
    hide SemanticFamily, CanonicalKey, Plausible, Claimed, Remembered;
    assert EventKey(policy, c) == EventKey(policy, e) && EventKey(policy, d) == EventKey(policy, f);
  }

  /** Events whose checks all have the key they are stored under are always audited clean. */
  lemma SteadyIsClean(policy: Policy, refs: Refs, checks: set<Check>)
    requires policy.cooldown > 0 && Injective(refs) && Possible(policy, checks)
    requires forall c :: c in checks ==> Served(policy, c).key == EventKey(policy, c)
    ensures AlwaysClean(policy, refs, AllServed(policy, checks))
  {
    ServedCleanIff(policy, refs, checks);
    var jobs := AllServed(policy, checks);
    hide HeldBack, Meet, AlwaysClean, Possible, AllServed;
    forall a, b | a in jobs && b in jobs && Meet(jobs, a, b) ensures HeldBack(policy, a, b) {
      SteadyHeldBack(policy, checks, a, b);
    }
  }

  /** So, without any further condition, are events that are never reused. */
  lemma FreshIsClean(policy: Policy, refs: Refs, checks: set<Check>)
    requires policy.cooldown > 0 && Injective(refs) && Possible(policy, checks)
    requires forall c :: c in checks ==> c.stored.None?
    ensures AlwaysClean(policy, refs, AllServed(policy, checks))
  {
    SteadyIsClean(policy, refs, checks);
  }

  // ---- exact reuse ---------------------------------------------------------------------------

  /** The family that wording and window alone name, as a fresh check sees it. */
  function WordedFamily(policy: Policy, c: Check): Option<string> {
    SemanticFamily(policy, c.symbol, c.wording.(text := ""), c.move)
  }

  /** The text an event's key is read as when it comes back as a raw key. */
  function Reread(policy: Policy, c: Check): string {
    policy.wording(c.symbol, EventKey(policy, c)).text
  }

  /** A family that wording names makes the event's key, and that key reads as itself. Without one the
      key is made of the title, which says up or down only with the window's sign, and otherwise
      reads like no price family's key. */
  predicate Created(policy: Policy, c: Check) {
    var coin, family, text := policy.coin(c.symbol), WordedFamily(policy, c), Reread(policy, c);
    if family.Some? then
      text == EventKey(policy, c) == coin + "_" + family.value && !Leads(family.value, "down")
          && !Leads(family.value, "up")
    else
      !IsPriceKey(coin, text)
          && (TextTrend(coin, text).Some? ==> DirectionalFamily(c.move) in {None, TextTrend(coin, text)})
  }

  /** Reuse reads the stored key as the raw one, in the exact context of the event's other checks. */
  ghost predicate ExactReuse(policy: Policy, checks: set<Check>) {
    && (forall c :: c in checks ==> Created(policy, c) && (c.stored.Some? ==> c.wording.text == Reread(policy, c)))
    && forall c, d :: c in checks && d in checks && c.refId == d.refId ==>
        WordedFamily(policy, c) == WordedFamily(policy, d)
  }

  /** What an event is about through all its checks: the family named in words, or by its key. */
  function Theme(policy: Policy, c: Check): Option<string> {
    if WordedFamily(policy, c).Some? then WordedFamily(policy, c)
        else TextTrend(policy.coin(c.symbol), Reread(policy, c))
  }

  lemma LeadsBehind(coin: string, rest: string, word: string)
    ensures Leads(coin + "_" + rest, coin + "_" + word) <==> Leads(rest, word)
  {
    var front := coin + "_";
    assert (front + rest)[|front|..] == rest && (front + word)[|front|..] == word;
    assert front + rest == coin + "_" + rest && front + word == coin + "_" + word;
    if word <= rest {
      assert front + word <= front + rest;
    }
    if front + word <= front + rest {
      assert (front + rest)[..|front + word|][|front|..] == rest[..|word|];
    }
  }

  /** A family named in words is found again by every reuse. */
  lemma WordedAgain(policy: Policy, c: Check)
    requires Plausible(policy, c) && Created(policy, c) && (c.stored.Some? ==> c.wording.text == Reread(policy, c))
    requires WordedFamily(policy, c).Some?
    ensures Served(policy, c).family == WordedFamily(policy, c)
  {
    var coin, family := policy.coin(c.symbol), WordedFamily(policy, c).value;
    if c.stored.Some? {
      LeadsBehind(coin, family, "down");
      LeadsBehind(coin, family, "up");
      assert coin + "_" + "down" == coin + "_down" && coin + "_" + "up" == coin + "_up";
      assert (coin + "_" + family)[|coin| + 1..] == family;
    } else {
      assert c.wording == c.wording.(text := "");
    }
  }

  /** Without one, reuse finds the direction its key names, if any. */
  lemma TrendAgain(policy: Policy, c: Check)
    requires Plausible(policy, c) && Created(policy, c) && (c.stored.Some? ==> c.wording.text == Reread(policy, c))
    requires WordedFamily(policy, c).None?
    ensures Served(policy, c).family == if c.stored.Some? then Theme(policy, c) else None
  {
    if c.stored.None? {
      assert c.wording == c.wording.(text := "");
    }
  }

  lemma ThemeKept(policy: Policy, c: Check)
    requires Plausible(policy, c) && Created(policy, c) && (c.stored.Some? ==> c.wording.text == Reread(policy, c))
    ensures var job, theme := Served(policy, c), Theme(policy, c);
            && job.family in {None, theme} && (WordedFamily(policy, c).Some? ==> job.family.Some?)
            && (theme.Some? ==> Claimed(policy, job) == theme && Remembered(policy, job) == theme)
  {
    ServedClaims(policy, c, true);
    if WordedFamily(policy, c).Some? {
      WordedAgain(policy, c);
    } else {
      TrendAgain(policy, c);
      assert Tidy(policy, Theme(policy, c));
      ServedShape(policy, c);
    }
  }

  /** Events without a family that are stored under one key hold each other back. */
  ghost predicate KeptKeys(policy: Policy, jobs: set<Job>) {
    forall a, b :: a in jobs && b in jobs && a.EventJob? && b.EventJob? && a.refId != b.refId && a.symbol == b.symbol
                   && a.family.None? && b.family.None? && a.context.eventKey == b.context.eventKey
                   ==> HeldBack(policy, a, b)
  }

  lemma SameTheme(policy: Policy, checks: set<Check>, c: Check, d: Check)
    requires Possible(policy, checks) && ExactReuse(policy, checks) && c in checks && d in checks && c.refId == d.refId
    ensures Theme(policy, c) == Theme(policy, d) && EventKey(policy, c) == EventKey(policy, d)
  {
    hide WordedFamily, TextTrend, EventKey, Created, Plausible;
  }

  /** Events meet under one theme; if they have none, under their keys. */
  lemma ThemesMeet(policy: Policy, checks: set<Check>, c: Check, d: Check)
    requires Possible(policy, checks) && ExactReuse(policy, checks) && c in checks && d in checks
    requires SameName(Served(policy, c), Served(policy, d))
    ensures Theme(policy, c) == Theme(policy, d)
    ensures Theme(policy, c).None? ==> EventKey(policy, c) == EventKey(policy, d) && c.symbol == d.symbol
  {
    ThemeKept(policy, c);
    ThemeKept(policy, d);
    hide SemanticFamily, CanonicalKey, EventKey, Created, Plausible, Claimed, Remembered, TextTrend, WordedFamily;
  }

  lemma MeetingThemes(policy: Policy, checks: set<Check>, a: Job, b: Job)
    requires Possible(policy, checks) && ExactReuse(policy, checks) && KeptKeys(policy, AllServed(policy, checks))
    requires a in AllServed(policy, checks) && b in AllServed(policy, checks) && Meet(AllServed(policy, checks), a, b)
    ensures HeldBack(policy, a, b)
  {
    var jobs := AllServed(policy, checks);
    var k, l :| k in jobs && l in jobs && SameEvent(k, a) && SameEvent(l, b) && SameName(k, l);
    var c :| c in checks && k == Served(policy, c);
    var d :| d in checks && l == Served(policy, d);
    var e :| e in checks && a == Served(policy, e);
    var f :| f in checks && b == Served(policy, f);
    SameTheme(policy, checks, c, e);
    SameTheme(policy, checks, d, f);
    ThemesMeet(policy, checks, c, d);
    ThemeKept(policy, e);
    ThemeKept(policy, f);
    hide SemanticFamily, CanonicalKey, Plausible, Created, Claimed, Remembered, Theme, EventKey, Possible, ExactReuse;
    if Theme(policy, e).None? {
      assert a.context.eventKey == b.context.eventKey && a.symbol == b.symbol;
    }
  }

  /** Over events created fresh and reused exactly, every run is audited clean if and only if those
      without a family that are stored under one key hold each other back. */
  lemma ReuseCleanIff(policy: Policy, refs: Refs, checks: set<Check>)
    requires policy.cooldown > 0 && Injective(refs) && Possible(policy, checks) && ExactReuse(policy, checks)
    ensures AlwaysClean(policy, refs, AllServed(policy, checks)) <==> KeptKeys(policy, AllServed(policy, checks))
  {
    ServedCleanIff(policy, refs, checks);
    var jobs := AllServed(policy, checks);
    hide HeldBack, AlwaysClean, Possible, AllServed, ExactReuse;
    if KeptKeys(policy, jobs) {
      forall a, b | a in jobs && b in jobs && Meet(jobs, a, b) ensures HeldBack(policy, a, b) {
        MeetingThemes(policy, checks, a, b);
      }
    } else {
      var a, b :| a in jobs && b in jobs && a.EventJob? && b.EventJob? && a.refId != b.refId && a.symbol == b.symbol
        && a.family.None? && b.family.None? && a.context.eventKey == b.context.eventKey && !HeldBack(policy, a, b);
      assert SameEvent(a, a) && SameEvent(b, b) && SameName(a, b);
      assert Meet(jobs, a, b);
    }
  }

  /** Kept keys can fail: two events without a family, each reused under a stored key that now reads
      as another one and names no price family, are reported. */
  lemma ReusedKeyRepeats(policy: Policy, refs: Refs, checks: set<Check>, c: Check, d: Check)
    requires policy.cooldown > 0 && Injective(refs) && Possible(policy, checks) && c in checks && d in checks
    requires c.refId != d.refId && c.symbol == d.symbol && c.stored.Some? && c.stored == d.stored
    requires Served(policy, c).family.None? && Served(policy, d).family.None?
    requires d.stored != Some(Served(policy, d).key) && Claimed(policy, Served(policy, d)).None?
    ensures !AlwaysClean(policy, refs, AllServed(policy, checks))
  {
    ServedCleanIff(policy, refs, checks);
    hide AlwaysClean, Possible, Claimed, Remembered;
    var jobs, a, b := AllServed(policy, checks), Served(policy, c), Served(policy, d);
    assert a in jobs && b in jobs && SameEvent(a, a) && SameEvent(b, b) && SameName(a, b);
    assert Meet(jobs, a, b) && !HeldBack(policy, a, b);
  }

  /** A fresh check without a family whose key is the fallback `key`, or a reuse of its event that
      reads that key as `text`. */
  function Unnamed(symbol: string, refId: nat, key: string, text: string, reused: bool): Check {
    Check(symbol, refId, Wording(if reused then text else "", false, None, key), NoMove,
      if reused then Some(key) else None)
  }

  /** The fallback key reads as another text, and that as itself; neither names a family. */
  predicate ReadsAs(policy: Policy, symbol: string, key: string, text: string) {
    var coin := policy.coin(symbol);
    && OwnKey(policy, symbol, key) && key != text && text != "" && text != coin + "_news_catalyst"
    && policy.wording(symbol, key).text == policy.wording(symbol, text).text == text
    && policy.wording(symbol, text).found.None? && !IsPriceKey(coin, text) && TextTrend(coin, text).None?
  }

  lemma UnnamedCheck(policy: Policy, symbol: string, refId: nat, key: string, text: string, reused: bool)
    requires ReadsAs(policy, symbol, key, text)
    requires IsFamily(policy, symbol, Some(PRICE_UPTREND)) && IsFamily(policy, symbol, Some(PRICE_DOWNTREND))
    ensures var c := Unnamed(symbol, refId, key, text, reused); var job := Served(policy, c);
            && Plausible(policy, c) && EventKey(policy, c) == key && Created(policy, c) && WordedFamily(policy, c).None?
            && (reused ==> c.wording.text == Reread(policy, c))
            && job.family.None? && (reused ==> job.key == text && Claimed(policy, job).None?)
  {
    assert TextTrend(policy.coin(symbol), "").None? && !IsPriceKey(policy.coin(symbol), "");
    hide TextTrend, IsPriceKey;
  }

  /** So two events whose fallback key reads as another one, created and reused exactly, are reported. */
  lemma RereadRepeats(policy: Policy, refs: Refs, symbol: string, key: string, text: string)
    requires policy.cooldown > 0 && Injective(refs) && ReadsAs(policy, symbol, key, text)
    requires IsFamily(policy, symbol, Some(PRICE_UPTREND)) && IsFamily(policy, symbol, Some(PRICE_DOWNTREND))
    ensures exists checks :: Possible(policy, checks) && ExactReuse(policy, checks)
                             && !AlwaysClean(policy, refs, AllServed(policy, checks))
  {
    var checks := set refId, reused | refId in {1, 2} && reused in {false, true} ::
                    Unnamed(symbol, refId, key, text, reused);
    forall refId, reused { UnnamedCheck(policy, symbol, refId, key, text, reused); }
    hide Plausible, EventKey, WordedFamily, Created, Reread, AlwaysClean, Served, Claimed, Injective, ReadsAs, IsFamily;
    ReusedKeyRepeats(policy, refs, checks, Unnamed(symbol, 1, key, text, true), Unnamed(symbol, 2, key, text, true));
  }

  /** The fallback key of the title "BTC market event", that of a flat window, and the first words behind it. */
  function FlatKey(policy: Policy, symbol: string, words: string): string {
    policy.coin(symbol) + "_" + ("market_event" + words)
  }

  /** It names neither direction nor price family. */
  lemma FlatReadsAs(policy: Policy, symbol: string, words: string, read: string)
    requires words != read
    requires var text := FlatKey(policy, symbol, read);
             && policy.wording(symbol, FlatKey(policy, symbol, words)).text == policy.wording(symbol, text).text == text
             && policy.wording(symbol, text).found.None?
    ensures ReadsAs(policy, symbol, FlatKey(policy, symbol, words), FlatKey(policy, symbol, read))
  {
    var coin, key, text := policy.coin(symbol), FlatKey(policy, symbol, words), FlatKey(policy, symbol, read);
    var front, n := coin + "_" + "market_event", |coin| + 1;
    assert key == front + words && text == front + read;
    assert key[|front|..] == words && text[|front|..] == read;
    assert text[n] == front[n] == 'm';
    assert (coin + "_down")[n] == 'd' && (coin + "_up")[n] == 'u' && (coin + "_news_catalyst")[n] == 'n';
    assert (coin + "_" + PRICE_UPTREND)[n] == 'p' && (coin + "_" + PRICE_DOWNTREND)[n] == 'p';
  }

  /** A key with the coin's own name in it is such a key: names are replaced only when a key is read. */
  lemma CoinNameRepeats(policy: Policy, refs: Refs)
    requires policy.cooldown > 0 && Injective(refs)
    requires IsFamily(policy, "BTC", Some(PRICE_UPTREND)) && IsFamily(policy, "BTC", Some(PRICE_DOWNTREND))
    requires var key, text := FlatKey(policy, "BTC", "_bitcoin_is_quiet_today"),
        FlatKey(policy, "BTC", "_btc_is_quiet_today");
             && policy.wording("BTC", key).text == policy.wording("BTC", text).text == text
             && policy.wording("BTC", text).found.None?
    ensures exists checks :: Possible(policy, checks) && ExactReuse(policy, checks)
                             && !AlwaysClean(policy, refs, AllServed(policy, checks))
  {
    var words, read := "_bitcoin_is_quiet_today", "_btc_is_quiet_today";
    assert |words| != |read|;
    hide *;
    FlatReadsAs(policy, "BTC", words, read);
    RereadRepeats(policy, refs, "BTC", FlatKey(policy, "BTC", words), FlatKey(policy, "BTC", read));
  }
}
