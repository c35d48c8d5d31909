/**
 * `BundleWriter` and the end of `_collect` (ops_agent/bundle.py, ops_agent/cli.py).
 *
 * `history` records the disk after every single step, torn writes included, so that a statement
 * about all of it is a statement about every point at which a run can stop.
 */
module BundleWriter {
  import opened Prelude
  import opened TextOrder
  import opened BundleSpec

  datatype Snapshot = Snapshot(staging: Option<Files>, bundles: map<string, Files>)

  predicate Readable(format: Format, files: Files) {
    MANIFEST in files && format.decode(files[MANIFEST]).Some?
  }

  /** The manifest is there and lists exactly the other files with their digests. */
  predicate Sealed(format: Format, files: Files) {
    Readable(format, files) && format.decode(files[MANIFEST]).value.inventory == Some(Inventory(format, files))
  }

  /** What a stopped run may leave: earlier bundles untouched, at most this bundle besides them and
      only with its manifest, and no torn manifest anywhere. */
  ghost predicate Good(format: Format, before: map<string, Files>, id: string, disk: Snapshot) {
    && (disk.staging.Some? && MANIFEST in disk.staging.value ==> Readable(format, disk.staging.value))
    && (forall b :: b in before ==> b in disk.bundles && disk.bundles[b] == before[b])
    && (forall b :: b in disk.bundles ==> b in before || (b == id && Readable(format, disk.bundles[b])))
  }

  function NonOk(collectors: seq<CollectorStatus>): bool {
    exists c :: c in collectors && c.status != "ok"
  }

  function Missing(files: Files): set<string> {
    MANDATORY - {MANIFEST} - files.Keys
  }

  /** `written` was written, nothing mandatory was lost, and what is left of the rest is unchanged. */
  ghost predicate SameKept(after: Files, before: Files, written: set<string>) {
    && after.Keys <= before.Keys + written
    && after.Keys * MANDATORY == (before.Keys + written) * MANDATORY
    && forall p :: p in after && p in before && p !in written ==> after[p] == before[p]
  }

  /** A size-limit status on record is no ok. */
  predicate Honest(collectors: seq<CollectorStatus>) {
    forall c :: c in collectors && c.name == SIZE_LIMIT ==> c.status != "ok"
  }

  /** Partial is said for a reason. */
  predicate Earned(status: Collection, collectors: seq<CollectorStatus>) {
    status == Partial ==> NonOk(collectors)
  }

  /** No size warning yet, and manifests that grow with their warnings. */
  ghost predicate FirstCall(format: Format, warnings: seq<string>) {
    Growing(format) && forall w :: w in warnings ==> !SizeWarning(w)
  }

  ghost predicate TooBig(format: Format, b: Books, limit: nat, existing: seq<string>, n: nat,
      protectedMap: Option<bool>)
    requires n <= |existing|
  {
    forall j: nat :: j < n ==> DroppingBytes(format, b, existing, j, protectedMap) > limit
  }

  /** What enforcing the cap does to the books `b`. `k` candidates are dropped, each existing, in
      order. A first call that ends within the cap drops the shortest prefix that fits together with
      the warning naming it; one that raises could not have done better. */
  ghost predicate Enforced(format: Format, limit: nat, b: Books, candidates: seq<string>, status: Collection,
    protectedMap: Option<bool>, after: Books, r: Option<Collection>, k: nat)
  {
    var existing := Existing(b.files, candidates);
    && k <= |existing|
    && after.files == Without(b.files, existing[..k])
    && (r.Some? ==> Pending(format, after, r.value, protectedMap) <= limit)
    && (r.None? ==> k == |existing|)
    && if Pending(format, b, status, protectedMap) <= limit then r == Some(status) && after == b
       else
         && (r == None || r == Some(Partial))
         && (r.Some? && k > 0 ==> DropWarning(existing[..k]) in after.warnings)
         && after.collectors == WithSizeStatus(b.collectors)
         && (FirstCall(format, b.warnings) ==>
               if r.Some? then after == Dropping(b, existing, k)
                   && Shortest(format, b, limit, existing, k, protectedMap)
               else Hopeless(format, b, limit, existing, protectedMap))
  }

  /** No file that may be dropped is left, and what was weighed last, with the warnings of that moment, was
      over the cap. */
  ghost predicate Stuck(format: Format, limit: nat, now: Books, protectedMap: Option<bool>) {
    && (forall c :: c in Candidates(now.files) ==> c !in now.files)
    && exists ws :: Pending(format, now.(warnings := ws), Partial, protectedMap) > limit
  }

  lemma NothingLeft(format: Format, limit: nat, b: Books, status: Collection, protectedMap: Option<bool>, after: Books,
    k: nat)
    requires Enforced(format, limit, b, Candidates(b.files), status, protectedMap, after, None, k)
    ensures forall c :: c in Candidates(after.files) ==> c !in after.files
  {
    hide Candidates, Pending;
    CandidatesFewer(after.files, b.files);
  }

  /** The loop of `Enforce`: `i` candidates looked at, and a warning that names the first `named` dropped files. */
  ghost predicate Midway(format: Format, limit: nat, b: Books, candidates: seq<string>, protectedMap: Option<bool>,
    now: Books, i: nat, dropped: seq<string>, named: nat)
  {
    var existing := Existing(b.files, candidates);
    && (forall c :: c in candidates ==> c !in MANDATORY)
    && i <= |candidates| && dropped == Existing(b.files, candidates[..i]) && dropped <= existing && named <= |dropped|
    && now == Books(Without(b.files, dropped), WithSizeStatus(b.collectors), WarningsAfter(b.warnings, existing, named))
    && (FirstCall(format, b.warnings) ==> TooBig(format, b, limit, existing, |dropped|, protectedMap))
  }

  lemma Untouched(format: Format, limit: nat, b: Books, candidates: seq<string>, status: Collection,
      protectedMap: Option<bool>)
    requires Pending(format, b, status, protectedMap) <= limit
    ensures Enforced(format, limit, b, candidates, status, protectedMap, b, Some(status), 0)
  {
  }

  lemma Start(format: Format, limit: nat, b: Books, candidates: seq<string>, protectedMap: Option<bool>)
    requires forall c :: c in candidates ==> c !in MANDATORY
    ensures Midway(format, limit, b, candidates, protectedMap, b.(collectors := WithSizeStatus(b.collectors)), 0, [], 0)
  {
  }

  lemma NameMore(ws: seq<string>, existing: seq<string>, named: nat, k: nat)
    requires named <= k <= |existing| && 0 < k
    ensures WithSizeWarning(WarningsAfter(ws, existing, named), DropWarning(existing[..k]))
        == WarningsAfter(ws, existing, k)
  {
    if named > 0 {
      DropWarningIsSize(existing[..named]);
      NewestSizeWarning(ws, DropWarning(existing[..named]), DropWarning(existing[..k]));
    }
  }

  lemma Named(format: Format, limit: nat, b: Books, candidates: seq<string>, protectedMap: Option<bool>,
    now: Books, i: nat, dropped: seq<string>, named: nat)
    requires Midway(format, limit, b, candidates, protectedMap, now, i, dropped, named) && dropped != []
    ensures Midway(format, limit, b, candidates, protectedMap,
        now.(warnings := WithSizeWarning(now.warnings, DropWarning(dropped))), i, dropped, |dropped|)
    ensures DropWarning(dropped) in WithSizeWarning(now.warnings, DropWarning(dropped))
  {
    var existing := Existing(b.files, candidates);
    assert existing[..|dropped|] == dropped;
    NameMore(b.warnings, existing, named, |dropped|);
  }

  /** While the files do not fit with a warning that names fewer of them, they do not fit with the true one. */
  lemma StillTooBig(format: Format, limit: nat, b: Books, candidates: seq<string>, protectedMap: Option<bool>,
    now: Books, i: nat, dropped: seq<string>, named: nat)
    requires Midway(format, limit, b, candidates, protectedMap, now, i, dropped, named)
    requires Pending(format, now, Partial, protectedMap) > limit && FirstCall(format, b.warnings)
    ensures DroppingBytes(format, b, Existing(b.files, candidates), |dropped|, protectedMap) > limit
  {
    var existing := Existing(b.files, candidates);
    assert existing[..|dropped|] == dropped;
    StaleWarningIsShorter(format, b, existing, named, |dropped|, protectedMap);
  }

  lemma FitsNow(format: Format, limit: nat, b: Books, candidates: seq<string>, status: Collection,
      protectedMap: Option<bool>,
    now: Books, i: nat, dropped: seq<string>, named: nat)
    requires Midway(format, limit, b, candidates, protectedMap, now, i, dropped, named)
    requires Pending(format, b, status, protectedMap) > limit
    requires Pending(format, now, Partial, protectedMap) <= limit
    requires dropped != [] ==> DropWarning(dropped) in now.warnings
    ensures Enforced(format, limit, b, candidates, status, protectedMap, now, Some(Partial), |dropped|)
  {
    var existing := Existing(b.files, candidates);
    var k := |dropped|;
    assert existing[..k] == dropped;
    if FirstCall(format, b.warnings) {
      if k > 0 {
        WarningInForce(b.warnings, existing, named, k);
      }
      assert now == Dropping(b, existing, k);
    }
  }

  lemma Exhausted(format: Format, limit: nat, b: Books, candidates: seq<string>, status: Collection,
      protectedMap: Option<bool>,
    now: Books, i: nat, dropped: seq<string>, named: nat)
    requires Midway(format, limit, b, candidates, protectedMap, now, i, dropped, named) && i == |candidates|
    requires Pending(format, b, status, protectedMap) > limit
    requires Pending(format, now, Partial, protectedMap) > limit
    ensures forall ws ::
        Enforced(format, limit, b, candidates, status, protectedMap, now.(warnings := ws), None, |dropped|)
  {
    hide Pending, DroppingBytes, Growing, WithSizeStatus, WarningsAfter, Without;
    var existing := Existing(b.files, candidates);
    assert candidates[..i] == candidates;
    assert existing[..|dropped|] == dropped;
    if FirstCall(format, b.warnings) {
      StillTooBig(format, limit, b, candidates, protectedMap, now, i, dropped, named);
    }
  }

  lemma AdvancedPast(format: Format, limit: nat, b: Books, candidates: seq<string>, protectedMap: Option<bool>,
    now: Books, i: nat, dropped: seq<string>, named: nat)
    requires Midway(format, limit, b, candidates, protectedMap, now, i, dropped, named) && i < |candidates|
    requires candidates[i] !in now.files
    ensures Midway(format, limit, b, candidates, protectedMap, now, i + 1, dropped, named)
  {
    hide DroppingBytes, Pending, Growing, TooBig, FirstCall, WarningsAfter, WithSizeStatus;
    NextCandidate(b.files, candidates, i, dropped);
  }

  lemma AdvancedOver(format: Format, limit: nat, b: Books, candidates: seq<string>, protectedMap: Option<bool>,
    now: Books, i: nat, dropped: seq<string>, named: nat)
    requires Midway(format, limit, b, candidates, protectedMap, now, i, dropped, named) && i < |candidates|
    requires Pending(format, now, Partial, protectedMap) > limit
    requires candidates[i] in now.files
    ensures Midway(format, limit, b, candidates, protectedMap, now.(files := now.files - {candidates[i]}), i + 1,
        dropped + [candidates[i]], named)
  {
    hide DroppingBytes, Pending, Growing, WarningsAfter, WithSizeStatus, Without;
    NextCandidate(b.files, candidates, i, dropped);
    WithoutSnoc(b.files, dropped, candidates[i]);
    if FirstCall(format, b.warnings) {
      StillTooBig(format, limit, b, candidates, protectedMap, now, i, dropped, named);
    }
  }

  lemma Advanced(format: Format, limit: nat, b: Books, candidates: seq<string>, protectedMap: Option<bool>,
    now: Books, i: nat, dropped: seq<string>, named: nat)
    requires Midway(format, limit, b, candidates, protectedMap, now, i, dropped, named) && i < |candidates|
    requires Pending(format, now, Partial, protectedMap) > limit
    ensures candidates[i] != MANIFEST
    ensures if candidates[i] in now.files
            then Midway(format, limit, b, candidates, protectedMap, now.(files := now.files - {candidates[i]}), i + 1,
                dropped + [candidates[i]], named)
            else Midway(format, limit, b, candidates, protectedMap, now, i + 1, dropped, named)
  {
    assert candidates[i] in candidates && candidates[i] !in MANDATORY;
    hide Midway, Pending;
    if candidates[i] in now.files {
      AdvancedOver(format, limit, b, candidates, protectedMap, now, i, dropped, named);
    } else {
      AdvancedPast(format, limit, b, candidates, protectedMap, now, i, dropped, named);
    }
  }

  const REDACTION := "redaction_report.json"
  const LIMITS := "limits.json"
  const SUMMARY := "bundle_summary.md"
  const CONTEXT := "decision_report_context.md"
  const WRITTEN: set<string> := {REDACTION, LIMITS, SUMMARY, CONTEXT}

  /** The texts that finalization writes; the decision context may fail to render. */
  datatype Texts = Texts(redaction: Bytes, limits: Bytes, summary: (Collection, nat) -> Bytes,
    context: (Collection, seq<CollectorStatus>) -> Option<Bytes>, contextError: string, fallback: Bytes)

  datatype Publication = AlreadyPublished | NoManifest | Taken | Renamed

  datatype Settling = Settled(status: Collection) | TooLarge | Unstable

  datatype Result = Published(status: Collection, files: Files) | OverCap | Refused | NotStable

  function WithManifest(files: Files, text: Bytes): Files {
    (files - {PARTIAL_MANIFEST})[MANIFEST := text]
  }

  lemma EnforcedKeeps(format: Format, limit: nat, b: Books, candidates: seq<string>, status: Collection,
    protectedMap: Option<bool>, after: Books, r: Option<Collection>, k: nat)
    requires Enforced(format, limit, b, candidates, status, protectedMap, after, r, k)
    requires forall c :: c in candidates ==> c !in MANDATORY
    ensures SameKept(after.files, b.files, {})
    ensures forall p :: p in b.files && p in MANDATORY ==> p in after.files && after.files[p] == b.files[p]
  {
  }

  lemma EnforcedFits(format: Format, limit: nat, b: Books, candidates: seq<string>, status: Collection,
    protectedMap: Option<bool>, after: Books, r: Option<Collection>, k: nat)
    requires Enforced(format, limit, b, candidates, status, protectedMap, after, r, k)
    ensures r.Some? ==>
        Pending(format, after, r.value, protectedMap) <= limit && (r.value == status || r.value == Partial)
  {
  }

  lemma EnforcedStatus(format: Format, limit: nat, b: Books, candidates: seq<string>, status: Collection,
    protectedMap: Option<bool>, after: Books, r: Option<Collection>, k: nat)
    requires Enforced(format, limit, b, candidates, status, protectedMap, after, r, k)
    ensures b.collectors <= after.collectors
    ensures Honest(b.collectors) ==> Honest(after.collectors)
    ensures Honest(b.collectors) && r == Some(Partial) && status != Partial ==> NonOk(after.collectors)
  {
    hide Pending, DroppingBytes, Growing;
    if after.collectors != b.collectors || r != Some(status) {
      assert after.collectors == WithSizeStatus(b.collectors);
      if c :| c in b.collectors && c.name == SIZE_LIMIT {
        assert c in after.collectors;
      } else {
        assert after.collectors[|b.collectors|].name == SIZE_LIMIT;
      }
    }
  }

  /** A first call succeeds exactly when the books fit as they are or some prefix of the existing
      candidates can be dropped so that they fit with its warning; and then its result, the files it
      drops and the warning it leaves are determined. */
  lemma FirstCallDetermined(format: Format, limit: nat, b: Books, candidates: seq<string>, status: Collection,
    protectedMap: Option<bool>, after: Books, r: Option<Collection>, k: nat, after': Books, r': Option<Collection>,
        k': nat)
    requires FirstCall(format, b.warnings)
    requires Enforced(format, limit, b, candidates, status, protectedMap, after, r, k)
    requires Enforced(format, limit, b, candidates, status, protectedMap, after', r', k')
    ensures r.Some? <==>
        Pending(format, b, status, protectedMap) <= limit
        || !Hopeless(format, b, limit, Existing(b.files, candidates), protectedMap)
    ensures r == r' && (r.Some? ==> after == after')
  {
    hide Pending, Growing, DroppingBytes;
    var existing := Existing(b.files, candidates);
    if Pending(format, b, status, protectedMap) > limit {
      if r.Some? { ShortestFits(format, b, limit, existing, k, protectedMap); }
      if r'.Some? { ShortestFits(format, b, limit, existing, k', protectedMap); }
      assert r.Some? && r'.Some? ==> k == k';
    }
  }

  lemma WithSizeWarningLast(ws: seq<string>, w: string)
    ensures WithSizeWarning(ws, w) == NoSizeWarnings(ws) + [w]
  {
  }

  lemma SizeWarnings(w: string)
    ensures SizeWarning(w) <==> "bundle_size_pressure_" <= w || "bundle_size_exceeded:" <= w
  {
  }

  lemma SizeStatusOnce(collectors: seq<CollectorStatus>)
    ensures WithSizeStatus(collectors) == collectors
              + if exists c :: c in collectors && c.name == "bundle.size_limit" then []
                else [CollectorStatus("bundle.size_limit", "partial", Some("bundle hard cap exceeded"))]
  {
  }

  /** What a first call that dropped files leaves to be read: those files are gone and no other, one warning
      is new and lists them in order, the size-limit status is on record, and the manifest that says all
      this fits with the files. */
  lemma DroppedAreNamed(format: Format, limit: nat, b: Books, candidates: seq<string>, status: Collection,
    protectedMap: Option<bool>, after: Books, r: Option<Collection>, k: nat)
    requires Enforced(format, limit, b, candidates, status, protectedMap, after, r, k)
    requires FirstCall(format, b.warnings) && r.Some? && k > 0
    ensures k <= |Existing(b.files, candidates)| && r == Some(Partial)
    ensures var dropped := Existing(b.files, candidates)[..k];
            && (forall p :: p in dropped ==> p in b.files)
            && (forall p :: p in after.files <==> p in b.files && p !in dropped)
            && (forall p :: p in after.files ==> after.files[p] == b.files[p])
            && |after.warnings| == |b.warnings| + 1 && after.warnings[..|b.warnings|] == b.warnings
            && (forall w :: w in b.warnings ==> !("bundle_size_pressure_" <= w) && !("bundle_size_exceeded:" <= w))
            && var text, prefix := after.warnings[|b.warnings|], "bundle_size_pressure_dropped_files: ";
               prefix <= text && ((forall p :: p in dropped ==> ',' !in p) ==> Split(text[|prefix|..]) == dropped)
    ensures after.collectors == b.collectors
              + if exists c :: c in b.collectors && c.name == "bundle.size_limit" then []
                else [CollectorStatus("bundle.size_limit", "partial", Some("bundle hard cap exceeded"))]
    ensures protectedMap.Some? ==> exists m ::
              && Tells(format, m, Partial, after.collectors, after.warnings, protectedMap.value, after.files)
              && Size(after.files) + |format.encode(m)| + 1 <= limit
    ensures protectedMap.None? ==> Size(after.files) <= limit
  {
    hide Growing, DroppingBytes, Pending, WithSizeStatus, Join, Split, SizeWarning;
    var dropped := Existing(b.files, candidates)[..k];
    assert dropped[0] in b.files && dropped[0] !in after.files;
    assert Pending(format, b, status, protectedMap) > limit;
    PendingCounts(format, after, Partial, protectedMap);
    SizeStatusOnce(b.collectors);
    forall w | w in b.warnings ensures !("bundle_size_pressure_" <= w) && !("bundle_size_exceeded:" <= w) {
      SizeWarnings(w);
    }
    assert NoSizeWarnings(b.warnings) == b.warnings && after.warnings == b.warnings + [DropWarning(dropped)];
    assert DropWarning(dropped) == DROPPED + Join(dropped) && DropWarning(dropped)[|DROPPED|..] == Join(dropped);
    if forall p :: p in dropped ==> ',' !in p { SplitJoined(dropped); }
  }

  lemma ShortestFits(format: Format, b: Books, limit: nat, existing: seq<string>, k: nat, protectedMap: Option<bool>)
    requires k <= |existing| && Shortest(format, b, limit, existing, k, protectedMap)
    ensures !Hopeless(format, b, limit, existing, protectedMap)
  {
    hide DroppingBytes;
    assert DroppingBytes(format, b, existing, k, protectedMap) <= limit;
  }

  lemma KeptThrough(a: Files, b: Files, c: Files, v: set<string>, w: set<string>)
    requires SameKept(b, a, v) && SameKept(c, b, w)
    ensures SameKept(c, a, v + w)
  {
    assert (a.Keys + (v + w)) * MANDATORY == (a.Keys + v) * MANDATORY + w * MANDATORY;
    assert (b.Keys + w) * MANDATORY == b.Keys * MANDATORY + w * MANDATORY;
  }

  /** What `finalize` promises of the status it returns. */
  ghost predicate Certified(format: Format, limit: nat, now: Books, status: Collection, protectedMap: bool,
      r: Collection)
  {
    var missing := Missing(now.files);
    && (r == Complete ==> status == Complete && missing == {} && !NonOk(now.collectors))
    && (missing == {} || status != Failed ==> Pending(format, now, r, Some(protectedMap)) <= limit)
    && if missing == {} then r == status || r == Partial else r != Complete && (status == Failed ==> r == Failed)
  }

  /** The reports are there as given, and the summary is one of this status. */
  ghost predicate Reported(t: Texts, files: Files, status: Collection) {
    && REDACTION in files && LIMITS in files && SUMMARY in files
    && files[REDACTION] == t.redaction && files[LIMITS] == t.limits
    && exists n: nat :: files[SUMMARY] == t.summary(status, n)
  }

  /** The decision context is what these collectors give, or the fallback if they give none. */
  predicate Explained(t: Texts, files: Files, status: Collection, collectors: seq<CollectorStatus>) {
    CONTEXT in files && files[CONTEXT] == match t.context(status, collectors) case Some(text) => text case None =>
        t.fallback
  }

  /** The reports as given, a summary of the status, and a decision context from the collectors of some
      moment before; with files missing the summary may be of the status before the cap. */
  ghost predicate Told(t: Texts, b: Books, status: Collection) {
    && (exists told :: Reported(t, b.files, told) && (Missing(b.files) == {} ==> told == status))
    && exists n :: 0 <= n <= |b.collectors| && Explained(t, b.files, status, b.collectors[..n])
  }

  lemma TellAll(t: Texts, asked: Files, b: Books, status: Collection, told: Collection,
      collectors: seq<CollectorStatus>)
    requires Explained(t, asked, status, collectors) && SameKept(b.files, asked, {REDACTION, LIMITS, SUMMARY})
    requires Reported(t, b.files, told) && (Missing(b.files) == {} ==> told == status) && collectors <= b.collectors
    ensures Told(t, b, status)
  {
    ContextKept(t, asked, b.files, status, collectors);
    hide Reported, Explained, Missing, SameKept;
    assert b.collectors[..|collectors|] == collectors;
  }

  /** A failed decision context goes on record and takes no reason away. */
  lemma Contextual(a: seq<CollectorStatus>, b: seq<CollectorStatus>, error: string, status: Collection)
    requires b == a || b == a + [CollectorStatus("decision_context", "failed", Some(error))]
    requires Honest(a) && Earned(status, a)
    ensures Honest(b) && Earned(status, b)
  {
    MoreNonOk(a, b);
  }

  lemma ReportsKept(t: Texts, a: Files, b: Files, status: Collection)
    requires Reported(t, a, status) && SameKept(b, a, {})
    ensures Reported(t, b, status)
  {
    assert a.Keys + {} == a.Keys && {REDACTION, LIMITS, SUMMARY} <= MANDATORY;
    forall p | p in {REDACTION, LIMITS, SUMMARY} ensures p in b && b[p] == a[p] {
      assert p in a.Keys * MANDATORY;
    }
  }

  lemma ContextKept(t: Texts, a: Files, b: Files, status: Collection, collectors: seq<CollectorStatus>)
    requires Explained(t, a, status, collectors) && SameKept(b, a, {REDACTION, LIMITS, SUMMARY})
    ensures Explained(t, b, status, collectors)
  {
    assert CONTEXT in (a.Keys + {REDACTION, LIMITS, SUMMARY}) * MANDATORY;
    assert CONTEXT !in {REDACTION, LIMITS, SUMMARY};
  }

  lemma WroteKept(files: Files, p: string, content: Bytes)
    ensures SameKept(files[p := content], files, {p})
  {
  }

  lemma KeptAfter(a: Files, b: Files, c: Files, w: set<string>)
    requires SameKept(b, a, w) && SameKept(c, b, {})
    ensures SameKept(c, a, w)
  {
  }

  lemma MoreNonOk(a: seq<CollectorStatus>, b: seq<CollectorStatus>)
    requires a <= b
    ensures NonOk(a) ==> NonOk(b)
  {
    if c :| c in a && c.status != "ok" { assert c in b; }
  }

  const FINALIZATION_FAILED := CollectorStatus("bundle.finalization", "failed", Some("missing_required_bundle_files"))

  /** The review leaves the collectors alone or puts its failure behind them. */
  lemma Reviewed(a: seq<CollectorStatus>, b: seq<CollectorStatus>)
    requires b == a || b == a + [FINALIZATION_FAILED]
    ensures a <= b && (Honest(a) ==> Honest(b))
  {
  }

  lemma SummaryAgain(t: Texts, a: Files, b: Files, was: Collection, status: Collection, n: nat)
    requires Reported(t, a, was) && b == a[SUMMARY := t.summary(status, n)]
    ensures Reported(t, b, status)
  {
    assert SUMMARY != REDACTION && SUMMARY != LIMITS;
  }

  lemma KeptAgain(a: Files, b: Files, c: Files, w: set<string>)
    requires SameKept(b, a, w) && SameKept(c, b, {SUMMARY}) && SUMMARY in w
    ensures SameKept(c, a, w)
  {
  }

  lemma SameMissing(start: Files, a: Files, b: Files, w: set<string>)
    requires SameKept(a, start, w) && SameKept(b, start, w)
    ensures Missing(a) == Missing(b)
  {
    forall p | p in MANDATORY ensures p in a <==> p in b {
      assert p in a <==> p in a.Keys * MANDATORY;
      assert p in b <==> p in b.Keys * MANDATORY;
    }
  }

  lemma MissingSame(a: Files, b: Files)
    requires b.Keys == a.Keys + {MANIFEST}
    ensures Missing(b) == Missing(a)
  {
  }

  /** The review left the status alone. */
  lemma CertifySame(format: Format, limit: nat, fitted: Books, now: Books, status: Collection, protectedMap: bool,
      enforced: Collection)
    requires Pending(format, fitted, enforced, Some(protectedMap)) <= limit
        && (enforced == status || enforced == Partial)
    requires fitted.files == now.files && (Missing(now.files) == {} ==> now == fitted)
    requires status == if Missing(now.files) != {} then Failed
                       else if enforced == Complete && NonOk(now.collectors) then Partial
                       else enforced
    ensures Certified(format, limit, now, status, protectedMap, status)
  {
  }

  /** The review changed it, and the cap was enforced again. */
  lemma CertifyChanged(format: Format, limit: nat, reviewed: Files, now: Books, status: Collection, protectedMap: bool,
      verdict: Collection, r: Collection)
    requires Pending(format, now, r, Some(protectedMap)) <= limit && (r == verdict || r == Partial)
    requires Missing(reviewed) == Missing(now.files) && verdict != status
    requires if Missing(reviewed) != {} then verdict == Failed else verdict == Partial
    ensures Certified(format, limit, now, status, protectedMap, r)
  {
  }

  /** How the status can stand after `rounds` rounds of the outer loop. */
  predicate Progress(present: bool, rounds: nat, status: Collection, stable: bool) {
    && (stable ==> rounds > 0)
    && (rounds == 0 ==> status != Failed)
    && (!stable && rounds > 0 ==>
        if present then rounds == 1 && status == Partial else rounds <= 2 && status != Complete)
    && (!stable && rounds == 2 ==> status == Failed)
    && (present ==> rounds <= 2 && status != Failed)
  }

  lemma Advance(format: Format, limit: nat, now: Books, protectedMap: bool, rounds: nat, status: Collection,
      r: Collection)
    requires rounds < 3 && Progress(Missing(now.files) == {}, rounds, status, false)
    requires Certified(format, limit, now, status, protectedMap, r)
    ensures Progress(Missing(now.files) == {}, rounds + 1, r, r == status)
  {
  }

  lemma MissingAfter(start: Files, now: Files)
    requires SameKept(now, start, WRITTEN)
    ensures Missing(now) == Missing(start) - WRITTEN
    ensures MANIFEST !in start ==> MANIFEST !in now
    ensures PARTIAL_MANIFEST !in start ==> PARTIAL_MANIFEST !in now
  {
    forall p | p in MANDATORY ensures p in now <==> p in start || p in WRITTEN {
      assert p in now.Keys * MANDATORY <==> p in (start.Keys + WRITTEN) * MANDATORY;
    }
  }

  /** What a published directory says of itself is so. */
  ghost predicate Attests(format: Format, limit: nat, files: Files, status: Collection) {
    && Sealed(format, files)
    && var m := format.decode(files[MANIFEST]).value;
    && m.status == status
    && (status == Complete ==> MANDATORY <= files.Keys && !NonOk(m.collectors))
    && (status != Failed ==> Size(files) <= limit)
  }

  lemma {:induction false} SameItems(format: Format, a: Files, b: Files, paths: seq<string>)
    requires forall p :: p in paths ==> p in a && p in b && a[p] == b[p]
    ensures Items(format, a, paths) == Items(format, b, paths)
  {
  }

  lemma NothingMissing(a: Files, b: Files)
    requires Missing(a) == {} && b.Keys == a.Keys + {MANIFEST}
    ensures MANDATORY <= b.Keys
  {
  }

  lemma SealedInPlace(format: Format, b: Books, status: Collection, protectedMap: bool, files: Files)
    requires Faithful(format)
        && files == b.files[MANIFEST := format.encode(Payload(format, b, status, protectedMap)) + NEWLINE]
    ensures Sealed(format, files) && format.decode(files[MANIFEST]) == Some(Payload(format, b, status, protectedMap))
  {
    hide Items, SortedNames;
    assert files.Keys - {MANIFEST} == b.files.Keys - {MANIFEST};
    SameItems(format, files, b.files, SortedNames(b.files.Keys - {MANIFEST}));
  }

  /** The manifest put in place lists the directory it is in, and the directory is as large as was foreseen. */
  lemma ManifestInPlace(format: Format, limit: nat, b: Books, status: Collection, protectedMap: bool, files: Files)
    requires Faithful(format) && PARTIAL_MANIFEST !in b.files && MANIFEST !in b.files
    requires files == WithManifest(b.files, format.encode(Payload(format, b, status, protectedMap)) + NEWLINE)
    requires Certified(format, limit, b, status, protectedMap, status)
    ensures Attests(format, limit, files, status)
    ensures files.Keys == b.files.Keys + {MANIFEST}
    ensures Size(files) == Pending(format, b, status, Some(protectedMap))
  {
    hide Size, Inventory, NonOk, Sealed;
    var text := format.encode(Payload(format, b, status, protectedMap)) + NEWLINE;
    assert b.files - {PARTIAL_MANIFEST} == b.files;
    SizeWith(b.files, MANIFEST, text);
    SealedInPlace(format, b, status, protectedMap, files);
    assert Sealed(format, files);
    if Missing(b.files) == {} {
      NothingMissing(b.files, files);
    }
  }

  /** What a published bundle has in it: of the staged files what is left, unchanged; the four texts; and a
      manifest that tells the status, all collectors and warnings of the writer, and every file. A
      complete one has every mandatory file and only ok collectors. */
  ghost predicate Carries(format: Format, t: Texts, staged: Files, files: Files, collectors: seq<CollectorStatus>,
    warnings: seq<string>, status: Collection, protectedMap: bool)
  {
    && (forall p :: p in files && p !in WRITTEN && p != "manifest.json" ==> p in staged && files[p] == staged[p])
    && Told(t, Books(files, collectors, warnings), status)
    && MANIFEST in files && format.decode(files[MANIFEST]).Some?
    && Tells(format, format.decode(files[MANIFEST]).value, status, collectors, warnings, protectedMap, files)
    && (status == Complete ==> HasMandatory(files) && forall c :: c in collectors ==> c.status == "ok")
  }

  /** The fifteen files a complete bundle has. */
  predicate HasMandatory(files: Files) {
    && "CODEX_INSTRUCTIONS.md" in files && "manifest.json" in files && "bundle_summary.md" in files
    && "decision_report_context.md" in files && "detectors/detector_summary.md" in files
    && "detectors/detector_results.json" in files && "evidence/db/aggregate_metrics.json" in files
    && "evidence/db/alert_quality.json" in files && "evidence/db/anomalies.json" in files
    && "evidence/health/health.json" in files && "evidence/docker/container_state.json" in files
    && "evidence/logs/log_index.json" in files && "evidence/logs/pattern_counts.json" in files
    && "redaction_report.json" in files && "limits.json" in files
  }

  lemma MandatoryIff(files: Files)
    ensures HasMandatory(files) <==> MANDATORY <= files.Keys
  {
  }

  lemma Carried(format: Format, limit: nat, t: Texts, staged: Files, b: Books, status: Collection, protectedMap: bool,
      files: Files)
    requires Faithful(format) && PARTIAL_MANIFEST !in b.files && MANIFEST !in b.files
    requires files == WithManifest(b.files, format.encode(Payload(format, b, status, protectedMap)) + NEWLINE)
    requires SameKept(b.files, staged, WRITTEN) && Told(t, b, status)
    requires Certified(format, limit, b, status, protectedMap, status)
    ensures Carries(format, t, staged, files, b.collectors, b.warnings, status, protectedMap)
  {
    hide Payload, Tells, Told, Certified, Missing, SameKept;
    var text := format.encode(Payload(format, b, status, protectedMap)) + NEWLINE;
    assert b.files - {PARTIAL_MANIFEST} == b.files;
    ManifestTells(format, b, status, protectedMap, files);
    ToldStill(t, b, files, text, status);
    StagedLeft(staged, b.files, files, text);
    if status == Complete { CompleteMeans(format, limit, b, protectedMap, files); }
  }

  lemma CompleteMeans(format: Format, limit: nat, b: Books, protectedMap: bool, files: Files)
    requires Certified(format, limit, b, Complete, protectedMap, Complete) && files.Keys == b.files.Keys + {MANIFEST}
    ensures HasMandatory(files) && forall c :: c in b.collectors ==> c.status == "ok"
  {
    hide HasMandatory;
    NothingMissing(b.files, files);
    MandatoryIff(files);
  }

  lemma ManifestTells(format: Format, b: Books, status: Collection, protectedMap: bool, files: Files)
    requires Faithful(format)
        && files == b.files[MANIFEST := format.encode(Payload(format, b, status, protectedMap)) + NEWLINE]
    ensures format.decode(files[MANIFEST]).Some?
    ensures Tells(format, format.decode(files[MANIFEST]).value, status, b.collectors, b.warnings, protectedMap, files)
  {
    SealedInPlace(format, b, status, protectedMap, files);
    InventoryLists(format, files);
    hide Lists, Inventory;
  }

  lemma StagedLeft(staged: Files, kept: Files, files: Files, text: Bytes)
    requires SameKept(kept, staged, WRITTEN) && files == kept[MANIFEST := text]
    ensures forall p :: p in files && p !in WRITTEN && p != MANIFEST ==> p in staged && files[p] == staged[p]
  {
  }

  lemma ToldStill(t: Texts, b: Books, files: Files, text: Bytes, status: Collection)
    requires Told(t, b, status) && files == b.files[MANIFEST := text]
    ensures Told(t, Books(files, b.collectors, b.warnings), status)
  {
    assert MANIFEST !in {REDACTION, LIMITS, SUMMARY, CONTEXT};
    MissingSame(b.files, files);
    hide Missing;
    var told :| Reported(t, b.files, told) && (Missing(b.files) == {} ==> told == status);
    assert Reported(t, files, told);
    var n :| 0 <= n <= |b.collectors| && Explained(t, b.files, status, b.collectors[..n]);
    assert Explained(t, files, status, b.collectors[..n]);
  }

  lemma Reasons(status: Collection, collectors: seq<CollectorStatus>)
    requires Earned(status, collectors)
    ensures status == Partial ==> exists c :: c in collectors && c.status != "ok"
  {
  }

  lemma SomethingMissing(files: Files)
    ensures Missing(files) != {} ==> exists p :: p in MANDATORY && p !in files
  {
    if Missing(files) != {} {
      var p :| p in Missing(files);
    }
  }

  lemma Placed(format: Format, limit: nat, t: Texts, staged: Files, b: Books, status: Collection, protectedMap: bool,
      files: Files)
    requires Faithful(format) && PARTIAL_MANIFEST !in b.files && MANIFEST !in b.files
    requires files == WithManifest(b.files, format.encode(Payload(format, b, status, protectedMap)) + NEWLINE)
    requires SameKept(b.files, staged, WRITTEN) && Told(t, b, status)
    requires Certified(format, limit, b, status, protectedMap, status)
    ensures Carries(format, t, staged, files, b.collectors, b.warnings, status, protectedMap)
    ensures Attests(format, limit, files, status) && MANIFEST in files && Readable(format, files)
    ensures Missing(files) == Missing(b.files)
    ensures Missing(b.files) != {} ==> !HasMandatory(files)
  {
    hide HasMandatory, Missing, Certified, Told, Carries, SameKept;
    ManifestInPlace(format, limit, b, status, protectedMap, files);
    MissingSame(b.files, files);
    Carried(format, limit, t, staged, b, status, protectedMap, files);
    SomethingMissing(files);
    MandatoryIff(files);
  }

  class Writer {
    const id: string
    const limit: nat
    const format: Format
    ghost const before: map<string, Files>
    var staging: Option<Files>
    var bundles: map<string, Files>
    var published: bool
    var collectors: seq<CollectorStatus>
    var warnings: seq<string>
    ghost var history: seq<Snapshot>

    ghost predicate Valid()
      reads this
    {
      && Faithful(format)
      && history != [] && history[|history| - 1] == Snapshot(staging, bundles)
      && (forall k :: 0 <= k < |history| ==> Good(format, before, id, history[k]))
      && (forall k :: 0 <= k < |history| ==>
          history[k].bundles == before || (published && history[k].bundles == bundles))
      && (if published then staging == None && id in bundles && id !in before else bundles == before)
    }

    /** Between `initialize` and `publish`. */
    predicate Staged()
      reads this
    {
      staging.Some? && !published
    }

    function Current(): Books
      requires Staged()
      reads this
    {
      Books(staging.value, collectors, warnings)
    }

    constructor (id: string, limit: nat, format: Format, bundles: map<string, Files>)
      requires Faithful(format)
      ensures Valid() && this.staging == None && !published && this.bundles == bundles && before == bundles
      ensures this.id == id && this.limit == limit && this.format == format && collectors == [] && warnings == []
    {
      this.id, this.limit, this.format, this.before := id, limit, format, bundles;
      staging, this.bundles, published, collectors, warnings := None, bundles, false, [], [];
      history := [Snapshot(None, bundles)];
    }

    /** One step on the staging directory. */
    method Store(files: Files)
      requires Valid() && !published
      requires MANIFEST in files ==> Readable(format, files)
      modifies this`staging, this`history
      ensures Valid() && staging == Some(files)
      ensures old(history) <= history
    {
      staging := Some(files);
      history := history + [Snapshot(staging, bundles)];
    }

    method Initialize(instructions: Bytes) returns (ok: bool)
      requires Valid() && !published
      modifies this`staging, this`history
      ensures Valid() && old(history) <= history
      ensures ok == old(staging).None?
      ensures staging == if ok then Some(map["CODEX_INSTRUCTIONS.md" := instructions]) else old(staging)
    {
      ok := staging.None?;
      if ok {
        Store(map[]);
        Write("CODEX_INSTRUCTIONS.md", instructions);
      }
    }

    /** Written in place: a stop may leave any prefix. */
    method Write(path: string, content: Bytes)
      requires Valid() && Staged() && path != MANIFEST
      modifies this`staging, this`history
      ensures Valid() && old(history) <= history
      ensures staging == Some(old(staging).value[path := content])
    {
      var files := staging.value;
      var written: nat :| written <= |content|;
      Store(files[path := content[..written]]);
      Store(files[path := content]);
    }

    method Unlink(path: string)
      requires Valid() && Staged() && path != MANIFEST
      modifies this`staging, this`history
      ensures Valid() && old(history) <= history
      ensures staging == Some(old(staging).value - {path})
    {
      Store(staging.value - {path});
    }

    method AddStatus(name: string, status: string, error: Option<string>)
      modifies this`collectors, this`warnings
      ensures collectors == old(collectors) + [CollectorStatus(name, status, error)]
      ensures warnings == if status != "ok" && error.Some? && error.value != ""
          then old(warnings) + [name + ": " + error.value] else old(warnings)
    {
      collectors := collectors + [CollectorStatus(name, status, error)];
      if status != "ok" && error.Some? && error.value != "" {
        warnings := warnings + [name + ": " + error.value];
      }
    }

    method BundleSize() returns (size: nat)
      requires Staged()
      ensures size == Size(staging.value)
    {
      size := 0;
      var rest := staging.value.Keys;
      while rest != {}
        invariant rest <= staging.value.Keys
        invariant size + Sum(staging.value, rest) == Size(staging.value)
      {
        var name :| name in rest;
        SumSplit(staging.value, rest, name);
        size := size + |staging.value[name]|;
        rest := rest - {name};
      }
    }

    method ManifestPayload(status: Collection, protectedMap: bool) returns (m: Manifest)
      requires Staged()
      ensures m == Payload(format, Current(), status, protectedMap)
      ensures Tells(format, m, status, collectors, warnings, protectedMap, staging.value)
    {
      hide Lists;
      var files := staging.value;
      var order := SortedNames(files.Keys);
      var items: seq<Item> := [];
      for i := 0 to |order|
        invariant items == Rows(format, files, order[..i])
      {
        assert order[..i + 1] == order[..i] + [order[i]];
        RowsSnoc(format, files, order[..i], order[i]);
        if order[i] != MANIFEST {
          items := items + [ItemOf(format, files, order[i])];
        }
      }
      assert order[..|order|] == order;
      RowsSorted(format, files, files.Keys);
      m := Manifest(status, collectors, Some(items), protectedMap, warnings);
      InventoryLists(format, files);
    }

    method PendingSize(status: Collection, protectedMap: Option<bool>) returns (size: nat)
      requires Staged()
      ensures size == Pending(format, Current(), status, protectedMap)
    {
      size := BundleSize();
      if protectedMap.Some? {
        var m := ManifestPayload(status, protectedMap.value);
        size := size + |format.encode(m)| + 1;
      }
    }

    /** What `Finalize` needs of `Enforce`. */
    method Cap(status: Collection, protectedMap: bool) returns (r: Option<Collection>)
      requires Valid() && Staged()
      modifies this`staging, this`collectors, this`warnings, this`history
      ensures Valid() && Staged() && old(history) <= history
      ensures SameKept(staging.value, old(staging).value, {})
      ensures r.Some? ==>
          Pending(format, Current(), r.value, Some(protectedMap)) <= limit && (r.value == status || r.value == Partial)
      ensures r.None? ==> Stuck(format, limit, Current(), Some(protectedMap))
      ensures old(collectors) <= collectors && (Honest(old(collectors)) ==> Honest(collectors))
      ensures Honest(old(collectors)) && r == Some(Partial) && status != Partial ==> NonOk(collectors)
    {
      hide Enforced, Pending, Good, Candidates, SameKept, Honest, NonOk;
      ghost var b := Current();
      ghost var k;
      r, k := Enforce(status, Some(protectedMap));
      EnforcedKeeps(format, limit, b, Candidates(b.files), status, Some(protectedMap), Current(), r, k);
      EnforcedFits(format, limit, b, Candidates(b.files), status, Some(protectedMap), Current(), r, k);
      EnforcedStatus(format, limit, b, Candidates(b.files), status, Some(protectedMap), Current(), r, k);
      if r.None? { NothingLeft(format, limit, b, status, Some(protectedMap), Current(), k); }
    }

    method RecordSizeLimitStatus()
      modifies this`collectors
      ensures collectors == WithSizeStatus(old(collectors))
    {
      if exists c :: c in collectors && c.name == SIZE_LIMIT { return; }
      collectors := collectors + [CollectorStatus(SIZE_LIMIT, "partial", Some("bundle hard cap exceeded"))];
    }

    method SetSizeWarning(warning: string)
      modifies this`warnings
      ensures warnings == WithSizeWarning(old(warnings), warning)
    {
      warnings := NoSizeWarnings(warnings) + [warning];
    }

    /** `_collection_status_after_size_enforcement`; `None` is `BundleSizeLimitError`. `k` counts the
        existing candidates dropped, in priority order. */
    method Enforce(status: Collection, protectedMap: Option<bool>) returns (r: Option<Collection>, ghost k: nat)
      requires Valid() && Staged()
      modifies this`staging, this`collectors, this`warnings, this`history
      ensures Valid() && Staged() && old(history) <= history
      ensures Enforced(format, limit, old(Current()), Candidates(old(staging).value), status, protectedMap, Current(),
          r, k)
      // giving up is said in the one size warning, with the size that was still too much
      ensures r.None? ==> exists size: nat, others ::
                && size > limit && (forall w :: w in others ==> !SizeWarning(w))
                && warnings == others + ["bundle_size_exceeded: " + "bundle is " + Decimal(size)
                                         + " bytes, over hard cap " + Decimal(limit) + " bytes"]
      ensures r.None? ==> exists ws :: Pending(format, Current().(warnings := ws), Partial, protectedMap) > limit
    {
      hide Pending, Enforced, Midway, Candidates, WithSizeStatus, WithSizeWarning, Good, NoSizeWarnings, SizeWarning,
          Decimal;
      k := 0;
      var size := PendingSize(status, protectedMap);
      if size <= limit {
        Untouched(format, limit, Current(), Candidates(staging.value), status, protectedMap);
        return Some(status), 0;
      }
      ghost var b := Current();
      var candidates := Candidates(staging.value);
      RecordSizeLimitStatus();
      var dropped: seq<string> := [];
      var i := 0;
      ghost var named: nat := 0;
      Start(format, limit, b, candidates, protectedMap);
      while true
        invariant Valid() && Staged() && old(history) <= history
        invariant i <= |candidates| && Midway(format, limit, b, candidates, protectedMap, Current(), i, dropped, named)
        decreases |candidates| - i, if DropWarning(dropped) in warnings then 0 else 1
      {
        k := |dropped|;
        size := PendingSize(Partial, protectedMap);
        if size <= limit {
          if dropped != [] {
            var warning := DROPPED + Join(dropped);
            if warning !in warnings {
              Named(format, limit, b, candidates, protectedMap, Current(), i, dropped, named);
              SetSizeWarning(warning);
              named := k;
              continue;
            }
          }
          FitsNow(format, limit, b, candidates, status, protectedMap, Current(), i, dropped, named);
          return Some(Partial), k;
        }
        if i == |candidates| {
          Exhausted(format, limit, b, candidates, status, protectedMap, Current(), i, dropped, named);
          ghost var others := NoSizeWarnings(warnings);
          var warning := EXCEEDED + "bundle is " + Decimal(size) + " bytes, over hard cap " + Decimal(limit) + " bytes";
          WithSizeWarningLast(warnings, warning);
          ghost var weighed := Current();
          SetSizeWarning(warning);
          assert warnings == others + [warning] && Current().(warnings := weighed.warnings) == weighed;
          return None, k;
        }
        Advanced(format, limit, b, candidates, protectedMap, Current(), i, dropped, named);
        var candidate := candidates[i];
        i := i + 1;
        if candidate in staging.value {
          Unlink(candidate);
          dropped := dropped + [candidate];
        }
      }
    }

    method WriteSummary(t: Texts, status: Collection)
      requires Valid() && Staged()
      modifies this`staging, this`history
      ensures Valid() && Staged() && old(history) <= history
      ensures SameKept(staging.value, old(staging).value, {SUMMARY})
      ensures staging.value == old(staging).value[SUMMARY := t.summary(status, |collectors|)]
    {
      hide Good;
      Write(SUMMARY, t.summary(status, |collectors|));
      WroteKept(old(staging).value, SUMMARY, t.summary(status, |collectors|));
    }

    method WriteReports(t: Texts, status: Collection)
      requires Valid() && Staged()
      modifies this`staging, this`history
      ensures Valid() && Staged() && old(history) <= history
      ensures SameKept(staging.value, old(staging).value, {REDACTION, LIMITS, SUMMARY})
      ensures Reported(t, staging.value, status)
    {
      hide Good, SameKept;
      ghost var a := staging.value;
      Write(REDACTION, t.redaction);
      WroteKept(a, REDACTION, t.redaction);
      ghost var b := staging.value;
      Write(LIMITS, t.limits);
      WroteKept(b, LIMITS, t.limits);
      ghost var c := staging.value;
      KeptThrough(a, b, c, {REDACTION}, {LIMITS});
      WriteSummary(t, status);
      KeptThrough(a, c, staging.value, {REDACTION} + {LIMITS}, {SUMMARY});
      assert {REDACTION} + {LIMITS} + {SUMMARY} == {REDACTION, LIMITS, SUMMARY};
    }

    method WriteDecisionContext(t: Texts, status: Collection)
      requires Valid() && Staged()
      modifies this`staging, this`collectors, this`warnings, this`history
      ensures Valid() && Staged() && old(history) <= history
      ensures SameKept(staging.value, old(staging).value, {CONTEXT})
      ensures Explained(t, staging.value, status, old(collectors))
      ensures collectors == old(collectors) + if t.context(status, old(collectors)).Some? then []
                            else [CollectorStatus("decision_context", "failed", Some(t.contextError))]
      ensures warnings == old(warnings) + if t.context(status, old(collectors)).Some? || t.contextError == "" then []
                            else ["decision_context" + ": " + t.contextError]
    {
      hide Good;
      var text := t.context(status, collectors);
      if text.None? {
        AddStatus("decision_context", "failed", Some(t.contextError));
        Write(CONTEXT, t.fallback);
        WroteKept(old(staging).value, CONTEXT, t.fallback);
      } else {
        Write(CONTEXT, text.value);
        WroteKept(old(staging).value, CONTEXT, text.value);
      }
    }

    /** The status after looking for missing files and failed collectors. */
    method Review(enforced: Collection) returns (r: Collection)
      requires Staged()
      modifies this`collectors, this`warnings
      ensures Missing(staging.value) != {} ==>
                && r == Failed
                && collectors == old(collectors) + [FINALIZATION_FAILED]
                && warnings == old(warnings) + ["bundle.finalization" + ": " + "missing_required_bundle_files",
                     "bundle_finalization_missing_required_files: " + Join(SortedNames(Missing(staging.value)))]
      ensures Missing(staging.value) == {} ==> collectors == old(collectors) && warnings == old(warnings)
                                               && r == if enforced == Complete && NonOk(collectors) then Partial
                                                   else enforced
    {
      r := enforced;
      var missing := Missing(staging.value);
      if missing != {} {
        AddStatus("bundle.finalization", "failed", Some("missing_required_bundle_files"));
        warnings := warnings + ["bundle_finalization_missing_required_files: " + Join(SortedNames(missing))];
        r := Failed;
      } else if r == Complete && NonOk(collectors) {
        r := Partial;
      }
    }

    /** The first half of `finalize`: the cap, then the look for missing files and failed collectors. */
    method FitAndReview(status: Collection, protectedMap: bool) returns (r: Option<Collection>)
      requires Valid() && Staged()
      modifies this`staging, this`collectors, this`warnings, this`history
      ensures Valid() && Staged() && old(history) <= history
      ensures r.None? ==> Stuck(format, limit, Current(), Some(protectedMap))
      ensures SameKept(staging.value, old(staging).value, {})
      ensures r == Some(status) ==> Certified(format, limit, Current(), status, protectedMap, status)
      ensures r.Some? && r.value != status ==> r.value == if Missing(staging.value) != {} then Failed else Partial
      ensures old(collectors) <= collectors && (Honest(old(collectors)) ==> Honest(collectors))
      ensures Honest(old(collectors)) && Earned(status, old(collectors)) && r.Some? ==> Earned(r.value, collectors)
    {
      hide Stuck, Enforced, Pending, Good, Candidates, SameKept, Certified, Missing, NonOk, Honest;
      ghost var cs := collectors;
      r := Cap(status, protectedMap);
      if r.None? { return; }
      ghost var fitted := Current();
      MoreNonOk(cs, collectors);
      var verdict := Review(r.value);
      Reviewed(fitted.collectors, collectors);
      MoreNonOk(fitted.collectors, collectors);
      if verdict == status {
        CertifySame(format, limit, fitted, Current(), status, protectedMap, r.value);
      }
      r := Some(verdict);
    }

    /** `finalize(publish_manifest=False)`; `None` is `BundleSizeLimitError`. */
    method Finalize(t: Texts, status: Collection, protectedMap: bool) returns (r: Option<Collection>)
      requires Valid() && Staged()
      modifies this`staging, this`collectors, this`warnings, this`history
      ensures Valid() && Staged() && old(history) <= history
      ensures r.None? ==> Stuck(format, limit, Current(), Some(protectedMap))
      ensures SameKept(staging.value, old(staging).value, {REDACTION, LIMITS, SUMMARY})
      ensures r.Some? ==> Certified(format, limit, Current(), status, protectedMap, r.value)
      ensures old(collectors) <= collectors && (Honest(old(collectors)) ==> Honest(collectors))
      ensures Honest(old(collectors)) && Earned(status, old(collectors)) && r.Some? ==> Earned(r.value, collectors)
      // the summary is of the final status, unless files are missing
      ensures r.Some? ==> exists told ::
                Reported(t, staging.value, told) && (Missing(staging.value) == {} ==> told == r.value)
    {
      hide Stuck, Enforced, Pending, Good, Candidates, SameKept, Certified, Missing, NonOk, Reported, Honest;
      ghost var start := staging.value;
      ghost var reports := {REDACTION, LIMITS, SUMMARY};
      WriteReports(t, status);
      ghost var written := staging.value;
      r := FitAndReview(status, protectedMap);
      KeptAfter(start, written, staging.value, reports);
      if r.None? { return; }
      ReportsKept(t, written, staging.value, status);
      if r.value == status { return; }
      var verdict := r.value;
      ghost var reviewed, reviewedBy := staging.value, collectors;
      WriteSummary(t, verdict);
      KeptAgain(start, reviewed, staging.value, reports);
      SummaryAgain(t, reviewed, staging.value, status, verdict, |collectors|);
      ghost var summarized := staging.value;
      r := Cap(verdict, protectedMap);
      KeptAfter(start, summarized, staging.value, reports);
      MoreNonOk(reviewedBy, collectors);
      if r.Some? {
        ReportsKept(t, summarized, staging.value, verdict);
        SameMissing(start, reviewed, staging.value, reports);
        CertifyChanged(format, limit, reviewed, Current(), status, protectedMap, verdict, r.value);
      }
    }

    /** `write_manifest`: written beside its place and then moved there. */
    method WriteManifest(status: Collection, protectedMap: bool)
      requires Valid() && Staged()
      modifies this`staging, this`history
      ensures Valid() && Staged() && old(history) <= history
      ensures staging.value
          == WithManifest(old(staging).value, format.encode(Payload(format, old(Current()), status, protectedMap))
          + NEWLINE)
    {
      var m := ManifestPayload(status, protectedMap);
      var text := format.encode(m) + NEWLINE;
      Write(PARTIAL_MANIFEST, text);
      Store(WithManifest(staging.value, text));
    }

    /** The rename is the only step that touches the published bundles. */
    method Publish() returns (r: Publication)
      requires Valid()
      modifies this`staging, this`bundles, this`published, this`history
      ensures Valid() && old(history) <= history
      ensures r == if old(published) then AlreadyPublished
                   else if old(staging).None? || MANIFEST !in old(staging).value then NoManifest
                   else if id in old(bundles) then Taken
                   else Renamed
      ensures r == Renamed ==> published && bundles == old(bundles)[id := old(staging).value]
      ensures r != Renamed ==> bundles == old(bundles) && published == old(published) && staging == old(staging)
    {
      if published { return AlreadyPublished; }
      if staging.None? || MANIFEST !in staging.value { return NoManifest; }
      if id in bundles { return Taken; }
      bundles := bundles[id := staging.value];
      staging, published := None, true;
      history := history + [Snapshot(staging, bundles)];
      r := Renamed;
    }

    /** One round: the decision context for the status asked for, then `finalize`. */
    method Round(t: Texts, status: Collection, protectedMap: bool) returns (r: Option<Collection>)
      requires Valid() && Staged()
      modifies this`staging, this`collectors, this`warnings, this`history
      ensures Valid() && Staged() && old(history) <= history
      ensures r.None? ==> Stuck(format, limit, Current(), Some(protectedMap))
      ensures SameKept(staging.value, old(staging).value, WRITTEN)
      ensures r.Some? ==> Certified(format, limit, Current(), status, protectedMap, r.value)
      ensures Honest(old(collectors)) && Earned(status, old(collectors)) ==>
                Honest(collectors) && (r.Some? ==> Earned(r.value, collectors))
      ensures r == Some(status) ==> Told(t, Current(), status)
    {
      hide Stuck, Good, Certified, SameKept, Missing, Honest, Earned, Told, Reported, Explained, NonOk;
      ghost var start, cs := staging.value, collectors;
      WriteDecisionContext(t, status);
      if Honest(cs) && Earned(status, cs) { Contextual(cs, collectors, t.contextError, status); }
      ghost var asked := staging.value;
      r := Finalize(t, status, protectedMap);
      KeptThrough(start, asked, staging.value, {CONTEXT}, {REDACTION, LIMITS, SUMMARY});
      assert {CONTEXT} + {REDACTION, LIMITS, SUMMARY} == WRITTEN;
      if r == Some(status) {
        ghost var told :| Reported(t, staging.value, told) && (Missing(staging.value) == {} ==> told == status);
        TellAll(t, asked, Current(), status, told, cs);
      }
    }

    /** The outer loop of `_collect`. */
    method Settle(t: Texts, protectedMap: bool) returns (r: Settling, rounds: nat)
      requires Valid() && Staged()
      modifies this`staging, this`collectors, this`warnings, this`history
      ensures Valid() && Staged() && old(history) <= history
      ensures r.TooLarge? ==> Stuck(format, limit, Current(), Some(protectedMap))
      ensures rounds <= 3 && r != Unstable
      ensures Missing(old(staging).value) <= WRITTEN ==> rounds <= 2
      ensures r.Settled? ==> SameKept(staging.value, old(staging).value, WRITTEN)
      ensures r.Settled? ==> Certified(format, limit, Current(), r.status, protectedMap, r.status)
      ensures r.Settled? && Honest(old(collectors)) ==> Earned(r.status, collectors)
      ensures r.Settled? && r.status == Failed ==> Missing(staging.value) != {}
      ensures r.Settled? ==> Told(t, Current(), r.status)
    {
      assert SameKept(staging.value, staging.value, {});
      ghost var honest := Honest(collectors);
      rounds := 0;
      var status := if NonOk(collectors) then Partial else Complete;
      assert Earned(status, collectors);
      hide Stuck, Good, Certified, SameKept, Missing, Honest, Earned, Told, NonOk;
      var stable := false;
      ghost var start := staging.value;
      ghost var missing := Missing(start) - WRITTEN;
      while rounds < 3 && !stable
        invariant Valid() && Staged() && old(history) <= history
        invariant rounds <= 3 && Progress(missing == {}, rounds, status, stable)
        invariant SameKept(staging.value, start, if rounds == 0 then {} else WRITTEN)
        invariant stable ==> rounds > 0 && Certified(format, limit, Current(), status, protectedMap, status)
        invariant honest ==> Honest(collectors) && Earned(status, collectors)
        invariant stable ==> Told(t, Current(), status)
        decreases 3 - rounds, !stable
      {
        ghost var files := staging.value;
        ghost var soFar := if rounds == 0 then {} else WRITTEN;
        var finalized := Round(t, status, protectedMap);
        KeptThrough(start, files, staging.value, soFar, WRITTEN);
        assert soFar + WRITTEN == WRITTEN;
        if finalized.None? { return TooLarge, rounds + 1; }
        MissingAfter(start, staging.value);
        Advance(format, limit, Current(), protectedMap, rounds, status, finalized.value);
        rounds := rounds + 1;
        stable := finalized.value == status;
        status := finalized.value;
      }
      r := if stable then Settled(status) else Unstable;
      if stable { MissingAfter(start, staging.value); }
    }

    /** The end of `_collect`: settle the status, then publish. */
    method Conclude(t: Texts, protectedMap: bool) returns (r: Result, rounds: nat)
      requires Valid() && Staged() && MANIFEST !in staging.value && PARTIAL_MANIFEST !in staging.value
      modifies this
      ensures Valid() && old(history) <= history
      ensures rounds <= 3 && r != NotStable
      ensures Missing(old(staging).value) <= WRITTEN ==> rounds <= 2
      ensures r.Published? ==>
          published && bundles == before[id := r.files] && Attests(format, limit, r.files, r.status)
      ensures r.Published? ==> Missing(r.files) == Missing(old(staging).value) - WRITTEN
      ensures !r.Published? ==> bundles == before
      // it is given up only over the cap with nothing left to drop, or refused for a name that is taken
      ensures r == OverCap ==> Staged() && Stuck(format, limit, Current(), Some(protectedMap))
      ensures r == Refused <==> r != OverCap && id in before
      ensures r.Published? ==>
          Carries(format, t, old(staging).value, r.files, collectors, warnings, r.status, protectedMap)
      ensures r.Published? && r.status == Partial && Honest(old(collectors)) ==>
          exists c :: c in collectors && c.status != "ok"
      ensures r.Published? && r.status == Failed ==> !HasMandatory(r.files)
      // wherever a stop falls, the published tree is the old one or the old one with this whole bundle
      ensures forall k :: 0 <= k < |history| ==>
          history[k].bundles == before || (r.Published? && history[k].bundles == before[id := r.files])
    {
      hide Stuck, Good, Certified, SameKept, Missing, Attests, Carries, HasMandatory, Told, Earned, Honest, NonOk;
      ghost var start, honest := staging.value, Honest(collectors);
      var s: Settling;
      s, rounds := Settle(t, protectedMap);
      if !s.Settled? { return if s.TooLarge? then OverCap else NotStable, rounds; }
      MissingAfter(start, staging.value);
      ghost var b := Current();
      WriteManifest(s.status, protectedMap);
      var files := staging.value;
      Placed(format, limit, t, start, b, s.status, protectedMap, files);
      if honest { Reasons(s.status, collectors); }
      var p := Publish();
      r := if p == Renamed then Published(s.status, files) else Refused;
    }
  }

  // ---------- the inventory loop

  function Rows(format: Format, files: Files, names: seq<string>): seq<Item>
    requires forall n :: n in names ==> n in files
  {
    if names == [] then []
    else if names[0] == MANIFEST then Rows(format, files, names[1..])
    else [ItemOf(format, files, names[0])] + Rows(format, files, names[1..])
  }

  lemma {:induction false} RowsSnoc(format: Format, files: Files, names: seq<string>, x: string)
    requires x in files && forall n :: n in names ==> n in files
    ensures Rows(format, files, names + [x])
         == if x == MANIFEST then Rows(format, files, names)
             else Rows(format, files, names) + [ItemOf(format, files, x)]
  {
    if names != [] {
      assert (names + [x])[1..] == names[1..] + [x];
      RowsSnoc(format, files, names[1..], x);
    }
  }

  lemma {:induction false} RowsAll(format: Format, files: Files, names: seq<string>)
    requires MANIFEST !in names && forall n :: n in names ==> n in files
    ensures Rows(format, files, names) == Items(format, files, names)
  {
    if names != [] {
      RowsAll(format, files, names[1..]);
    }
  }

  /** Skipping the manifest while walking the sorted files is sorting the files without it. */
  lemma {:induction false} RowsSorted(format: Format, files: Files, names: set<string>)
    requires names <= files.Keys
    ensures Rows(format, files, SortedNames(names)) == Items(format, files, SortedNames(names - {MANIFEST}))
  {
    if names != {} {
      var m := LeastOf(names);
      if m == MANIFEST {
        RowsAll(format, files, SortedNames(names - {m}));
      } else {
        RowsSorted(format, files, names - {m});
        assert m in names - {MANIFEST};
        LeastUnique(names - {MANIFEST}, m, LeastOf(names - {MANIFEST}));
        assert names - {m} - {MANIFEST} == names - {MANIFEST} - {m};
      }
    }
  }
}
