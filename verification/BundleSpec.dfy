/**
 * What a bundle directory and its manifest are, and what enforcing the size cap should do to them
 * (ops_agent/bundle.py). The imperative form is in BundleWriter.dfy.
 *
 * JSON text and SHA-256 are parameters; `Faithful` and `Growing` state what is used of them.
 */
module BundleSpec {
  import opened Prelude
  import opened TextOrder

  newtype Byte = x: int | 0 <= x < 256
  type Bytes = seq<Byte>
  type Files = map<string, Bytes>

  datatype Collection = Complete | Partial | Failed

  datatype CollectorStatus = CollectorStatus(name: string, status: string, error: Option<string>)

  /** An inventory entry as a reader may find it; the writer produces only `Listed` ones. */
  datatype Item = NotAnObject | NoPath | Listed(path: string, bytes: nat, sha256: Option<string>, isProtected: bool)

  /** The manifest without the fields that are fixed for one bundle; a reader may find no inventory list. */
  datatype Manifest = Manifest(
    status: Collection, collectors: seq<CollectorStatus>, inventory: Option<seq<Item>>, protectedMap: bool,
        warnings: seq<string>)

  datatype Format = Format(encode: Manifest -> Bytes, decode: Bytes -> Option<Manifest>, digest: Bytes -> string)

  const MANIFEST := "manifest.json"
  const PARTIAL_MANIFEST := "manifest.json.tmp"
  const EXCERPTS := "evidence/logs/excerpts/"
  const TAIL := ".tail-context.redacted.log"
  const PERIOD := ".period.redacted.log"
  const DROPPED := "bundle_size_pressure_dropped_files: "
  const EXCEEDED := "bundle_size_exceeded: "
  const SIZE_LIMIT := "bundle.size_limit"
  const NEWLINE: Bytes := [10]

  const MANDATORY: set<string> := {
    "CODEX_INSTRUCTIONS.md", "manifest.json", "bundle_summary.md", "decision_report_context.md",
    "detectors/detector_summary.md", "detectors/detector_results.json",
    "evidence/db/aggregate_metrics.json", "evidence/db/alert_quality.json", "evidence/db/anomalies.json",
    "evidence/health/health.json", "evidence/docker/container_state.json",
    "evidence/logs/log_index.json", "evidence/logs/pattern_counts.json",
    "redaction_report.json", "limits.json"
  }

  const RAW_SAMPLES := "evidence/db/raw_llm_samples.redacted.json"
  const TIMELINES: seq<string> :=
      ["evidence/db/event_analysis_decision_timeline.json", "evidence/db/alert_similarity_groups.json"]
  const FINGERPRINTS: seq<string> := [
    "evidence/db/alert_content_fingerprints.json", "evidence/db/backend_suppression_effectiveness.json",
    "evidence/db/event_identity_quality.json"]
  const RECENT: seq<string> := ["evidence/db/recent_market_events.json", "evidence/db/recent_news_failures.json"]
  const STATES: seq<string> := [
    "evidence/local_state/legacy_state_snapshot.json", "evidence/local_state/ops_agent_state_snapshot.json"]

  /** What the manifest's text must do: read back as written, whatever follows the last brace. */
  ghost predicate Faithful(format: Format) {
    forall m :: format.decode(format.encode(m) + NEWLINE) == Some(m)
  }

  function Weight(format: Format, m: Manifest, warnings: seq<string>): nat {
    |format.encode(m.(warnings := warnings))|
  }

  /** A manifest does not get shorter when a warning is added, or when its last warning is continued. */
  ghost predicate Growing(format: Format) {
    && (forall m: Manifest, ws: seq<string>, w: string {:trigger Weight(format, m, ws + [w])} ::
          Weight(format, m, ws) <= Weight(format, m, ws + [w]))
    && (forall m: Manifest, ws: seq<string>, v: string, w: string
        {:trigger Weight(format, m, ws + [v]), Weight(format, m, ws + [w])} ::
          v <= w ==> Weight(format, m, ws + [v]) <= Weight(format, m, ws + [w]))
  }

  /** SHA-256 taken as injective (FIPS 180-4 gives no more than collision resistance). */
  ghost predicate Distinguishing(format: Format) {
    forall a, b :: format.digest(a) == format.digest(b) ==> a == b
  }

  // ---------- sizes

  function Sum(files: Files, names: set<string>): nat
    requires names <= files.Keys
  {
    if names == {} then 0
    else
      var name := LeastOf(names);
      |files[name]| + Sum(files, names - {name})
  }

  function Size(files: Files): nat {
    Sum(files, files.Keys)
  }

  lemma {:induction false} SumSplit(files: Files, names: set<string>, x: string)
    requires names <= files.Keys && x in names
    ensures Sum(files, names) == |files[x]| + Sum(files, names - {x})
  {
    var m := LeastOf(names);
    if m != x {
      SumSplit(files, names - {m}, x);
      assert m in names - {x};
      LeastUnique(names - {x}, m, LeastOf(names - {x}));
      assert names - {m} - {x} == names - {x} - {m};
    }
  }

  lemma {:induction false} SumSame(a: Files, b: Files, names: set<string>)
    requires names <= a.Keys && names <= b.Keys
    requires forall x :: x in names ==> |a[x]| == |b[x]|
    ensures Sum(a, names) == Sum(b, names)
  {
    if names != {} {
      SumSame(a, b, names - {LeastOf(names)});
    }
  }

  /** A file adds exactly its own bytes to the bundle, and an empty one has none. */
  lemma SizeWith(files: Files, path: string, content: Bytes)
    requires path !in files
    ensures Size(files[path := content]) == Size(files) + |content| && Size(map[]) == 0
  {
    var more := files[path := content];
    SumSplit(more, more.Keys, path);
    assert more.Keys - {path} == files.Keys;
    SumSame(more, files, files.Keys);
  }

  // ---------- the manifest that a directory would get

  predicate StartsWith(s: string, prefix: string) {
    |prefix| <= |s| && s[..|prefix|] == prefix
  }

  function ItemOf(format: Format, files: Files, path: string): Item
    requires path in files
  {
    Listed(path, |files[path]|, Some(format.digest(files[path])), StartsWith(path, "private/"))
  }

  function Items(format: Format, files: Files, paths: seq<string>): (items: seq<Item>)
    requires forall p :: p in paths ==> p in files
    ensures |items| == |paths|
    ensures forall k :: 0 <= k < |items| ==> items[k] == ItemOf(format, files, paths[k])
  {
    if paths == [] then [] else [ItemOf(format, files, paths[0])] + Items(format, files, paths[1..])
  }

  /** Every file but the manifest, in path order. */
  function Inventory(format: Format, files: Files): seq<Item> {
    Items(format, files, SortedNames(files.Keys - {MANIFEST}))
  }

  /** The part of a bundle in preparation that its manifest speaks of. */
  datatype Books = Books(files: Files, collectors: seq<CollectorStatus>, warnings: seq<string>)

  function Payload(format: Format, b: Books, status: Collection, protectedMap: bool): Manifest {
    Manifest(status, b.collectors, Some(Inventory(format, b.files)), protectedMap, b.warnings)
  }

  /** The files together with the manifest still to be written. */
  function Pending(format: Format, b: Books, status: Collection, protectedMap: Option<bool>): nat {
    Size(b.files) + if protectedMap.Some? then |format.encode(Payload(format, b, status, protectedMap.value))| + 1
        else 0
  }

  // ---------- what a manifest says, entry by entry

  /** An entry gives a file's path, its bytes, its digest, and whether it is private. */
  predicate EntryOf(format: Format, files: Files, item: Item) {
    && item.Listed? && item.path in files && item.path != "manifest.json"
    && item.bytes == |files[item.path]| && item.sha256 == Some(format.digest(files[item.path]))
    && (item.isProtected <==> "private/" <= item.path)
  }

  /** One entry per file but the manifest, in path order. */
  ghost predicate Lists(format: Format, files: Files, items: seq<Item>) {
    && (forall k :: 0 <= k < |items| ==> EntryOf(format, files, items[k]))
    && (forall p :: p in files && p != "manifest.json" ==>
        exists k :: 0 <= k < |items| && items[k].Listed? && items[k].path == p)
    && forall j, k :: 0 <= j < k < |items| && items[j].Listed? && items[k].Listed? ==>
         items[j].path != items[k].path && TextLeq(items[j].path, items[k].path)
  }

  /** The manifest says this status, these collectors and warnings, and lists these files. */
  ghost predicate Tells(format: Format, m: Manifest, status: Collection, collectors: seq<CollectorStatus>,
      warnings: seq<string>, protectedMap: bool, files: Files)
  {
    && m.status == status && m.collectors == collectors && m.warnings == warnings && m.protectedMap == protectedMap
    && m.inventory.Some? && Lists(format, files, m.inventory.value)
  }

  lemma EntryRight(format: Format, files: Files, path: string)
    requires path in files && path != MANIFEST
    ensures EntryOf(format, files, ItemOf(format, files, path)) && ItemOf(format, files, path).path == path
  {
  }

  lemma InventoryLists(format: Format, files: Files)
    ensures Lists(format, files, Inventory(format, files))
  {
    var paths := SortedNames(files.Keys - {MANIFEST});
    var items := Inventory(format, files);
    hide SortedNames, Items, ItemOf, EntryOf, TextLeq;
    forall k | 0 <= k < |items|
      ensures EntryOf(format, files, items[k]) && items[k].Listed? && items[k].path == paths[k] {
      assert paths[k] in paths;
      EntryRight(format, files, paths[k]);
      IsListed(format, files, paths[k]);
    }
    forall p | p in files && p != MANIFEST
      ensures exists k :: 0 <= k < |items| && items[k].Listed? && items[k].path == p {
      assert p in paths;
      var k :| 0 <= k < |paths| && paths[k] == p;
    }
  }

  lemma IsListed(format: Format, files: Files, path: string)
    requires path in files
    ensures ItemOf(format, files, path).Listed?
  {
  }

  /** What is weighed against the cap: the files, and the manifest telling of them as they now are, with
      every warning, and its newline. */
  lemma PendingCounts(format: Format, b: Books, status: Collection, protectedMap: Option<bool>)
    ensures protectedMap.None? ==> Pending(format, b, status, protectedMap) == Size(b.files)
    ensures protectedMap.Some? ==> exists m ::
              && Tells(format, m, status, b.collectors, b.warnings, protectedMap.value, b.files)
              && Pending(format, b, status, protectedMap) == Size(b.files) + |format.encode(m)| + 1
  {
    InventoryLists(format, b.files);
    if protectedMap.Some? {
      assert Tells(format, Payload(format, b, status, protectedMap.value), status, b.collectors, b.warnings,
          protectedMap.value, b.files);
    }
  }

  // ---------- what is dropped

  predicate Excerpt(path: string, suffix: string) {
    && StartsWith(path, EXCERPTS)
    && |EXCERPTS| + |suffix| <= |path|
    && path[|path| - |suffix|..] == suffix
    && '/' !in path[|EXCERPTS|..]
  }

  function Excerpts(files: Files, suffix: string): seq<string> {
    SortedNames(set p | p in files && Excerpt(p, suffix))
  }

  function Droppable(names: seq<string>): (r: seq<string>)
    ensures forall x :: x in r <==> x in names && x !in MANDATORY
  {
    if names == [] then [] else (if names[0] in MANDATORY then [] else [names[0]]) + Droppable(names[1..])
  }

  function Candidates(files: Files): (r: seq<string>)
    ensures forall x :: x in r ==> x !in MANDATORY
  {
    Droppable([RAW_SAMPLES] + TIMELINES + FINGERPRINTS + Excerpts(files, TAIL) + Excerpts(files, PERIOD) + RECENT
        + STATES)
  }

  /** The priority of a candidate: raw samples go first, state snapshots last. */
  function Rank(path: string): nat {
    if path == RAW_SAMPLES then 0
    else if path in TIMELINES then 1
    else if path in FINGERPRINTS then 2
    else if Excerpt(path, TAIL) then 3
    else if Excerpt(path, PERIOD) then 4
    else if path in RECENT then 5
    else 6
  }

  predicate Ranked(names: seq<string>) {
    forall i, j :: 0 <= i < j < |names| ==> Rank(names[i]) <= Rank(names[j])
  }

  lemma {:induction false} DroppableRanked(names: seq<string>)
    requires Ranked(names)
    ensures Ranked(Droppable(names))
  {
    hide Rank;
    if names != [] {
      DroppableRanked(names[1..]);
      forall x | x in Droppable(names[1..]) ensures Rank(names[0]) <= Rank(x) {
        var k :| 0 <= k < |names[1..]| && names[1..][k] == x;
        assert names[k + 1] == x;
      }
    }
  }

  /** Excerpts live apart from the fixed files, and are of one kind. */
  lemma ExcerptRank(path: string)
    ensures Excerpt(path, TAIL) ==> Rank(path) == 3
    ensures Excerpt(path, PERIOD) ==> Rank(path) == 4
  {
    if StartsWith(path, EXCERPTS) {
      assert path[9] == EXCERPTS[9] == 'l';
      assert RAW_SAMPLES[9] == 'd' && TIMELINES[0][9] == 'd' && TIMELINES[1][9] == 'd';
      assert FINGERPRINTS[0][9] == 'd' && FINGERPRINTS[1][9] == 'd' && FINGERPRINTS[2][9] == 'd';
    }
    if Excerpt(path, TAIL) {
      assert path[|path| - 14] == path[|path| - |TAIL|..][|TAIL| - 14] == 't';
    }
    if Excerpt(path, PERIOD) {
      assert path[|path| - 14] == path[|path| - |PERIOD|..][|PERIOD| - 14] == 'd';
    }
  }

  lemma NotExcerpt(path: string)
    requires |path| > 11 && (path[9] != 'l' || path[11] != 'g')
    ensures !Excerpt(path, TAIL) && !Excerpt(path, PERIOD)
  {
    assert EXCERPTS[9] == 'l' && EXCERPTS[11] == 'g';
    assert |EXCERPTS| <= |path| ==> path[..|EXCERPTS|][9] == path[9] && path[..|EXCERPTS|][11] == path[11];
  }

  lemma FirstRanks()
    ensures Rank(RAW_SAMPLES) == 0
    ensures forall t :: t in TIMELINES ==> Rank(t) == 1
    ensures forall t :: t in FINGERPRINTS ==> Rank(t) == 2
  {
    hide Excerpt;
    assert |RAW_SAMPLES| == 41 && |TIMELINES[0]| == 49 && |TIMELINES[1]| == 40;
    assert |FINGERPRINTS[0]| == 43 && |FINGERPRINTS[1]| == 50 && |FINGERPRINTS[2]| == 39;
  }

  lemma LastRanks()
    ensures forall t :: t in RECENT ==> Rank(t) == 5
    ensures forall t :: t in STATES ==> Rank(t) == 6
  {
    hide Excerpt;
    forall t | t in RECENT + STATES ensures !Excerpt(t, TAIL) && !Excerpt(t, PERIOD) {
      assert RECENT[0][9] == 'd' && RECENT[1][9] == 'd' && STATES[0][11] == 'c' && STATES[1][11] == 'c';
      NotExcerpt(t);
    }
    assert |RAW_SAMPLES| == 41 && |TIMELINES[0]| == 49 && |TIMELINES[1]| == 40;
    assert |FINGERPRINTS[0]| == 43 && |FINGERPRINTS[1]| == 50 && |FINGERPRINTS[2]| == 39;
    assert |RECENT[0]| == 37 && |RECENT[1]| == 37 && |STATES[0]| == 47 && |STATES[1]| == 50;
  }

  predicate AllOf(names: seq<string>, rank: nat) {
    forall k :: 0 <= k < |names| ==> Rank(names[k]) == rank
  }

  lemma RanksAppend(a: seq<string>, b: seq<string>, rank: nat)
    requires Ranked(a) && AllOf(b, rank) && forall k :: 0 <= k < |a| ==> Rank(a[k]) <= rank
    ensures Ranked(a + b) && forall k :: 0 <= k < |a + b| ==> Rank((a + b)[k]) <= rank
  {
    hide Rank;
  }

  /** Candidates come in order of priority; they are the droppable fixed files and all droppable
      excerpts of either kind. */
  lemma CandidatesByPriority(files: Files)
    ensures Ranked(Candidates(files))
    ensures forall p :: p in Candidates(files) <==> (p !in MANDATORY
              && (p in [RAW_SAMPLES] + TIMELINES + FINGERPRINTS + RECENT + STATES
                  || (p in files && (Excerpt(p, TAIL) || Excerpt(p, PERIOD)))))
  {
    var t, u := Excerpts(files, TAIL), Excerpts(files, PERIOD);
    FirstRanks();
    LastRanks();
    forall k | 0 <= k < |t| ensures Rank(t[k]) == 3 { assert t[k] in t; ExcerptRank(t[k]); }
    forall k | 0 <= k < |u| ensures Rank(u[k]) == 4 { assert u[k] in u; ExcerptRank(u[k]); }
    hide Rank, Excerpt, Excerpts;
    var a := [RAW_SAMPLES];
    RanksAppend(a, TIMELINES, 1);
    RanksAppend(a + TIMELINES, FINGERPRINTS, 2);
    RanksAppend(a + TIMELINES + FINGERPRINTS, t, 3);
    RanksAppend(a + TIMELINES + FINGERPRINTS + t, u, 4);
    RanksAppend(a + TIMELINES + FINGERPRINTS + t + u, RECENT, 5);
    RanksAppend(a + TIMELINES + FINGERPRINTS + t + u + RECENT, STATES, 6);
    DroppableRanked(a + TIMELINES + FINGERPRINTS + t + u + RECENT + STATES);
    ExcerptsMembers(files, TAIL);
    ExcerptsMembers(files, PERIOD);
  }

  lemma ExcerptsMembers(files: Files, suffix: string)
    ensures forall p :: p in Excerpts(files, suffix) <==> p in files && Excerpt(p, suffix)
  {
  }

  lemma {:induction false} AllDroppable(names: seq<string>)
    requires forall n :: n in names ==> n !in MANDATORY
    ensures Droppable(names) == names
  {
    if names != [] { AllDroppable(names[1..]); }
  }

  lemma FixedDroppable()
    ensures forall p :: p in [RAW_SAMPLES] + TIMELINES + FINGERPRINTS + RECENT + STATES ==> p !in MANDATORY
  {
    hide Excerpt;
  }

  lemma ExcerptDroppable(path: string, suffix: string)
    requires Excerpt(path, suffix)
    ensures path !in MANDATORY
  {
    assert path[..|EXCERPTS|] == EXCERPTS && path[15] == EXCERPTS[15] == 'x';
    assert |path| >= 23;
  }

  /** The log excerpts of a kind, by name. */
  function LogExcerpts(files: Files, suffix: string): seq<string> {
    SortedNames(set p | p in files && "evidence/logs/excerpts/" <= p && '/' !in p[23..]
                        && 23 + |suffix| <= |p| && p[|p| - |suffix|..] == suffix)
  }

  lemma ExcerptsByName(files: Files, suffix: string)
    ensures Excerpts(files, suffix) == LogExcerpts(files, suffix)
  {
    assert |EXCERPTS| == 23;
    assert (set p | p in files && Excerpt(p, suffix))
        == set p | p in files && "evidence/logs/excerpts/" <= p && '/' !in p[23..]
                   && 23 + |suffix| <= |p| && p[|p| - |suffix|..] == suffix;
  }

  /** The candidates, group by group. */
  lemma CandidatesListed(files: Files)
    ensures Candidates(files) ==
              ["evidence/db/raw_llm_samples.redacted.json"]
              + ["evidence/db/event_analysis_decision_timeline.json", "evidence/db/alert_similarity_groups.json"]
              + ["evidence/db/alert_content_fingerprints.json", "evidence/db/backend_suppression_effectiveness.json",
                 "evidence/db/event_identity_quality.json"]
              + LogExcerpts(files, ".tail-context.redacted.log") + LogExcerpts(files, ".period.redacted.log")
              + ["evidence/db/recent_market_events.json", "evidence/db/recent_news_failures.json"]
              + ["evidence/local_state/legacy_state_snapshot.json",
                  "evidence/local_state/ops_agent_state_snapshot.json"]
  {
    var names := [RAW_SAMPLES] + TIMELINES + FINGERPRINTS + Excerpts(files, TAIL) + Excerpts(files, PERIOD)
      + RECENT + STATES;
    FixedDroppable();
    forall n | n in names ensures n !in MANDATORY {
      if n in Excerpts(files, TAIL) {
        ExcerptDroppable(n, TAIL);
      } else if n in Excerpts(files, PERIOD) {
        ExcerptDroppable(n, PERIOD);
      } else {
        assert n in [RAW_SAMPLES] + TIMELINES + FINGERPRINTS + RECENT + STATES;
      }
    }
    AllDroppable(names);
    ExcerptsByName(files, TAIL);
    ExcerptsByName(files, PERIOD);
  }

  /** What is a candidate in fewer files was one before. */
  lemma CandidatesFewer(some: Files, all: Files)
    requires some.Keys <= all.Keys
    ensures forall c :: c in Candidates(some) ==> c in Candidates(all)
  {
    hide Excerpt;
  }

  function Without(files: Files, names: seq<string>): Files {
    files - (set x | x in names)
  }

  /** The candidates that exist, in order. */
  function Existing(files: Files, candidates: seq<string>): (r: seq<string>)
    ensures forall x :: x in r <==> x in candidates && x in files
  {
    if candidates == [] then []
    else if candidates[0] in files then [candidates[0]] + Existing(files - {candidates[0]}, candidates[1..])
    else Existing(files, candidates[1..])
  }

  /** Looking at one more candidate: it is dropped if it is (still) there. */
  lemma {:induction false} ExistingSnoc(files: Files, seen: seq<string>, c: string)
    ensures Existing(files, seen + [c])
         == if c in files && c !in seen then Existing(files, seen) + [c] else Existing(files, seen)
  {
    if seen == [] {
      assert Existing(files - {c}, [c][1..]) == [];
    } else {
      assert (seen + [c])[1..] == seen[1..] + [c];
      ExistingSnoc(if seen[0] in files then files - {seen[0]} else files, seen[1..], c);
      if seen[0] in files && c in files && c !in seen {
        assert [seen[0]] + (Existing(files - {seen[0]}, seen[1..]) + [c]) == Existing(files, seen) + [c];
      }
    }
  }

  lemma {:induction false} ExistingPrefix(files: Files, candidates: seq<string>, n: nat)
    requires n <= |candidates|
    ensures Existing(files, candidates[..n]) <= Existing(files, candidates)
    decreases |candidates| - n
  {
    if n < |candidates| {
      ExistingPrefix(files, candidates, n + 1);
      ExistingSnoc(files, candidates[..n], candidates[n]);
      assert candidates[..n + 1] == candidates[..n] + [candidates[n]];
    } else {
      assert candidates[..n] == candidates;
    }
  }

  // ---------- the warning

  function Join(names: seq<string>): string {
    if names == [] then ""
    else if |names| == 1 then names[0]
    else Join(names[..|names| - 1]) + ", " + names[|names| - 1]
  }

  /** Python's `split(", ")`. */
  function Split(s: string): (parts: seq<string>)
    ensures parts != []
  {
    if |s| < 2 then [s]
    else if s[0] == ',' && s[1] == ' ' then [""] + Split(s[2..])
    else
      var rest := Split(s[1..]);
      [[s[0]] + rest[0]] + rest[1..]
  }

  lemma SplitCut(rest: string)
    ensures Split(", " + rest) == [""] + Split(rest)
  {
    assert (", " + rest)[2..] == rest;
  }

  lemma SplitKeep(c: char, rest: string)
    requires c != ',' || rest == "" || rest[0] != ' '
    ensures Split([c] + rest) == [[c] + Split(rest)[0]] + Split(rest)[1..]
  {
    assert ([c] + rest)[1..] == rest;
    if rest == "" { assert [c] + "" == [c]; }
  }

  lemma SplitFirst(c: char, parts: seq<string>, more: seq<string>)
    requires parts != []
    ensures [[c] + (parts + more)[0]] + (parts + more)[1..] == ([[c] + parts[0]] + parts[1..]) + more
  {
  }

  lemma {:induction false} SplitBoth(a: string, b: string)
    ensures Split(a + ", " + b) == Split(a) + Split(b)
    decreases |a|, 1
  {
    hide Split;
    if a == "" {
      assert a + ", " + b == ", " + b;
      SplitCut(b);
      SplitName("");
    } else if |a| >= 2 && a[0] == ',' && a[1] == ' ' {
      SplitCutBoth(a, b);
    } else {
      var c, rest := a[0], a[1..];
      assert a == [c] + rest && a + ", " + b == [c] + (rest + ", " + b);
      SplitKeep(c, rest);
      SplitKeep(c, rest + ", " + b);
      SplitBoth(rest, b);
      SplitFirst(c, Split(rest), Split(b));
    }
  }

  lemma {:induction false} SplitCutBoth(a: string, b: string)
    requires |a| >= 2 && a[0] == ',' && a[1] == ' '
    ensures Split(a + ", " + b) == Split(a) + Split(b)
    decreases |a|, 0
  {
    var rest := a[2..];
    assert a == ", " + rest && a + ", " + b == ", " + (rest + ", " + b);
    SplitCut(rest);
    SplitCut(rest + ", " + b);
    SplitBoth(rest, b);
    hide Split;
    assert ([""] + Split(rest)) + Split(b) == [""] + (Split(rest) + Split(b));
  }

  lemma {:induction false} SplitName(s: string)
    requires ',' !in s
    ensures Split(s) == [s]
  {
    if |s| >= 2 {
      SplitName(s[1..]);
      assert [s[0]] + s[1..] == s;
    }
  }

  /** Names joined come apart again, in order. */
  lemma {:induction false} SplitJoined(names: seq<string>)
    requires names != [] && forall n :: n in names ==> ',' !in n
    ensures Split(Join(names)) == names
  {
    var init, last := names[..|names| - 1], names[|names| - 1];
    SplitName(last);
    if init == [] {
      assert names == [last];
    } else {
      SplitJoined(init);
      SplitBoth(Join(init), last);
      assert names == init + [last];
    }
  }

  function DropWarning(names: seq<string>): string {
    DROPPED + Join(names)
  }

  predicate SizeWarning(w: string) {
    StartsWith(w, "bundle_size_pressure_") || StartsWith(w, "bundle_size_exceeded:")
  }

  function NoSizeWarnings(ws: seq<string>): (r: seq<string>)
    ensures forall w :: w in r <==> w in ws && !SizeWarning(w)
    ensures (forall w :: w in ws ==> !SizeWarning(w)) ==> r == ws
  {
    if ws == [] then [] else (if SizeWarning(ws[0]) then [] else [ws[0]]) + NoSizeWarnings(ws[1..])
  }

  function WithSizeWarning(ws: seq<string>, w: string): seq<string> {
    NoSizeWarnings(ws) + [w]
  }

  lemma {:induction false} NoSizeWarningsSnoc(ws: seq<string>, w: string)
    requires SizeWarning(w)
    ensures NoSizeWarnings(ws + [w]) == NoSizeWarnings(ws)
  {
    if ws != [] {
      assert (ws + [w])[1..] == ws[1..] + [w];
      NoSizeWarningsSnoc(ws[1..], w);
    }
  }

  lemma {:induction false} NoSizeWarningsTwice(ws: seq<string>)
    ensures NoSizeWarnings(NoSizeWarnings(ws)) == NoSizeWarnings(ws)
  {
  }

  /** Only the newest size warning is kept. */
  lemma NewestSizeWarning(ws: seq<string>, a: string, b: string)
    requires SizeWarning(a)
    ensures WithSizeWarning(WithSizeWarning(ws, a), b) == WithSizeWarning(ws, b)
  {
    NoSizeWarningsTwice(ws);
    NoSizeWarningsSnoc(NoSizeWarnings(ws), a);
  }

  lemma DropWarningIsSize(names: seq<string>)
    ensures SizeWarning(DropWarning(names))
  {
  }

  /** Naming more files continues the warning. */
  lemma {:induction false} JoinGrows(names: seq<string>, j: nat, k: nat)
    requires 0 < j <= k <= |names|
    ensures Join(names[..j]) <= Join(names[..k])
    ensures j < k ==> |Join(names[..j])| < |Join(names[..k])|
    decreases k
  {
    if j < k {
      JoinGrows(names, j, k - 1);
      assert names[..k][..k - 1] == names[..k - 1];
    }
  }

  function WarningsAfter(ws: seq<string>, existing: seq<string>, k: nat): seq<string>
    requires k <= |existing|
  {
    if k == 0 then ws else WithSizeWarning(ws, DropWarning(existing[..k]))
  }

  function WithSizeStatus(collectors: seq<CollectorStatus>): seq<CollectorStatus> {
    if exists c :: c in collectors && c.name == SIZE_LIMIT then collectors
    else collectors + [CollectorStatus(SIZE_LIMIT, "partial", Some("bundle hard cap exceeded"))]
  }

  // ---------- what enforcement should do

  /** The books after the first `k` of `existing` are dropped and the warning names them. */
  function Dropping(b: Books, existing: seq<string>, k: nat): Books
    requires k <= |existing|
  {
    Books(Without(b.files, existing[..k]), WithSizeStatus(b.collectors), WarningsAfter(b.warnings, existing, k))
  }

  function DroppingBytes(format: Format, b: Books, existing: seq<string>, k: nat, protectedMap: Option<bool>): nat
    requires k <= |existing|
  {
    Pending(format, Dropping(b, existing, k), Partial, protectedMap)
  }

  /** `k` is the shortest prefix whose removal, with the warning naming it, meets the cap. */
  predicate Shortest(format: Format, b: Books, limit: nat, existing: seq<string>, k: nat, protectedMap: Option<bool>)
    requires k <= |existing|
  {
    && DroppingBytes(format, b, existing, k, protectedMap) <= limit
    && forall j :: 0 <= j < k ==> DroppingBytes(format, b, existing, j, protectedMap) > limit
  }

  predicate Hopeless(format: Format, b: Books, limit: nat, existing: seq<string>, protectedMap: Option<bool>) {
    forall j :: 0 <= j <= |existing| ==> DroppingBytes(format, b, existing, j, protectedMap) > limit
  }

  lemma {:induction false} WarningGrows(existing: seq<string>, j: nat, k: nat)
    requires 0 < j <= k <= |existing|
    ensures DropWarning(existing[..j]) <= DropWarning(existing[..k])
  {
    JoinGrows(existing, j, k);
    var a, b := Join(existing[..j]), Join(existing[..k]);
    assert DROPPED + b == (DROPPED + a) + b[|a|..];
  }

  lemma WarningsAfterGrow(format: Format, m: Manifest, ws: seq<string>, existing: seq<string>, j: nat, k: nat)
    requires Growing(format) && j <= k <= |existing|
    requires forall w :: w in ws ==> !SizeWarning(w)
    ensures Weight(format, m, WarningsAfter(ws, existing, j)) <= Weight(format, m, WarningsAfter(ws, existing, k))
  {
    if 0 < j {
      WarningGrows(existing, j, k);
      assert Weight(format, m, ws + [DropWarning(existing[..j])])
          <= Weight(format, m, ws + [DropWarning(existing[..k])]);
    } else if 0 < k {
      assert Weight(format, m, ws) <= Weight(format, m, ws + [DropWarning(existing[..k])]);
    }
  }

  /** The loop weighs the files against a warning that may still name fewer of them: if even that is
      too much, so is the true one. */
  lemma StaleWarningIsShorter(format: Format, b: Books, existing: seq<string>, j: nat, k: nat,
      protectedMap: Option<bool>)
    requires Growing(format) && j <= k <= |existing|
    requires forall w :: w in b.warnings ==> !SizeWarning(w)
    ensures Pending(format, Dropping(b, existing, k).(warnings := WarningsAfter(b.warnings, existing, j)), Partial,
        protectedMap)
         <= DroppingBytes(format, b, existing, k, protectedMap)
  {
    if protectedMap.Some? {
      WarningsAfterGrow(format, Payload(format, Dropping(b, existing, k), Partial, protectedMap.value), b.warnings,
          existing, j, k);
    }
  }

  lemma WithoutSnoc(files: Files, dropped: seq<string>, c: string)
    ensures Without(files, dropped + [c]) == Without(files, dropped) - {c}
  {
  }

  /** Taking the next candidate from the iterator, whether or not it is still a file. */
  lemma NextCandidate(files: Files, candidates: seq<string>, i: nat, dropped: seq<string>)
    requires i < |candidates| && dropped == Existing(files, candidates[..i])
    ensures Existing(files, candidates[..i + 1])
         == if candidates[i] in Without(files, dropped) then dropped + [candidates[i]] else dropped
    ensures Existing(files, candidates[..i + 1]) <= Existing(files, candidates)
  {
    var c := candidates[i];
    ExistingSnoc(files, candidates[..i], c);
    assert candidates[..i + 1] == candidates[..i] + [c];
    assert c in Without(files, dropped) <==> c in files && c !in dropped;
    ExistingPrefix(files, candidates, i + 1);
  }

  /** A warning already in force names all that was dropped. */
  lemma WarningInForce(ws: seq<string>, existing: seq<string>, named: nat, k: nat)
    requires named <= k <= |existing| && 0 < k
    requires forall w :: w in ws ==> !SizeWarning(w)
    ensures DropWarning(existing[..k]) in WarningsAfter(ws, existing, named) ==> named == k
  {
    DropWarningIsSize(existing[..k]);
    if 0 < named < k {
      JoinGrows(existing, named, k);
    }
  }
}
