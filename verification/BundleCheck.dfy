/**
 * Validating a published bundle (ops_agent/cli.py `_mandatory_bundle_file_errors`,
 * `_manifest_checksum_errors`, `_validate_bundle_contents`), and what that tells about the bundle
 * the writer published.
 */
module BundleCheck {
  import opened Prelude
  import opened TextOrder
  import opened BundleSpec
  import W = BundleWriter

  /** `Unreadable` is the exception of a manifest that is not JSON. */
  datatype Verdict = Unreadable | Report(missing: seq<string>, bad: seq<string>)

  function Complaint(format: Format, files: Files, item: Item): Option<string> {
    match item
    case NotAnObject => Some("<invalid inventory item>")
    case NoPath => Some("<invalid inventory path>")
    case Listed(path, _, sha256, _) =>
      if path in files && Some(format.digest(files[path])) == sha256 then None else Some(path)
  }

  function Complaints(format: Format, files: Files, items: seq<Item>): seq<string> {
    if items == [] then []
    else
      var c := Complaint(format, files, items[0]);
      (if c.Some? then [c.value] else []) + Complaints(format, files, items[1..])
  }

  function Bad(format: Format, files: Files, m: Manifest): seq<string> {
    if m.inventory.None? || m.inventory.value == [] then ["<missing file inventory>"]
    else Complaints(format, files, m.inventory.value)
  }

  function Verdicts(format: Format, files: Files): Verdict {
    var missing := SortedNames(MANDATORY - files.Keys);
    if MANIFEST !in files then Report(missing, [MANIFEST])
    else if format.decode(files[MANIFEST]).None? then Unreadable
    else Report(missing, Bad(format, files, format.decode(files[MANIFEST]).value))
  }

  lemma {:induction false} ComplaintsSnoc(format: Format, files: Files, items: seq<Item>, item: Item)
    ensures var c := Complaint(format, files, item);
            Complaints(format, files, items + [item]) == if c.Some? then Complaints(format, files, items) + [c.value]
                else Complaints(format, files, items)
  {
    if items != [] {
      assert (items + [item])[1..] == items[1..] + [item];
      ComplaintsSnoc(format, files, items[1..], item);
    }
  }

  /** What is complained of, in whatever manifest: an absent or empty inventory; each entry that is no
      object or has no path; and each path that is absent or whose content has another digest. */
  lemma {:induction false} ComplaintsMean(format: Format, files: Files, items: seq<Item>)
    ensures forall x :: x in Complaints(format, files, items) <==>
              || (x == "<invalid inventory item>" && NotAnObject in items)
              || (x == "<invalid inventory path>" && NoPath in items)
              || exists i :: i in items && i.Listed? && i.path == x
                             && (x in files ==> i.sha256 != Some(format.digest(files[x])))
  {
    if items != [] {
      var rest := items[1..];
      ComplaintsMean(format, files, rest);
      forall i ensures i in items <==> i == items[0] || i in rest {}
    }
  }

  lemma BadMeans(format: Format, files: Files, m: Manifest)
    ensures m.inventory in [None, Some([])] ==> Bad(format, files, m) == ["<missing file inventory>"]
    ensures m.inventory !in [None, Some([])] ==> forall x :: x in Bad(format, files, m) <==>
              || (x == "<invalid inventory item>" && NotAnObject in m.inventory.value)
              || (x == "<invalid inventory path>" && NoPath in m.inventory.value)
              || exists i :: i in m.inventory.value && i.Listed? && i.path == x
                             && (x in files ==> i.sha256 != Some(format.digest(files[x])))
  {
    if m.inventory.Some? { ComplaintsMean(format, files, m.inventory.value); }
    hide Complaints;
  }

  method ChecksumErrors(format: Format, files: Files, m: Manifest) returns (bad: seq<string>)
    ensures bad == Bad(format, files, m)
  {
    if m.inventory.None? || m.inventory.value == [] { return ["<missing file inventory>"]; }
    var items := m.inventory.value;
    bad := [];
    for i := 0 to |items|
      invariant bad == Complaints(format, files, items[..i])
    {
      assert items[..i + 1] == items[..i] + [items[i]];
      ComplaintsSnoc(format, files, items[..i], items[i]);
      match items[i] {
        case NotAnObject => bad := bad + ["<invalid inventory item>"];
        case NoPath => bad := bad + ["<invalid inventory path>"];
        case Listed(path, _, sha256, _) =>
          if path !in files {
            bad := bad + [path];
          } else if Some(format.digest(files[path])) != sha256 {
            bad := bad + [path];
          }
      }
    }
    assert items[..|items|] == items;
  }

  /** Those of `names` that are missing, in the same order. */
  function Absent(files: Files, names: seq<string>): seq<string> {
    if names == [] then [] else (if names[0] in files then [] else [names[0]]) + Absent(files, names[1..])
  }

  lemma {:induction false} AbsentSnoc(files: Files, names: seq<string>, x: string)
    ensures Absent(files, names + [x]) == if x in files then Absent(files, names) else Absent(files, names) + [x]
  {
    if names != [] {
      assert (names + [x])[1..] == names[1..] + [x];
      AbsentSnoc(files, names[1..], x);
    }
  }

  lemma {:induction false} AbsentSorted(files: Files, names: set<string>)
    ensures Absent(files, SortedNames(names)) == SortedNames(names - files.Keys)
  {
    if names != {} {
      var m := LeastOf(names);
      AbsentSorted(files, names - {m});
      if m in files {
        assert names - {m} - files.Keys == names - files.Keys;
      } else {
        assert m in names - files.Keys;
        LeastUnique(names - files.Keys, m, LeastOf(names - files.Keys));
        assert names - {m} - files.Keys == names - files.Keys - {m};
      }
    }
  }

  method AbsentOf(files: Files, names: seq<string>) returns (missing: seq<string>)
    ensures missing == Absent(files, names)
  {
    missing := [];
    for i := 0 to |names|
      invariant missing == Absent(files, names[..i])
    {
      assert names[..i + 1] == names[..i] + [names[i]];
      AbsentSnoc(files, names[..i], names[i]);
      if names[i] !in files {
        missing := missing + [names[i]];
      }
    }
    assert names[..|names|] == names;
  }

  method MissingFiles(files: Files) returns (missing: seq<string>)
    ensures missing == SortedNames(MANDATORY - files.Keys)
  {
    AbsentSorted(files, MANDATORY);
    missing := AbsentOf(files, SortedNames(MANDATORY));
  }

  method Validate(format: Format, files: Files) returns (v: Verdict)
    ensures v == Verdicts(format, files)
  {
    var missing := MissingFiles(files);
    if MANIFEST !in files { return Report(missing, [MANIFEST]); }
    var m := format.decode(files[MANIFEST]);
    if m.None? { return Unreadable; }
    var bad := ChecksumErrors(format, files, m.value);
    v := Report(missing, bad);
  }

  /** The verdict on any directory: the mandatory files that are absent, and an absent manifest is bad, an
      unreadable one an error. */
  lemma VerdictCases(format: Format, files: Files)
    ensures var v := Verdicts(format, files);
            if "manifest.json" !in files then v.Report? && v.bad == ["manifest.json"] && "manifest.json" in v.missing
            else if format.decode(files["manifest.json"]).None? then v == Unreadable
            else v.Report? && v.bad == Bad(format, files, format.decode(files["manifest.json"]).value)
    ensures Verdicts(format, files).Report? ==>
              && (forall p :: p in Verdicts(format, files).missing <==> p in MANDATORY && p !in files)
              && forall i, j :: 0 <= i < j < |Verdicts(format, files).missing| ==>
                   Verdicts(format, files).missing[i] != Verdicts(format, files).missing[j]
  {
  }

  // ---------- what a verdict says about a bundle the writer sealed

  predicate Intact(sealedFiles: Files, now: Files, path: string)
    requires path in sealedFiles
  {
    path in now && now[path] == sealedFiles[path]
  }

  lemma {:induction false} ComplaintsExactly(format: Format, was: Files, now: Files, paths: seq<string>)
    requires Distinguishing(format) && forall p :: p in paths ==> p in was
    ensures forall p :: p in Complaints(format, now, Items(format, was, paths)) <==> p in paths && !Intact(was, now, p)
  {
    if paths != [] {
      var rest := Items(format, was, paths[1..]);
      assert Items(format, was, paths)[1..] == rest;
      ComplaintsExactly(format, was, now, paths[1..]);
    }
  }

  /** Whatever else happened to a sealed bundle, with its manifest left alone the validator names
      exactly the inventoried files that were changed or deleted. */
  lemma TamperingIsNamed(format: Format, was: Files, now: Files)
    requires Distinguishing(format) && W.Sealed(format, was) && was.Keys != {MANIFEST} && Intact(was, now, MANIFEST)
    ensures Verdicts(format, now).Report?
    ensures forall p :: p in Verdicts(format, now).bad <==> p in was && p != MANIFEST && !Intact(was, now, p)
    ensures forall p :: p in Verdicts(format, now).missing <==> p in MANDATORY && p !in now
  {
    var listed := was.Keys - {MANIFEST};
    var paths := SortedNames(listed);
    assert MANIFEST in was;
    var other :| other in listed;
    assert other in paths;
    ComplaintsExactly(format, was, now, paths);
  }

  lemma EmptyIff(s: seq<string>)
    ensures s == [] <==> forall x :: x !in s
  {
    if s != [] { assert s[0] in s; }
  }

  /** So it finds nothing if and only if every published file is still as published and no mandatory
      one is missing: files added later are not noticed. */
  lemma CleanIffIntact(format: Format, was: Files, now: Files)
    requires Distinguishing(format) && W.Sealed(format, was) && was.Keys != {MANIFEST} && Intact(was, now, MANIFEST)
    ensures Verdicts(format, now) == Report([], []) <==>
        MANDATORY <= now.Keys && forall p :: p in was ==> Intact(was, now, p)
  {
    TamperingIsNamed(format, was, now);
    var v := Verdicts(format, now);
    EmptyIff(v.bad);
    EmptyIff(v.missing);
    if v == Report([], []) {
      forall p | p in was ensures Intact(was, now, p) {
        assert p !in v.bad;
      }
      forall p | p in MANDATORY ensures p in now {
        assert p !in v.missing;
      }
    }
  }

  /** Publish, then validate: a bundle that attests itself and lacks no mandatory file is clean. */
  lemma PublishedValidates(format: Format, limit: nat, files: Files, status: Collection)
    requires Distinguishing(format) && W.Attests(format, limit, files, status)
    ensures Verdicts(format, files) == Report([], []) <==> W.Missing(files) == {}
    ensures status == Complete ==> Verdicts(format, files) == Report([], [])
  {
    if MANDATORY <= files.Keys {
      CleanIffIntact(format, files, files);
    } else {
      var p :| p in MANDATORY && p !in files;
      assert p in SortedNames(MANDATORY - files.Keys);
      assert p in W.Missing(files);
    }
  }
}
