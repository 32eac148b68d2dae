module StableRelease {
  /** Comparing a stable candidate with its prerelease base, file by file. */

  import opened Common
  import opened Json
  import opened Ordering
  import opened ReleaseVersions
  import opened StableProjection

  /** A commit or checkout: hashes of its executable source, and its files. */
  datatype Snapshot = Snapshot(hashes: map<string, string>, files: map<string, Bytes>)

  datatype Format = JsonDocument | TomlDocument

  /** A metadata file and the version fields it may change. */
  datatype Entry = Entry(relative: string, format: Format, fields: seq<Path>)

  /** `_strict_json` and `_strict_toml`, None when the text is malformed or repeats a key; and the metadata
      files with the fields a stable release may change. */
  datatype Rules = Rules(json: Bytes -> Option<Json>, toml: Bytes -> Option<Json>, table: seq<Entry>)

  const PROJECTION: seq<Entry> := [
    Entry("frontend/package.json", JsonDocument, [["version"]]),
    Entry("frontend/package-lock.json", JsonDocument, [["version"], ["packages", "", "version"]]),
    Entry("contracts/openapi.json", JsonDocument, [["info", "version"]]),
    Entry("backend/pyproject.toml", TomlDocument, [["project", "version"]])]

  function StandardRules(json: Bytes -> Option<Json>, toml: Bytes -> Option<Json>): Rules {
    Rules(json, toml, PROJECTION)
  }

  /** The fields of each standard metadata file do not lead through one another. */
  lemma ProjectionIsUsable(json: Bytes -> Option<Json>, toml: Bytes -> Option<Json>)
    ensures Usable(StandardRules(json, toml).table)
  {
    assert Apart(["version"], ["packages", "", "version"]) by {
      assert "version"[0] != "packages"[0];
    }
    forall i | 0 <= i < |PROJECTION|
      ensures AllApart(PROJECTION[i].fields) && PROJECTION[i].fields != []
    {
    }
  }

  ghost predicate Usable(table: seq<Entry>) {
    forall i :: 0 <= i < |table| ==> AllApart(table[i].fields) && table[i].fields != []
  }

  predicate Required(table: seq<Entry>, path: string) {
    exists i | 0 <= i < |table| :: table[i].relative == path
  }

  function HashAt(s: Snapshot, path: string): Option<string> {
    if path in s.hashes then Some(s.hashes[path]) else None
  }

  predicate Differs(base: Snapshot, current: Snapshot, path: string) {
    HashAt(base, path) != HashAt(current, path)
  }

  /** The sorted paths whose hash changed. */
  function Changed(base: Snapshot, current: Snapshot): (paths: seq<string>)
    ensures forall p :: p in paths <==> Differs(base, current, p)
  {
    Sorted(set p | p in base.hashes.Keys + current.hashes.Keys && Differs(base, current, p))
  }

  predicate Incomplete(table: seq<Entry>, base: Snapshot, current: Snapshot) {
    exists i | 0 <= i < |table| :: table[i].relative !in base.hashes || table[i].relative !in current.hashes
  }

  /** The paths among the first `k` that are not metadata files, in order. */
  function Forbidden(table: seq<Entry>, paths: seq<string>, k: nat): (r: seq<string>)
    requires k <= |paths|
    ensures forall p :: p in r <==> p in paths[..k] && !Required(table, p)
  {
    if k == 0 then []
    else
      assert paths[..k] == paths[..k - 1] + [paths[k - 1]];
      Forbidden(table, paths, k - 1) + if Required(table, paths[k - 1]) then [] else [paths[k - 1]]
  }

  function VersionText(format: Format, v: ReleaseVersion): string {
    if format.JsonDocument? then Print(v) else Pep440(v)
  }

  function ReadDocument(rules: Rules, format: Format, s: Snapshot, relative: string): Option<Json> {
    if relative !in s.files then None
    else if format.JsonDocument? then rules.json(s.files[relative]) else rules.toml(s.files[relative])
  }

  /** `_validate_json_projection` or `_validate_toml_projection` on one metadata file. */
  predicate EntryValid(rules: Rules, e: Entry, base: Snapshot, current: Snapshot, previous: ReleaseVersion, candidate: ReleaseVersion) {
    var b, c := ReadDocument(rules, e.format, base, e.relative), ReadDocument(rules, e.format, current, e.relative);
    && b.Some? && c.Some?
    && SameButVersion(b.value, c.value, e.fields, VersionText(e.format, previous), VersionText(e.format, candidate))
  }

  /** The labels of the first `k` fields of a metadata file. */
  function FieldsOf(e: Entry, k: nat): seq<(string, Path)>
    requires k <= |e.fields|
  {
    if k == 0 then [] else FieldsOf(e, k - 1) + [(e.relative, e.fields[k - 1])]
  }

  /** The validation of one metadata file, as a test on table entries. */
  function EntryTest(rules: Rules, base: Snapshot, current: Snapshot, previous: ReleaseVersion, candidate: ReleaseVersion): Entry -> bool {
    e => EntryValid(rules, e, base, current, previous, candidate)
  }

  /** Validate the first `k` metadata files and collect their field labels; None once one is invalid. */
  function ValidateFirst(valid: Entry -> bool, table: seq<Entry>, k: nat): Option<seq<(string, Path)>>
    requires k <= |table|
  {
    if k == 0 then Some([])
    else
      match ValidateFirst(valid, table, k - 1)
      case None => None
      case Some(fields) => if valid(table[k - 1]) then Some(fields + FieldsOf(table[k - 1], |table[k - 1].fields|)) else None
  }

  datatype Verdict = Verdict(allowed: bool, changed: seq<string>, fields: seq<(string, Path)>, forbidden: seq<string>)

  /** `compare_stable_version_projection` */
  function Compare(
    rules: Rules, base: Snapshot, current: Snapshot, previous: ReleaseVersion, candidate: ReleaseVersion): Verdict
  {
    var changed := Changed(base, current);
    if Incomplete(rules.table, base, current) then Verdict(false, changed, [], changed)
    else
      var forbidden := Forbidden(rules.table, changed, |changed|);
      if forbidden != [] then Verdict(false, changed, [], forbidden)
      else
        match ValidateFirst(EntryTest(rules, base, current, previous, candidate), rules.table, |rules.table|)
        case None => Verdict(false, changed, [], changed)
        case Some(fields) => if changed == [] then Verdict(false, changed, [], changed) else Verdict(true, changed, fields, [])
  }

  // ---- what acceptance means

  /** The file holds the old version in every listed field of the base, and the candidate's document is
      the base document with the new version written over exactly those fields. */
  ghost predicate Rebuilt(rules: Rules, e: Entry, base: Snapshot, current: Snapshot, previous: ReleaseVersion, candidate: ReleaseVersion) {
    var b, c := ReadDocument(rules, e.format, base, e.relative), ReadDocument(rules, e.format, current, e.relative);
    && b.Some? && c.Some?
    && AllAre(b.value, e.fields, Str(VersionText(e.format, previous)))
    && PyEq(c.value, OverwriteAll(b.value, e.fields, Str(VersionText(e.format, candidate))))
  }

  /** A stable candidate is accepted exactly when every file outside the metadata table has the hash it
      had, the table's files are all executable source on both sides, something changed, and each of them
      is the base document with its version fields overwritten. */
  lemma StableIsReconstruction(
    rules: Rules, base: Snapshot, current: Snapshot, previous: ReleaseVersion, candidate: ReleaseVersion)
    requires Usable(rules.table)
    ensures Compare(rules, base, current, previous, candidate).allowed <==>
      && !Incomplete(rules.table, base, current)
      && (forall p :: !Required(rules.table, p) ==> HashAt(base, p) == HashAt(current, p))
      && base.hashes != current.hashes
      && (forall i :: 0 <= i < |rules.table| ==> Rebuilt(rules, rules.table[i], base, current, previous, candidate))
  {
    SameHashes(base, current);
    ForbiddenIff(rules.table, base, current);
    AllValidIff(rules, base, current, previous, candidate);
  }

  lemma ForbiddenIff(table: seq<Entry>, base: Snapshot, current: Snapshot)
    ensures Forbidden(table, Changed(base, current), |Changed(base, current)|) == [] <==>
      forall p :: !Required(table, p) ==> HashAt(base, p) == HashAt(current, p)
  {
    var changed := Changed(base, current);
    assert changed[..|changed|] == changed;
    var forbidden := Forbidden(table, changed, |changed|);
    if forbidden != [] {
      assert forbidden[0] in forbidden;
      assert Differs(base, current, forbidden[0]);
    } else {
      forall p | !Required(table, p)
        ensures HashAt(base, p) == HashAt(current, p)
      {
        assert p !in forbidden;
        assert !Differs(base, current, p);
      }
    }
  }

  lemma AllValidIff(rules: Rules, base: Snapshot, current: Snapshot, previous: ReleaseVersion, candidate: ReleaseVersion)
    requires Usable(rules.table)
    ensures ValidateFirst(EntryTest(rules, base, current, previous, candidate), rules.table, |rules.table|).Some? <==>
      forall i :: 0 <= i < |rules.table| ==> Rebuilt(rules, rules.table[i], base, current, previous, candidate)
  {
    var valid := EntryTest(rules, base, current, previous, candidate);
    ValidatedIff(valid, rules.table, |rules.table|);
    forall i | 0 <= i < |rules.table|
      ensures valid(rules.table[i]) == Rebuilt(rules, rules.table[i], base, current, previous, candidate)
    {
      EntryIsRebuilt(rules, rules.table[i], base, current, previous, candidate);
    }
  }

  lemma {:induction false} ValidatedIff(valid: Entry -> bool, table: seq<Entry>, k: nat)
    requires k <= |table|
    ensures ValidateFirst(valid, table, k).Some? <==> forall i :: 0 <= i < k ==> valid(table[i])
    decreases k
  {
    if k > 0 {
      ValidatedIff(valid, table, k - 1);
    }
  }

  lemma EntryIsRebuilt(rules: Rules, e: Entry, base: Snapshot, current: Snapshot, previous: ReleaseVersion, candidate: ReleaseVersion)
    requires AllApart(e.fields) && e.fields != []
    ensures EntryValid(rules, e, base, current, previous, candidate) == Rebuilt(rules, e, base, current, previous, candidate)
  {
    var b, c := ReadDocument(rules, e.format, base, e.relative), ReadDocument(rules, e.format, current, e.relative);
    if b.Some? && c.Some? {
      ProjectionIsReconstruction(b.value, c.value, e.fields, VersionText(e.format, previous), VersionText(e.format, candidate));
    }
  }

  lemma SameHashes(base: Snapshot, current: Snapshot)
    ensures Changed(base, current) == [] <==> base.hashes == current.hashes
  {
    if Changed(base, current) == [] {
      forall p
        ensures p in base.hashes <==> p in current.hashes
        ensures p in base.hashes ==> base.hashes[p] == current.hashes[p]
      {
        assert !Differs(base, current, p);
      }
    } else {
      assert Differs(base, current, Changed(base, current)[0]);
    }
  }

  // ---- the loops

  method ForbiddenPaths(table: seq<Entry>, paths: seq<string>) returns (forbidden: seq<string>)
    ensures forbidden == Forbidden(table, paths, |paths|)
  {
    forbidden := [];
    for i := 0 to |paths|
      invariant forbidden == Forbidden(table, paths, i)
    {
      var required := IsRequired(table, paths[i]);
      if !required {
        forbidden := forbidden + [paths[i]];
      }
    }
  }

  method IsRequired(table: seq<Entry>, path: string) returns (found: bool)
    ensures found == Required(table, path)
  {
    for i := 0 to |table|
      invariant forall k | 0 <= k < i :: table[k].relative != path
    {
      if table[i].relative == path {
        return true;
      }
    }
    found := false;
  }

  method MissingMetadata(table: seq<Entry>, base: Snapshot, current: Snapshot) returns (missing: seq<string>)
    ensures missing != [] <==> Incomplete(table, base, current)
  {
    missing := [];
    for i := 0 to |table|
      invariant missing != [] <==> exists k | 0 <= k < i :: table[k].relative !in base.hashes || table[k].relative !in current.hashes
    {
      if table[i].relative !in base.hashes || table[i].relative !in current.hashes {
        missing := missing + [table[i].relative];
      }
    }
  }

  method CheckVersions(base: Json, current: Json, fields: seq<Path>, before: string, after: string) returns (ok: bool)
    ensures ok == FieldsProject(base, current, fields, before, after, |fields|)
  {
    for i := 0 to |fields|
      invariant FieldsProject(base, current, fields, before, after, i)
    {
      if ValueAt(base, fields[i]) != Some(Str(before)) || ValueAt(current, fields[i]) != Some(Str(after)) {
        FieldsProjectIff(base, current, fields, before, after, |fields|);
        return false;
      }
    }
    ok := true;
  }

  lemma {:induction false} RemovalFails(doc: Json, fields: seq<Path>, k: nat)
    requires k <= |fields| && RemoveFirst(doc, fields, k).Err?
    ensures RemoveFirst(doc, fields, |fields|).Err?
    decreases |fields| - k
  {
    if k < |fields| {
      RemovalFails(doc, fields, k + 1);
    }
  }

  method SameDocuments(base: Json, current: Json, fields: seq<Path>, before: string, after: string) returns (ok: bool)
    ensures ok == SameButVersion(base, current, fields, before, after)
  {
    if !base.Obj? || !current.Obj? {
      return false;
    }
    ok := CheckVersions(base, current, fields, before, after);
    if !ok {
      return;
    }
    var normalizedBase, normalizedCurrent := base, current;
    for i := 0 to |fields|
      invariant RemoveFirst(base, fields, i) == Ok(normalizedBase)
      invariant RemoveFirst(current, fields, i) == Ok(normalizedCurrent)
    {
      var b, c := RemovePath(normalizedBase, fields[i]), RemovePath(normalizedCurrent, fields[i]);
      if b.Err? {
        RemovalFails(base, fields, i + 1);
        return false;
      }
      if c.Err? {
        RemovalFails(current, fields, i + 1);
        return false;
      }
      normalizedBase, normalizedCurrent := b.value, c.value;
    }
    ok := PyEq(normalizedBase, normalizedCurrent);
  }

  method ValidateEntry(rules: Rules, e: Entry, base: Snapshot, current: Snapshot, previous: ReleaseVersion, candidate: ReleaseVersion)
    returns (ok: bool)
    ensures ok == EntryValid(rules, e, base, current, previous, candidate)
  {
    var b, c := ReadDocument(rules, e.format, base, e.relative), ReadDocument(rules, e.format, current, e.relative);
    if b.None? || c.None? {
      return false;
    }
    ok := SameDocuments(b.value, c.value, e.fields, VersionText(e.format, previous), VersionText(e.format, candidate));
  }

  method CompareStableVersionProjection(
    rules: Rules, base: Snapshot, current: Snapshot, previous: ReleaseVersion, candidate: ReleaseVersion)
    returns (verdict: Verdict)
    ensures verdict == Compare(rules, base, current, previous, candidate)
  {
    var changed := Changed(base, current);
    var missing := MissingMetadata(rules.table, base, current);
    if missing != [] {
      return Verdict(false, changed, [], changed);
    }
    var forbidden := ForbiddenPaths(rules.table, changed);
    if forbidden != [] {
      return Verdict(false, changed, [], forbidden);
    }
    var fields := ValidateTable(rules, base, current, previous, candidate);
    if fields.None? || changed == [] {
      return Verdict(false, changed, [], changed);
    }
    verdict := Verdict(true, changed, fields.value, []);
  }

  lemma {:induction false} NoneStays(valid: Entry -> bool, table: seq<Entry>, k: nat)
    requires k <= |table| && ValidateFirst(valid, table, k).None?
    ensures ValidateFirst(valid, table, |table|).None?
    decreases |table| - k
  {
    if k < |table| {
      NoneStays(valid, table, k + 1);
    }
  }

  method ValidateAt(
    rules: Rules, i: nat, fields: seq<(string, Path)>, base: Snapshot, current: Snapshot, previous: ReleaseVersion, candidate: ReleaseVersion)
    returns (next: Option<seq<(string, Path)>>)
    requires i < |rules.table|
    requires ValidateFirst(EntryTest(rules, base, current, previous, candidate), rules.table, i) == Some(fields)
    ensures next == ValidateFirst(EntryTest(rules, base, current, previous, candidate), rules.table, i + 1)
  {
    var e := rules.table[i];
    var ok := ValidateEntry(rules, e, base, current, previous, candidate);
    next := if ok then Some(fields + FieldsOf(e, |e.fields|)) else None;
  }

  /** Every metadata file in turn; the first that fails ends the comparison. */
  method ValidateTable(
    rules: Rules, base: Snapshot, current: Snapshot, previous: ReleaseVersion, candidate: ReleaseVersion)
    returns (validated: Option<seq<(string, Path)>>)
    ensures validated == ValidateFirst(EntryTest(rules, base, current, previous, candidate), rules.table, |rules.table|)
  {
    ghost var valid := EntryTest(rules, base, current, previous, candidate);
    validated := Some([]);
    for i := 0 to |rules.table|
      invariant validated.Some? && validated == ValidateFirst(valid, rules.table, i)
    {
      validated := ValidateAt(rules, i, validated.value, base, current, previous, candidate);
      if validated.None? {
        NoneStays(valid, rules.table, i + 1);
        return;
      }
    }
  }
}
