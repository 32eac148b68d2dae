module StableStandard {
  /** What a stable release of this repository may change, file by file, and what the comparison reports. */

  import opened Common
  import opened Json
  import opened Ordering
  import opened ReleaseVersions
  import opened StableProjection
  import opened StableRelease
  import opened VersionGrammar

  const PACKAGE := "frontend/package.json"
  const LOCKFILE := "frontend/package-lock.json"
  const OPENAPI := "contracts/openapi.json"
  const PYPROJECT := "backend/pyproject.toml"

  ghost predicate IsMetadata(path: string) {
    path == PACKAGE || path == LOCKFILE || path == OPENAPI || path == PYPROJECT
  }

  /** Both commits have the file; the base's document has the text `was` in every field, and the other is the
      base's with `now` written over them. */
  ghost predicate Rewritten(
    parse: Bytes -> Option<Json>, base: Snapshot, current: Snapshot, path: string, fields: seq<Path>, was: string, now: string)
  {
    && path in base.files && path in current.files
    && parse(base.files[path]).Some? && parse(current.files[path]).Some?
    && AllAre(parse(base.files[path]).value, fields, Str(was))
    && PyEq(parse(current.files[path]).value, OverwriteAll(parse(base.files[path]).value, fields, Str(now)))
  }

  /** The same from the text of one version to the text of another. */
  ghost predicate JsonRewritten(
    json: Bytes -> Option<Json>, base: Snapshot, current: Snapshot, path: string, fields: seq<Path>, v: Version, w: Version)
  {
    exists was, now :: Writes(was, v) && Writes(now, w) && Rewritten(json, base, current, path, fields, was, now)
  }

  ghost predicate TomlRewritten(
    toml: Bytes -> Option<Json>, base: Snapshot, current: Snapshot, path: string, fields: seq<Path>, v: Version, w: Version)
  {
    exists was, now :: WritesPep440(was, v) && WritesPep440(now, w) && Rewritten(toml, base, current, path, fields, was, now)
  }

  lemma JsonIsRewritten(rules: Rules, e: Entry, base: Snapshot, current: Snapshot, v: Version, w: Version)
    requires e.format == JsonDocument
    ensures Rebuilt(rules, e, base, current, v, w) <==> JsonRewritten(rules.json, base, current, e.relative, e.fields, v, w)
  {
    WritesIff(Print(v), v);
    WritesIff(Print(w), w);
    forall was, now | Writes(was, v) && Writes(now, w)
      ensures was == Print(v) && now == Print(w)
    {
      WritesIff(was, v);
      WritesIff(now, w);
    }
  }

  lemma TomlIsRewritten(rules: Rules, e: Entry, base: Snapshot, current: Snapshot, v: Version, w: Version)
    requires e.format == TomlDocument
    ensures Rebuilt(rules, e, base, current, v, w) <==> TomlRewritten(rules.toml, base, current, e.relative, e.fields, v, w)
  {
    Pep440Iff(Pep440(v), v);
    Pep440Iff(Pep440(w), w);
    forall was, now | WritesPep440(was, v) && WritesPep440(now, w)
      ensures was == Pep440(v) && now == Pep440(w)
    {
      Pep440Iff(was, v);
      Pep440Iff(now, w);
    }
  }

  /** The four metadata files, each rewritten in its version fields; the TOML file in PEP 440 texts. */
  ghost predicate MetadataRewritten(
    json: Bytes -> Option<Json>, toml: Bytes -> Option<Json>, base: Snapshot, current: Snapshot, v: Version, w: Version)
  {
    && JsonRewritten(json, base, current, PACKAGE, [["version"]], v, w)
    && JsonRewritten(json, base, current, LOCKFILE, [["version"], ["packages", "", "version"]], v, w)
    && JsonRewritten(json, base, current, OPENAPI, [["info", "version"]], v, w)
    && TomlRewritten(toml, base, current, PYPROJECT, [["project", "version"]], v, w)
  }

  ghost predicate TableRebuilt(rules: Rules, base: Snapshot, current: Snapshot, v: Version, w: Version) {
    forall i :: 0 <= i < |rules.table| ==> Rebuilt(rules, rules.table[i], base, current, v, w)
  }

  lemma StandardTable(
    json: Bytes -> Option<Json>, toml: Bytes -> Option<Json>, base: Snapshot, current: Snapshot, v: Version, w: Version)
    ensures TableRebuilt(StandardRules(json, toml), base, current, v, w) <==> MetadataRewritten(json, toml, base, current, v, w)
  {
    var rules := StandardRules(json, toml);
    var t := rules.table;
    FourEntries(rules, base, current, v, w);
    JsonIsRewritten(rules, t[0], base, current, v, w);
    JsonIsRewritten(rules, t[1], base, current, v, w);
    JsonIsRewritten(rules, t[2], base, current, v, w);
    TomlIsRewritten(rules, t[3], base, current, v, w);
  }

  lemma FourEntries(rules: Rules, base: Snapshot, current: Snapshot, v: Version, w: Version)
    requires |rules.table| == 4
    ensures var t := rules.table;
      TableRebuilt(rules, base, current, v, w) <==>
        && Rebuilt(rules, t[0], base, current, v, w) && Rebuilt(rules, t[1], base, current, v, w)
        && Rebuilt(rules, t[2], base, current, v, w) && Rebuilt(rules, t[3], base, current, v, w)
  {
  }

  /** What a stable release of this repository is: the four metadata files are sources of both commits and are
      rewritten from the old version to the new one, every other source is as it was, and something changed. */
  lemma StandardStableIff(
    json: Bytes -> Option<Json>, toml: Bytes -> Option<Json>, base: Snapshot, current: Snapshot, v: Version, w: Version)
    ensures Compare(StandardRules(json, toml), base, current, v, w).allowed <==>
      && (forall p :: IsMetadata(p) ==> p in base.hashes && p in current.hashes)
      && (forall p :: !IsMetadata(p) ==> HashAt(base, p) == HashAt(current, p))
      && base.hashes != current.hashes
      && MetadataRewritten(json, toml, base, current, v, w)
  {
    ProjectionIsUsable(json, toml);
    StableIsReconstruction(StandardRules(json, toml), base, current, v, w);
    StandardTable(json, toml, base, current, v, w);
    TableIsMetadata(base, current);
  }

  lemma TableIsMetadata(base: Snapshot, current: Snapshot)
    ensures forall p :: Required(PROJECTION, p) <==> IsMetadata(p)
    ensures Incomplete(PROJECTION, base, current) <==> !forall p :: IsMetadata(p) ==> p in base.hashes && p in current.hashes
  {
    assert PROJECTION[0].relative == PACKAGE && PROJECTION[1].relative == LOCKFILE;
    assert PROJECTION[2].relative == OPENAPI && PROJECTION[3].relative == PYPROJECT;
    if Incomplete(PROJECTION, base, current) {
      var i :| 0 <= i < |PROJECTION| && (PROJECTION[i].relative !in base.hashes || PROJECTION[i].relative !in current.hashes);
      assert IsMetadata(PROJECTION[i].relative);
    }
  }

  // ---- what is reported beside the decision

  /** A path outside the metadata changed. */
  ghost predicate Substitutes(rules: Rules, base: Snapshot, current: Snapshot) {
    exists p :: HashAt(base, p) != HashAt(current, p) && !Required(rules.table, p)
  }

  /** The report lists the changed paths in order; without acceptance it blames the changed paths outside the
      metadata if that is what is wrong, and all changed paths otherwise; with acceptance it lists the fields. */
  lemma VerdictIff(rules: Rules, base: Snapshot, current: Snapshot, previous: ReleaseVersion, candidate: ReleaseVersion)
    ensures var r := Compare(rules, base, current, previous, candidate);
      && (forall p :: p in r.changed <==> HashAt(base, p) != HashAt(current, p))
      && (forall i, j :: 0 <= i < j < |r.changed| ==> r.changed[i] != r.changed[j] && Precedes(r.changed[i], r.changed[j]))
      && (forall p :: p in r.forbidden <==>
            && !r.allowed && HashAt(base, p) != HashAt(current, p)
            && (!Incomplete(rules.table, base, current) && Substitutes(rules, base, current) ==> !Required(rules.table, p)))
      && (forall name, field :: (name, field) in r.fields <==>
            r.allowed && exists k :: 0 <= k < |rules.table| && rules.table[k].relative == name && field in rules.table[k].fields)
  {
    var r := Compare(rules, base, current, previous, candidate);
    var changed := Changed(base, current);
    assert changed[..|changed|] == changed;
    forall i, j | 0 <= i < j < |r.changed|
      ensures Precedes(r.changed[i], r.changed[j])
    {
      SortedIsOrdered((set p | p in base.hashes.Keys + current.hashes.Keys && Differs(base, current, p)), i, j);
    }
    ForbiddenAre(rules, base, current);
    forall name, field
      ensures (name, field) in r.fields <==>
        r.allowed && exists k :: 0 <= k < |rules.table| && rules.table[k].relative == name && field in rules.table[k].fields
    {
      if r.allowed {
        ValidatedFields(EntryTest(rules, base, current, previous, candidate), rules.table, |rules.table|, name, field);
      }
    }
  }

  lemma ForbiddenAre(rules: Rules, base: Snapshot, current: Snapshot)
    ensures var changed := Changed(base, current);
      Forbidden(rules.table, changed, |changed|) != [] <==> Substitutes(rules, base, current)
  {
    var changed := Changed(base, current);
    var forbidden := Forbidden(rules.table, changed, |changed|);
    assert changed[..|changed|] == changed;
    if forbidden != [] {
      assert forbidden[0] in forbidden;
      assert Differs(base, current, forbidden[0]);
    }
    if Substitutes(rules, base, current) {
      var p :| HashAt(base, p) != HashAt(current, p) && !Required(rules.table, p);
      assert Differs(base, current, p) && p in forbidden;
    }
  }

  lemma {:induction false} FieldLabels(e: Entry, k: nat, name: string, field: Path)
    requires k <= |e.fields|
    ensures (name, field) in FieldsOf(e, k) <==> name == e.relative && field in e.fields[..k]
    decreases k
  {
    if k > 0 {
      FieldLabels(e, k - 1, name, field);
      assert e.fields[..k] == e.fields[..k - 1] + [e.fields[k - 1]];
    }
  }

  lemma {:induction false} ValidatedFields(valid: Entry -> bool, table: seq<Entry>, k: nat, name: string, field: Path)
    requires k <= |table| && ValidateFirst(valid, table, k).Some?
    ensures (name, field) in ValidateFirst(valid, table, k).value <==>
      exists i :: 0 <= i < k && table[i].relative == name && field in table[i].fields
    decreases k
  {
    if k > 0 {
      var e := table[k - 1];
      ValidatedFields(valid, table, k - 1, name, field);
      FieldLabels(e, |e.fields|, name, field);
      assert e.fields[..|e.fields|] == e.fields;
    }
  }
}
