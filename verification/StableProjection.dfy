module StableProjection {
  /** A stable release may differ from its last prerelease only in version fields. */

  import opened Common
  import opened Json
  import opened ReleaseVersions

  type Path = seq<string>
  type Bytes = seq<bv8>

  // ---- reading and removing a nested field

  predicate HasMember(doc: Json, key: string) {
    doc.Obj? && key in doc.members
  }

  function Descend(doc: Json, key: string): Option<Json> {
    if HasMember(doc, key) then Some(doc.members[key]) else None
  }

  /** `_path_value`; None when the field is missing. */
  function ValueAt(doc: Json, path: Path): Option<Json>
    decreases |path|
  {
    if path == [] then Some(doc)
    else
      match Descend(doc, path[0])
      case None => None
      case Some(child) => ValueAt(child, path[1..])
  }

  function SetMember(doc: Json, key: string, child: Json): Json
    requires doc.Obj?
  {
    Obj(doc.members[key := child])
  }

  /** The document without the field, or as it is when the field is missing. */
  function Without(doc: Json, path: Path): Json
    decreases |path|
  {
    if path == [] || !HasMember(doc, path[0]) then doc
    else if |path| == 1 then Obj(doc.members - {path[0]})
    else SetMember(doc, path[0], Without(doc.members[path[0]], path[1..]))
  }

  /** `_remove_path` */
  function RemovePath(doc: Json, path: Path): Result<Json> {
    if path != [] && ValueAt(doc, path).Some? then Ok(Without(doc, path)) else Err("missing expected version field")
  }

  /** A field can be removed when it is there, and is not there afterwards. */
  lemma {:induction false} RemovePathIff(doc: Json, path: Path)
    ensures RemovePath(doc, path).Ok? <==> path != [] && ValueAt(doc, path).Some?
    ensures RemovePath(doc, path).Ok? ==> ValueAt(RemovePath(doc, path).value, path).None?
    decreases |path|
  {
    if |path| > 1 && ValueAt(doc, path).Some? {
      RemovePathIff(doc.members[path[0]], path[1..]);
    }
  }

  /** The document with the field overwritten, where it has one. */
  function Overwrite(doc: Json, path: Path, value: Json): Json
    decreases |path|
  {
    if path == [] then value
    else if !HasMember(doc, path[0]) then doc
    else SetMember(doc, path[0], Overwrite(doc.members[path[0]], path[1..], value))
  }

  function OverwriteAll(doc: Json, fields: seq<Path>, value: Json): Json
    decreases |fields|
  {
    if fields == [] then doc else OverwriteAll(Overwrite(doc, fields[0], value), fields[1..], value)
  }

  function WithoutAll(doc: Json, fields: seq<Path>): Json
    decreases |fields|
  {
    if fields == [] then doc else WithoutAll(Without(doc, fields[0]), fields[1..])
  }

  /** Neither path leads through the other. */
  predicate Apart(p: Path, q: Path)
    decreases |p|
  {
    p != [] && q != [] && (p[0] != q[0] || Apart(p[1..], q[1..]))
  }

  ghost predicate AllApart(fields: seq<Path>) {
    && (forall i :: 0 <= i < |fields| ==> fields[i] != [])
    && (forall i, j :: 0 <= i < j < |fields| ==> Apart(fields[i], fields[j]))
  }

  // ---- one field at a time

  lemma {:induction false} ApartIsSymmetric(p: Path, q: Path)
    ensures Apart(p, q) == Apart(q, p)
    decreases |p|
  {
    if p != [] && q != [] && p[0] == q[0] {
      ApartIsSymmetric(p[1..], q[1..]);
    }
  }

  lemma {:induction false} WithoutKeepsOthers(doc: Json, p: Path, q: Path)
    requires Apart(p, q)
    ensures ValueAt(Without(doc, p), q) == ValueAt(doc, q)
    decreases |p|
  {
    if HasMember(doc, p[0]) && p[0] == q[0] {
      WithoutKeepsOthers(doc.members[p[0]], p[1..], q[1..]);
    }
  }

  lemma {:induction false} WithoutCommutes(doc: Json, p: Path, q: Path)
    requires Apart(p, q)
    ensures Without(Without(doc, p), q) == Without(Without(doc, q), p)
    decreases |p|
  {
    if HasMember(doc, p[0]) && HasMember(doc, q[0]) {
      if p[0] == q[0] {
        WithoutCommutes(doc.members[p[0]], p[1..], q[1..]);
      }
      assert Without(Without(doc, p), q).members == Without(Without(doc, q), p).members;
    }
  }

  /** A document is determined by one of its fields and what remains without it. */
  lemma {:induction false} FieldAndRest(x: Json, y: Json, p: Path)
    requires p != [] && ValueAt(x, p).Some? && ValueAt(x, p) == ValueAt(y, p)
    requires Without(x, p) == Without(y, p)
    ensures x == y
    decreases |p|
  {
    var k := p[0];
    if |p| == 1 {
      assert x.members == (x.members - {k})[k := x.members[k]];
      assert y.members == (y.members - {k})[k := y.members[k]];
    } else {
      var xr, yr := Without(x.members[k], p[1..]), Without(y.members[k], p[1..]);
      assert Without(x, p).members[k] == xr && Without(y, p).members[k] == yr;
      FieldAndRest(x.members[k], y.members[k], p[1..]);
      assert x.members == x.members[k := xr][k := x.members[k]];
      assert y.members == y.members[k := yr][k := y.members[k]];
    }
  }

  lemma {:induction false} OverwriteIsRead(doc: Json, p: Path, value: Json)
    requires ValueAt(doc, p).Some?
    ensures ValueAt(Overwrite(doc, p, value), p) == Some(value)
    ensures p != [] ==> Without(Overwrite(doc, p, value), p) == Without(doc, p)
    decreases |p|
  {
    if p != [] {
      OverwriteIsRead(doc.members[p[0]], p[1..], value);
      if |p| == 1 {
        assert Without(Overwrite(doc, p, value), p).members == Without(doc, p).members;
      } else {
        assert Without(Overwrite(doc, p, value), p).members == Without(doc, p).members;
      }
    }
  }

  lemma {:induction false} OverwriteKeepsOthers(doc: Json, p: Path, q: Path, value: Json)
    requires Apart(p, q)
    ensures ValueAt(Overwrite(doc, p, value), q) == ValueAt(doc, q)
    decreases |p|
  {
    if HasMember(doc, p[0]) && p[0] == q[0] {
      OverwriteKeepsOthers(doc.members[p[0]], p[1..], q[1..], value);
    }
  }

  // ---- several fields

  lemma {:induction false} WithoutAllKeepsOthers(doc: Json, fields: seq<Path>, q: Path)
    requires forall i :: 0 <= i < |fields| ==> Apart(fields[i], q)
    ensures ValueAt(WithoutAll(doc, fields), q) == ValueAt(doc, q)
    decreases |fields|
  {
    if fields != [] {
      WithoutKeepsOthers(doc, fields[0], q);
      WithoutAllKeepsOthers(Without(doc, fields[0]), fields[1..], q);
    }
  }

  lemma {:induction false} WithoutAllCommutes(doc: Json, fields: seq<Path>, q: Path)
    requires forall i :: 0 <= i < |fields| ==> Apart(fields[i], q)
    ensures WithoutAll(Without(doc, q), fields) == Without(WithoutAll(doc, fields), q)
    decreases |fields|
  {
    if fields != [] {
      WithoutCommutes(doc, fields[0], q);
      WithoutAllCommutes(Without(doc, fields[0]), fields[1..], q);
    }
  }

  lemma OthersApart(fields: seq<Path>)
    requires AllApart(fields) && fields != []
    ensures AllApart(fields[1..])
    ensures forall i :: 0 <= i < |fields[1..]| ==> Apart(fields[1..][i], fields[0]) && Apart(fields[0], fields[1..][i])
  {
    forall i | 0 <= i < |fields[1..]|
      ensures Apart(fields[1..][i], fields[0]) && Apart(fields[0], fields[1..][i])
    {
      ApartIsSymmetric(fields[0], fields[i + 1]);
    }
  }

  ghost predicate AllPresent(doc: Json, fields: seq<Path>) {
    forall i :: 0 <= i < |fields| ==> ValueAt(doc, fields[i]).Some?
  }

  ghost predicate AllAre(doc: Json, fields: seq<Path>, value: Json) {
    forall i :: 0 <= i < |fields| ==> ValueAt(doc, fields[i]) == Some(value)
  }

  lemma OverwriteKeepsPresent(doc: Json, fields: seq<Path>, value: Json)
    requires AllApart(fields) && fields != [] && AllPresent(doc, fields)
    ensures AllPresent(Overwrite(doc, fields[0], value), fields[1..])
  {
    OthersApart(fields);
    forall i | 0 <= i < |fields[1..]|
      ensures ValueAt(Overwrite(doc, fields[0], value), fields[1..][i]).Some?
    {
      OverwriteKeepsOthers(doc, fields[0], fields[1..][i], value);
    }
  }

  /** If two documents are equal without some fields, and the second has `value` in all of them, then it
      is the first with those fields overwritten. */
  lemma {:induction false} RemaindersDetermine(base: Json, current: Json, fields: seq<Path>, value: Json)
    requires AllApart(fields) && AllPresent(base, fields) && AllAre(current, fields, value)
    requires WithoutAll(base, fields) == WithoutAll(current, fields)
    ensures current == OverwriteAll(base, fields, value)
    decreases |fields|
  {
    if fields != [] {
      var f, rest := fields[0], fields[1..];
      var base1 := Overwrite(base, f, value);
      OthersApart(fields);
      OverwriteKeepsPresent(base, fields, value);
      OverwriteIsRead(base, f, value);
      WithoutAllCommutes(base1, rest, f);
      WithoutAllCommutes(current, rest, f);
      WithoutAllKeepsOthers(base1, rest, f);
      WithoutAllKeepsOthers(current, rest, f);
      FieldAndRest(WithoutAll(base1, rest), WithoutAll(current, rest), f);
      RemaindersDetermine(base1, current, rest, value);
    }
  }

  /** Overwriting changes nothing but the fields, and puts the value in each. */
  lemma {:induction false} OverwriteAllKeepsRest(base: Json, fields: seq<Path>, value: Json)
    requires AllApart(fields) && AllPresent(base, fields)
    ensures WithoutAll(OverwriteAll(base, fields, value), fields) == WithoutAll(base, fields)
    ensures AllAre(OverwriteAll(base, fields, value), fields, value)
    decreases |fields|
  {
    if fields != [] {
      var f, rest := fields[0], fields[1..];
      var base1 := Overwrite(base, f, value);
      var done := OverwriteAll(base1, rest, value);
      OthersApart(fields);
      OverwriteKeepsPresent(base, fields, value);
      OverwriteIsRead(base, f, value);
      OverwriteAllKeepsRest(base1, rest, value);
      WithoutAllCommutes(done, rest, f);
      WithoutAllCommutes(base1, rest, f);
      WithoutAllKeepsOthers(done, rest, f);
      WithoutAllKeepsOthers(base1, rest, f);
      assert ValueAt(done, f) == Some(value);
      forall i | 0 <= i < |fields|
        ensures ValueAt(done, fields[i]) == Some(value)
      {
        if i > 0 {
          assert fields[i] == rest[i - 1];
        }
      }
    }
  }

  // ---- Python's equality sees the same fields

  lemma {:induction false} PyFormOfValue(doc: Json, path: Path)
    ensures ValueAt(PyForm(doc), path) == match ValueAt(doc, path) case None => None case Some(v) => Some(PyForm(v))
    decreases |path|
  {
    if path != [] && HasMember(doc, path[0]) {
      PyFormOfValue(doc.members[path[0]], path[1..]);
    }
  }

  lemma {:induction false} PyFormOfWithout(doc: Json, path: Path)
    ensures PyForm(Without(doc, path)) == Without(PyForm(doc), path)
    decreases |path|
  {
    if path != [] && HasMember(doc, path[0]) {
      PyFormOfWithout(doc.members[path[0]], path[1..]);
      assert PyForm(Without(doc, path)).members == Without(PyForm(doc), path).members;
    }
  }

  lemma {:induction false} PyFormOfWithoutAll(doc: Json, fields: seq<Path>)
    ensures PyForm(WithoutAll(doc, fields)) == WithoutAll(PyForm(doc), fields)
    decreases |fields|
  {
    if fields != [] {
      PyFormOfWithout(doc, fields[0]);
      PyFormOfWithoutAll(Without(doc, fields[0]), fields[1..]);
    }
  }

  lemma {:induction false} PyFormOfOverwrite(doc: Json, path: Path, s: string)
    ensures PyForm(Overwrite(doc, path, Str(s))) == Overwrite(PyForm(doc), path, Str(s))
    decreases |path|
  {
    if path != [] && HasMember(doc, path[0]) {
      PyFormOfOverwrite(doc.members[path[0]], path[1..], s);
      assert PyForm(Overwrite(doc, path, Str(s))).members == Overwrite(PyForm(doc), path, Str(s)).members;
    }
  }

  lemma {:induction false} PyFormOfOverwriteAll(doc: Json, fields: seq<Path>, s: string)
    ensures PyForm(OverwriteAll(doc, fields, Str(s))) == OverwriteAll(PyForm(doc), fields, Str(s))
    decreases |fields|
  {
    if fields != [] {
      PyFormOfOverwrite(doc, fields[0], s);
      PyFormOfOverwriteAll(Overwrite(doc, fields[0], Str(s)), fields[1..], s);
    }
  }

  // ---- one metadata document

  /** Remove the first `k` fields, one after the other. */
  function RemoveFirst(doc: Json, fields: seq<Path>, k: nat): Result<Json>
    requires k <= |fields|
  {
    if k == 0 then Ok(doc)
    else
      match RemoveFirst(doc, fields, k - 1)
      case Err(reason) => Err(reason)
      case Ok(rest) => RemovePath(rest, fields[k - 1])
  }

  predicate Projects(base: Json, current: Json, field: Path, before: string, after: string) {
    ValueAt(base, field) == Some(Str(before)) && ValueAt(current, field) == Some(Str(after))
  }

  /** The first `k` fields hold the old version in the base and the new one in the candidate. */
  predicate FieldsProject(base: Json, current: Json, fields: seq<Path>, before: string, after: string, k: nat)
    requires k <= |fields|
  {
    k == 0 || (FieldsProject(base, current, fields, before, after, k - 1) && Projects(base, current, fields[k - 1], before, after))
  }

  lemma {:induction false} FieldsProjectIff(base: Json, current: Json, fields: seq<Path>, before: string, after: string, k: nat)
    requires k <= |fields|
    ensures FieldsProject(base, current, fields, before, after, k) <==>
      forall i :: 0 <= i < k ==> Projects(base, current, fields[i], before, after)
    decreases k
  {
    if k > 0 {
      FieldsProjectIff(base, current, fields, before, after, k - 1);
    }
  }

  /** The comparison `_validate_json_projection` and `_validate_toml_projection` make on parsed documents. */
  predicate SameButVersion(base: Json, current: Json, fields: seq<Path>, before: string, after: string) {
    && base.Obj? && current.Obj?
    && FieldsProject(base, current, fields, before, after, |fields|)
    && var b, c := RemoveFirst(base, fields, |fields|), RemoveFirst(current, fields, |fields|);
       b.Ok? && c.Ok? && PyEq(b.value, c.value)
  }

  lemma {:induction false} WithoutAllSnoc(doc: Json, fields: seq<Path>, k: nat)
    requires k < |fields|
    ensures WithoutAll(doc, fields[..k + 1]) == Without(WithoutAll(doc, fields[..k]), fields[k])
    decreases k
  {
    if k == 0 {
      assert fields[..1] == [fields[0]] && fields[..0] == [];
    } else {
      WithoutAllSnoc(Without(doc, fields[0]), fields[1..], k - 1);
      assert fields[1..][..k] == fields[..k + 1][1..];
      assert fields[1..][..k - 1] == fields[..k][1..];
    }
  }

  lemma {:induction false} RemoveFirstIsWithoutAll(doc: Json, fields: seq<Path>, k: nat)
    requires k <= |fields| && AllApart(fields) && AllPresent(doc, fields)
    ensures RemoveFirst(doc, fields, k) == Ok(WithoutAll(doc, fields[..k]))
    decreases k
  {
    if k > 0 {
      RemoveFirstIsWithoutAll(doc, fields, k - 1);
      WithoutAllKeepsOthers(doc, fields[..k - 1], fields[k - 1]);
      WithoutAllSnoc(doc, fields, k - 1);
    }
  }

  lemma PresentInPyForm(doc: Json, fields: seq<Path>, s: string)
    ensures AllPresent(PyForm(doc), fields) <==> AllPresent(doc, fields)
    ensures AllAre(PyForm(doc), fields, Str(s)) <==> AllAre(doc, fields, Str(s))
  {
    forall i | 0 <= i < |fields|
      ensures ValueAt(PyForm(doc), fields[i]).Some? == ValueAt(doc, fields[i]).Some?
      ensures ValueAt(PyForm(doc), fields[i]) == Some(Str(s)) <==> ValueAt(doc, fields[i]) == Some(Str(s))
    {
      PyFormOfValue(doc, fields[i]);
    }
  }

  /** The new document is accepted exactly when the old one has the old version in every listed field and
      the new one equals the old one with the new version written over them. */
  lemma ProjectionIsReconstruction(base: Json, current: Json, fields: seq<Path>, before: string, after: string)
    requires AllApart(fields) && fields != []
    ensures SameButVersion(base, current, fields, before, after) <==>
      AllAre(base, fields, Str(before)) && PyEq(current, OverwriteAll(base, fields, Str(after)))
  {
    FieldsProjectIff(base, current, fields, before, after, |fields|);
    PyFormOfOverwriteAll(base, fields, after);
    PresentInPyForm(base, fields, before);
    PresentInPyForm(current, fields, after);
    PyFormOfWithoutAll(base, fields);
    PyFormOfWithoutAll(current, fields);
    assert fields[..|fields|] == fields;
    if AllAre(base, fields, Str(before)) {
      RemoveFirstIsWithoutAll(base, fields, |fields|);
      assert ValueAt(base, fields[0]) == Some(Str(before));
      assert fields[0] != [];
      if AllAre(current, fields, Str(after)) {
        RemoveFirstIsWithoutAll(current, fields, |fields|);
        assert ValueAt(current, fields[0]) == Some(Str(after));
        if WithoutAll(PyForm(base), fields) == WithoutAll(PyForm(current), fields) {
          RemaindersDetermine(PyForm(base), PyForm(current), fields, Str(after));
        }
      }
      OverwriteAllKeepsRest(PyForm(base), fields, Str(after));
    }
  }
}
