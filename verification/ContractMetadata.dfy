/** What a contract says about its major version and revision, and where. */
module ContractMetadata {
  import opened Common
  import opened SchemaTraversal
  import opened Contracts
  import opened ContractReport

  /** The path belongs to the family of this major. */
  ghost predicate OfFamily(path: string, digits: string) {
    && digits != "" && (forall i :: 0 <= i < |digits| ==> '0' <= digits[i] <= '9')
    && exists rest :: path == "/api/v" + digits + rest && (rest == "" || rest[0] == '/')
  }

  lemma {:induction false} LeadingDigitsAre(digits: string, rest: string)
    requires (forall i :: 0 <= i < |digits| ==> IsDigit(digits[i])) && (rest == "" || !IsDigit(rest[0]))
    ensures LeadingDigits(digits + rest) == |digits|
  {
    if digits == "" {
      assert digits + rest == rest;
    } else {
      assert (digits + rest)[1..] == digits[1..] + rest;
      LeadingDigitsAre(digits[1..], rest);
    }
  }

  lemma PathMajorIff(path: string, digits: string)
    ensures PathMajor(path) == Some(digits) <==> OfFamily(path, digits)
  {
    if PathMajor(path) == Some(digits) {
      var rest := path[6..];
      var n := LeadingDigits(rest);
      assert path == "/api/v" + digits + rest[n..];
    }
    if OfFamily(path, digits) {
      var rest :| path == "/api/v" + digits + rest && (rest == "" || rest[0] == '/');
      assert path[..6] == "/api/v" && path[6..] == digits + rest;
      LeadingDigitsAre(digits, rest);
      assert (digits + rest)[..|digits|] == digits;
    }
  }

  lemma {:induction false} FirstMajorIff(paths: seq<Path>)
    ensures FirstMajor(paths).None? <==> forall p :: p in paths ==> PathMajor(p.path).None?
    ensures FirstMajor(paths).Some? ==> exists p :: p in paths && PathMajor(p.path) == FirstMajor(paths)
  {
    if paths != [] {
      FirstMajorIff(paths[1..]);
      assert paths == [paths[0]] + paths[1..];
      assert paths[0] in paths;
    }
  }

  /** All paths of a family belong to this one, and some does. */
  ghost predicate OneFamily(paths: seq<Path>, digits: string) {
    && (exists p :: p in paths && OfFamily(p.path, digits))
    && (forall p, other :: p in paths && OfFamily(p.path, other) ==> other == digits)
  }

  /** The same in terms of the digits that are matched. */
  ghost predicate MajorsAgree(paths: seq<Path>, digits: string) {
    && (exists p :: p in paths && PathMajor(p.path) == Some(digits))
    && (forall p :: p in paths && PathMajor(p.path).Some? ==> PathMajor(p.path) == Some(digits))
  }

  lemma FamilyAgrees(paths: seq<Path>, digits: string)
    requires OneFamily(paths, digits)
    ensures MajorsAgree(paths, digits)
  {
    var p :| p in paths && OfFamily(p.path, digits);
    PathMajorIff(p.path, digits);
    forall q | q in paths && PathMajor(q.path).Some?
      ensures PathMajor(q.path) == Some(digits)
    {
      PathMajorIff(q.path, PathMajor(q.path).value);
    }
  }

  lemma AgreeingIsFamily(paths: seq<Path>, digits: string)
    requires MajorsAgree(paths, digits)
    ensures OneFamily(paths, digits)
  {
    var p :| p in paths && PathMajor(p.path) == Some(digits);
    PathMajorIff(p.path, digits);
    forall q, other | q in paths && OfFamily(q.path, other)
      ensures other == digits
    {
      PathMajorIff(q.path, other);
    }
  }

  lemma AgreeIff(paths: seq<Path>, digits: string)
    ensures MajorsAgree(paths, digits) <==>
      FirstMajor(paths) == Some(digits) && forall p :: p in paths && PathMajor(p.path).Some? ==> PathMajor(p.path) == Some(digits)
  {
    FirstMajorIff(paths);
  }

  lemma OneFamilyIff(paths: seq<Path>, digits: string)
    ensures OneFamily(paths, digits) <==>
      FirstMajor(paths) == Some(digits) && forall p :: p in paths && PathMajor(p.path).Some? ==> PathMajor(p.path) == Some(digits)
  {
    AgreeIff(paths, digits);
    if OneFamily(paths, digits) {
      FamilyAgrees(paths, digits);
    }
    if MajorsAgree(paths, digits) {
      AgreeingIsFamily(paths, digits);
    }
  }

  /** Explicit numbers count; without both, a contract of one path family has its major and revision zero. */
  lemma MetadataIff(c: Contract, major: Option<int>, revision: Option<int>)
    requires c.info == Info(major, revision)
    ensures var paths := if c.paths.Some? then c.paths.value else [];
      if major.Some? && revision.Some? then MetadataOf(c) == Metadata(major, revision)
      else if exists digits :: OneFamily(paths, digits) then
        MetadataOf(c).revision == Some(0)
        && exists digits :: OneFamily(paths, digits) && Digits(digits) && MetadataOf(c).major == Some(ReadDecimal(digits))
      else MetadataOf(c) == Metadata(major, revision)
  {
    var paths := if c.paths.Some? then c.paths.value else [];
    forall digits
      ensures OneFamily(paths, digits) <==>
        FirstMajor(paths) == Some(digits) && forall p :: p in paths && PathMajor(p.path).Some? ==> PathMajor(p.path) == Some(digits)
    {
      OneFamilyIff(paths, digits);
    }
  }

  /** The answer of the bootstrap endpoint, where a comparison of responses places its schema. */
  const BOOTSTRAP: Place := ResponseMedia(Endpoint("GET", "/api/v1/bootstrap"), "200", "application/json")

  lemma MediaText(parent: Place, status: string, media: string, front: string)
    requires Render(parent) == front
    ensures Render(ResponseMedia(parent, status, media)) == front + " response " + status + " " + media
  {
  }

  lemma EndpointText()
    ensures Render(Endpoint("GET", "/api/v1/bootstrap")) == "GET /api/v1/bootstrap"
  {
    assert "GET" + " " + "/api/v1/bootstrap" == "GET /api/v1/bootstrap";
  }

  lemma JoinedText()
    ensures "GET /api/v1/bootstrap" + " response " + "200" + " " + "application/json"
         == "GET /api/v1/bootstrap response 200 application/json"
  {
    assert "GET /api/v1/bootstrap" + " response " == "GET /api/v1/bootstrap response ";
    assert "GET /api/v1/bootstrap response " + "200" == "GET /api/v1/bootstrap response 200";
    assert "GET /api/v1/bootstrap response 200" + " " == "GET /api/v1/bootstrap response 200 ";
  }

  lemma BootstrapText()
    ensures Render(BOOTSTRAP) == "GET /api/v1/bootstrap response 200 application/json"
  {
    EndpointText();
    MediaText(Endpoint("GET", "/api/v1/bootstrap"), "200", "application/json", "GET /api/v1/bootstrap");
    JoinedText();
  }

  /** The revision of a contract may be a default in the answer of the bootstrap endpoint and in its component. */
  lemma RevisionPlacesAre()
    ensures REVISION_PLACES == {
      Render(Property(BOOTSTRAP, "api_revision")), Render(Property(Component("Bootstrap"), "api_revision"))}
  {
    BootstrapText();
    assert Render(BOOTSTRAP) + "." == "GET /api/v1/bootstrap response 200 application/json.";
    assert Render(Property(BOOTSTRAP, "api_revision")) == "GET /api/v1/bootstrap response 200 application/json.api_revision";
    assert Render(Component("Bootstrap")) == "components.schemas.Bootstrap";
    assert Render(Component("Bootstrap")) + "." == "components.schemas.Bootstrap.";
    assert Render(Property(Component("Bootstrap"), "api_revision")) == "components.schemas.Bootstrap.api_revision";
  }
}
