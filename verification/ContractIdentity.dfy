/** A well-formed contract compared with itself: nothing is reported and the comparison passes. */
module ContractIdentity {
  import opened Common
  import opened SchemaGraph
  import opened SchemaTraversal
  import opened SchemaWalk
  import opened SchemaAlike
  import SchemaProperties
  import opened Contracts

  // ---- well-formed contracts: the maps of a parsed document have distinct keys

  ghost predicate DistinctMedia(media: seq<MediaType>) {
    forall i, j :: 0 <= i < j < |media| ==> media[i].name != media[j].name
  }

  ghost predicate ContentFormed(c: Content) {
    c.ContentMap? && DistinctMedia(c.media)
  }

  ghost predicate ResponsesFormed(x: Responses) {
    && x.ResponseMap?
    && (forall i, j :: 0 <= i < j < |x.entries| ==> x.entries[i].status != x.entries[j].status)
    && (forall i :: 0 <= i < |x.entries| ==> ContentFormed(x.entries[i].content))
  }

  ghost predicate OperationFormed(o: Operation) {
    && (o.body.Some? ==> ContentFormed(o.body.value.content))
    && ResponsesFormed(o.responses)
  }

  ghost predicate ItemFormed(item: PathItem) {
    && item.PathItem?
    && forall m :: m in item.operations ==> item.operations[m].AnOperation? && OperationFormed(item.operations[m].operation)
  }

  ghost predicate PathsFormed(paths: seq<Path>) {
    && (forall i, j :: 0 <= i < j < |paths| ==> paths[i].path != paths[j].path)
    && (forall i :: 0 <= i < |paths| ==> ItemFormed(paths[i].item))
  }

  ghost predicate Formed(c: Contract) {
    && c.graph.Valid() && SchemaProperties.WellShaped(c.graph) && ToldApart(c.graph, c.graph)
    && DistinctNames(c.graph.schemas)
    && c.paths.Some? && PathsFormed(c.paths.value) && c.componentsListed
  }

  // ---- silent steps

  /** Only comparisons of a position with itself. */
  ghost predicate Silent(r: Review, steps: seq<ContractStep>) {
    forall k {:trigger steps[k]} :: 0 <= k < |steps| ==>
      steps[k].Compare? && steps[k].a == steps[k].b && steps[k].a in r.base.graph.nodes
  }

  lemma SilentConcat(r: Review, p: seq<ContractStep>, q: seq<ContractStep>)
    requires Silent(r, p) && Silent(r, q)
    ensures Silent(r, p + q)
  {
  }

  lemma SilentWalk(r: Review, direction: Direction, a: Id, location: Place)
    requires r.Valid() && r.base == r.cand && SchemaProperties.WellShaped(r.base.graph)
    requires ToldApart(r.base.graph, r.base.graph)
    requires a in r.base.graph.nodes
    ensures WalkChanges(r, direction, a, a, location) == []
  {
    EqualIsReflexive(r.base.graph, a);
    SchemaProperties.SelfComparisonIsSilent(r.SceneFor(direction), a, a, location, Trace([], {}));
  }

  lemma {:induction false} SilentReportsNothing(r: Review, steps: seq<ContractStep>)
    requires r.Valid() && r.base == r.cand && SchemaProperties.WellShaped(r.base.graph)
    requires ToldApart(r.base.graph, r.base.graph)
    requires Silent(r, steps)
    ensures Changes(r, steps) == []
  {
    if steps != [] {
      var last := steps[|steps| - 1];
      SilentReportsNothing(r, steps[..|steps| - 1]);
      SilentWalk(r, last.direction, last.a, last.location);
    }
  }

  /** `Silent(r, _)` as a value, for putting a step list together from its loop bodies. */
  type Test = seq<ContractStep> -> bool

  ghost predicate Joins(test: Test) {
    test([]) && forall p, q {:trigger Joined(p, q)} :: test(p) && test(q) ==> test(p + q)
  }

  ghost function SilentTest(r: Review): Test {
    (steps: seq<ContractStep>) => Silent(r, steps)
  }

  lemma SilentTestJoins(r: Review)
    ensures Joins(SilentTest(r))
  {
    forall p, q | SilentTest(r)(p) && SilentTest(r)(q)
      ensures SilentTest(r)(p + q)
    {
      SilentConcat(r, p, q);
    }
  }

  // ---- parameters

  ghost predicate DistinctParameters(ps: seq<Parameter>) {
    forall i, j :: 0 <= i < j < |ps| ==> ps[i].position != ps[j].position || ps[i].name != ps[j].name
  }

  lemma {:induction false} WithoutKeepsDistinct(ps: seq<Parameter>, position: string, name: string)
    requires DistinctParameters(ps)
    ensures DistinctParameters(WithoutParameter(ps, position, name))
    ensures forall p :: p in WithoutParameter(ps, position, name) ==> p in ps && (p.position != position || p.name != name)
  {
    if ps != [] {
      WithoutKeepsDistinct(ps[..|ps| - 1], position, name);
      var front, last := WithoutParameter(ps[..|ps| - 1], position, name), ps[|ps| - 1];
      forall i | 0 <= i < |front|
        ensures front[i].position != last.position || front[i].name != last.name
      {
        assert front[i] in ps[..|ps| - 1];
      }
    }
  }

  /** Merged parameters have distinct positions and names, as the keys of a dictionary do. */
  lemma {:induction false} MergeIsDistinct(ps: seq<Parameter>)
    ensures DistinctParameters(Merge(ps))
  {
    if ps != [] {
      var last := ps[|ps| - 1];
      MergeIsDistinct(ps[..|ps| - 1]);
      WithoutKeepsDistinct(Merge(ps[..|ps| - 1]), last.position, last.name);
      var front := WithoutParameter(Merge(ps[..|ps| - 1]), last.position, last.name);
      forall i | 0 <= i < |front|
        ensures front[i].position != last.position || front[i].name != last.name
      {
        assert front[i] in front;
      }
    }
  }

  lemma {:induction false} FindSameParameter(ps: seq<Parameter>, k: nat)
    requires DistinctParameters(ps) && k < |ps|
    ensures FindParameter(ps, ps[k].position, ps[k].name) == Some(ps[k])
  {
    var r := FindParameter(ps, ps[k].position, ps[k].name);
    assert ps[k] in ps;
    if r.Some? {
      var j :| 0 <= j < |ps| && ps[j] == r.value;
    }
  }

  lemma SelfParameter(r: Review, p: Parameter, ps: seq<Parameter>, location: Place)
    requires r.Valid() && r.base == r.cand && FindParameter(ps, p.position, p.name) == Some(p)
    ensures Silent(r, OldParameter(r, p, ps, location))
  {
    var a := At(r.base.graph, p.schema, r.base.graph.none);
    var steps := OldParameter(r, p, ps, location);
    assert |steps| == 1 && steps[0] == Compare(Request, a, a, ParameterAt(location, p.position, p.name));
  }

  lemma {:induction false} SelfOldParameters(r: Review, ps: seq<Parameter>, location: Place, k: nat)
    requires r.Valid() && r.base == r.cand && DistinctParameters(ps) && k <= |ps|
    ensures Silent(r, OldParameters(r, ps, ps, location, k))
  {
    if k > 0 {
      SelfOldParameters(r, ps, location, k - 1);
      FindSameParameter(ps, k - 1);
      SelfParameter(r, ps[k - 1], ps, location);
      SilentConcat(r, OldParameters(r, ps, ps, location, k - 1), OldParameter(r, ps[k - 1], ps, location));
    }
  }

  lemma {:induction false} SelfNewParameters(ps: seq<Parameter>, location: Place, k: nat)
    requires DistinctParameters(ps) && k <= |ps|
    ensures NewParameters(ps, ps, location, k) == []
  {
    if k > 0 {
      SelfNewParameters(ps, location, k - 1);
      FindSameParameter(ps, k - 1);
    }
  }

  // ---- content and responses

  lemma FindSameMedium(media: seq<MediaType>, k: nat)
    requires DistinctMedia(media) && k < |media|
    ensures FindMedia(media, media[k].name) == Some(media[k])
  {
    var r := FindMedia(media, media[k].name);
    assert media[k] in media;
    if r.Some? {
      var j :| 0 <= j < |media| && media[j] == r.value;
    }
  }

  lemma {:induction false} SelfMedia(r: Review, media: seq<MediaType>, carrier: Carrier, k: nat)
    requires r.Valid() && r.base == r.cand && DistinctMedia(media) && k <= |media|
    ensures Silent(r, OldMedia(r, media, media, carrier, k))
    ensures NewMedia(media, media, carrier, k) == []
  {
    if k > 0 {
      SelfMedia(r, media, carrier, k - 1);
      FindSameMedium(media, k - 1);
      var a := At(r.base.graph, media[k - 1].schema, r.base.graph.empty);
      assert OldMedium(r, media[k - 1], media, carrier)
          == [Compare(carrier.Travel(), a, a, carrier.Location(media[k - 1].name))];
      SilentConcat(r, OldMedia(r, media, media, carrier, k - 1), OldMedium(r, media[k - 1], media, carrier));
    }
  }

  lemma SelfContent(r: Review, c: Content, carrier: Carrier)
    requires r.Valid() && r.base == r.cand && ContentFormed(c)
    ensures Silent(r, ContentSteps(r, c, c, carrier))
  {
    SelfMedia(r, c.media, carrier, |c.media|);
    SilentConcat(r, OldMedia(r, c.media, c.media, carrier, |c.media|), []);
  }

  lemma FindSameResponse(entries: seq<ResponseEntry>, k: nat)
    requires k < |entries|
    requires forall i, j :: 0 <= i < j < |entries| ==> entries[i].status != entries[j].status
    ensures FindResponse(entries, entries[k].status) == Some(entries[k])
  {
    var r := FindResponse(entries, entries[k].status);
    assert entries[k] in entries;
    if r.Some? {
      var j :| 0 <= j < |entries| && entries[j] == r.value;
    }
  }

  lemma SelfResponse(r: Review, x: Responses, location: Place, k: nat)
    requires r.Valid() && r.base == r.cand && ResponsesFormed(x) && k < |x.entries|
    ensures Silent(r, OldResponse(r, x.entries[k], x.entries, location))
    ensures NewResponse(x.entries, x.entries[k], location) == []
  {
    var e := x.entries[k];
    FindSameResponse(x.entries, k);
    SelfContent(r, e.content, ResponseCarrier(location, e.status));
  }

  lemma {:induction false} JoinResponses(
    test: Test, r: Review, earlier: seq<ResponseEntry>, later: seq<ResponseEntry>, location: Place, k: nat)
    requires Joins(test) && k <= |earlier|
    requires forall i :: 0 <= i < k ==> test(OldResponse(r, earlier[i], later, location))
    ensures test(OldResponses(r, earlier, later, location, k))
  {
    if k > 0 {
      JoinResponses(test, r, earlier, later, location, k - 1);
      assert Joined(OldResponses(r, earlier, later, location, k - 1), OldResponse(r, earlier[k - 1], later, location));
    }
  }

  lemma SelfResponses(r: Review, x: Responses, location: Place)
    requires r.Valid() && r.base == r.cand && ResponsesFormed(x)
    ensures Silent(r, OldResponses(r, x.entries, x.entries, location, |x.entries|))
  {
    SilentTestJoins(r);
    forall i | 0 <= i < |x.entries|
      ensures SilentTest(r)(OldResponse(r, x.entries[i], x.entries, location))
    {
      SelfResponse(r, x, location, i);
    }
    JoinResponses(SilentTest(r), r, x.entries, x.entries, location, |x.entries|);
  }

  lemma {:induction false} SelfNewResponses(x: Responses, location: Place, k: nat)
    requires ResponsesFormed(x) && k <= |x.entries|
    ensures NewResponses(x.entries, x.entries, location, k) == []
  {
    if k > 0 {
      SelfNewResponses(x, location, k - 1);
      FindSameResponse(x.entries, k - 1);
    }
  }

  // ---- operations and paths

  lemma SelfOperation(r: Review, ps: seq<Parameter>, o: Operation, location: Place)
    requires r.Valid() && r.base == r.cand && OperationFormed(o)
    ensures Silent(r, OperationSteps(r, ps, o, ps, o, location))
  {
    var merged := Merge(ps + o.parameters);
    MergeIsDistinct(ps + o.parameters);
    SelfOldParameters(r, merged, location, |merged|);
    SelfNewParameters(merged, location, |merged|);
    var parameters := ParameterSteps(r, merged, merged, location);
    SilentConcat(r, OldParameters(r, merged, merged, location, |merged|), []);
    var body := BodySteps(r, o.body, o.body, location);
    if o.body.Some? {
      SelfContent(r, o.body.value.content, RequestCarrier(location));
      SilentConcat(r, [], ContentSteps(r, o.body.value.content, o.body.value.content, RequestCarrier(location)));
    }
    SelfResponses(r, o.responses, location);
    SelfNewResponses(o.responses, location, |o.responses.entries|);
    var responses := ResponseSteps(r, o.responses, o.responses, location);
    SilentConcat(r, OldResponses(r, o.responses.entries, o.responses.entries, location, |o.responses.entries|), []);
    SilentConcat(r, [], parameters);
    SilentConcat(r, [] + parameters, body);
    SilentConcat(r, [] + parameters + body, responses);
  }

  lemma SelfMethod(r: Review, path: string, item: PathItem, m: Method)
    requires r.Valid() && r.base == r.cand && ItemFormed(item)
    ensures Silent(r, MethodSteps(r, path, item, item, m))
  {
    if m in item.operations {
      SelfOperation(r, item.parameters, item.operations[m].operation, Endpoint(MethodName(m), path));
    }
  }

  lemma {:induction false} JoinMethods(test: Test, r: Review, path: string, item: PathItem, k: nat)
    requires Joins(test) && item.PathItem? && k <= |METHODS|
    requires forall m :: test(MethodSteps(r, path, item, item, m))
    ensures test(OldMethods(r, path, item, item, k))
  {
    if k > 0 {
      JoinMethods(test, r, path, item, k - 1);
      assert Joined(OldMethods(r, path, item, item, k - 1), MethodSteps(r, path, item, item, METHODS[k - 1]));
    }
  }

  lemma SelfMethods(r: Review, path: string, item: PathItem)
    requires r.Valid() && r.base == r.cand && ItemFormed(item)
    ensures Silent(r, OldMethods(r, path, item, item, |METHODS|))
  {
    SilentTestJoins(r);
    forall m
      ensures SilentTest(r)(MethodSteps(r, path, item, item, m))
    {
      SelfMethod(r, path, item, m);
    }
    JoinMethods(SilentTest(r), r, path, item, |METHODS|);
  }

  lemma {:induction false} SelfNewMethods(path: string, item: PathItem, k: nat)
    requires item.PathItem? && k <= |METHODS|
    ensures NewMethods(path, item.operations.Keys, item, k) == []
  {
    if k > 0 {
      SelfNewMethods(path, item, k - 1);
    }
  }

  lemma FindSamePath(paths: seq<Path>, k: nat)
    requires PathsFormed(paths) && k < |paths|
    ensures FindPath(paths, paths[k].path) == Some(paths[k].item)
  {
    var r := FindPath(paths, paths[k].path);
    assert paths[k] in paths;
    if r.Some? {
      var j :| 0 <= j < |paths| && paths[j] == Path(paths[k].path, r.value);
    }
  }

  lemma SelfPath(r: Review, paths: seq<Path>, k: nat)
    requires r.Valid() && r.base == r.cand && PathsFormed(paths) && k < |paths|
    ensures Silent(r, OldPath(r, paths[k], paths))
  {
    var p := paths[k];
    FindSamePath(paths, k);
    SelfMethods(r, p.path, p.item);
    SelfNewMethods(p.path, p.item, |METHODS|);
    SilentConcat(r, OldMethods(r, p.path, p.item, p.item, |METHODS|), []);
  }

  lemma {:induction false} JoinPaths(test: Test, r: Review, earlier: seq<Path>, later: seq<Path>, k: nat)
    requires Joins(test) && k <= |earlier|
    requires forall i :: 0 <= i < k ==> test(OldPath(r, earlier[i], later))
    ensures test(OldPaths(r, earlier, later, k))
  {
    if k > 0 {
      JoinPaths(test, r, earlier, later, k - 1);
      assert Joined(OldPaths(r, earlier, later, k - 1), OldPath(r, earlier[k - 1], later));
    }
  }

  lemma SelfPaths(r: Review, paths: seq<Path>)
    requires r.Valid() && r.base == r.cand && PathsFormed(paths)
    ensures Silent(r, OldPaths(r, paths, paths, |paths|))
  {
    SilentTestJoins(r);
    forall i | 0 <= i < |paths|
      ensures SilentTest(r)(OldPath(r, paths[i], paths))
    {
      SelfPath(r, paths, i);
    }
    JoinPaths(SilentTest(r), r, paths, paths, |paths|);
  }

  lemma {:induction false} SelfNewPaths(paths: seq<Path>, k: nat)
    requires PathsFormed(paths) && k <= |paths|
    ensures NewPaths(paths, paths, k) == []
  {
    if k > 0 {
      SelfNewPaths(paths, k - 1);
      FindSamePath(paths, k - 1);
    }
  }

  lemma {:induction false} SelfComponents(r: Review, k: nat)
    requires r.Valid() && r.base == r.cand && DistinctNames(r.base.graph.schemas) && k <= |r.base.graph.schemas|
    ensures Silent(r, ComponentSteps(r, k))
  {
    if k > 0 {
      SelfComponents(r, k - 1);
      var m := r.base.graph.schemas[k - 1];
      SchemaProperties.FindDistinct(r.base.graph.schemas, k - 1);
      var a := At(r.base.graph, Some(m.id), r.base.graph.empty);
      assert ComponentStep(r, m) == [Compare(ModeOf(r.cand, m.name), a, a, Component(m.name))];
      SilentConcat(r, ComponentSteps(r, k - 1), ComponentStep(r, m));
    }
  }

  lemma SelfIsSilent(c: Contract, places: set<string>)
    requires Formed(c)
    requires MetadataOf(c).major.Some? && MetadataOf(c).major.value >= 1
    requires MetadataOf(c).revision.Some? && MetadataOf(c).revision.value >= 1
    ensures ReviewOf(c, c, places).Valid() && Silent(ReviewOf(c, c, places), AllSteps(ReviewOf(c, c, places)))
  {
    var r := ReviewOf(c, c, places);
    var paths := c.paths.value;
    SelfPaths(r, paths);
    SelfNewPaths(paths, |paths|);
    SelfComponents(r, |c.graph.schemas|);
    SilentConcat(r, OldPaths(r, paths, paths, |paths|), []);
    SilentConcat(r, [], PathSteps(r));
    SilentConcat(r, [] + PathSteps(r), ComponentSteps(r, |c.graph.schemas|));
  }

  /** A well-formed contract with positive metadata, compared with itself: PASS and no change.  Variants
      that occur twice in a combinator do not matter. */
  lemma SelfComparisonPasses(c: Contract, places: set<string>)
    requires Formed(c)
    requires MetadataOf(c).major.Some? && MetadataOf(c).major.value >= 1
    requires MetadataOf(c).revision.Some? && MetadataOf(c).revision.value >= 1
    ensures ReportOf(ReviewOf(c, c, places)) == Report(PASS, [])
  {
    var r := ReviewOf(c, c, places);
    SelfIsSilent(c, places);
    SilentReportsNothing(r, AllSteps(r));
    assert Changes(r, AllSteps(r)) + RevisionStep(r, []) == [];
  }
}
