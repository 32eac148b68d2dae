/** `compare_contracts`: a base and a candidate OpenAPI contract compared as a whole.

    As for schemas, what is compared and reported is a list of steps computed from the two contracts;
    each schema comparison it asks for is one walk with a `seen` set of its own. */
module Contracts {
  import opened Common
  import opened Json
  import opened SchemaGraph
  import opened SchemaTraversal
  import opened SchemaWalk

  // ---- contracts

  datatype MediaType = MediaType(name: string, schema: Option<Id>)
  datatype Content = NotAContentMap | ContentMap(media: seq<MediaType>)
  datatype Body = Body(required: bool, content: Content)
  /** `elsewhere` holds the components named outside the content of a response: its headers and links. */
  datatype ResponseEntry = ResponseEntry(status: string, content: Content, elsewhere: set<string>)
  datatype Responses = NotAResponseMap | ResponseMap(entries: seq<ResponseEntry>)

  /** `shape` is what remains of a parameter without documentation, requiredness and schema. */
  datatype Parameter = Parameter(position: string, name: string, required: bool, shape: Json, schema: Option<Id>)

  datatype Operation = Operation(operationId: Json, parameters: seq<Parameter>, body: Option<Body>, responses: Responses)

  // The compared methods, in the order of their sorted names.
  datatype Method = DeleteMethod | GetMethod | PatchMethod | PostMethod | PutMethod

  const METHODS := [DeleteMethod, GetMethod, PatchMethod, PostMethod, PutMethod]

  datatype Entry = NotAnOperation | AnOperation(operation: Operation)
  datatype PathItem = NotAPathItem | PathItem(parameters: seq<Parameter>, operations: map<Method, Entry>)
  datatype Path = Path(path: string, item: PathItem)
  datatype Info = NoInfo | Info(major: Option<int>, revision: Option<int>)

  /** `paths` is absent when it is not an object; `componentsListed` says the component map is one. */
  datatype Contract = Contract(graph: Graph, info: Info, paths: Option<seq<Path>>, componentsListed: bool)

  function MethodName(m: Method): string {
    match m
    case DeleteMethod => "DELETE"
    case GetMethod => "GET"
    case PatchMethod => "PATCH"
    case PostMethod => "POST"
    case PutMethod => "PUT"
  }

  /** `.get('schema', default)` */
  function At(g: Graph, schema: Option<Id>, default: Id): (a: Id)
    ensures g.Valid() && default in g.nodes ==> a in g.nodes
  {
    if schema.Some? && schema.value in g.nodes then schema.value else default
  }

  // ---- metadata

  function LeadingDigits(s: string): (n: nat)
    ensures n <= |s| && forall i :: 0 <= i < n ==> IsDigit(s[i])
  {
    if s == "" || !IsDigit(s[0]) then 0 else 1 + LeadingDigits(s[1..])
  }

  predicate Digits(s: string) {
    forall i | 0 <= i < |s| :: IsDigit(s[i])
  }

  /** The digits matched by `^/api/v(\d+)(?:/|$)`. */
  function PathMajor(path: string): (r: Option<string>)
    ensures r.Some? ==> Digits(r.value)
  {
    if !StartsWith(path, "/api/v") then None
    else
      var rest := path[6..];
      var n := LeadingDigits(rest);
      if n > 0 && (n == |rest| || rest[n] == '/') then Some(rest[..n]) else None
  }

  function FirstMajor(paths: seq<Path>): (r: Option<string>)
    ensures r.Some? ==> Digits(r.value)
  {
    if paths == [] then None
    else if PathMajor(paths[0].path).Some? then PathMajor(paths[0].path)
    else FirstMajor(paths[1..])
  }

  datatype Metadata = Metadata(major: Option<int>, revision: Option<int>)

  /** `_metadata`: explicit numbers, or else a single path family as major with revision zero. */
  function MetadataOf(c: Contract): Metadata {
    match c.info
    case NoInfo => Metadata(None, None)
    case Info(major, revision) =>
      if major.Some? && revision.Some? then Metadata(major, revision)
      else
        var paths := if c.paths.Some? then c.paths.value else [];
        match FirstMajor(paths)
        case Some(digits) =>
          if forall p | p in paths :: PathMajor(p.path).Some? ==> PathMajor(p.path) == Some(digits)
          then Metadata(Some(ReadDecimal(digits)), Some(0))
          else Metadata(major, revision)
        case None => Metadata(major, revision)
  }

  // ---- which way a component travels

  function RefName(n: Node): set<string> {
    if n.Schema? && n.ref.Some? && StartsWith(n.ref.value, REF_PREFIX) then {LastSegment(n.ref.value)} else {}
  }

  /** `_refs`: the components named anywhere below a position, references not followed. */
  function Refs(g: Graph, a: Id): set<string>
    requires g.Valid() && a in g.nodes
    decreases g.size - a
  {
    var kids := Kids(g.nodes[a]);
    g.KidsAreKnown(a);
    assert forall i :: 0 <= i < |kids| ==> kids[i] in kids;
    assert forall i :: 0 <= i < |kids| ==> a < kids[i] < g.size && kids[i] in g.nodes;
    RefName(g.nodes[a]) + set i, name | 0 <= i < |kids| && name in Refs(g, kids[i]) :: name
  }

  function RefsOfContent(g: Graph, content: Content): set<string>
    requires g.Valid()
  {
    if content.NotAContentMap? then {}
    else set m, name | m in content.media && name in Refs(g, At(g, m.schema, g.empty)) :: name
  }

  predicate SentIn(c: Contract, name: string, direction: Direction)
    requires c.graph.Valid()
  {
    c.paths.Some?
    && exists p, m | p in c.paths.value && m in METHODS ::
         && p.item.PathItem? && m in p.item.operations && p.item.operations[m].AnOperation?
         && match direction
            case Request =>
              var body := p.item.operations[m].operation.body;
              body.Some? && name in RefsOfContent(c.graph, body.value.content)
            case Response =>
              var responses := p.item.operations[m].operation.responses;
              responses.ResponseMap?
              && exists r | r in responses.entries :: name in r.elsewhere || name in RefsOfContent(c.graph, r.content)
  }

  /** `_component_modes(...).get(name, 'response')` */
  function ModeOf(c: Contract, name: string): Direction
    requires c.graph.Valid()
  {
    if SentIn(c, name, Request) && !SentIn(c, name, Response) then Request else Response
  }

  // ---- steps

  datatype ContractStep = Note(change: Change) | Compare(direction: Direction, a: Id, b: Id, location: Place)

  function Bad(kind: Kind, location: Place): ContractStep {
    Note(Change(Breaking, kind, location))
  }

  function Fine(kind: Kind, location: Place): ContractStep {
    Note(Change(Additive, kind, location))
  }

  /** A comparison of two contracts, with the metadata read off them; `revisionPlaces` are the two
      locations where the contract revision may appear as a default. */
  datatype Review = Review(base: Contract, cand: Contract, was: Metadata, now: Metadata, revisionPlaces: set<string>) {
    ghost predicate Valid() {
      base.graph.Valid() && cand.graph.Valid()
    }

    function SceneFor(direction: Direction): Scene {
      Scene(base.graph, cand.graph, direction, was.major, now.major, was.revision, now.revision, revisionPlaces)
    }
  }

  const REVISION_PLACES: set<string> := {
    "GET /api/v1/bootstrap response 200 application/json.api_revision",
    "components.schemas.Bootstrap.api_revision"}

  function ReviewOf(base: Contract, cand: Contract, revisionPlaces: set<string>): Review {
    Review(base, cand, MetadataOf(base), MetadataOf(cand), revisionPlaces)
  }

  // ---- parameters

  function WithoutParameter(ps: seq<Parameter>, position: string, name: string): seq<Parameter> {
    if ps == [] then []
    else
      var front := WithoutParameter(ps[..|ps| - 1], position, name);
      var last := ps[|ps| - 1];
      if last.position == position && last.name == name then front else front + [last]
  }

  /** `_parameters`: path-level and operation-level parameters by position and name, later ones winning. */
  function Merge(ps: seq<Parameter>): seq<Parameter> {
    if ps == [] then []
    else
      var last := ps[|ps| - 1];
      WithoutParameter(Merge(ps[..|ps| - 1]), last.position, last.name) + [last]
  }

  function FindParameter(ps: seq<Parameter>, position: string, name: string): (r: Option<Parameter>)
    ensures r.Some? ==> r.value in ps && r.value.position == position && r.value.name == name
    ensures r.None? ==> forall p :: p in ps ==> p.position != position || p.name != name
  {
    if ps == [] then None
    else if ps[0].position == position && ps[0].name == name then Some(ps[0])
    else FindParameter(ps[1..], position, name)
  }

  function RequiredFlags(p: Parameter, q: Parameter, at: Place): seq<ContractStep> {
    if !p.required && q.required then [Bad(ParameterRequiredness, at)]
    else if p.required && !q.required && p.position == "response" then [Bad(ParameterRequiredness, at)]
    else []
  }

  function OldParameter(r: Review, p: Parameter, later: seq<Parameter>, location: Place): seq<ContractStep> {
    var at := ParameterAt(location, p.position, p.name);
    match FindParameter(later, p.position, p.name)
    case None => [Bad(ParameterRemoval, at)]
    case Some(q) =>
      RequiredFlags(p, q, at)
      + (if PyEq(p.shape, q.shape) then [] else [Bad(ParameterSemantics, at)])
      + [Compare(Request, At(r.base.graph, p.schema, r.base.graph.none), At(r.cand.graph, q.schema, r.cand.graph.none), at)]
  }

  function OldParameters(r: Review, earlier: seq<Parameter>, later: seq<Parameter>, location: Place, k: nat): seq<ContractStep>
    requires k <= |earlier|
  {
    if k == 0 then []
    else OldParameters(r, earlier, later, location, k - 1) + OldParameter(r, earlier[k - 1], later, location)
  }

  function NewParameter(earlier: seq<Parameter>, q: Parameter, location: Place): seq<ContractStep> {
    var at := ParameterAt(location, q.position, q.name);
    if FindParameter(earlier, q.position, q.name).Some? then []
    else if q.required || q.position == "path" then [Bad(RequiredParameterAddition, at)]
    else [Fine(OptionalParameterAddition, at)]
  }

  function NewParameters(earlier: seq<Parameter>, later: seq<Parameter>, location: Place, k: nat): seq<ContractStep>
    requires k <= |later|
  {
    if k == 0 then []
    else NewParameters(earlier, later, location, k - 1) + NewParameter(earlier, later[k - 1], location)
  }

  function ParameterSteps(r: Review, earlier: seq<Parameter>, later: seq<Parameter>, location: Place): seq<ContractStep> {
    OldParameters(r, earlier, later, location, |earlier|) + NewParameters(earlier, later, location, |later|)
  }

  // ---- content

  function FindMedia(media: seq<MediaType>, name: string): (r: Option<MediaType>)
    ensures r.Some? ==> r.value in media && r.value.name == name
    ensures r.None? ==> forall m :: m in media ==> m.name != name
  {
    if media == [] then None
    else if media[0].name == name then Some(media[0])
    else FindMedia(media[1..], name)
  }

  /** Where a media type is reported, and what its removal and addition are called. */
  datatype Carrier = RequestCarrier(location: Place) | ResponseCarrier(location: Place, status: string) {
    function Location(media: string): Place {
      match this
      case RequestCarrier(location) => RequestMedia(location, media)
      case ResponseCarrier(location, status) => ResponseMedia(location, status, media)
    }

    function Removal(): Kind {
      if RequestCarrier? then RequestMediaRemoval else ResponseMediaRemoval
    }

    function Addition(): Kind {
      if RequestCarrier? then RequestMediaAddition else ResponseMediaAddition
    }

    function Travel(): Direction {
      if RequestCarrier? then Request else Response
    }
  }

  function OldMedium(r: Review, m: MediaType, later: seq<MediaType>, carrier: Carrier): seq<ContractStep> {
    match FindMedia(later, m.name)
    case None => [Bad(carrier.Removal(), carrier.Location(m.name))]
    case Some(n) =>
      [Compare(carrier.Travel(), At(r.base.graph, m.schema, r.base.graph.empty),
               At(r.cand.graph, n.schema, r.cand.graph.empty), carrier.Location(m.name))]
  }

  function OldMedia(r: Review, earlier: seq<MediaType>, later: seq<MediaType>, carrier: Carrier, k: nat): seq<ContractStep>
    requires k <= |earlier|
  {
    if k == 0 then []
    else OldMedia(r, earlier, later, carrier, k - 1) + OldMedium(r, earlier[k - 1], later, carrier)
  }

  function NewMedia(earlier: seq<MediaType>, later: seq<MediaType>, carrier: Carrier, k: nat): seq<ContractStep>
    requires k <= |later|
  {
    if k == 0 then []
    else NewMedia(earlier, later, carrier, k - 1) + NewMedium(earlier, later[k - 1], carrier)
  }

  function NewMedium(earlier: seq<MediaType>, m: MediaType, carrier: Carrier): seq<ContractStep> {
    if FindMedia(earlier, m.name).Some? then [] else [Bad(carrier.Addition(), carrier.Location(m.name))]
  }

  function ContentSteps(r: Review, x: Content, y: Content, carrier: Carrier): seq<ContractStep> {
    match (x, y)
    case (ContentMap(earlier), ContentMap(later)) =>
      OldMedia(r, earlier, later, carrier, |earlier|) + NewMedia(earlier, later, carrier, |later|)
    case _ =>
      if carrier.RequestCarrier? then [Bad(RequestContentChange, carrier.location)]
      else [Bad(ResponseContentChange, ResponseAt(carrier.location, carrier.status))]
  }

  function BodySteps(r: Review, x: Option<Body>, y: Option<Body>, location: Place): seq<ContractStep> {
    match (x, y)
    case (None, None) => []
    case (None, Some(n)) =>
      if n.required then [Bad(RequiredBodyAddition, location)] else [Fine(OptionalBodyAddition, location)]
    case (Some(_), None) => [Bad(RequestBodyRemoval, location)]
    case (Some(o), Some(n)) =>
      (if o.required && !n.required then [Fine(RequestBodyRequirednessWidening, location)]
       else if !o.required && n.required then [Bad(RequestBodyRequiredness, location)]
       else [])
      + ContentSteps(r, o.content, n.content, RequestCarrier(location))
  }

  // ---- responses

  function FindResponse(entries: seq<ResponseEntry>, status: string): (r: Option<ResponseEntry>)
    ensures r.Some? ==> r.value in entries && r.value.status == status
    ensures r.None? ==> forall e :: e in entries ==> e.status != status
  {
    if entries == [] then None
    else if entries[0].status == status then Some(entries[0])
    else FindResponse(entries[1..], status)
  }

  function OldResponse(r: Review, e: ResponseEntry, later: seq<ResponseEntry>, location: Place): seq<ContractStep> {
    match FindResponse(later, e.status)
    case None => [Bad(ResponseRemoval, ResponseAt(location, e.status))]
    case Some(f) => ContentSteps(r, e.content, f.content, ResponseCarrier(location, e.status))
  }

  function OldResponses(r: Review, earlier: seq<ResponseEntry>, later: seq<ResponseEntry>, location: Place, k: nat): seq<ContractStep>
    requires k <= |earlier|
  {
    if k == 0 then []
    else OldResponses(r, earlier, later, location, k - 1) + OldResponse(r, earlier[k - 1], later, location)
  }

  function NewResponses(earlier: seq<ResponseEntry>, later: seq<ResponseEntry>, location: Place, k: nat): seq<ContractStep>
    requires k <= |later|
  {
    if k == 0 then []
    else NewResponses(earlier, later, location, k - 1) + NewResponse(earlier, later[k - 1], location)
  }

  function NewResponse(earlier: seq<ResponseEntry>, e: ResponseEntry, location: Place): seq<ContractStep> {
    if FindResponse(earlier, e.status).Some? then [] else [Bad(ResponseAddition, ResponseAt(location, e.status))]
  }

  function ResponseSteps(r: Review, x: Responses, y: Responses, location: Place): seq<ContractStep> {
    match (x, y)
    case (ResponseMap(earlier), ResponseMap(later)) =>
      OldResponses(r, earlier, later, location, |earlier|) + NewResponses(earlier, later, location, |later|)
    case _ => [Bad(ResponseChange, location)]
  }

  // ---- operations and paths

  /** `_compare_operation` */
  function OperationSteps(r: Review, ps: seq<Parameter>, o: Operation, qs: seq<Parameter>, n: Operation, location: Place): seq<ContractStep> {
    var earlier, later := Merge(ps + o.parameters), Merge(qs + n.parameters);
    (if PyEq(o.operationId, n.operationId) then [] else [Bad(OperationRename, location)])
    + ParameterSteps(r, earlier, later, location)
    + BodySteps(r, o.body, n.body, location)
    + ResponseSteps(r, o.responses, n.responses, location)
  }

  function MethodSteps(r: Review, path: string, x: PathItem, y: PathItem, m: Method): seq<ContractStep>
    requires x.PathItem? && y.PathItem?
  {
    var location := Endpoint(MethodName(m), path);
    if m !in x.operations then []
    else if m !in y.operations then [Bad(OperationRemoval, location)]
    else
      match (x.operations[m], y.operations[m])
      case (AnOperation(o), AnOperation(n)) => OperationSteps(r, x.parameters, o, y.parameters, n, location)
      case _ => [Bad(OperationChange, location)]
  }

  function OldMethods(r: Review, path: string, x: PathItem, y: PathItem, k: nat): seq<ContractStep>
    requires x.PathItem? && y.PathItem? && k <= |METHODS|
  {
    if k == 0 then [] else OldMethods(r, path, x, y, k - 1) + MethodSteps(r, path, x, y, METHODS[k - 1])
  }

  /** Operations of `y` whose method `known` does not have. */
  function NewMethods(path: string, known: set<Method>, y: PathItem, k: nat): seq<ContractStep>
    requires y.PathItem? && k <= |METHODS|
  {
    if k == 0 then []
    else
      NewMethods(path, known, y, k - 1)
      + (if METHODS[k - 1] in y.operations && METHODS[k - 1] !in known
         then [Fine(OperationAddition, Endpoint(MethodName(METHODS[k - 1]), path))] else [])
  }

  function FindPath(paths: seq<Path>, path: string): (r: Option<PathItem>)
    ensures r.Some? ==> Path(path, r.value) in paths
    ensures r.None? ==> forall p :: p in paths ==> p.path != path
  {
    if paths == [] then None
    else if paths[0].path == path then Some(paths[0].item)
    else FindPath(paths[1..], path)
  }

  function OldPath(r: Review, p: Path, later: seq<Path>): seq<ContractStep> {
    match FindPath(later, p.path)
    case None => [Bad(OperationRemoval, PathText(p.path))]
    case Some(item) =>
      if !p.item.PathItem? || !item.PathItem? then [Bad(PathChange, PathText(p.path))]
      else
        OldMethods(r, p.path, p.item, item, |METHODS|)
        + NewMethods(p.path, p.item.operations.Keys, item, |METHODS|)
  }

  function OldPaths(r: Review, earlier: seq<Path>, later: seq<Path>, k: nat): seq<ContractStep>
    requires k <= |earlier|
  {
    if k == 0 then [] else OldPaths(r, earlier, later, k - 1) + OldPath(r, earlier[k - 1], later)
  }

  function NewPath(earlier: seq<Path>, q: Path): seq<ContractStep> {
    if FindPath(earlier, q.path).Some? || !q.item.PathItem? then []
    else NewMethods(q.path, {}, q.item, |METHODS|)
  }

  function NewPaths(earlier: seq<Path>, later: seq<Path>, k: nat): seq<ContractStep>
    requires k <= |later|
  {
    if k == 0 then [] else NewPaths(earlier, later, k - 1) + NewPath(earlier, later[k - 1])
  }

  // ---- components

  function ComponentStep(r: Review, m: Member): seq<ContractStep>
    requires r.Valid()
  {
    match Find(r.cand.graph.schemas, m.name)
    case None => [Bad(SchemaRemoval, Component(m.name))]
    case Some(b) =>
      [Compare(ModeOf(r.cand, m.name), At(r.base.graph, Some(m.id), r.base.graph.empty),
               At(r.cand.graph, Some(b), r.cand.graph.empty), Component(m.name))]
  }

  function ComponentSteps(r: Review, k: nat): seq<ContractStep>
    requires r.Valid() && k <= |r.base.graph.schemas|
  {
    if k == 0 then [] else ComponentSteps(r, k - 1) + ComponentStep(r, r.base.graph.schemas[k - 1])
  }

  // ---- metadata

  function MetadataSteps(r: Review): seq<ContractStep>
    requires r.was.major.Some? && r.was.revision.Some?
  {
    var b, c := r.was, r.now;
    if c.major.None? || c.revision.None? || c.major.value < 1 || c.revision.value < 1 then
      [Bad(MetadataMissing, InfoObject)]
    else if c.major != b.major then [Bad(ApiMajorChange, InfoMajor)]
    else if c.revision.value < b.revision.value then [Bad(RevisionRegression, InfoRevision)]
    else []
  }

  function PathSteps(r: Review): seq<ContractStep>
    requires r.base.paths.Some? && r.cand.paths.Some?
  {
    OldPaths(r, r.base.paths.value, r.cand.paths.value, |r.base.paths.value|)
    + NewPaths(r.base.paths.value, r.cand.paths.value, |r.cand.paths.value|)
  }

  /** Everything compared once the two contracts are known to be comparable. */
  function AllSteps(r: Review): seq<ContractStep>
    requires r.Valid() && r.base.paths.Some? && r.cand.paths.Some?
    requires r.was.major.Some? && r.was.revision.Some?
  {
    MetadataSteps(r) + PathSteps(r) + ComponentSteps(r, |r.base.graph.schemas|)
  }

  // ---- running the steps

  /** The changes one comparison reports: a walk with a fresh `seen` set. */
  ghost function WalkChanges(r: Review, direction: Direction, a: Id, b: Id, location: Place): seq<Change>
    requires r.Valid()
  {
    var s := r.SceneFor(direction);
    if s.Known(a, b) then
      WalkerDrives(s);
      Visit(WalkerOf(s), (a, b), location, Trace([], {})).changes
    else []
  }

  ghost function StepChanges(r: Review, step: ContractStep): seq<Change>
    requires r.Valid()
  {
    match step
    case Note(change) => [change]
    case Compare(direction, a, b, location) => WalkChanges(r, direction, a, b, location)
  }

  /** What the steps of a list report, one after the other. */
  ghost function Changes(r: Review, steps: seq<ContractStep>): seq<Change>
    requires r.Valid()
  {
    if steps == [] then [] else Changes(r, steps[..|steps| - 1]) + StepChanges(r, steps[|steps| - 1])
  }

  /** The same as a value, for the loops that build step lists piece by piece. */
  type Tally = seq<ContractStep> -> seq<Change>

  ghost function TallyOf(r: Review): Tally
    requires r.Valid()
  {
    (steps: seq<ContractStep>) => if r.Valid() then Changes(r, steps) else []
  }

  ghost predicate Joined(p: seq<ContractStep>, q: seq<ContractStep>) {
    true
  }

  ghost predicate Tallies(total: Tally, r: Review)
    requires r.Valid()
  {
    && total([]) == []
    && (forall p, q {:trigger Joined(p, q)} :: total(p + q) == total(p) + total(q))
    && (forall step {:trigger StepChanges(r, step)} :: total([step]) == StepChanges(r, step))
  }

  datatype Verdict = PASS | FAIL | BLOCKED

  datatype Report = Report(result: Verdict, changes: seq<Change>)

  function Count(changes: seq<Change>, c: Classification): nat {
    if changes == [] then 0
    else Count(changes[..|changes| - 1], c) + (if changes[|changes| - 1].classification == c then 1 else 0)
  }

  function RevisionStep(r: Review, changes: seq<Change>): seq<Change> {
    var b, c := r.was, r.now;
    if changes != [] && c.revision.Some? && b.revision.Some? && c.revision.value <= b.revision.value
    then [Change(Breaking, RevisionNotIncremented, InfoRevision)] else []
  }

  lemma {:induction false} ChangesConcat(r: Review, p: seq<ContractStep>, q: seq<ContractStep>)
    requires r.Valid()
    ensures Changes(r, p + q) == Changes(r, p) + Changes(r, q)
    decreases |q|
  {
    if q == [] {
      assert p + q == p;
      assert Changes(r, p) + [] == Changes(r, p);
    } else {
      ChangesConcat(r, p, q[..|q| - 1]);
      assert (p + q)[..|p + q| - 1] == p + q[..|q| - 1];
      assert (p + q)[|p + q| - 1] == q[|q| - 1];
      ConcatAssociates(Changes(r, p), Changes(r, q[..|q| - 1]), StepChanges(r, q[|q| - 1]));
    }
  }

  lemma ConcatAssociates<T>(x: seq<T>, y: seq<T>, z: seq<T>)
    ensures x + y + z == x + (y + z)
  {
  }

  lemma TallyIsOf(r: Review)
    requires r.Valid()
    ensures Tallies(TallyOf(r), r)
  {
    forall p, q
      ensures Changes(r, p + q) == Changes(r, p) + Changes(r, q)
    {
      ChangesConcat(r, p, q);
    }
    forall step
      ensures Changes(r, [step]) == StepChanges(r, step)
    {
      assert [step][..0] == [];
    }
  }

  /** Running `q` after `p` on top of what was there. */
  lemma TallyExtends(total: Tally, r: Review, start: seq<Change>, p: seq<ContractStep>, q: seq<ContractStep>)
    requires r.Valid() && Tallies(total, r)
    ensures start + total(p) + total(q) == start + total(p + q)
  {
    assert Joined(p, q);
    ConcatAssociates(start, total(p), total(q));
  }

  lemma TallyJoins(total: Tally, r: Review, p: seq<ContractStep>, q: seq<ContractStep>)
    requires r.Valid() && Tallies(total, r)
    ensures total(p) + total(q) == total(p + q)
  {
    assert Joined(p, q);
  }

  /** The report of a whole comparison. */
  ghost function ReportWith(total: Tally, r: Review): Report
    requires r.Valid()
  {
    if r.was.major.None? || r.was.revision.None? then Report(BLOCKED, [])
    else if r.base.paths.None? || r.cand.paths.None? then Report(BLOCKED, total(MetadataSteps(r)))
    else if !r.base.componentsListed || !r.cand.componentsListed then
      Report(BLOCKED, total(MetadataSteps(r) + PathSteps(r)))
    else
      var changes := total(AllSteps(r));
      var final := changes + RevisionStep(r, changes);
      Report(if Count(final, Breaking) > 0 then FAIL else PASS, final)
  }

  ghost function ReportOf(r: Review): Report
    requires r.Valid()
  {
    ReportWith(TallyOf(r), r)
  }
}
