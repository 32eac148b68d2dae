/** What a contract comparison reports, kind by kind.

    The rules are written down without the loops: which pairs of parameters, bodies, responses, operations,
    paths and components are looked at, and what is reported of each.  The report holds exactly the changes
    that some rule gives. */
module ContractReport {
  import opened Common
  import opened Json
  import opened SchemaGraph
  import opened SchemaTraversal
  import opened SchemaWalk
  import opened Contracts

  // ---- one schema against another

  /** The comparison of the two schemas, with nothing seen before, reports `c`. */
  ghost predicate SchemasReport(r: Review, direction: Direction, a: Id, b: Id, at: Place, c: Change)
    requires r.Valid()
  {
    c in WalkChanges(r, direction, a, b, at)
  }

  /** The schema that a parameter or a media type names, or else the given one. */
  ghost function SchemaOr(g: Graph, schema: Option<Id>, default: Id): Id {
    match schema
    case Some(a) => if a in g.nodes then a else default
    case None => default
  }

  // ---- parameters

  ghost predicate SamePlace(p: Parameter, q: Parameter) {
    p.position == q.position && p.name == q.name
  }

  /** A parameter counts unless a later one has its position and name. */
  ghost predicate InEffect(ps: seq<Parameter>, p: Parameter) {
    exists i :: 0 <= i < |ps| && ps[i] == p && forall j :: i < j < |ps| ==> !SamePlace(ps[j], p)
  }

  ghost predicate OldParameterRule(r: Review, p: Parameter, qs: seq<Parameter>, place: Place, c: Change)
    requires r.Valid()
  {
    var at := ParameterAt(place, p.position, p.name);
    || (c == Change(Breaking, ParameterRemoval, at) && forall q :: InEffect(qs, q) ==> !SamePlace(p, q))
    || (exists q :: InEffect(qs, q) && SamePlace(p, q) && KeptParameterRule(r, p, q, at, c))
  }

  ghost predicate KeptParameterRule(r: Review, p: Parameter, q: Parameter, at: Place, c: Change)
    requires r.Valid()
  {
    || (c == Change(Breaking, ParameterRequiredness, at)
        && ((!p.required && q.required) || (p.required && !q.required && p.position == "response")))
    || (c == Change(Breaking, ParameterSemantics, at) && !PyEq(p.shape, q.shape))
    || SchemasReport(r, Request, SchemaOr(r.base.graph, p.schema, r.base.graph.none),
                     SchemaOr(r.cand.graph, q.schema, r.cand.graph.none), at, c)
  }

  ghost predicate NewParameterRule(ps: seq<Parameter>, q: Parameter, place: Place, c: Change) {
    var at := ParameterAt(place, q.position, q.name);
    && (forall p :: InEffect(ps, p) ==> !SamePlace(p, q))
    && c == if q.required || q.position == "path" then Change(Breaking, RequiredParameterAddition, at)
            else Change(Additive, OptionalParameterAddition, at)
  }

  ghost predicate OldParametersRule(r: Review, ps: seq<Parameter>, qs: seq<Parameter>, place: Place, c: Change)
    requires r.Valid()
  {
    exists p :: InEffect(ps, p) && OldParameterRule(r, p, qs, place, c)
  }

  ghost predicate NewParametersRule(ps: seq<Parameter>, qs: seq<Parameter>, place: Place, c: Change) {
    exists q :: InEffect(qs, q) && NewParameterRule(ps, q, place, c)
  }

  // ---- lists looked up by a name

  /** `x` is the first item of the list that has the property. */
  ghost predicate FirstAmong<T(!new)>(xs: seq<T>, has: T -> bool, x: T) {
    exists k :: 0 <= k < |xs| && xs[k] == x && has(x) && forall j :: 0 <= j < k ==> !has(xs[j])
  }

  ghost predicate AnyAmong<T(!new)>(xs: seq<T>, has: T -> bool) {
    exists k :: 0 <= k < |xs| && has(xs[k])
  }

  ghost function IsMedium(name: string): MediaType -> bool {
    (m: MediaType) => m.name == name
  }

  ghost function IsResponse(status: string): ResponseEntry -> bool {
    (e: ResponseEntry) => e.status == status
  }

  ghost function IsPath(path: string): Path -> bool {
    (p: Path) => p.path == path
  }

  ghost function IsComponent(name: string): Member -> bool {
    (m: Member) => m.name == name
  }

  // ---- content

  /** How changes of content are called and where they are, in a request body or in a response. */
  datatype Titles = Titles(direction: Direction, removal: Kind, addition: Kind, at: string -> Place)

  ghost function BodyTitles(place: Place): Titles {
    Titles(Request, RequestMediaRemoval, RequestMediaAddition, (name: string) => RequestMedia(place, name))
  }

  ghost function ResponseTitles(place: Place, status: string): Titles {
    Titles(Response, ResponseMediaRemoval, ResponseMediaAddition, (name: string) => ResponseMedia(place, status, name))
  }

  ghost predicate OldMediumRule(r: Review, m: MediaType, later: seq<MediaType>, t: Titles, c: Change)
    requires r.Valid()
  {
    || (c == Change(Breaking, t.removal, t.at(m.name)) && !AnyAmong(later, IsMedium(m.name)))
    || (exists n :: FirstAmong(later, IsMedium(m.name), n)
          && SchemasReport(r, t.direction, SchemaOr(r.base.graph, m.schema, r.base.graph.empty),
                           SchemaOr(r.cand.graph, n.schema, r.cand.graph.empty), t.at(m.name), c))
  }

  ghost predicate OldMediaRule(r: Review, earlier: seq<MediaType>, later: seq<MediaType>, t: Titles, c: Change)
    requires r.Valid()
  {
    exists m :: m in earlier && OldMediumRule(r, m, later, t, c)
  }

  ghost predicate NewMediaRule(earlier: seq<MediaType>, later: seq<MediaType>, t: Titles, c: Change) {
    exists n :: n in later && !AnyAmong(earlier, IsMedium(n.name)) && c == Change(Breaking, t.addition, t.at(n.name))
  }

  ghost predicate MediaRule(r: Review, earlier: seq<MediaType>, later: seq<MediaType>, t: Titles, c: Change)
    requires r.Valid()
  {
    OldMediaRule(r, earlier, later, t, c) || NewMediaRule(earlier, later, t, c)
  }

  // ---- bodies and responses

  ghost predicate BodyRule(r: Review, x: Option<Body>, y: Option<Body>, place: Place, c: Change)
    requires r.Valid()
  {
    match (x, y)
    case (None, None) => false
    case (None, Some(n)) =>
      c == if n.required then Change(Breaking, RequiredBodyAddition, place) else Change(Additive, OptionalBodyAddition, place)
    case (Some(_), None) => c == Change(Breaking, RequestBodyRemoval, place)
    case (Some(o), Some(n)) =>
      || (o.required && !n.required && c == Change(Additive, RequestBodyRequirednessWidening, place))
      || (!o.required && n.required && c == Change(Breaking, RequestBodyRequiredness, place))
      || (o.content.ContentMap? && n.content.ContentMap? && MediaRule(r, o.content.media, n.content.media, BodyTitles(place), c))
      || (!(o.content.ContentMap? && n.content.ContentMap?) && c == Change(Breaking, RequestContentChange, place))
  }

  ghost predicate KeptResponseRule(r: Review, e: ResponseEntry, f: ResponseEntry, place: Place, c: Change)
    requires r.Valid()
  {
    if e.content.ContentMap? && f.content.ContentMap? then
      MediaRule(r, e.content.media, f.content.media, ResponseTitles(place, e.status), c)
    else c == Change(Breaking, ResponseContentChange, ResponseAt(place, e.status))
  }

  ghost predicate OldResponseRule(r: Review, e: ResponseEntry, later: seq<ResponseEntry>, place: Place, c: Change)
    requires r.Valid()
  {
    || (c == Change(Breaking, ResponseRemoval, ResponseAt(place, e.status)) && !AnyAmong(later, IsResponse(e.status)))
    || (exists f :: FirstAmong(later, IsResponse(e.status), f) && KeptResponseRule(r, e, f, place, c))
  }

  ghost predicate OldResponsesRule(r: Review, earlier: seq<ResponseEntry>, later: seq<ResponseEntry>, place: Place, c: Change)
    requires r.Valid()
  {
    exists e :: e in earlier && OldResponseRule(r, e, later, place, c)
  }

  ghost predicate NewResponsesRule(earlier: seq<ResponseEntry>, later: seq<ResponseEntry>, place: Place, c: Change) {
    exists f :: f in later && !AnyAmong(earlier, IsResponse(f.status)) && c == Change(Breaking, ResponseAddition, ResponseAt(place, f.status))
  }

  ghost predicate ResponseRule(r: Review, x: Responses, y: Responses, place: Place, c: Change)
    requires r.Valid()
  {
    if x.ResponseMap? && y.ResponseMap? then
      OldResponsesRule(r, x.entries, y.entries, place, c) || NewResponsesRule(x.entries, y.entries, place, c)
    else c == Change(Breaking, ResponseChange, place)
  }

  // ---- operations and paths

  ghost predicate OperationRule(
    r: Review, ps: seq<Parameter>, o: Operation, qs: seq<Parameter>, n: Operation, place: Place, c: Change)
    requires r.Valid()
  {
    || (!PyEq(o.operationId, n.operationId) && c == Change(Breaking, OperationRename, place))
    || OldParametersRule(r, ps + o.parameters, qs + n.parameters, place, c)
    || NewParametersRule(ps + o.parameters, qs + n.parameters, place, c)
    || BodyRule(r, o.body, n.body, place, c)
    || ResponseRule(r, o.responses, n.responses, place, c)
  }

  ghost function Verb(m: Method): string {
    match m
    case DeleteMethod => "DELETE"
    case GetMethod => "GET"
    case PatchMethod => "PATCH"
    case PostMethod => "POST"
    case PutMethod => "PUT"
  }

  ghost predicate MethodRule(r: Review, path: string, x: PathItem, y: PathItem, m: Method, c: Change)
    requires r.Valid() && x.PathItem? && y.PathItem?
  {
    var place := Endpoint(Verb(m), path);
    if m in x.operations then
      if m !in y.operations then c == Change(Breaking, OperationRemoval, place)
      else if x.operations[m].AnOperation? && y.operations[m].AnOperation? then
        OperationRule(r, x.parameters, x.operations[m].operation, y.parameters, y.operations[m].operation, place, c)
      else c == Change(Breaking, OperationChange, place)
    else m in y.operations && c == Change(Additive, OperationAddition, place)
  }

  ghost predicate KeptPathRule(r: Review, p: Path, item: PathItem, c: Change)
    requires r.Valid()
  {
    if p.item.PathItem? && item.PathItem? then exists m :: MethodRule(r, p.path, p.item, item, m, c)
    else c == Change(Breaking, PathChange, PathText(p.path))
  }

  ghost predicate OldPathRule(r: Review, p: Path, later: seq<Path>, c: Change)
    requires r.Valid()
  {
    || (!AnyAmong(later, IsPath(p.path)) && c == Change(Breaking, OperationRemoval, PathText(p.path)))
    || (exists q :: FirstAmong(later, IsPath(p.path), q) && KeptPathRule(r, p, q.item, c))
  }

  ghost predicate NewPathRule(earlier: seq<Path>, q: Path, c: Change) {
    && !AnyAmong(earlier, IsPath(q.path)) && q.item.PathItem?
    && exists m :: m in q.item.operations && c == Change(Additive, OperationAddition, Endpoint(Verb(m), q.path))
  }

  ghost predicate PathsRule(r: Review, earlier: seq<Path>, later: seq<Path>, c: Change)
    requires r.Valid()
  {
    || (exists p :: p in earlier && OldPathRule(r, p, later, c))
    || (exists q :: q in later && NewPathRule(earlier, q, c))
  }

  // ---- components

  /** `d` is `a` or lies below it in the document. */
  ghost predicate Below(g: Graph, a: Id, d: Id) {
    exists chain :: Descent(g, chain) && chain[0] == a && chain[|chain| - 1] == d
  }

  ghost predicate Descent(g: Graph, chain: seq<Id>) {
    && chain != []
    && (forall i :: 0 <= i < |chain| ==> chain[i] in g.nodes)
    && (forall i :: 0 <= i < |chain| - 1 ==> chain[i + 1] in Kids(g.nodes[chain[i]]))
  }

  /** A schema here names the component: its reference begins like one to a component, and the name follows the
      last slash. */
  ghost predicate Mentions(g: Graph, a: Id, name: string) {
    exists d, ref, front ::
      && Below(g, a, d) && d in g.nodes && g.nodes[d].Schema? && g.nodes[d].ref == Some(ref)
      && "#/components/schemas/" <= ref && ref == front + "/" + name && '/' !in name
  }

  ghost predicate ContentMentions(g: Graph, content: Content, name: string) {
    content.ContentMap? && exists m :: m in content.media && Mentions(g, SchemaOr(g, m.schema, g.empty), name)
  }

  ghost predicate BodyMentions(c: Contract, o: Operation, name: string) {
    o.body.Some? && ContentMentions(c.graph, o.body.value.content, name)
  }

  ghost predicate ResponsesMention(c: Contract, o: Operation, name: string) {
    o.responses.ResponseMap?
    && exists e :: e in o.responses.entries && (name in e.elsewhere || ContentMentions(c.graph, e.content, name))
  }

  /** `o` is an operation of the contract. */
  ghost predicate Offers(c: Contract, o: Operation) {
    c.paths.Some?
    && exists p, m :: p in c.paths.value && p.item.PathItem? && m in p.item.operations && p.item.operations[m] == AnOperation(o)
  }

  /** A component is sent by clients when a request body names it and no response does; otherwise it is read. */
  ghost predicate SentByClients(c: Contract, name: string) {
    && (exists o :: Offers(c, o) && BodyMentions(c, o, name))
    && (forall o :: Offers(c, o) ==> !ResponsesMention(c, o, name))
  }

  ghost predicate ComponentRule(r: Review, m: Member, c: Change)
    requires r.Valid()
  {
    || (!AnyAmong(r.cand.graph.schemas, IsComponent(m.name)) && c == Change(Breaking, SchemaRemoval, Component(m.name)))
    || (exists b :: FirstAmong(r.cand.graph.schemas, IsComponent(m.name), Member(m.name, b))
          && SchemasReport(r, if SentByClients(r.cand, m.name) then Request else Response, m.id, b, Component(m.name), c))
  }

  // ---- metadata

  ghost predicate MetadataRule(r: Review, c: Change) {
    var n := r.now;
    if n.major.None? || n.revision.None? || n.major.value < 1 || n.revision.value < 1 then
      c == Change(Breaking, MetadataMissing, InfoObject)
    else
      || (n.major != r.was.major && c == Change(Breaking, ApiMajorChange, InfoMajor))
      || (n.major == r.was.major && r.was.revision.Some? && n.revision.value < r.was.revision.value
          && c == Change(Breaking, RevisionRegression, InfoRevision))
  }

  // ---- the whole report

  /** What is reported before the revision is looked at. */
  ghost predicate ContractRule(r: Review, c: Change)
    requires r.Valid()
  {
    || MetadataRule(r, c)
    || (r.base.paths.Some? && r.cand.paths.Some? && PathsRule(r, r.base.paths.value, r.cand.paths.value, c))
    || (exists m :: m in r.base.graph.schemas && ComponentRule(r, m, c))
  }

  /** The whole list: a change of any kind asks for a higher revision. */
  ghost predicate FinalRule(r: Review, c: Change)
    requires r.Valid()
  {
    || ContractRule(r, c)
    || (c == Change(Breaking, RevisionNotIncremented, InfoRevision)
        && r.was.revision.Some? && r.now.revision.Some? && r.now.revision.value <= r.was.revision.value
        && exists d :: ContractRule(r, d))
  }

  /** Both contracts can be compared: the base says its major and revision, and paths and components are maps. */
  ghost predicate Comparable(r: Review) {
    && r.was.major.Some? && r.was.revision.Some?
    && r.base.paths.Some? && r.cand.paths.Some? && r.base.componentsListed && r.cand.componentsListed
  }
}
