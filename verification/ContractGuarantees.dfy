/** What a passing contract comparison promises to clients that were built against the base contract. */
module ContractGuarantees {
  import opened Common
  import opened Json
  import opened SchemaGraph
  import opened SchemaTraversal
  import opened SchemaWalk
  import opened SchemaMeaning
  import opened SchemaConditions
  import SchemaSoundness
  import SchemaProperties
  import TypeScript
  import ContractReport
  import ContractReportProof
  import opened Contracts

  // ---- steps that report nothing breaking

  /** Around every comparison of a step list, the walk overlooks nothing that matters. */
  ghost predicate Trusted(r: Review, check: Check, steps: seq<ContractStep>)
    requires r.Valid()
  {
    forall k {:trigger steps[k]} :: 0 <= k < |steps| && steps[k].Compare? ==> TrustedWalk(r, check, steps[k])
  }

  ghost predicate TrustedWalk(r: Review, check: Check, step: ContractStep)
    requires r.Valid() && step.Compare?
  {
    var s := r.SceneFor(step.direction);
    s.Known(step.a, step.b) ==> exists pairs :: Suitable(s, check, pairs, step.a, step.b)
  }

  ghost predicate Clean(r: Review, check: Check, steps: seq<ContractStep>)
    requires r.Valid()
  {
    NoBreaking(Changes(r, steps)) && Trusted(r, check, steps)
  }

  lemma NoBreakingParts(p: seq<Change>, q: seq<Change>)
    ensures NoBreaking(p + q) <==> NoBreaking(p) && NoBreaking(q)
  {
    if NoBreaking(p + q) {
      forall k | 0 <= k < |p|
        ensures p[k].classification == Additive
      {
        assert (p + q)[k] == p[k];
      }
      forall k | 0 <= k < |q|
        ensures q[k].classification == Additive
      {
        assert (p + q)[|p| + k] == q[k];
      }
    }
  }

  lemma CleanParts(r: Review, check: Check, p: seq<ContractStep>, q: seq<ContractStep>)
    requires r.Valid() && Clean(r, check, p + q)
    ensures Clean(r, check, p) && Clean(r, check, q)
  {
    ChangesConcat(r, p, q);
    NoBreakingParts(Changes(r, p), Changes(r, q));
    forall k | 0 <= k < |p| && p[k].Compare?
      ensures TrustedWalk(r, check, p[k])
    {
      assert (p + q)[k] == p[k];
    }
    forall k | 0 <= k < |q| && q[k].Compare?
      ensures TrustedWalk(r, check, q[k])
    {
      assert (p + q)[|p| + k] == q[k];
    }
  }

  lemma CleanOne(r: Review, check: Check, step: ContractStep)
    requires r.Valid() && Clean(r, check, [step])
    ensures NoBreaking(StepChanges(r, step))
    ensures step.Note? ==> step.change.classification == Additive
    ensures step.Compare? ==> TrustedWalk(r, check, step)
  {
    assert [step][..0] == [];
    assert Changes(r, [step]) == [] + StepChanges(r, step);
    assert [step][0] == step;
    NoBreakingParts([], StepChanges(r, step));
    if step.Note? {
      assert StepChanges(r, step)[0] == step.change;
    }
  }

  /** `Clean(r, check, _)` as a value, for picking one loop body out of a step list. */
  type Test = seq<ContractStep> -> bool

  ghost predicate Splits(test: Test) {
    forall p, q {:trigger Joined(p, q)} :: test(p + q) ==> test(p) && test(q)
  }

  ghost function CleanTest(r: Review, check: Check): Test
    requires r.Valid()
  {
    (steps: seq<ContractStep>) => r.Valid() && Clean(r, check, steps)
  }

  lemma CleanTestSplits(r: Review, check: Check)
    requires r.Valid()
    ensures Splits(CleanTest(r, check))
  {
    var test := CleanTest(r, check);
    forall p, q | test(p + q)
      ensures test(p) && test(q)
    {
      CleanParts(r, check, p, q);
    }
  }

  // ---- what one comparison promises

  /** Requests the base accepted are accepted by the candidate. */
  ghost predicate StillAccepted(r: Review, check: Check, a: Id, b: Id)
    requires r.Valid() && a in r.base.graph.nodes && b in r.cand.graph.nodes
  {
    forall v :: ValidAt(check, ClosedRecords, r.base.graph, a, v) ==>
      ValidAt(check, ClosedRecords, r.cand.graph, b, v)
  }

  /** Responses the candidate may send are understood by a client of the base. */
  ghost predicate StillUnderstood(r: Review, check: Check, a: Id, b: Id)
    requires r.Valid() && a in r.base.graph.nodes && b in r.cand.graph.nodes
  {
    forall v :: ValidAt(check, Exact, r.cand.graph, b, v) ==>
      ValidAt(check, OpenRecords, r.base.graph, a, v)
  }

  ghost predicate Kept(r: Review, check: Check, direction: Direction, a: Id, b: Id)
    requires r.Valid()
  {
    && a in r.base.graph.nodes && b in r.cand.graph.nodes
    && match direction
       case Request => StillAccepted(r, check, a, b)
       case Response => StillUnderstood(r, check, a, b)
  }

  lemma CleanCompare(r: Review, check: Check, direction: Direction, a: Id, b: Id, location: Place)
    requires r.Valid() && a in r.base.graph.nodes && b in r.cand.graph.nodes
    requires Clean(r, check, [Compare(direction, a, b, location)])
    ensures Kept(r, check, direction, a, b)
  {
    CleanOne(r, check, Compare(direction, a, b, location));
    var s := r.SceneFor(direction);
    WalkerDrives(s);
    var pairs :| Suitable(s, check, pairs, a, b);
    assert SchemaSoundness.Passes(s, check, pairs, a, b, location, []);
    match direction {
      case Request =>
        forall v | ValidAt(check, ClosedRecords, r.base.graph, a, v)
          ensures ValidAt(check, ClosedRecords, r.cand.graph, b, v)
        {
          SchemaSoundness.RequestSoundness(s, check, pairs, a, b, location, [], v);
        }
      case Response =>
        forall v | ValidAt(check, Exact, r.cand.graph, b, v)
          ensures ValidAt(check, OpenRecords, r.base.graph, a, v)
        {
          SchemaProperties.ExactResponseSoundness(s, check, pairs, a, b, location, [], v);
        }
    }
  }

  // ---- parameters

  ghost predicate ParameterKept(r: Review, check: Check, p: Parameter, later: seq<Parameter>)
    requires r.Valid()
  {
    match FindParameter(later, p.position, p.name)
    case None => false
    case Some(q) =>
      && (q.required ==> p.required)
      && PyEq(p.shape, q.shape)
      && Kept(r, check, Request, At(r.base.graph, p.schema, r.base.graph.none), At(r.cand.graph, q.schema, r.cand.graph.none))
  }

  /** Old parameters stay, and nothing new is demanded. */
  ghost predicate ParametersKept(r: Review, check: Check, earlier: seq<Parameter>, later: seq<Parameter>)
    requires r.Valid()
  {
    && (forall i :: 0 <= i < |earlier| ==> ParameterKept(r, check, earlier[i], later))
    && (forall i :: 0 <= i < |later| && FindParameter(earlier, later[i].position, later[i].name).None? ==>
          !later[i].required && later[i].position != "path")
  }

  lemma CleanParameter(r: Review, check: Check, p: Parameter, later: seq<Parameter>, location: Place)
    requires r.Valid() && Clean(r, check, OldParameter(r, p, later, location))
    ensures ParameterKept(r, check, p, later)
  {
    var at := ParameterAt(location, p.position, p.name);
    match FindParameter(later, p.position, p.name)
    case None =>
      CleanOne(r, check, Bad(ParameterRemoval, at));
    case Some(q) =>
      var a, b := At(r.base.graph, p.schema, r.base.graph.none), At(r.cand.graph, q.schema, r.cand.graph.none);
      var flags := RequiredFlags(p, q, at);
      var shapes := if PyEq(p.shape, q.shape) then [] else [Bad(ParameterSemantics, at)];
      CleanParts(r, check, flags + shapes, [Compare(Request, a, b, at)]);
      CleanParts(r, check, flags, shapes);
      CleanCompare(r, check, Request, a, b, at);
      if flags != [] {
        CleanOne(r, check, flags[0]);
      }
      if shapes != [] {
        CleanOne(r, check, shapes[0]);
      }
  }

  lemma {:induction false} OldParameterAt(
    test: Test, r: Review, earlier: seq<Parameter>, later: seq<Parameter>, location: Place, k: nat, i: nat)
    requires Splits(test) && i < k <= |earlier| && test(OldParameters(r, earlier, later, location, k))
    ensures test(OldParameter(r, earlier[i], later, location))
    decreases k
  {
    assert Joined(OldParameters(r, earlier, later, location, k - 1), OldParameter(r, earlier[k - 1], later, location));
    if i < k - 1 {
      OldParameterAt(test, r, earlier, later, location, k - 1, i);
    }
  }

  lemma {:induction false} NewParameterAt(
    test: Test, earlier: seq<Parameter>, later: seq<Parameter>, location: Place, k: nat, i: nat)
    requires Splits(test) && i < k <= |later| && test(NewParameters(earlier, later, location, k))
    ensures test(NewParameter(earlier, later[i], location))
    decreases k
  {
    assert Joined(NewParameters(earlier, later, location, k - 1), NewParameter(earlier, later[k - 1], location));
    if i < k - 1 {
      NewParameterAt(test, earlier, later, location, k - 1, i);
    }
  }

  lemma CleanNewParameter(r: Review, check: Check, earlier: seq<Parameter>, q: Parameter, location: Place)
    requires r.Valid() && Clean(r, check, NewParameter(earlier, q, location))
    ensures FindParameter(earlier, q.position, q.name).None? ==> !q.required && q.position != "path"
  {
    var steps := NewParameter(earlier, q, location);
    if steps != [] {
      CleanOne(r, check, steps[0]);
    }
  }

  lemma CleanParameters(r: Review, check: Check, earlier: seq<Parameter>, later: seq<Parameter>, location: Place)
    requires r.Valid() && Clean(r, check, ParameterSteps(r, earlier, later, location))
    ensures ParametersKept(r, check, earlier, later)
  {
    CleanParts(r, check, OldParameters(r, earlier, later, location, |earlier|), NewParameters(earlier, later, location, |later|));
    forall i | 0 <= i < |earlier|
      ensures ParameterKept(r, check, earlier[i], later)
    {
      CleanTestSplits(r, check);
      OldParameterAt(CleanTest(r, check), r, earlier, later, location, |earlier|, i);
      CleanParameter(r, check, earlier[i], later, location);
    }
    forall i | 0 <= i < |later|
      ensures FindParameter(earlier, later[i].position, later[i].name).None? ==>
        !later[i].required && later[i].position != "path"
    {
      CleanTestSplits(r, check);
      NewParameterAt(CleanTest(r, check), earlier, later, location, |later|, i);
      CleanNewParameter(r, check, earlier, later[i], location);
    }
  }

  // ---- content

  ghost predicate MediumKept(r: Review, check: Check, direction: Direction, m: MediaType, later: seq<MediaType>)
    requires r.Valid()
  {
    match FindMedia(later, m.name)
    case None => false
    case Some(n) =>
      Kept(r, check, direction, At(r.base.graph, m.schema, r.base.graph.empty), At(r.cand.graph, n.schema, r.cand.graph.empty))
  }

  /** The same media types on both sides, each with its values kept. */
  ghost predicate ContentKept(r: Review, check: Check, direction: Direction, x: Content, y: Content)
    requires r.Valid()
  {
    && x.ContentMap? && y.ContentMap?
    && (forall i :: 0 <= i < |x.media| ==> MediumKept(r, check, direction, x.media[i], y.media))
    && (forall i :: 0 <= i < |y.media| ==> FindMedia(x.media, y.media[i].name).Some?)
  }

  lemma CleanMedium(r: Review, check: Check, m: MediaType, later: seq<MediaType>, carrier: Carrier)
    requires r.Valid() && Clean(r, check, OldMedium(r, m, later, carrier))
    ensures MediumKept(r, check, carrier.Travel(), m, later)
  {
    match FindMedia(later, m.name)
    case None =>
      CleanOne(r, check, Bad(carrier.Removal(), carrier.Location(m.name)));
    case Some(n) =>
      CleanCompare(r, check, carrier.Travel(), At(r.base.graph, m.schema, r.base.graph.empty),
                   At(r.cand.graph, n.schema, r.cand.graph.empty), carrier.Location(m.name));
  }

  lemma {:induction false} OldMediumAt(
    test: Test, r: Review, earlier: seq<MediaType>, later: seq<MediaType>, carrier: Carrier, k: nat, i: nat)
    requires Splits(test) && i < k <= |earlier| && test(OldMedia(r, earlier, later, carrier, k))
    ensures test(OldMedium(r, earlier[i], later, carrier))
    decreases k
  {
    assert Joined(OldMedia(r, earlier, later, carrier, k - 1), OldMedium(r, earlier[k - 1], later, carrier));
    if i < k - 1 {
      OldMediumAt(test, r, earlier, later, carrier, k - 1, i);
    }
  }

  lemma {:induction false} NewMediumAt(
    test: Test, earlier: seq<MediaType>, later: seq<MediaType>, carrier: Carrier, k: nat, i: nat)
    requires Splits(test) && i < k <= |later| && test(NewMedia(earlier, later, carrier, k))
    ensures test(NewMedium(earlier, later[i], carrier))
    decreases k
  {
    assert Joined(NewMedia(earlier, later, carrier, k - 1), NewMedium(earlier, later[k - 1], carrier));
    if i < k - 1 {
      NewMediumAt(test, earlier, later, carrier, k - 1, i);
    }
  }

  lemma CleanNewMedium(r: Review, check: Check, earlier: seq<MediaType>, m: MediaType, carrier: Carrier)
    requires r.Valid() && Clean(r, check, NewMedium(earlier, m, carrier))
    ensures FindMedia(earlier, m.name).Some?
  {
    var steps := NewMedium(earlier, m, carrier);
    if steps != [] {
      CleanOne(r, check, steps[0]);
    }
  }

  lemma CleanContent(r: Review, check: Check, x: Content, y: Content, carrier: Carrier)
    requires r.Valid() && Clean(r, check, ContentSteps(r, x, y, carrier))
    ensures ContentKept(r, check, carrier.Travel(), x, y)
  {
    if x.ContentMap? && y.ContentMap? {
      CleanParts(r, check, OldMedia(r, x.media, y.media, carrier, |x.media|), NewMedia(x.media, y.media, carrier, |y.media|));
      forall i | 0 <= i < |x.media|
        ensures MediumKept(r, check, carrier.Travel(), x.media[i], y.media)
      {
        CleanTestSplits(r, check);
        OldMediumAt(CleanTest(r, check), r, x.media, y.media, carrier, |x.media|, i);
        CleanMedium(r, check, x.media[i], y.media, carrier);
      }
      forall i | 0 <= i < |y.media|
        ensures FindMedia(x.media, y.media[i].name).Some?
      {
        CleanTestSplits(r, check);
        NewMediumAt(CleanTest(r, check), x.media, y.media, carrier, |y.media|, i);
        CleanNewMedium(r, check, x.media, y.media[i], carrier);
      }
    } else {
      CleanOne(r, check, ContentSteps(r, x, y, carrier)[0]);
    }
  }

  /** A body that was sent before is still read, and no new body is demanded. */
  ghost predicate BodyKept(r: Review, check: Check, x: Option<Body>, y: Option<Body>)
    requires r.Valid()
  {
    match (x, y)
    case (None, None) => true
    case (None, Some(n)) => !n.required
    case (Some(_), None) => false
    case (Some(o), Some(n)) => (n.required ==> o.required) && ContentKept(r, check, Request, o.content, n.content)
  }

  lemma CleanBody(r: Review, check: Check, x: Option<Body>, y: Option<Body>, location: Place)
    requires r.Valid() && Clean(r, check, BodySteps(r, x, y, location))
    ensures BodyKept(r, check, x, y)
  {
    match (x, y)
    case (Some(o), Some(n)) =>
      var steps := if o.required && !n.required then [Fine(RequestBodyRequirednessWidening, location)]
                   else if !o.required && n.required then [Bad(RequestBodyRequiredness, location)]
                   else [];
      CleanParts(r, check, steps, ContentSteps(r, o.content, n.content, RequestCarrier(location)));
      CleanContent(r, check, o.content, n.content, RequestCarrier(location));
      if steps != [] {
        CleanOne(r, check, steps[0]);
      }
    case (None, None) =>
    case _ =>
      CleanOne(r, check, BodySteps(r, x, y, location)[0]);
  }

  // ---- responses

  ghost predicate ResponseKept(r: Review, check: Check, e: ResponseEntry, later: seq<ResponseEntry>)
    requires r.Valid()
  {
    match FindResponse(later, e.status)
    case None => false
    case Some(f) => ContentKept(r, check, Response, e.content, f.content)
  }

  /** The same statuses on both sides, each with its content kept. */
  ghost predicate ResponsesKept(r: Review, check: Check, x: Responses, y: Responses)
    requires r.Valid()
  {
    && x.ResponseMap? && y.ResponseMap?
    && (forall i :: 0 <= i < |x.entries| ==> ResponseKept(r, check, x.entries[i], y.entries))
    && (forall i :: 0 <= i < |y.entries| ==> FindResponse(x.entries, y.entries[i].status).Some?)
  }

  lemma {:induction false} OldResponseAt(
    test: Test, r: Review, earlier: seq<ResponseEntry>, later: seq<ResponseEntry>, location: Place, k: nat, i: nat)
    requires Splits(test) && i < k <= |earlier| && test(OldResponses(r, earlier, later, location, k))
    ensures test(OldResponse(r, earlier[i], later, location))
    decreases k
  {
    assert Joined(OldResponses(r, earlier, later, location, k - 1), OldResponse(r, earlier[k - 1], later, location));
    if i < k - 1 {
      OldResponseAt(test, r, earlier, later, location, k - 1, i);
    }
  }

  lemma {:induction false} NewResponseAt(
    test: Test, earlier: seq<ResponseEntry>, later: seq<ResponseEntry>, location: Place, k: nat, i: nat)
    requires Splits(test) && i < k <= |later| && test(NewResponses(earlier, later, location, k))
    ensures test(NewResponse(earlier, later[i], location))
    decreases k
  {
    assert Joined(NewResponses(earlier, later, location, k - 1), NewResponse(earlier, later[k - 1], location));
    if i < k - 1 {
      NewResponseAt(test, earlier, later, location, k - 1, i);
    }
  }

  lemma CleanResponse(r: Review, check: Check, e: ResponseEntry, later: seq<ResponseEntry>, location: Place)
    requires r.Valid() && Clean(r, check, OldResponse(r, e, later, location))
    ensures ResponseKept(r, check, e, later)
  {
    match FindResponse(later, e.status)
    case None =>
      CleanOne(r, check, Bad(ResponseRemoval, ResponseAt(location, e.status)));
    case Some(f) =>
      CleanContent(r, check, e.content, f.content, ResponseCarrier(location, e.status));
  }

  lemma CleanNewResponse(r: Review, check: Check, earlier: seq<ResponseEntry>, e: ResponseEntry, location: Place)
    requires r.Valid() && Clean(r, check, NewResponse(earlier, e, location))
    ensures FindResponse(earlier, e.status).Some?
  {
    var steps := NewResponse(earlier, e, location);
    if steps != [] {
      CleanOne(r, check, steps[0]);
    }
  }

  lemma CleanResponses(r: Review, check: Check, x: Responses, y: Responses, location: Place)
    requires r.Valid() && Clean(r, check, ResponseSteps(r, x, y, location))
    ensures ResponsesKept(r, check, x, y)
  {
    if x.ResponseMap? && y.ResponseMap? {
      CleanParts(r, check, OldResponses(r, x.entries, y.entries, location, |x.entries|),
                 NewResponses(x.entries, y.entries, location, |y.entries|));
      forall i | 0 <= i < |x.entries|
        ensures ResponseKept(r, check, x.entries[i], y.entries)
      {
        CleanTestSplits(r, check);
        OldResponseAt(CleanTest(r, check), r, x.entries, y.entries, location, |x.entries|, i);
        CleanResponse(r, check, x.entries[i], y.entries, location);
      }
      forall i | 0 <= i < |y.entries|
        ensures FindResponse(x.entries, y.entries[i].status).Some?
      {
        CleanTestSplits(r, check);
        NewResponseAt(CleanTest(r, check), x.entries, y.entries, location, |y.entries|, i);
        CleanNewResponse(r, check, x.entries, y.entries[i], location);
      }
    } else {
      CleanOne(r, check, Bad(ResponseChange, location));
    }
  }

  // ---- operations

  /** Everything a client of the old operation relies on. */
  ghost predicate OperationKept(
    r: Review, check: Check, ps: seq<Parameter>, o: Operation, qs: seq<Parameter>, n: Operation)
    requires r.Valid()
  {
    && PyEq(o.operationId, n.operationId)
    && ParametersKept(r, check, Merge(ps + o.parameters), Merge(qs + n.parameters))
    && BodyKept(r, check, o.body, n.body)
    && ResponsesKept(r, check, o.responses, n.responses)
  }

  lemma CleanOperation(
    r: Review, check: Check, ps: seq<Parameter>, o: Operation, qs: seq<Parameter>, n: Operation, location: Place)
    requires r.Valid() && Clean(r, check, OperationSteps(r, ps, o, qs, n, location))
    ensures OperationKept(r, check, ps, o, qs, n)
  {
    var earlier, later := Merge(ps + o.parameters), Merge(qs + n.parameters);
    var rename := if PyEq(o.operationId, n.operationId) then [] else [Bad(OperationRename, location)];
    var parameters := ParameterSteps(r, earlier, later, location);
    var body := BodySteps(r, o.body, n.body, location);
    var responses := ResponseSteps(r, o.responses, n.responses, location);
    CleanParts(r, check, rename + parameters + body, responses);
    CleanParts(r, check, rename + parameters, body);
    CleanParts(r, check, rename, parameters);
    if rename != [] {
      CleanOne(r, check, rename[0]);
    }
    CleanParameters(r, check, earlier, later, location);
    CleanBody(r, check, o.body, n.body, location);
    CleanResponses(r, check, o.responses, n.responses, location);
  }

  ghost predicate MethodKept(r: Review, check: Check, x: PathItem, y: PathItem, m: Method)
    requires r.Valid() && x.PathItem?
  {
    m in x.operations ==>
      && y.PathItem? && m in y.operations
      && x.operations[m].AnOperation? && y.operations[m].AnOperation?
      && OperationKept(r, check, x.parameters, x.operations[m].operation, y.parameters, y.operations[m].operation)
  }

  lemma {:induction false} MethodAt(
    test: Test, r: Review, path: string, x: PathItem, y: PathItem, k: nat, i: nat)
    requires Splits(test) && x.PathItem? && y.PathItem? && i < k <= |METHODS| && test(OldMethods(r, path, x, y, k))
    ensures test(MethodSteps(r, path, x, y, METHODS[i]))
    decreases k
  {
    assert Joined(OldMethods(r, path, x, y, k - 1), MethodSteps(r, path, x, y, METHODS[k - 1]));
    if i < k - 1 {
      MethodAt(test, r, path, x, y, k - 1, i);
    }
  }

  lemma CleanMethod(r: Review, check: Check, path: string, x: PathItem, y: PathItem, m: Method)
    requires r.Valid() && x.PathItem? && y.PathItem? && Clean(r, check, MethodSteps(r, path, x, y, m))
    ensures MethodKept(r, check, x, y, m)
  {
    var location := Endpoint(MethodName(m), path);
    if m in x.operations {
      if m !in y.operations {
        CleanOne(r, check, Bad(OperationRemoval, location));
      } else if x.operations[m].AnOperation? && y.operations[m].AnOperation? {
        CleanOperation(r, check, x.parameters, x.operations[m].operation, y.parameters, y.operations[m].operation, location);
      } else {
        CleanOne(r, check, Bad(OperationChange, location));
      }
    }
  }

  lemma MethodIndex(m: Method) returns (i: nat)
    ensures i < |METHODS| && METHODS[i] == m
  {
    i := match m
      case DeleteMethod => 0
      case GetMethod => 1
      case PatchMethod => 2
      case PostMethod => 3
      case PutMethod => 4;
  }

  /** Every operation of an old path is still offered, unchanged for its clients. */
  ghost predicate PathKept(r: Review, check: Check, p: Path, later: seq<Path>)
    requires r.Valid()
  {
    match FindPath(later, p.path)
    case None => false
    case Some(item) => p.item.PathItem? && item.PathItem? && forall m :: MethodKept(r, check, p.item, item, m)
  }

  lemma CleanPath(r: Review, check: Check, p: Path, later: seq<Path>)
    requires r.Valid() && Clean(r, check, OldPath(r, p, later))
    ensures PathKept(r, check, p, later)
  {
    match FindPath(later, p.path)
    case None =>
      CleanOne(r, check, Bad(OperationRemoval, PathText(p.path)));
    case Some(item) =>
      if p.item.PathItem? && item.PathItem? {
        CleanParts(r, check, OldMethods(r, p.path, p.item, item, |METHODS|),
                   NewMethods(p.path, p.item.operations.Keys, item, |METHODS|));
        forall m
          ensures MethodKept(r, check, p.item, item, m)
        {
          var i := MethodIndex(m);
          CleanTestSplits(r, check);
          MethodAt(CleanTest(r, check), r, p.path, p.item, item, |METHODS|, i);
          CleanMethod(r, check, p.path, p.item, item, m);
        }
      } else {
        CleanOne(r, check, Bad(PathChange, PathText(p.path)));
      }
  }

  lemma {:induction false} PathAt(test: Test, r: Review, earlier: seq<Path>, later: seq<Path>, k: nat, i: nat)
    requires Splits(test) && i < k <= |earlier| && test(OldPaths(r, earlier, later, k))
    ensures test(OldPath(r, earlier[i], later))
    decreases k
  {
    assert Joined(OldPaths(r, earlier, later, k - 1), OldPath(r, earlier[k - 1], later));
    if i < k - 1 {
      PathAt(test, r, earlier, later, k - 1, i);
    }
  }

  // ---- the whole contract

  lemma {:induction false} CountZero(changes: seq<Change>)
    requires Count(changes, Breaking) == 0
    ensures NoBreaking(changes)
  {
    if changes != [] {
      var front, last := changes[..|changes| - 1], changes[|changes| - 1];
      CountZero(front);
      assert changes == front + [last];
      NoBreakingParts(front, [last]);
    }
  }

  /** `NoBreaking(Changes(r, _))` as a value. */
  ghost function QuietTest(r: Review): Test
    requires r.Valid()
  {
    (steps: seq<ContractStep>) => r.Valid() && NoBreaking(Changes(r, steps))
  }

  lemma QuietParts(r: Review, p: seq<ContractStep>, q: seq<ContractStep>)
    requires r.Valid() && NoBreaking(Changes(r, p + q))
    ensures NoBreaking(Changes(r, p)) && NoBreaking(Changes(r, q))
  {
    ChangesConcat(r, p, q);
    NoBreakingParts(Changes(r, p), Changes(r, q));
  }

  lemma QuietTestSplits(r: Review)
    requires r.Valid()
    ensures Splits(QuietTest(r))
  {
    var test := QuietTest(r);
    forall p, q | test(p + q)
      ensures test(p) && test(q)
    {
      QuietParts(r, p, q);
    }
  }

  lemma QuietPaths(r: Review)
    requires r.Valid() && r.base.paths.Some? && r.cand.paths.Some? && r.was.major.Some? && r.was.revision.Some?
    requires NoBreaking(Changes(r, AllSteps(r)))
    ensures NoBreaking(Changes(r, OldPaths(r, r.base.paths.value, r.cand.paths.value, |r.base.paths.value|)))
  {
    var earlier, later := r.base.paths.value, r.cand.paths.value;
    QuietParts(r, MetadataSteps(r) + PathSteps(r), ComponentSteps(r, |r.base.graph.schemas|));
    QuietParts(r, MetadataSteps(r), PathSteps(r));
    QuietParts(r, OldPaths(r, earlier, later, |earlier|), NewPaths(earlier, later, |later|));
  }

  /** A passing comparison keeps the operations of a path for their clients, wherever the walks of that path
      overlook nothing that matters: parameters and request bodies that were accepted stay accepted, and
      responses stay understood. */
  lemma PassKeepsOperations(r: Review, check: Check, i: nat)
    requires r.Valid() && ReportOf(r).result == PASS
    requires r.base.paths.Some? && i < |r.base.paths.value| && r.cand.paths.Some?
    requires Trusted(r, check, OldPath(r, r.base.paths.value[i], r.cand.paths.value))
    ensures PathKept(r, check, r.base.paths.value[i], r.cand.paths.value)
  {
    PassIsClean(r);
    QuietPaths(r);
    var earlier, later := r.base.paths.value, r.cand.paths.value;
    QuietTestSplits(r);
    PathAt(QuietTest(r), r, earlier, later, |earlier|, i);
    CleanPath(r, check, earlier[i], later);
  }

  lemma PassIsClean(r: Review)
    requires r.Valid() && ReportOf(r).result == PASS
    ensures r.base.paths.Some? && r.cand.paths.Some? && r.was.major.Some? && r.was.revision.Some?
    ensures NoBreaking(Changes(r, AllSteps(r))) && RevisionStep(r, Changes(r, AllSteps(r))) == []
    ensures ReportOf(r).changes == Changes(r, AllSteps(r))
  {
    var changes := Changes(r, AllSteps(r));
    CountZero(changes + RevisionStep(r, changes));
    NoBreakingParts(changes, RevisionStep(r, changes));
    assert RevisionStep(r, changes) == [] by {
      var extra := RevisionStep(r, changes);
      if extra != [] {
        FirstIsAdditive(extra);
      }
    }
    assert changes + [] == changes;
  }

  lemma FirstIsAdditive(changes: seq<Change>)
    requires NoBreaking(changes) && changes != []
    ensures changes[0].classification == Additive
  {
  }

  /** Old clients survive new servers: where a response is kept, whatever the candidate's schema accepts
      inhabits the TypeScript type generated from the base contract. */
  lemma ClientTypesSurvive(r: Review, check: Check, m: MediaType, later: seq<MediaType>, scope: set<Id>, v: Json)
    requires r.Valid() && MediumKept(r, check, Response, m, later)
    requires TypeScript.Nameable(r.base.graph) && TypeScript.Declarations(r.base.graph, |r.base.graph.schemas|).Ok?
    requires At(r.base.graph, m.schema, r.base.graph.empty) in scope && TypeScript.Scope(r.base.graph, OpenRecords, scope)
    requires TypeScript.Compile(r.base.graph, At(r.base.graph, m.schema, r.base.graph.empty)).Ok?
    requires ValidAt(check, Exact, r.cand.graph,
               At(r.cand.graph, FindMedia(later, m.name).value.schema, r.cand.graph.empty), v)
    ensures TypeScript.OfGeneratedType(r.base.graph, At(r.base.graph, m.schema, r.base.graph.empty), v)
  {
    var a := At(r.base.graph, m.schema, r.base.graph.empty);
    var b := At(r.cand.graph, FindMedia(later, m.name).value.schema, r.cand.graph.empty);
    assert StillUnderstood(r, check, a, b);
    TypeScript.GeneratedTypeCovers(check, OpenRecords, r.base.graph, scope, a, v);
  }

  /** The `e`-th response of an operation of this path, and its `k`-th media type. */
  ghost predicate Answers(p: Path, verb: Method, e: nat, k: nat) {
    && p.item.PathItem? && verb in p.item.operations && p.item.operations[verb].AnOperation?
    && var x := p.item.operations[verb].operation.responses;
       x.ResponseMap? && e < |x.entries| && x.entries[e].content.ContentMap? && k < |x.entries[e].content.media|
  }

  ghost function Answer(p: Path, verb: Method, e: nat, k: nat): MediaType
    requires Answers(p, verb, e, k)
  {
    p.item.operations[verb].operation.responses.entries[e].content.media[k]
  }

  /** The candidate's media type for the same path, method, status and media name. */
  ghost function Counterpart(p: Path, later: seq<Path>, verb: Method, e: nat, k: nat): Option<MediaType>
    requires Answers(p, verb, e, k)
  {
    match FindPath(later, p.path)
    case None => None
    case Some(item) =>
      if item.PathItem? && verb in item.operations && item.operations[verb].AnOperation? then
        var x, y := p.item.operations[verb].operation.responses, item.operations[verb].operation.responses;
        if y.ResponseMap? then
          match FindResponse(y.entries, x.entries[e].status)
          case None => None
          case Some(response) =>
            if response.content.ContentMap? then FindMedia(response.content.media, Answer(p, verb, e, k).name) else None
        else None
      else None
  }

  /** A kept path has for every media type of its responses one of the candidate, and keeps its values. */
  lemma KeptPathAnswers(r: Review, check: Check, p: Path, later: seq<Path>, verb: Method, e: nat, k: nat)
    requires r.Valid() && PathKept(r, check, p, later) && Answers(p, verb, e, k)
    ensures Counterpart(p, later, verb, e, k).Some?
    ensures Kept(r, check, Response, At(r.base.graph, Answer(p, verb, e, k).schema, r.base.graph.empty),
                 At(r.cand.graph, Counterpart(p, later, verb, e, k).value.schema, r.cand.graph.empty))
  {
    var item := FindPath(later, p.path).value;
    assert MethodKept(r, check, p.item, item, verb);
    var x, y := p.item.operations[verb].operation.responses, item.operations[verb].operation.responses;
    assert ResponseKept(r, check, x.entries[e], y.entries);
    var content := FindResponse(y.entries, x.entries[e].status).value.content;
    assert MediumKept(r, check, Response, x.entries[e].content.media[k], content.media);
  }

  /** PASS keeps old clients running, operation by operation: each media type of each response of the base
      still has one in the candidate, and every value of it inhabits the TypeScript type generated from the
      base contract, wherever the walks of that path overlook nothing that matters and the positions the
      type is made of are suitable. */
  lemma PassKeepsClientTypes(r: Review, check: Check, i: nat, verb: Method, e: nat, k: nat, scope: set<Id>)
    requires r.Valid() && ReportOf(r).result == PASS
    requires r.base.paths.Some? && i < |r.base.paths.value| && r.cand.paths.Some?
    requires Trusted(r, check, OldPath(r, r.base.paths.value[i], r.cand.paths.value))
    requires Answers(r.base.paths.value[i], verb, e, k)
    requires TypeScript.Nameable(r.base.graph) && TypeScript.Declarations(r.base.graph, |r.base.graph.schemas|).Ok?
    requires TypeScript.Scope(r.base.graph, OpenRecords, scope)
    requires At(r.base.graph, Answer(r.base.paths.value[i], verb, e, k).schema, r.base.graph.empty) in scope
    requires TypeScript.Compile(r.base.graph,
               At(r.base.graph, Answer(r.base.paths.value[i], verb, e, k).schema, r.base.graph.empty)).Ok?
    ensures Counterpart(r.base.paths.value[i], r.cand.paths.value, verb, e, k).Some?
    ensures forall v :: ValidAt(check, Exact, r.cand.graph, At(r.cand.graph,
                Counterpart(r.base.paths.value[i], r.cand.paths.value, verb, e, k).value.schema, r.cand.graph.empty), v) ==>
              TypeScript.OfGeneratedType(r.base.graph,
                At(r.base.graph, Answer(r.base.paths.value[i], verb, e, k).schema, r.base.graph.empty), v)
  {
    var p, later := r.base.paths.value[i], r.cand.paths.value;
    PassKeepsOperations(r, check, i);
    KeptPathAnswers(r, check, p, later, verb, e, k);
    var a := At(r.base.graph, Answer(p, verb, e, k).schema, r.base.graph.empty);
    var b := At(r.cand.graph, Counterpart(p, later, verb, e, k).value.schema, r.cand.graph.empty);
    assert StillUnderstood(r, check, a, b);
    forall v | ValidAt(check, Exact, r.cand.graph, b, v)
      ensures TypeScript.OfGeneratedType(r.base.graph, a, v)
    {
      TypeScript.GeneratedTypeCovers(check, OpenRecords, r.base.graph, scope, a, v);
    }
  }

  // ---- components

  /** The direction in which a component travels: from clients when a request body names it and no response
      does, to clients otherwise. */
  ghost function Travels(c: Contract, name: string): Direction {
    if ContractReport.SentByClients(c, name) then Request else Response
  }

  /** The candidate's component with this name. */
  ghost predicate Succeeds(r: Review, name: string, b: Id) {
    ContractReport.FirstAmong(r.cand.graph.schemas, ContractReport.IsComponent(name), Member(name, b))
  }

  lemma PassReportsNothingBreaking(r: Review, c: Change)
    requires r.Valid() && ReportOf(r).result == PASS && ContractReport.FinalRule(r, c)
    ensures c.classification == Additive
  {
    ContractReportProof.ReportIff(r);
  }

  /** PASS keeps the components: each name of the base is a component of the candidate, and the two schemas keep
      their values in the direction in which the component travels, wherever the positions are suitable. */
  lemma PassKeepsComponents(r: Review, check: Check, m: Member)
    requires r.Valid() && ReportOf(r).result == PASS && m in r.base.graph.schemas
    ensures exists b :: Succeeds(r, m.name, b)
    ensures forall b, pairs ::
      Succeeds(r, m.name, b) && Suitable(r.SceneFor(Travels(r.cand, m.name)), check, pairs, m.id, b) ==>
        Kept(r, check, Travels(r.cand, m.name), m.id, b)
  {
    var removal := Change(Breaking, SchemaRemoval, Component(m.name));
    assert !ContractReport.ComponentRule(r, m, removal) by {
      if ContractReport.ComponentRule(r, m, removal) {
        PassReportsNothingBreaking(r, removal);
      }
    }
    ContractReportProof.FindComponentIff(r.cand.graph.schemas, m.name);
    assert Succeeds(r, m.name, Find(r.cand.graph.schemas, m.name).value);
    forall b, pairs | Succeeds(r, m.name, b) && Suitable(r.SceneFor(Travels(r.cand, m.name)), check, pairs, m.id, b)
      ensures Kept(r, check, Travels(r.cand, m.name), m.id, b)
    {
      ComponentIsKept(r, check, m, b, pairs);
    }
  }

  lemma ComponentIsKept(r: Review, check: Check, m: Member, b: Id, pairs: set<Marker>)
    requires r.Valid() && ReportOf(r).result == PASS && m in r.base.graph.schemas && Succeeds(r, m.name, b)
    requires Suitable(r.SceneFor(Travels(r.cand, m.name)), check, pairs, m.id, b)
    ensures Kept(r, check, Travels(r.cand, m.name), m.id, b)
  {
    var direction, at := Travels(r.cand, m.name), Component(m.name);
    ComponentIsQuiet(r, m, b);
    ContractReportProof.FindComponentIff(r.cand.graph.schemas, m.name);
    assert Member(m.name, b) in r.cand.graph.schemas;
    QuietIsKept(r, check, direction, m.id, b, at, pairs);
  }

  lemma QuietIsKept(r: Review, check: Check, direction: Direction, a: Id, b: Id, at: Place, pairs: set<Marker>)
    requires r.Valid() && a in r.base.graph.nodes && b in r.cand.graph.nodes
    requires NoBreaking(WalkChanges(r, direction, a, b, at)) && Suitable(r.SceneFor(direction), check, pairs, a, b)
    ensures Kept(r, check, direction, a, b)
  {
    var step := Compare(direction, a, b, at);
    OneStep(r, step);
    assert TrustedWalk(r, check, step);
    CleanCompare(r, check, direction, a, b, at);
  }

  lemma OneStep(r: Review, step: ContractStep)
    requires r.Valid()
    ensures Changes(r, [step]) == StepChanges(r, step)
  {
    assert [step][..0] == [];
    assert Changes(r, [step]) == [] + StepChanges(r, step);
  }

  lemma ComponentIsQuiet(r: Review, m: Member, b: Id)
    requires r.Valid() && ReportOf(r).result == PASS && m in r.base.graph.schemas && Succeeds(r, m.name, b)
    ensures NoBreaking(WalkChanges(r, Travels(r.cand, m.name), m.id, b, Component(m.name)))
  {
    var direction, at := Travels(r.cand, m.name), Component(m.name);
    var changes := WalkChanges(r, direction, m.id, b, at);
    forall k | 0 <= k < |changes|
      ensures changes[k].classification == Additive
    {
      assert ContractReport.SchemasReport(r, direction, m.id, b, at, changes[k]);
      assert ContractReport.ComponentRule(r, m, changes[k]);
      PassReportsNothingBreaking(r, changes[k]);
    }
  }

  // ---- revisions

  /** A passing comparison keeps the major, never lowers the revision, and reports changes only when
      the revision rises. */
  lemma PassKeepsRevisions(r: Review)
    requires r.Valid() && ReportOf(r).result == PASS
    ensures r.was.major.Some? && r.now.major == r.was.major && r.now.major.value >= 1
    ensures r.was.revision.Some? && r.now.revision.Some? && r.now.revision.value >= 1
    ensures r.was.revision.value <= r.now.revision.value
    ensures r.was.revision == r.now.revision ==> ReportOf(r).changes == []
  {
    PassIsClean(r);
    var steps := MetadataSteps(r);
    ChangesConcat(r, steps + PathSteps(r), ComponentSteps(r, |r.base.graph.schemas|));
    ChangesConcat(r, steps, PathSteps(r));
    NoBreakingParts(Changes(r, steps) + Changes(r, PathSteps(r)), Changes(r, ComponentSteps(r, |r.base.graph.schemas|)));
    NoBreakingParts(Changes(r, steps), Changes(r, PathSteps(r)));
    if steps != [] {
      OneNote(r, steps);
      FirstIsAdditive(Changes(r, steps));
    }
  }

  lemma OneNote(r: Review, steps: seq<ContractStep>)
    requires r.Valid() && |steps| == 1 && steps[0].Note?
    ensures Changes(r, steps) == [steps[0].change]
  {
    assert steps[..0] == [];
  }

  ghost predicate RevisionsOrdered(m: Metadata, n: Metadata) {
    && m.major.Some? && n.major == m.major
    && m.revision.Some? && n.revision.Some? && m.revision.value <= n.revision.value
  }

  /** One passed comparison, seen from its metadata and its report. */
  ghost predicate PassedStep(m: Metadata, n: Metadata, report: Report) {
    RevisionsOrdered(m, n) && (m.revision == n.revision ==> report.changes == [])
  }

  /** The report with this number is the one of comparing a contract of the history with its predecessor. */
  ghost predicate Compared(history: seq<Contract>, reports: seq<Report>, places: set<string>, k: nat)
    requires |history| == |reports| + 1 && k < |reports|
  {
    history[k].graph.Valid() && history[k + 1].graph.Valid()
    && reports[k] == ReportOf(ReviewOf(history[k], history[k + 1], places))
  }

  ghost predicate Reported(history: seq<Contract>, reports: seq<Report>, places: set<string>) {
    && |history| == |reports| + 1
    && forall k {:trigger Compared(history, reports, places, k)} :: 0 <= k < |reports| ==> Compared(history, reports, places, k)
  }

  lemma PassedStepOrders(base: Contract, cand: Contract, places: set<string>)
    requires base.graph.Valid() && cand.graph.Valid() && ReportOf(ReviewOf(base, cand, places)).result == PASS
    ensures PassedStep(MetadataOf(base), MetadataOf(cand), ReportOf(ReviewOf(base, cand, places)))
  {
    PassKeepsRevisions(ReviewOf(base, cand, places));
  }

  lemma PassedStepAt(history: seq<Contract>, reports: seq<Report>, places: set<string>, k: nat)
    requires Reported(history, reports, places) && k < |reports| && reports[k].result == PASS
    ensures PassedStep(MetadataOf(history[k]), MetadataOf(history[k + 1]), reports[k])
  {
    assert Compared(history, reports, places, k);
    PassedStepOrders(history[k], history[k + 1], places);
  }

  lemma OrderedChains(m: Metadata, n: Metadata, o: Metadata)
    requires RevisionsOrdered(m, n) && RevisionsOrdered(n, o)
    ensures RevisionsOrdered(m, o)
    ensures m.revision == o.revision ==> m.revision == n.revision && n.revision == o.revision
  {
  }

  /** Along any history of passed comparisons the major stays, the revision never falls, and between two
      contracts with the same revision no comparison reported anything. */
  lemma {:induction false} RevisionsNeverFall(history: seq<Contract>, reports: seq<Report>, places: set<string>, i: nat, j: nat)
    requires Reported(history, reports, places) && i < j < |history|
    requires forall k :: 0 <= k < |reports| ==> reports[k].result == PASS
    ensures RevisionsOrdered(MetadataOf(history[i]), MetadataOf(history[j]))
    ensures MetadataOf(history[i]).revision == MetadataOf(history[j]).revision ==>
      forall k :: i <= k < j ==> reports[k].changes == []
    decreases j - i
  {
    PassedStepAt(history, reports, places, i);
    if i + 1 < j {
      RevisionsNeverFall(history, reports, places, i + 1, j);
      OrderedChains(MetadataOf(history[i]), MetadataOf(history[i + 1]), MetadataOf(history[j]));
    }
  }
}
