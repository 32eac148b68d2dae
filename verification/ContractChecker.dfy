/** `compare_contracts` as the program runs it: nested loops over paths, methods, parameters, bodies,
    responses and components, all appending to one change list.  Every method is proved against the
    step lists of Contracts. */
module ContractChecker {
  import opened Common
  import opened Json
  import opened SchemaGraph
  import opened SchemaTraversal
  import opened SchemaWalk
  import opened SchemaChecker
  import opened Contracts

  class ContractChecker {
    const walker: Checker

    /** The shared change list. */
    ghost function Log(): seq<Change>
      reads walker
    {
      walker.changes
    }

    constructor ()
      ensures fresh(walker) && Log() == []
    {
      walker := new Checker();
    }

    /** One schema comparison, with a `seen` set of its own. */
    method CompareSchemas(ghost total: Tally, r: Review, direction: Direction, a: Id, b: Id, location: Place)
      requires r.Valid() && Tallies(total, r) && a in r.base.graph.nodes && b in r.cand.graph.nodes
      modifies walker
      ensures Log() == old(Log()) + total([Compare(direction, a, b, location)])
    {
      var s := r.SceneFor(direction);
      ghost var w := WalkerOf(s);
      WalkerDrives(s);
      ghost var before := walker.changes;
      walker.seen := {};
      walker.CompareSchemas(w, s, a, b, location);
      VisitAppends(w, (a, b), location, before, {});
      assert total([Compare(direction, a, b, location)]) == StepChanges(r, Compare(direction, a, b, location));
      assert WalkChanges(r, direction, a, b, location) == Visit(w, (a, b), location, Trace([], {})).changes;
    }

    /** The reports and comparisons of one loop body, in order. */
    method Perform(ghost total: Tally, r: Review, steps: seq<ContractStep>)
      requires r.Valid() && Tallies(total, r)
      modifies walker
      ensures Log() == old(Log()) + total(steps)
    {
      ghost var start := Log();
      for k := 0 to |steps|
        invariant Log() == start + total(steps[..k])
      {
        match steps[k] {
          case Note(change) =>
            walker.changes := walker.changes + [change];
          case Compare(direction, a, b, location) =>
            if a in r.base.graph.nodes && b in r.cand.graph.nodes {
              CompareSchemas(total, r, direction, a, b, location);
            }
        }
        assert total([steps[k]]) == StepChanges(r, steps[k]);
        TallyExtends(total, r, start, steps[..k], [steps[k]]);
        assert steps[..k + 1] == steps[..k] + [steps[k]];
      }
      assert steps[..|steps|] == steps;
    }

    /** `_compare_parameters` */
    method CompareParameters(ghost total: Tally, r: Review, earlier: seq<Parameter>, later: seq<Parameter>, location: Place)
      requires r.Valid() && Tallies(total, r)
      modifies walker
      ensures Log() == old(Log()) + total(ParameterSteps(r, earlier, later, location))
    {
      ghost var start := Log();
      CompareOldParameters(total, r, earlier, later, location);
      CompareNewParameters(total, r, earlier, later, location);
      TallyExtends(total, r, start, OldParameters(r, earlier, later, location, |earlier|),
                    NewParameters(earlier, later, location, |later|));
    }

    method CompareOldParameters(
      ghost total: Tally, r: Review, earlier: seq<Parameter>, later: seq<Parameter>, location: Place)
      requires r.Valid() && Tallies(total, r)
      modifies walker
      ensures Log() == old(Log()) + total(OldParameters(r, earlier, later, location, |earlier|))
    {
      ghost var start := Log();
      for k := 0 to |earlier|
        invariant Log() == start + total(OldParameters(r, earlier, later, location, k))
      {
        CompareOldParameter(total, r, earlier, later, location, k, start);
      }
    }

    /** One iteration of the loop over the old parameters. */
    method CompareOldParameter(
      ghost total: Tally, r: Review, earlier: seq<Parameter>, later: seq<Parameter>, location: Place, k: nat, ghost start: seq<Change>)
      requires r.Valid() && Tallies(total, r) && k < |earlier|
      requires Log() == start + total(OldParameters(r, earlier, later, location, k))
      modifies walker
      ensures Log() == start + total(OldParameters(r, earlier, later, location, k + 1))
    {
      ghost var done := OldParameters(r, earlier, later, location, k);
      CompareParameter(total, r, earlier[k], later, location);
      TallyExtends(total, r, start, done, OldParameter(r, earlier[k], later, location));
    }

    method CompareParameter(ghost total: Tally, r: Review, p: Parameter, later: seq<Parameter>, location: Place)
      requires r.Valid() && Tallies(total, r)
      modifies walker
      ensures Log() == old(Log()) + total(OldParameter(r, p, later, location))
    {
      var steps := OldParameter(r, p, later, location);
      Perform(total, r, steps);
    }

    method CompareNewParameters(
      ghost total: Tally, r: Review, earlier: seq<Parameter>, later: seq<Parameter>, location: Place)
      requires r.Valid() && Tallies(total, r)
      modifies walker
      ensures Log() == old(Log()) + total(NewParameters(earlier, later, location, |later|))
    {
      ghost var start := Log();
      ghost var done: seq<ContractStep> := [];
      for k := 0 to |later|
        invariant done == NewParameters(earlier, later, location, k)
        invariant Log() == start + total(done)
      {
        var steps := NewParameter(earlier, later[k], location);
        Perform(total, r, steps);
        TallyExtends(total, r, start, done, steps);
        done := done + steps;
      }
    }

    method CompareContent(ghost total: Tally, r: Review, x: Content, y: Content, carrier: Carrier)
      requires r.Valid() && Tallies(total, r)
      modifies walker
      ensures Log() == old(Log()) + total(ContentSteps(r, x, y, carrier))
    {
      if x.NotAContentMap? || y.NotAContentMap? {
        Perform(total, r, ContentSteps(r, x, y, carrier));
        return;
      }
      ghost var start := Log();
      CompareOldMedia(total, r, x.media, y.media, carrier);
      CompareNewMedia(total, r, x.media, y.media, carrier);
      TallyExtends(total, r, start, OldMedia(r, x.media, y.media, carrier, |x.media|),
                    NewMedia(x.media, y.media, carrier, |y.media|));
    }

    method CompareOldMedia(
      ghost total: Tally, r: Review, earlier: seq<MediaType>, later: seq<MediaType>, carrier: Carrier)
      requires r.Valid() && Tallies(total, r)
      modifies walker
      ensures Log() == old(Log()) + total(OldMedia(r, earlier, later, carrier, |earlier|))
    {
      ghost var start := Log();
      ghost var done: seq<ContractStep> := [];
      for k := 0 to |earlier|
        invariant done == OldMedia(r, earlier, later, carrier, k)
        invariant Log() == start + total(done)
      {
        var steps := OldMedium(r, earlier[k], later, carrier);
        Perform(total, r, steps);
        TallyExtends(total, r, start, done, steps);
        done := done + steps;
      }
    }

    method CompareNewMedia(
      ghost total: Tally, r: Review, earlier: seq<MediaType>, later: seq<MediaType>, carrier: Carrier)
      requires r.Valid() && Tallies(total, r)
      modifies walker
      ensures Log() == old(Log()) + total(NewMedia(earlier, later, carrier, |later|))
    {
      ghost var start := Log();
      ghost var done: seq<ContractStep> := [];
      for k := 0 to |later|
        invariant done == NewMedia(earlier, later, carrier, k)
        invariant Log() == start + total(done)
      {
        var steps := NewMedium(earlier, later[k], carrier);
        Perform(total, r, steps);
        TallyExtends(total, r, start, done, steps);
        done := done + steps;
      }
    }

    method CompareBodies(ghost total: Tally, r: Review, x: Option<Body>, y: Option<Body>, location: Place)
      requires r.Valid() && Tallies(total, r)
      modifies walker
      ensures Log() == old(Log()) + total(BodySteps(r, x, y, location))
    {
      if x.None? || y.None? {
        Perform(total, r, BodySteps(r, x, y, location));
        return;
      }
      var o, n := x.value, y.value;
      var steps := if o.required && !n.required then [Fine(RequestBodyRequirednessWidening, location)]
                   else if !o.required && n.required then [Bad(RequestBodyRequiredness, location)]
                   else [];
      ghost var start := Log();
      Perform(total, r, steps);
      CompareContent(total, r, o.content, n.content, RequestCarrier(location));
      TallyExtends(total, r, start, steps, ContentSteps(r, o.content, n.content, RequestCarrier(location)));
    }

    method CompareResponses(ghost total: Tally, r: Review, x: Responses, y: Responses, location: Place)
      requires r.Valid() && Tallies(total, r)
      modifies walker
      ensures Log() == old(Log()) + total(ResponseSteps(r, x, y, location))
    {
      if x.NotAResponseMap? || y.NotAResponseMap? {
        Perform(total, r, ResponseSteps(r, x, y, location));
        return;
      }
      ghost var start := Log();
      CompareOldResponses(total, r, x.entries, y.entries, location);
      CompareNewResponses(total, r, x.entries, y.entries, location);
      TallyExtends(total, r, start, OldResponses(r, x.entries, y.entries, location, |x.entries|),
                    NewResponses(x.entries, y.entries, location, |y.entries|));
    }

    method CompareOldResponses(
      ghost total: Tally, r: Review, earlier: seq<ResponseEntry>, later: seq<ResponseEntry>, location: Place)
      requires r.Valid() && Tallies(total, r)
      modifies walker
      ensures Log() == old(Log()) + total(OldResponses(r, earlier, later, location, |earlier|))
    {
      ghost var start := Log();
      ghost var done: seq<ContractStep> := [];
      for k := 0 to |earlier|
        invariant done == OldResponses(r, earlier, later, location, k)
        invariant Log() == start + total(done)
      {
        CompareResponse(total, r, earlier[k], later, location);
        TallyExtends(total, r, start, done, OldResponse(r, earlier[k], later, location));
        done := done + OldResponse(r, earlier[k], later, location);
      }
    }

    method CompareResponse(ghost total: Tally, r: Review, e: ResponseEntry, later: seq<ResponseEntry>, location: Place)
      requires r.Valid() && Tallies(total, r)
      modifies walker
      ensures Log() == old(Log()) + total(OldResponse(r, e, later, location))
    {
      match FindResponse(later, e.status) {
        case None =>
          Perform(total, r, [Bad(ResponseRemoval, ResponseAt(location, e.status))]);
        case Some(f) =>
          CompareContent(total, r, e.content, f.content, ResponseCarrier(location, e.status));
      }
    }

    method CompareNewResponses(
      ghost total: Tally, r: Review, earlier: seq<ResponseEntry>, later: seq<ResponseEntry>, location: Place)
      requires r.Valid() && Tallies(total, r)
      modifies walker
      ensures Log() == old(Log()) + total(NewResponses(earlier, later, location, |later|))
    {
      ghost var start := Log();
      ghost var done: seq<ContractStep> := [];
      for k := 0 to |later|
        invariant done == NewResponses(earlier, later, location, k)
        invariant Log() == start + total(done)
      {
        var steps := NewResponse(earlier, later[k], location);
        Perform(total, r, steps);
        TallyExtends(total, r, start, done, steps);
        done := done + steps;
      }
    }

    /** `_compare_operation` */
    method CompareOperation(
      ghost total: Tally, r: Review, ps: seq<Parameter>, o: Operation, qs: seq<Parameter>, n: Operation, location: Place)
      requires r.Valid() && Tallies(total, r)
      modifies walker
      ensures Log() == old(Log()) + total(OperationSteps(r, ps, o, qs, n, location))
    {
      var earlier, later := Merge(ps + o.parameters), Merge(qs + n.parameters);
      var rename := if PyEq(o.operationId, n.operationId) then [] else [Bad(OperationRename, location)];
      ghost var start := Log();
      Perform(total, r, rename);
      CompareParameters(total, r, earlier, later, location);
      ghost var parameters := ParameterSteps(r, earlier, later, location);
      TallyExtends(total, r, start, rename, parameters);
      CompareBodies(total, r, o.body, n.body, location);
      ghost var body := BodySteps(r, o.body, n.body, location);
      TallyExtends(total, r, start, rename + parameters, body);
      CompareResponses(total, r, o.responses, n.responses, location);
      ghost var responses := ResponseSteps(r, o.responses, n.responses, location);
      TallyExtends(total, r, start, rename + parameters + body, responses);
    }

    method CompareMethods(ghost total: Tally, r: Review, path: string, x: PathItem, y: PathItem)
      requires r.Valid() && Tallies(total, r) && x.PathItem? && y.PathItem?
      modifies walker
      ensures Log() == old(Log()) + total(OldMethods(r, path, x, y, |METHODS|))
    {
      ghost var start := Log();
      ghost var done: seq<ContractStep> := [];
      for k := 0 to |METHODS|
        invariant done == OldMethods(r, path, x, y, k)
        invariant Log() == start + total(done)
      {
        var m := METHODS[k];
        ghost var steps := MethodSteps(r, path, x, y, m);
        CompareMethod(total, r, path, x, y, m);
        TallyExtends(total, r, start, done, steps);
        done := done + steps;
      }
    }

    method CompareMethod(ghost total: Tally, r: Review, path: string, x: PathItem, y: PathItem, m: Method)
      requires r.Valid() && Tallies(total, r) && x.PathItem? && y.PathItem?
      modifies walker
      ensures Log() == old(Log()) + total(MethodSteps(r, path, x, y, m))
    {
      if m in x.operations && m in y.operations && x.operations[m].AnOperation? && y.operations[m].AnOperation? {
        CompareOperation(total, r, x.parameters, x.operations[m].operation,
                         y.parameters, y.operations[m].operation, Endpoint(MethodName(m), path));
      } else {
        Perform(total, r, MethodSteps(r, path, x, y, m));
      }
    }

    method ReportNewMethods(ghost total: Tally, r: Review, path: string, known: set<Method>, y: PathItem)
      requires r.Valid() && Tallies(total, r) && y.PathItem?
      modifies walker
      ensures Log() == old(Log()) + total(NewMethods(path, known, y, |METHODS|))
    {
      ghost var start := Log();
      ghost var done: seq<ContractStep> := [];
      for k := 0 to |METHODS|
        invariant done == NewMethods(path, known, y, k)
        invariant Log() == start + total(done)
      {
        var steps := if METHODS[k] in y.operations && METHODS[k] !in known
                     then [Fine(OperationAddition, Endpoint(MethodName(METHODS[k]), path))] else [];
        Perform(total, r, steps);
        TallyExtends(total, r, start, done, steps);
        done := done + steps;
      }
    }

    method ComparePath(ghost total: Tally, r: Review, p: Path, later: seq<Path>)
      requires r.Valid() && Tallies(total, r)
      modifies walker
      ensures Log() == old(Log()) + total(OldPath(r, p, later))
    {
      match FindPath(later, p.path) {
        case None =>
          Perform(total, r, [Bad(OperationRemoval, PathText(p.path))]);
        case Some(item) =>
          if !p.item.PathItem? || !item.PathItem? {
            Perform(total, r, [Bad(PathChange, PathText(p.path))]);
          } else {
            ghost var start := Log();
            CompareMethods(total, r, p.path, p.item, item);
            ReportNewMethods(total, r, p.path, p.item.operations.Keys, item);
            TallyExtends(total, r, start, OldMethods(r, p.path, p.item, item, |METHODS|),
                          NewMethods(p.path, p.item.operations.Keys, item, |METHODS|));
          }
      }
    }

    method ComparePaths(ghost total: Tally, r: Review, earlier: seq<Path>, later: seq<Path>)
      requires r.Valid() && Tallies(total, r)
      modifies walker
      requires r.base.paths == Some(earlier) && r.cand.paths == Some(later)
      ensures Log() == old(Log()) + total(PathSteps(r))
    {
      ghost var start := Log();
      ghost var done: seq<ContractStep> := [];
      for k := 0 to |earlier|
        invariant done == OldPaths(r, earlier, later, k)
        invariant Log() == start + total(done)
      {
        ComparePath(total, r, earlier[k], later);
        TallyExtends(total, r, start, done, OldPath(r, earlier[k], later));
        done := done + OldPath(r, earlier[k], later);
      }
      ghost var first := done;
      ghost var middle := Log();
      done := [];
      for k := 0 to |later|
        invariant done == NewPaths(earlier, later, k)
        invariant Log() == middle + total(done)
      {
        if FindPath(earlier, later[k].path).None? && later[k].item.PathItem? {
          ReportNewMethods(total, r, later[k].path, {}, later[k].item);
        }
        TallyExtends(total, r, middle, done, NewPath(earlier, later[k]));
        done := done + NewPath(earlier, later[k]);
      }
      TallyExtends(total, r, start, first, done);
    }

    method CompareComponents(ghost total: Tally, r: Review)
      requires r.Valid() && Tallies(total, r)
      modifies walker
      ensures Log() == old(Log()) + total(ComponentSteps(r, |r.base.graph.schemas|))
    {
      ghost var start := Log();
      ghost var done: seq<ContractStep> := [];
      for k := 0 to |r.base.graph.schemas|
        invariant done == ComponentSteps(r, k)
        invariant Log() == start + total(done)
      {
        var steps := ComponentStep(r, r.base.graph.schemas[k]);
        Perform(total, r, steps);
        TallyExtends(total, r, start, done, steps);
        done := done + steps;
      }
    }

    /** `compare_contracts`, from an empty change list. */
    method CompareContracts(base: Contract, cand: Contract) returns (report: Report)
      requires base.graph.Valid() && cand.graph.Valid()
      requires Log() == []
      modifies walker
      ensures report == ReportOf(ReviewOf(base, cand, REVISION_PLACES))
    {
      var r := ReviewOf(base, cand, REVISION_PLACES);
      TallyIsOf(r);
      report := CompareReviewed(TallyOf(r), r);
    }

    method CompareReviewed(ghost total: Tally, r: Review) returns (report: Report)
      requires r.Valid() && Tallies(total, r) && Log() == []
      modifies walker
      ensures report == ReportWith(total, r)
    {
      if r.was.major.None? || r.was.revision.None? {
        return Report(BLOCKED, walker.changes);
      }
      CompareMetadata(total, r);
      if r.base.paths.None? || r.cand.paths.None? {
        return Report(BLOCKED, walker.changes);
      }
      ComparePaths(total, r, r.base.paths.value, r.cand.paths.value);
      TallyJoins(total, r, MetadataSteps(r), PathSteps(r));
      if !r.base.componentsListed || !r.cand.componentsListed {
        return Report(BLOCKED, walker.changes);
      }
      CompareComponents(total, r);
      TallyJoins(total, r, MetadataSteps(r) + PathSteps(r), ComponentSteps(r, |r.base.graph.schemas|));
      walker.changes := walker.changes + RevisionStep(r, walker.changes);
      report := Report(if Count(walker.changes, Breaking) > 0 then FAIL else PASS, walker.changes);
    }

    method CompareMetadata(ghost total: Tally, r: Review)
      requires r.Valid() && Tallies(total, r) && Log() == []
      requires r.was.major.Some? && r.was.revision.Some?
      modifies walker
      ensures Log() == total(MetadataSteps(r))
    {
      ghost var reported := total(MetadataSteps(r));
      Perform(total, r, MetadataSteps(r));
      assert [] + reported == reported;
    }
  }
}
