module SchemaTraversal {
  /** Traversing pairs of schema positions with a list of changes and a set of pairs already seen.

      The traversal does not know what a schema is: a walker gives, for each pair, the pair it stands
      for once references are resolved (`head`) and the steps to take there (`plan`).  What is proved
      here holds for every walker: the traversal ends, it only ever appends changes and marks pairs,
      and the pairs it leaves marked are closed under the comparisons their plans ask for. */

  import opened Common
  import opened SchemaGraph

  datatype Classification = Breaking | Additive

  datatype Kind =
    | SchemaChange | SchemaVariantAddition | SchemaVariantChange
    | RequestEnumAddition | RequestEnumWidening | EnumChange | TypeChange
    | ObjectShapeChange | FieldRemoval | RequestRequirednessWidening | ResponseRequirednessChange
    | RequirednessChange | RequiredFieldAddition | OptionalFieldAddition
    | RequestObjectWidening | ObjectAcceptanceChange
    | ApiRevisionMetadataBump | RequestConstraintWidening | SchemaConstraintChange
    | ParameterRemoval | ParameterRequiredness | ParameterSemantics
    | RequiredParameterAddition | OptionalParameterAddition
    | OperationRename | OperationRemoval | OperationChange | OperationAddition | PathChange
    | RequiredBodyAddition | OptionalBodyAddition | RequestBodyRemoval
    | RequestBodyRequirednessWidening | RequestBodyRequiredness
    | RequestContentChange | RequestMediaRemoval | RequestMediaAddition
    | ResponseChange | ResponseRemoval | ResponseAddition
    | ResponseContentChange | ResponseMediaRemoval | ResponseMediaAddition
    | SchemaRemoval | MetadataMissing | ApiMajorChange | RevisionRegression | RevisionNotIncremented

  /** Where a change is reported; `Render` is the text the program builds. */
  datatype Place =
    | Top(text: string)
    | PathText(path: string)
    | Endpoint(verb: string, path: string)
    | ParameterAt(parent: Place, position: string, name: string)
    | RequestMedia(parent: Place, media: string)
    | ResponseAt(parent: Place, status: string)
    | ResponseMedia(parent: Place, status: string, media: string)
    | Component(name: string)
    | InfoObject
    | InfoMajor
    | InfoRevision
    | Property(parent: Place, name: string)
    | Items(parent: Place)
    | Variant(parent: Place, c: Combinator, index: nat)
    | AdditionalPart(parent: Place)

  function CombinatorName(c: Combinator): string {
    match c
    case OneOf => "oneOf"
    case AnyOf => "anyOf"
    case AllOf => "allOf"
  }

  function Render(p: Place): string {
    match p
    case Top(text) => text
    case PathText(path) => path
    case Endpoint(verb, path) => verb + " " + path
    case ParameterAt(parent, position, name) => Render(parent) + "." + position + ":" + name
    case RequestMedia(parent, media) => Render(parent) + " request " + media
    case ResponseAt(parent, status) => Render(parent) + " response " + status
    case ResponseMedia(parent, status, media) => Render(parent) + " response " + status + " " + media
    case Component(name) => "components.schemas." + name
    case InfoObject => "info"
    case InfoMajor => "info.x-api-major"
    case InfoRevision => "info.x-api-contract-revision"
    case Property(parent, name) => Render(parent) + "." + name
    case Items(parent) => Render(parent) + "[]"
    case Variant(parent, c, index) => Render(parent) + "." + CombinatorName(c) + "[" + Decimal(index) + "]"
    case AdditionalPart(parent) => Render(parent) + ".[additionalProperties]"
  }

  datatype Change = Change(classification: Classification, kind: Kind, location: Place)

  type Marker = (Id, Id)

  datatype Step = Emit(change: Change) | Walk(pair: Marker, location: Place)

  /** The change list and the `seen` set, threaded through a traversal. */
  datatype Trace = Trace(changes: seq<Change>, seen: set<Marker>)

  predicate NoBreaking(changes: seq<Change>) {
    forall k | 0 <= k < |changes| :: changes[k].classification == Additive
  }

  /** A step list that reports at most one change and compares nothing. */
  predicate AtMostOneReport(steps: seq<Step>) {
    |steps| <= 1 && forall k | 0 <= k < |steps| :: steps[k].Emit?
  }

  datatype Walker = Walker(
    universe: set<Marker>,
    head: Marker -> Marker,
    plan: (Marker, Place) -> seq<Step>)
  {
    ghost predicate Valid() {
      && (forall m {:trigger head(m)} :: m in universe ==> head(m) in universe)
      && (forall m, l {:trigger plan(m, l)} :: m in universe ==> Closed(plan(m, l)))
    }

    /** The pairs a step list compares exist. */
    ghost predicate Closed(steps: seq<Step>) {
      forall k {:trigger steps[k]} :: 0 <= k < |steps| && steps[k].Walk? ==> steps[k].pair in universe
    }
  }

  /** Compare one pair.  Every pair is expanded once, so the traversal ends. */
  ghost function Visit(w: Walker, m: Marker, location: Place, t: Trace): (r: Trace)
    requires w.Valid() && m in w.universe
    ensures t.changes <= r.changes && t.seen <= r.seen
    ensures t.seen <= w.universe ==> r.seen <= w.universe
    decreases w.universe - t.seen, 0
  {
    var x := w.head(m);
    if x in t.seen then t else Run(w, w.plan(x, location), Trace(t.changes, t.seen + {x}))
  }

  ghost function Run(w: Walker, steps: seq<Step>, t: Trace): (r: Trace)
    requires w.Valid() && w.Closed(steps)
    ensures t.changes <= r.changes && t.seen <= r.seen
    ensures t.seen <= w.universe ==> r.seen <= w.universe
    decreases w.universe - t.seen, |steps| + 1
  {
    if steps == [] then t
    else
      var u := Run(w, steps[..|steps| - 1], t);
      match steps[|steps| - 1]
      case Emit(change) => Trace(u.changes + [change], u.seen)
      case Walk(pair, location) => Visit(w, pair, location, u)
  }

  lemma RunReport(w: Walker, steps: seq<Step>, t: Trace)
    requires w.Valid() && AtMostOneReport(steps)
    ensures w.Closed(steps)
    ensures Run(w, steps, t) == Trace(t.changes + (if steps == [] then [] else [steps[0].change]), t.seen)
  {
    if steps != [] {
      assert steps[..0] == [];
    }
  }

  lemma RunWalk(w: Walker, steps: seq<Step>, pair: Marker, location: Place, t: Trace)
    requires w.Valid() && w.Closed(steps) && pair in w.universe
    ensures w.Closed(steps + [Walk(pair, location)])
    ensures Run(w, steps + [Walk(pair, location)], t) == Visit(w, pair, location, Run(w, steps, t))
  {
    assert (steps + [Walk(pair, location)])[..|steps|] == steps;
  }

  lemma {:induction false} RunConcat(w: Walker, p: seq<Step>, q: seq<Step>, t: Trace)
    requires w.Valid() && w.Closed(p) && w.Closed(q)
    ensures w.Closed(p + q)
    ensures Run(w, p + q, t) == Run(w, q, Run(w, p, t))
    decreases |q|
  {
    if q == [] {
      assert p + q == p;
    } else {
      RunConcat(w, p, q[..|q| - 1], t);
      assert (p + q)[..|p + q| - 1] == p + q[..|q| - 1];
    }
  }

  // ---- what a traversal without a breaking change leaves behind

  /** A step list that reports nothing breaking and whose comparisons have all been made. */
  ghost predicate Settled(w: Walker, steps: seq<Step>, seen: set<Marker>) {
    forall k {:trigger steps[k]} :: 0 <= k < |steps| ==>
      match steps[k]
      case Emit(change) => change.classification == Additive
      case Walk(pair, _) => w.head(pair) in seen
  }

  ghost predicate Justified(w: Walker, m: Marker, seen: set<Marker>) {
    exists location :: Settled(w, w.plan(m, location), seen)
  }

  lemma NoBreakingPrefix(p: seq<Change>, q: seq<Change>)
    requires p <= q && NoBreaking(q)
    ensures NoBreaking(p)
  {
    forall k | 0 <= k < |p|
      ensures p[k].classification == Additive
    {
      assert p[k] == q[k];
    }
  }

  lemma {:induction false} VisitSettles(w: Walker, m: Marker, location: Place, t: Trace)
    requires w.Valid() && m in w.universe
    requires NoBreaking(Visit(w, m, location, t).changes)
    ensures w.head(m) in Visit(w, m, location, t).seen
    ensures forall x :: x in Visit(w, m, location, t).seen && x !in t.seen ==>
      Justified(w, x, Visit(w, m, location, t).seen)
    decreases w.universe - t.seen, 0
  {
    var x := w.head(m);
    if x !in t.seen {
      RunSettles(w, w.plan(x, location), Trace(t.changes, t.seen + {x}));
    }
  }

  lemma {:induction false} RunSettles(w: Walker, steps: seq<Step>, t: Trace)
    requires w.Valid() && w.Closed(steps)
    requires NoBreaking(Run(w, steps, t).changes)
    ensures Settled(w, steps, Run(w, steps, t).seen)
    ensures forall x :: x in Run(w, steps, t).seen && x !in t.seen ==> Justified(w, x, Run(w, steps, t).seen)
    decreases w.universe - t.seen, |steps| + 1
  {
    if steps != [] {
      var front, last := steps[..|steps| - 1], steps[|steps| - 1];
      var u, r := Run(w, front, t), Run(w, steps, t);
      NoBreakingPrefix(u.changes, r.changes);
      RunSettles(w, front, t);
      SettledGrows(w, front, u.seen, r.seen);
      forall x | x in u.seen && x !in t.seen
        ensures Justified(w, x, r.seen)
      {
        var location :| Settled(w, w.plan(x, location), u.seen);
        SettledGrows(w, w.plan(x, location), u.seen, r.seen);
      }
      match last
      case Emit(change) =>
        assert r.changes[|u.changes|] == change;
      case Walk(pair, location) =>
        VisitSettles(w, pair, location, u);
    }
  }

  lemma SettledGrows(w: Walker, steps: seq<Step>, seen: set<Marker>, more: set<Marker>)
    requires Settled(w, steps, seen) && seen <= more
    ensures Settled(w, steps, more)
  {
  }

  // ---- where a traversal goes

  /** Pairs whose plans only compare pairs of the region. */
  ghost predicate Region(w: Walker, region: set<Marker>) {
    && region <= w.universe
    && forall m, l {:trigger w.plan(w.head(m), l)} :: m in region ==> InRegion(w.plan(w.head(m), l), region)
  }

  ghost predicate InRegion(steps: seq<Step>, region: set<Marker>) {
    forall k {:trigger steps[k]} :: 0 <= k < |steps| && steps[k].Walk? ==> steps[k].pair in region
  }

  ghost predicate Within(w: Walker, seen: set<Marker>, region: set<Marker>) {
    forall x :: x in seen ==> exists m :: m in region && w.head(m) == x
  }

  /** A traversal never marks a pair outside a region that its plans do not leave. */
  lemma {:induction false} VisitStays(w: Walker, region: set<Marker>, m: Marker, location: Place, t: Trace)
    requires w.Valid() && Region(w, region) && m in region && Within(w, t.seen, region)
    ensures Within(w, Visit(w, m, location, t).seen, region)
    decreases w.universe - t.seen, 0
  {
    var x := w.head(m);
    if x !in t.seen {
      RunStays(w, region, w.plan(x, location), Trace(t.changes, t.seen + {x}));
    }
  }

  lemma {:induction false} RunStays(w: Walker, region: set<Marker>, steps: seq<Step>, t: Trace)
    requires w.Valid() && w.Closed(steps) && Region(w, region) && InRegion(steps, region) && Within(w, t.seen, region)
    ensures Within(w, Run(w, steps, t).seen, region)
    decreases w.universe - t.seen, |steps| + 1
  {
    if steps != [] {
      var front, last := steps[..|steps| - 1], steps[|steps| - 1];
      RunStays(w, region, front, t);
      if last.Walk? {
        VisitStays(w, region, last.pair, last.location, Run(w, front, t));
      }
    }
  }

  // ---- traversals that report nothing

  /** Pairs whose plans only compare pairs of the same kind. */
  ghost predicate Quiet(w: Walker, calm: set<Marker>) {
    && calm <= w.universe
    && (forall m {:trigger w.head(m)} :: m in calm ==> w.head(m) in calm)
    && (forall m, l {:trigger w.plan(m, l)} :: m in calm ==> QuietSteps(w.plan(m, l), calm))
  }

  ghost predicate QuietSteps(steps: seq<Step>, calm: set<Marker>) {
    forall k {:trigger steps[k]} :: 0 <= k < |steps| ==> steps[k].Walk? && steps[k].pair in calm
  }

  lemma {:induction false} QuietVisit(w: Walker, calm: set<Marker>, m: Marker, location: Place, t: Trace)
    requires w.Valid() && Quiet(w, calm) && m in calm
    ensures Visit(w, m, location, t).changes == t.changes
    decreases w.universe - t.seen, 0
  {
    var x := w.head(m);
    if x !in t.seen {
      QuietRun(w, calm, w.plan(x, location), Trace(t.changes, t.seen + {x}));
    }
  }

  lemma {:induction false} QuietRun(w: Walker, calm: set<Marker>, steps: seq<Step>, t: Trace)
    requires w.Valid() && Quiet(w, calm) && QuietSteps(steps, calm) && w.Closed(steps)
    ensures Run(w, steps, t).changes == t.changes
    decreases w.universe - t.seen, |steps| + 1
  {
    if steps != [] {
      var front, last := steps[..|steps| - 1], steps[|steps| - 1];
      QuietRun(w, calm, front, t);
      QuietVisit(w, calm, last.pair, last.location, Run(w, front, t));
    }
  }

  // ---- the change list is only appended to, never read

  lemma {:induction false} VisitAppends(w: Walker, m: Marker, location: Place, changes: seq<Change>, seen: set<Marker>)
    requires w.Valid() && m in w.universe
    ensures var r := Visit(w, m, location, Trace([], seen));
      Visit(w, m, location, Trace(changes, seen)) == Trace(changes + r.changes, r.seen)
    decreases w.universe - seen, 0
  {
    var x := w.head(m);
    if x !in seen {
      RunAppends(w, w.plan(x, location), changes, seen + {x});
    } else {
      assert changes + [] == changes;
    }
  }

  lemma {:induction false} RunAppends(w: Walker, steps: seq<Step>, changes: seq<Change>, seen: set<Marker>)
    requires w.Valid() && w.Closed(steps)
    ensures var r := Run(w, steps, Trace([], seen));
      Run(w, steps, Trace(changes, seen)) == Trace(changes + r.changes, r.seen)
    decreases w.universe - seen, |steps| + 1
  {
    if steps == [] {
      assert changes + [] == changes;
    } else {
      var front, last := steps[..|steps| - 1], steps[|steps| - 1];
      RunAppends(w, front, changes, seen);
      var u := Run(w, front, Trace([], seen));
      match last
      case Emit(change) =>
        assert changes + (u.changes + [change]) == changes + u.changes + [change];
      case Walk(pair, location) =>
        VisitAppends(w, pair, location, u.changes, u.seen);
        VisitAppends(w, pair, location, changes + u.changes, u.seen);
        var r := Visit(w, pair, location, Trace([], u.seen));
        assert changes + u.changes + r.changes == changes + (u.changes + r.changes);
    }
  }
}
