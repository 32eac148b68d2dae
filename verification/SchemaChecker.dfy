module SchemaChecker {
  /** The checker as the program runs it: one object whose change list and `seen` set are updated in
      place by loops and recursive calls.  Every method is proved against the step lists of SchemaWalk. */

  import opened Common
  import opened Json
  import opened SchemaGraph
  import opened SchemaTraversal
  import opened SchemaWalk

  class Checker {
    var changes: seq<Change>
    var seen: set<Marker>

    ghost function State(): Trace
      reads this
    {
      Trace(changes, seen)
    }

    constructor ()
      ensures State() == Trace([], {})
    {
      changes := [];
      seen := {};
    }

    /** `changes.append(...)`, for a branch that reports at most one change. */
    method Report(ghost w: Walker, steps: seq<Step>)
      requires w.Valid() && AtMostOneReport(steps)
      modifies this`changes
      ensures State() == Run(w, steps, old(State()))
    {
      RunReport(w, steps, State());
      if steps != [] {
        changes := changes + [steps[0].change];
      }
    }

    /** The same after the steps `done`, which were run from `start`. */
    method Append(ghost w: Walker, steps: seq<Step>, ghost done: seq<Step>, ghost start: Trace) returns (ghost more: seq<Step>)
      requires w.Valid() && w.Closed(done) && AtMostOneReport(steps) && State() == Run(w, done, start)
      modifies this`changes
      ensures more == done + steps && w.Closed(more) && State() == Run(w, more, start)
    {
      RunReport(w, steps, State());
      RunConcat(w, done, steps, start);
      Report(w, steps);
      more := done + steps;
    }

    /** `_schema_compare` */
    method CompareSchemas(ghost w: Walker, s: Scene, a: Id, b: Id, location: Place)
      requires s.Valid() && Drives(w, s) && s.Known(a, b)
      modifies this
      ensures State() == Visit(w, (a, b), location, old(State()))
      decreases w.universe - seen, 0
    {
      var x, y := Resolve(s.base, a), Resolve(s.cand, b);
      if (x, y) in seen {
        return;
      }
      assert (x, y) in s.Pairs();
      seen := seen + {(x, y)};
      StepsAreClosed(s, x, y, location);
      CompareNodes(w, s, x, y, location);
    }

    /** The body of `_schema_compare` after the pair has been marked. */
    method CompareNodes(ghost w: Walker, s: Scene, x: Id, y: Id, location: Place)
      requires s.Valid() && Drives(w, s) && s.Known(x, y) && w.Closed(Steps(s, x, y, location))
      modifies this
      ensures State() == Run(w, Steps(s, x, y, location), old(State()))
      decreases w.universe - seen, 5
    {
      var o, n := s.base.nodes[x], s.cand.nodes[y];
      if o.Scalar? || n.Scalar? {
        Report(w, if Same(s.base, x, s.cand, y) then [] else [Break(SchemaChange, location)]);
        return;
      }
      if FirstCombinator(o).Some? || FirstCombinator(n).Some? {
        CompareVariants(w, s, PlanVariants(s, x, y), location);
        return;
      }
      ghost var start := State();
      var verdict := CompareEnums(s.direction, o.enum, n.enum, location);
      Report(w, verdict.steps);
      if verdict.stop {
        assert verdict.steps + [] == verdict.steps;
      } else {
        ShapeStepsAreClosed(s, x, y, location);
        RunConcat(w, verdict.steps, ShapeSteps(s, x, y, location), start);
        CompareShapes(w, s, x, y, location);
      }
    }

    method CompareVariants(ghost w: Walker, s: Scene, plan: VariantPlan, location: Place)
      requires s.Valid() && Drives(w, s) && PlanKnown(s, plan)
      modifies this
      ensures w.Closed(PlanSteps(plan, location))
      ensures State() == Run(w, PlanSteps(plan, location), old(State()))
      decreases w.universe - seen, 2
    {
      match plan {
        case Matched(xs, ys, zs, c) =>
          ghost var start := State();
          CompareByIndex(w, s, xs, zs, c, location);
          RunReport(w, Growth(xs, ys, location), State());
          RunConcat(w, IndexSteps(xs, zs, c, location, |xs|), Growth(xs, ys, location), start);
          Report(w, Growth(xs, ys, location));
        case Indexed(xs, ys, c) =>
          CompareByIndex(w, s, xs, ys, c, location);
        case Whole(equal) =>
          Report(w, if equal then [] else [Break(SchemaVariantChange, location)]);
      }
    }

    method CompareByIndex(ghost w: Walker, s: Scene, xs: seq<Id>, ys: seq<Id>, c: Combinator, location: Place)
      requires s.Valid() && Drives(w, s) && Listed(s.base, xs) && Listed(s.cand, ys) && |xs| == |ys|
      modifies this
      ensures w.Closed(IndexSteps(xs, ys, c, location, |xs|))
      ensures State() == Run(w, IndexSteps(xs, ys, c, location, |xs|), old(State()))
      decreases w.universe - seen, 1
    {
      ghost var start := State();
      ghost var done: seq<Step> := [];
      for i := 0 to |xs|
        invariant start.seen <= seen
        invariant done == IndexSteps(xs, ys, c, location, i)
        invariant w.Closed(done)
        invariant State() == Run(w, done, start)
      {
        RunWalk(w, done, (xs[i], ys[i]), Variant(location, c, i), start);
        done := done + [Walk((xs[i], ys[i]), Variant(location, c, i))];
        CompareSchemas(w, s, xs[i], ys[i], Variant(location, c, i));
      }
    }

    method CompareShapes(ghost w: Walker, s: Scene, a: Id, b: Id, location: Place)
      requires s.Valid() && Drives(w, s) && s.Known(a, b) && s.base.nodes[a].Schema? && s.cand.nodes[b].Schema?
      modifies this
      ensures w.Closed(ShapeSteps(s, a, b, location))
      ensures State() == Run(w, ShapeSteps(s, a, b, location), old(State()))
      decreases w.universe - seen, 4
    {
      var o, n := s.base.nodes[a], s.cand.nodes[b];
      if !PyEq(Get(o.keywords, Type), Get(n.keywords, Type))
         || !PyEq(Get(o.keywords, Format), Get(n.keywords, Format)) {
        Report(w, [Break(TypeChange, location)]);
        return;
      }
      if ObjectLike(o, n) {
        CompareObjects(w, s, a, b, location);
        return;
      }
      ghost var start := State();
      ghost var done: seq<Step> := [];
      if Get(o.keywords, Type) == Str("array") {
        AdditionalIsKnown(s.base, a);
        AdditionalIsKnown(s.cand, b);
        ghost var walk := Walk((ItemsOf(s.base, o), ItemsOf(s.cand, n)), Items(location));
        RunWalk(w, [], walk.pair, walk.location, start);
        assert [] + [walk] == [walk];
        done := [walk];
        CompareSchemas(w, s, ItemsOf(s.base, o), ItemsOf(s.cand, n), Items(location));
      }
      KeywordStepsEmit(s, o, n, location, KeyCount());
      RunConcat(w, done, KeywordSteps(s, o, n, location, KeyCount()), start);
      CompareKeywords(w, s, o, n, location);
    }

    method CompareObjects(ghost w: Walker, s: Scene, a: Id, b: Id, location: Place)
      requires s.Valid() && Drives(w, s) && s.Known(a, b) && s.base.nodes[a].Schema? && s.cand.nodes[b].Schema?
      modifies this
      ensures w.Closed(ObjectSteps(s, a, b, location))
      ensures State() == Run(w, ObjectSteps(s, a, b, location), old(State()))
      decreases w.universe - seen, 3
    {
      var o, n := s.base.nodes[a], s.cand.nodes[b];
      if o.properties.NotAPropertyMap? || n.properties.NotAPropertyMap? {
        Report(w, [Break(ObjectShapeChange, location)]);
        return;
      }
      AdditionalIsKnown(s.base, a);
      AdditionalIsKnown(s.cand, b);
      ghost var start := State();
      CompareOldProperties(w, s, o, n, location);
      ghost var x := OldPropertySteps(s, o, n, location, |PropertyMembers(o.properties)|);
      CompareNewProperties(w, s, o, n, location);
      ghost var y := NewPropertySteps(o, n, location, |PropertyMembers(n.properties)|);
      RunConcat(w, x, y, start);
      AdditionalStepsAreClosed(s, o.additional, n.additional, location);
      RunConcat(w, x + y, AdditionalSteps(s, o.additional, n.additional, location), start);
      CompareAdditional(w, s, o.additional, n.additional, location);
    }

    method CompareOldProperties(ghost w: Walker, s: Scene, o: Node, n: Node, location: Place)
      requires s.Valid() && Drives(w, s) && o.Schema? && n.Schema?
      requires MembersKnown(s.base, PropertyMembers(o.properties))
      requires MembersKnown(s.cand, PropertyMembers(n.properties))
      modifies this
      ensures w.Closed(OldPropertySteps(s, o, n, location, |PropertyMembers(o.properties)|))
      ensures old(seen) <= seen
      ensures State() == Run(w, OldPropertySteps(s, o, n, location, |PropertyMembers(o.properties)|), old(State()))
      decreases w.universe - seen, 2
    {
      var p := PropertyMembers(o.properties);
      ghost var start := State();
      for k := 0 to |p|
        invariant start.seen <= seen
        invariant w.Closed(OldPropertySteps(s, o, n, location, k))
        invariant State() == Run(w, OldPropertySteps(s, o, n, location, k), start)
      {
        CompareOldProperty(w, s, o, n, location, k, start);
      }
    }

    /** One iteration of the loop over the old properties. */
    method CompareOldProperty(ghost w: Walker, s: Scene, o: Node, n: Node, location: Place, k: nat, ghost start: Trace)
      requires s.Valid() && Drives(w, s) && o.Schema? && n.Schema? && k < |PropertyMembers(o.properties)|
      requires MembersKnown(s.base, PropertyMembers(o.properties))
      requires MembersKnown(s.cand, PropertyMembers(n.properties))
      requires w.Closed(OldPropertySteps(s, o, n, location, k))
      requires State() == Run(w, OldPropertySteps(s, o, n, location, k), start)
      modifies this
      ensures w.Closed(OldPropertySteps(s, o, n, location, k + 1))
      ensures old(seen) <= seen
      ensures State() == Run(w, OldPropertySteps(s, o, n, location, k + 1), start)
      decreases w.universe - seen, 2, 0
    {
      var p := PropertyMembers(o.properties)[k];
      ghost var done := OldPropertySteps(s, o, n, location, k);
      CompareProperty(w, s, o, n, location, p);
      RunConcat(w, done, OldProperty(s, o, n, location, p), start);
    }

    method CompareProperty(ghost w: Walker, s: Scene, o: Node, n: Node, location: Place, p: Member)
      requires s.Valid() && Drives(w, s) && o.Schema? && n.Schema? && p.id in s.base.nodes
      requires MembersKnown(s.cand, PropertyMembers(n.properties))
      modifies this
      ensures w.Closed(OldProperty(s, o, n, location, p))
      ensures old(seen) <= seen
      ensures State() == Run(w, OldProperty(s, o, n, location, p), old(State()))
      decreases w.universe - seen, 1
    {
      var child := Property(location, p.name);
      ghost var start := State();
      match Find(PropertyMembers(n.properties), p.name) {
        case None =>
          Report(w, [Break(FieldRemoval, child)]);
        case Some(q) =>
          var steps := Requiredness(s.direction, o, n, p.name, child);
          Report(w, steps);
          RunWalk(w, steps, (p.id, q), child, start);
          CompareSchemas(w, s, p.id, q, child);
      }
    }

    method CompareNewProperties(ghost w: Walker, s: Scene, o: Node, n: Node, location: Place)
      requires s.Valid() && Drives(w, s) && o.Schema? && n.Schema?
      modifies this`changes
      ensures w.Closed(NewPropertySteps(o, n, location, |PropertyMembers(n.properties)|))
      ensures State() == Run(w, NewPropertySteps(o, n, location, |PropertyMembers(n.properties)|), old(State()))
    {
      var q := PropertyMembers(n.properties);
      ghost var start := State();
      ghost var done: seq<Step> := [];
      for k := 0 to |q|
        invariant done == NewPropertySteps(o, n, location, k)
        invariant w.Closed(done)
        invariant State() == Run(w, done, start)
      {
        done := Append(w, NewProperty(o, n, location, q[k]), done, start);
      }
    }

    method CompareAdditional(ghost w: Walker, s: Scene, x: Additional, y: Additional, location: Place)
      requires s.Valid() && Drives(w, s)
      requires x.Typed? ==> x.id in s.base.nodes
      requires y.Typed? ==> y.id in s.cand.nodes
      requires w.Closed(AdditionalSteps(s, x, y, location))
      modifies this
      ensures State() == Run(w, AdditionalSteps(s, x, y, location), old(State()))
      decreases w.universe - seen, 1
    {
      if !AdditionalDiffers(s, x, y) {
        return;
      }
      ghost var start := State();
      var change := AdditionalChange(s.direction, x, y, location);
      Report(w, [change]);
      if x.Typed? && y.Typed? {
        RunWalk(w, [change], (x.id, y.id), AdditionalPart(location), start);
        CompareSchemas(w, s, x.id, y.id, AdditionalPart(location));
      } else {
        assert AdditionalSteps(s, x, y, location) == [change];
      }
    }

    method CompareKeywords(ghost w: Walker, s: Scene, o: Node, n: Node, location: Place)
      requires s.Valid() && Drives(w, s) && o.Schema? && n.Schema?
      modifies this`changes
      ensures w.Closed(KeywordSteps(s, o, n, location, KeyCount()))
      ensures State() == Run(w, KeywordSteps(s, o, n, location, KeyCount()), old(State()))
    {
      ghost var start := State();
      ghost var done: seq<Step> := [];
      for k := 0 to KeyCount()
        invariant done == KeywordSteps(s, o, n, location, k)
        invariant w.Closed(done)
        invariant State() == Run(w, done, start)
      {
        done := CompareKeywordAt(w, s, o, n, location, k, done, start);
      }
    }

    /** One iteration of the constraint loop. */
    method CompareKeywordAt(
      ghost w: Walker, s: Scene, o: Node, n: Node, location: Place, k: nat, ghost done: seq<Step>, ghost start: Trace)
      returns (ghost more: seq<Step>)
      requires w.Valid() && o.Schema? && n.Schema? && k < KeyCount() && done == KeywordSteps(s, o, n, location, k)
      requires w.Closed(done) && State() == Run(w, done, start)
      modifies this`changes
      ensures more == KeywordSteps(s, o, n, location, k + 1)
      ensures w.Closed(more) && State() == Run(w, more, start)
    {
      var steps := Keyword(s, o, n, location, CONSTRAINT_KEYS[k]);
      more := Append(w, steps, done, start);
    }
  }
}
