module SchemaConfusion {
  /** A contract that is not compatible with itself.

      `_semantic` removes every member of an object that is named like a documentation keyword, properties
      named `title` or `description` included.  Two variants of a request that differ only in such a property
      are confused: each is compared with the first of the two, and what only the second has is reported as
      removed, although nothing changed. */

  import opened Common
  import opened Json
  import opened SchemaGraph
  import opened SchemaTraversal
  import opened SchemaWalk
  import opened SchemaMeaning
  import opened SchemaLeniency
  import SchemaProperties
  import SchemaReport

  /** Two object schemas without combinators and enumeration, at the end of their references. */
  ghost predicate PlainObjects(s: Scene, a: Id, b: Id)
    requires s.Valid()
  {
    && s.Known(a, b) && Resolve(s.base, a) == a && Resolve(s.cand, b) == b
    && s.base.nodes[a].Schema? && s.cand.nodes[b].Schema?
    && FirstCombinator(s.base.nodes[a]).None? && FirstCombinator(s.cand.nodes[b]).None?
    && s.base.nodes[a].enum.NoEnum? && s.cand.nodes[b].enum.NoEnum?
    && Get(s.base.nodes[a].keywords, Type) == Str("object") == Get(s.cand.nodes[b].keywords, Type)
    && Get(s.base.nodes[a].keywords, Format) == Get(s.cand.nodes[b].keywords, Format)
    && !s.base.nodes[a].properties.NotAPropertyMap? && !s.cand.nodes[b].properties.NotAPropertyMap?
  }

  lemma LostPropertyIsReported(s: Scene, a: Id, b: Id, name: string, place: Place)
    requires s.Valid() && PlainObjects(s, a, b)
    requires SchemaReport.HasProperty(s.base.nodes[a], name) && !SchemaReport.HasProperty(s.cand.nodes[b], name)
    ensures Break(FieldRemoval, Property(place, name)) in Steps(s, a, b, place)
  {
    var o, n, c := s.base.nodes[a], s.cand.nodes[b], Change(Breaking, FieldRemoval, Property(place, name));
    assert SchemaReport.PropertyReport(s, o, n, name, place, c);
    assert SchemaReport.ObjectReport(s, o, n, place, c);
    assert SchemaReport.ComparesObjects(s, o, n);
    assert SchemaReport.Reported(s, a, b, place, c);
    SchemaReport.StepsReport(s, a, b, place, c);
  }

  /** A request all of whose old variants have a match: what an old variant has and its match has not is reported
      as removed. */
  lemma ConfusedVariantFails(s: Scene, a: Id, b: Id, plan: VariantPlan, i: nat, name: string, location: Place)
    requires s.Valid() && s.Known(a, b) && Resolve(s.base, a) == a && Resolve(s.cand, b) == b
    requires s.base.nodes[a].Schema? && s.cand.nodes[b].Schema? && FirstCombinator(s.base.nodes[a]).Some?
    requires plan == PlanVariants(s, a, b) && plan.Matched? && i < |plan.xs| && PlainObjects(s, plan.xs[i], plan.zs[i])
    requires SchemaReport.HasProperty(s.base.nodes[plan.xs[i]], name) && !SchemaReport.HasProperty(s.cand.nodes[plan.zs[i]], name)
    ensures WalkerOf(s).Valid() && (a, b) in WalkerOf(s).universe
    ensures !NoBreaking(Visit(WalkerOf(s), (a, b), location, Trace([], {})).changes)
  {
    WalkerDrives(s);
    var w := WalkerOf(s);
    var seen := Visit(w, (a, b), location, Trace([], {})).seen;
    var x, y := plan.xs[i], plan.zs[i];
    assert w.head((a, b)) == (a, b) && w.head((x, y)) == (x, y);
    if NoBreaking(Visit(w, (a, b), location, Trace([], {})).changes) {
      VisitSettles(w, (a, b), location, Trace([], {}));
      assert Justified(w, (a, b), seen);
      var l :| Settled(w, w.plan((a, b), l), seen);
      CombinatorSteps(s, a, b, l);
      MatchedStep(plan, l, i);
      assert w.head((x, y)) in seen && Justified(w, (x, y), seen);
      var k :| Settled(w, w.plan((x, y), k), seen);
      assert w.plan((x, y), k) == Steps(s, x, y, k);
      LostPropertyIsReported(s, x, y, name, k);
    }
  }

  lemma MatchedStep(plan: VariantPlan, location: Place, i: nat)
    requires plan.Matched? && |plan.xs| == |plan.zs| && i < |plan.xs|
    ensures i < |PlanSteps(plan, location)|
    ensures PlanSteps(plan, location)[i] == Walk((plan.xs[i], plan.zs[i]), Variant(location, plan.c, i))
  {
    assert IndexSteps(plan.xs, plan.zs, plan.c, location, |plan.xs|)[i]
        == Walk((plan.xs[i], plan.zs[i]), Variant(location, plan.c, i));
  }

  const UNTITLED: Node := RECORD.(properties := PropertyMap([]))
  const TITLED: Node := RECORD.(properties := PropertyMap([Member("title", 4)]))
  const EITHER: Node := EMPTY_SCHEMA.(oneOf := VariantList([4, 3]))

  lemma TitleIsNotSeen(s: Scene)
    requires s.Valid() && s.Known(3, 4) && s.base.nodes[3] == TITLED && s.cand.nodes[4] == UNTITLED
    ensures Same(s.base, 3, s.cand, 4)
  {
    assert Said([Member("title", 4)]) == [] + Said([]);
    assert Semantic(TITLED) == UNTITLED == Semantic(UNTITLED);
    assert Kids(UNTITLED) == [];
  }

  lemma EitherIsMatched(s: Scene)
    requires s.direction == Request && s.base == s.cand && Small(s, EITHER, TITLED, UNTITLED, EITHER, TITLED, UNTITLED)
    ensures s.Known(2, 2) && PlanVariants(s, 2, 2) == Matched([4, 3], [4, 3], [4, 4], OneOf)
  {
    SmallIsKnown(s, EITHER, TITLED, UNTITLED, EITHER, TITLED, UNTITLED);
    SameIsReflexive(s.base, 4);
    TitleIsNotSeen(s);
    VariantsAreKnown(s.base, 2, OneOf);
    var xs := [4, 3];
    assert VariantIds(VariantsOf(EITHER, OneOf)) == xs;
    assert FirstMatch(s, 4, xs) == 0 && FirstMatch(s, 3, xs) == 0;
    assert Matches(s, xs, xs) == [4, 4];
  }

  /** The comparison of a document with itself may report a breaking change. */
  lemma SelfComparisonCanFail()
    ensures exists s: Scene ::
      && s.Valid() && s.direction == Request && s.base == s.cand && SchemaProperties.WellShaped(s.base)
      && s.Known(2, 2) && WalkerOf(s).Valid() && (2, 2) in WalkerOf(s).universe
      && !NoBreaking(Visit(WalkerOf(s), (2, 2), Top("schema"), Trace([], {})).changes)
  {
    assert Kids(EITHER) == [4, 3] && Kids(TITLED) == [4] && Kids(UNTITLED) == [];
    var s := SmallScene(Request, EITHER, TITLED, UNTITLED, EITHER, TITLED, UNTITLED);
    SmallSceneIsSmall(Request, EITHER, TITLED, UNTITLED, EITHER, TITLED, UNTITLED);
    SmallIsShaped(s.base, EITHER, TITLED, UNTITLED);
    EitherFails(s);
  }

  lemma EitherFails(s: Scene)
    requires s.direction == Request && s.base == s.cand && Small(s, EITHER, TITLED, UNTITLED, EITHER, TITLED, UNTITLED)
    ensures s.Known(2, 2) && WalkerOf(s).Valid() && (2, 2) in WalkerOf(s).universe
    ensures !NoBreaking(Visit(WalkerOf(s), (2, 2), Top("schema"), Trace([], {})).changes)
  {
    EitherIsMatched(s);
    SmallIsKnown(s, EITHER, TITLED, UNTITLED, EITHER, TITLED, UNTITLED);
    SmallTargets(s.base, EITHER);
    SmallTargets(s.base, TITLED);
    SmallTargets(s.base, UNTITLED);
    assert PropertyMembers(TITLED.properties)[0].name == "title";
    ConfusedVariantFails(s, 2, 2, PlanVariants(s, 2, 2), 1, "title", Top("schema"));
  }
}
