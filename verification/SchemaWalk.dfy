module SchemaWalk {
  /** `_schema_compare`: two schema graphs walked in lockstep.

      What the walk does at a pair of nodes depends on the two nodes alone, so it is written down
      once as a list of steps (`Steps`): report a change, or compare a pair of children.  `Compare`
      runs the steps and threads the change list and the set of pairs already seen. */

  import opened Common
  import opened Json
  import opened SchemaGraph
  import opened SchemaTraversal

  datatype Direction = Request | Response

  /** What stays fixed during a walk; the revisions are the ones `_metadata` reads, and
      `revisionPlaces` the two locations where the contract revision may appear as a default. */
  datatype Scene = Scene(
    base: Graph, cand: Graph, direction: Direction,
    oldMajor: Option<int>, newMajor: Option<int>,
    oldRevision: Option<int>, newRevision: Option<int>,
    revisionPlaces: set<string>)
  {
    ghost predicate Valid() {
      base.Valid() && cand.Valid()
    }

    function Pairs(): set<Marker> {
      set a, b | a in base.nodes && b in cand.nodes :: (a, b)
    }

    predicate Known(a: Id, b: Id) {
      a in base.nodes && b in cand.nodes
    }
  }

  const CONSTRAINT_KEYS := [
    Const, Default, ExclusiveMaximum, ExclusiveMinimum, MaxItems, MaxLength, Maximum,
    MinItems, MinLength, Minimum, MultipleOf, Pattern, ReadOnly, UniqueItems, WriteOnly]

  function KeyCount(): (n: nat)
    ensures n == |CONSTRAINT_KEYS|
  {
    |CONSTRAINT_KEYS|
  }

  function Break(kind: Kind, location: Place): Step {
    Emit(Change(Breaking, kind, location))
  }

  function Add(kind: Kind, location: Place): Step {
    Emit(Change(Additive, kind, location))
  }

  // ---- combinators

  function FirstCombinator(n: Node): Option<Combinator>
    requires n.Schema?
  {
    if !n.oneOf.NoVariants? then Some(OneOf)
    else if !n.anyOf.NoVariants? then Some(AnyOf)
    else if !n.allOf.NoVariants? then Some(AllOf)
    else None
  }

  function VariantsOf(n: Node, c: Combinator): Variants
    requires n.Schema?
  {
    match c
    case OneOf => n.oneOf
    case AnyOf => n.anyOf
    case AllOf => n.allOf
  }

  ghost predicate Listed(g: Graph, ids: seq<Id>) {
    forall i :: 0 <= i < |ids| ==> ids[i] in g.nodes
  }

  ghost predicate MembersKnown(g: Graph, members: seq<Member>) {
    forall k :: 0 <= k < |members| ==> members[k].id in g.nodes
  }

  /** The first of `ys` that is semantically equal to `x`, or `|ys|`. */
  function FirstMatch(s: Scene, x: Id, ys: seq<Id>, from: nat := 0): (j: nat)
    requires s.Valid() && x in s.base.nodes && Listed(s.cand, ys) && from <= |ys|
    ensures from <= j <= |ys|
    ensures j < |ys| ==> Same(s.base, x, s.cand, ys[j])
    ensures forall k :: from <= k < j ==> !Same(s.base, x, s.cand, ys[k])
    decreases |ys| - from
  {
    if from == |ys| || Same(s.base, x, s.cand, ys[from]) then from else FirstMatch(s, x, ys, from + 1)
  }

  predicate AllMatched(s: Scene, xs: seq<Id>, ys: seq<Id>)
    requires s.Valid() && Listed(s.base, xs) && Listed(s.cand, ys)
  {
    forall i | 0 <= i < |xs| :: FirstMatch(s, xs[i], ys) < |ys|
  }

  predicate SameLists(s: Scene, xs: seq<Id>, ys: seq<Id>)
    requires s.Valid() && Listed(s.base, xs) && Listed(s.cand, ys)
  {
    |xs| == |ys| && forall i | 0 <= i < |xs| :: Same(s.base, xs[i], s.cand, ys[i])
  }

  /** For each old variant the new variant it is compared with. */
  function Matches(s: Scene, xs: seq<Id>, ys: seq<Id>): (zs: seq<Id>)
    requires s.Valid() && Listed(s.base, xs) && Listed(s.cand, ys) && AllMatched(s, xs, ys)
    ensures |zs| == |xs| && Listed(s.cand, zs)
    ensures forall i :: 0 <= i < |xs| ==> zs[i] == ys[FirstMatch(s, xs[i], ys)]
  {
    seq(|xs|, i requires 0 <= i < |xs| => ys[FirstMatch(s, xs[i], ys)])
  }

  function IndexSteps(xs: seq<Id>, ys: seq<Id>, c: Combinator, location: Place, k: nat): (r: seq<Step>)
    requires k <= |xs| == |ys|
    ensures |r| == k
    ensures forall i :: 0 <= i < k ==> r[i] == Walk((xs[i], ys[i]), Variant(location, c, i))
  {
    if k == 0 then []
    else IndexSteps(xs, ys, c, location, k - 1) + [Walk((xs[k - 1], ys[k - 1]), Variant(location, c, k - 1))]
  }

  function Growth(xs: seq<Id>, ys: seq<Id>, location: Place): seq<Step> {
    if |ys| > |xs| then [Add(SchemaVariantAddition, location)] else []
  }

  /** How two variant lists are compared: old variants with their matches, position by position,
      or not at all. */
  datatype VariantPlan =
    | Matched(xs: seq<Id>, ys: seq<Id>, zs: seq<Id>, c: Combinator)
    | Indexed(xs: seq<Id>, ys: seq<Id>, c: Combinator)
    | Whole(equal: bool)

  function PlanVariants(s: Scene, a: Id, b: Id): (plan: VariantPlan)
    requires s.Valid() && s.Known(a, b) && s.base.nodes[a].Schema? && s.cand.nodes[b].Schema?
    requires FirstCombinator(s.base.nodes[a]).Some? || FirstCombinator(s.cand.nodes[b]).Some?
    ensures !plan.Whole? ==>
      && FirstCombinator(s.base.nodes[a]) == Some(plan.c) == FirstCombinator(s.cand.nodes[b])
      && VariantsOf(s.base.nodes[a], plan.c) == VariantList(plan.xs)
      && VariantsOf(s.cand.nodes[b], plan.c) == VariantList(plan.ys)
      && Listed(s.base, plan.xs) && Listed(s.cand, plan.ys)
    ensures plan.Matched? ==>
      && s.direction == Request && AllMatched(s, plan.xs, plan.ys)
      && plan.zs == Matches(s, plan.xs, plan.ys)
      && |plan.xs| == |plan.zs| && Listed(s.cand, plan.zs)
    ensures plan.Indexed? ==> |plan.xs| == |plan.ys|
  {
    var o, n := s.base.nodes[a], s.cand.nodes[b];
    var c := FirstCombinator(o);
    if c != FirstCombinator(n) then Whole(Same(s.base, a, s.cand, b))
    else
      match (VariantsOf(o, c.value), VariantsOf(n, c.value))
      case (VariantList(xs), VariantList(ys)) =>
        VariantsAreKnown(s.base, a, c.value);
        VariantsAreKnown(s.cand, b, c.value);
        if s.direction == Request && AllMatched(s, xs, ys) then Matched(xs, ys, Matches(s, xs, ys), c.value)
        else if SameLists(s, xs, ys) then Indexed(xs, ys, c.value)
        else Whole(Same(s.base, a, s.cand, b))
      case _ => Whole(Same(s.base, a, s.cand, b))
  }

  function PlanSteps(plan: VariantPlan, location: Place): seq<Step>
    requires plan.Matched? ==> |plan.xs| == |plan.zs|
    requires plan.Indexed? ==> |plan.xs| == |plan.ys|
  {
    match plan
    case Matched(xs, ys, zs, c) => IndexSteps(xs, zs, c, location, |xs|) + Growth(xs, ys, location)
    case Indexed(xs, ys, c) => IndexSteps(xs, ys, c, location, |xs|)
    case Whole(equal) => if equal then [] else [Break(SchemaVariantChange, location)]
  }

  ghost predicate PlanKnown(s: Scene, plan: VariantPlan) {
    match plan
    case Matched(xs, ys, zs, _) => |xs| == |zs| && Listed(s.base, xs) && Listed(s.cand, zs)
    case Indexed(xs, ys, _) => |xs| == |ys| && Listed(s.base, xs) && Listed(s.cand, ys)
    case Whole(_) => true
  }

  lemma PlanStepsAreClosed(s: Scene, plan: VariantPlan, location: Place)
    requires PlanKnown(s, plan)
    ensures Closed(s, PlanSteps(plan, location))
  {
    match plan
    case Matched(xs, ys, zs, c) =>
      ClosedConcat(s, IndexSteps(xs, zs, c, location, |xs|), Growth(xs, ys, location));
    case _ =>
  }

  lemma VariantsAreKnown(g: Graph, a: Id, c: Combinator)
    requires g.Valid() && a in g.nodes && g.nodes[a].Schema?
    ensures Listed(g, VariantIds(VariantsOf(g.nodes[a], c)))
  {
    var ids := VariantIds(VariantsOf(g.nodes[a], c));
    g.KidsAreKnown(a);
    forall i | 0 <= i < |ids|
      ensures ids[i] in g.nodes
    {
      assert ids[i] in Kids(g.nodes[a]);
    }
  }

  // ---- enumerations

  predicate InValues(x: Json, ys: seq<Json>) {
    exists j | 0 <= j < |ys| :: PyEq(x, ys[j])
  }

  predicate ValuesWithin(xs: seq<Json>, ys: seq<Json>) {
    forall i | 0 <= i < |xs| :: InValues(xs[i], ys)
  }

  // `set(old_enum or [])`: a missing keyword and a null one count as no value list.
  datatype EnumVerdict = EnumVerdict(steps: seq<Step>, stop: bool)

  function CompareEnums(direction: Direction, was: Enum, now: Enum, location: Place): (verdict: EnumVerdict)
    ensures AtMostOneReport(verdict.steps)
  {
    match (was, now)
    case (NoEnum, NoEnum) => EnumVerdict([], false)
    case (EnumList(x), EnumList(y)) =>
      if ValuesWithin(x, y) && ValuesWithin(y, x) then EnumVerdict([], false)
      else if direction == Request && ValuesWithin(x, y) then
        EnumVerdict([Add(RequestEnumAddition, location)], false)
      else EnumVerdict([Break(EnumChange, location)], true)
    case (EnumList(_), _) =>
      if direction == Request then EnumVerdict([Add(RequestEnumWidening, location)], true)
      else EnumVerdict([Break(EnumChange, location)], true)
    case _ => EnumVerdict([Break(EnumChange, location)], true)
  }

  // ---- objects

  function OldPropertySteps(s: Scene, o: Node, n: Node, location: Place, k: nat): (r: seq<Step>)
    requires o.Schema? && n.Schema? && k <= |PropertyMembers(o.properties)|
  {
    if k == 0 then []
    else OldPropertySteps(s, o, n, location, k - 1)
         + OldProperty(s, o, n, location, PropertyMembers(o.properties)[k - 1])
  }

  function OldProperty(s: Scene, o: Node, n: Node, location: Place, p: Member): seq<Step>
    requires o.Schema? && n.Schema?
  {
    var child := Property(location, p.name);
    match Find(PropertyMembers(n.properties), p.name)
    case None => [Break(FieldRemoval, child)]
    case Some(q) => Requiredness(s.direction, o, n, p.name, child) + [Walk((p.id, q), child)]
  }

  function Requiredness(direction: Direction, o: Node, n: Node, name: string, child: Place): (r: seq<Step>)
    requires o.Schema? && n.Schema?
    ensures AtMostOneReport(r)
  {
    if name in o.required && name !in n.required then
      if direction == Request then [Add(RequestRequirednessWidening, child)]
      else [Break(ResponseRequirednessChange, child)]
    else if name !in o.required && name in n.required then [Break(RequirednessChange, child)]
    else []
  }

  function NewPropertySteps(o: Node, n: Node, location: Place, k: nat): (r: seq<Step>)
    requires o.Schema? && n.Schema? && k <= |PropertyMembers(n.properties)|
  {
    if k == 0 then []
    else NewPropertySteps(o, n, location, k - 1) + NewProperty(o, n, location, PropertyMembers(n.properties)[k - 1])
  }

  function NewProperty(o: Node, n: Node, location: Place, q: Member): (r: seq<Step>)
    requires o.Schema? && n.Schema?
    ensures AtMostOneReport(r)
  {
    var child := Property(location, q.name);
    if Find(PropertyMembers(o.properties), q.name).Some? then []
    else if q.name in n.required then [Break(RequiredFieldAddition, child)]
    else [Add(OptionalFieldAddition, child)]
  }

  /** `schema.get('additionalProperties', True)` compared with `!=` after `_semantic`. */
  predicate AdditionalDiffers(s: Scene, x: Additional, y: Additional)
    requires s.Valid()
    requires x.Typed? ==> x.id in s.base.nodes
    requires y.Typed? ==> y.id in s.cand.nodes
  {
    match (x, y)
    case (Typed(c), Typed(d)) => !Same(s.base, c, s.cand, d)
    case (Typed(_), _) => true
    case (_, Typed(_)) => true
    case _ => (x == Flag(false)) != (y == Flag(false))
  }

  function AdditionalChange(direction: Direction, x: Additional, y: Additional, location: Place): (step: Step)
    ensures step.Emit?
  {
    if direction == Request && x == Flag(false) && !y.Typed? then Add(RequestObjectWidening, location)
    else Break(ObjectAcceptanceChange, location)
  }

  function AdditionalSteps(s: Scene, x: Additional, y: Additional, location: Place): seq<Step>
    requires s.Valid()
    requires x.Typed? ==> x.id in s.base.nodes
    requires y.Typed? ==> y.id in s.cand.nodes
  {
    if !AdditionalDiffers(s, x, y) then []
    else
      [AdditionalChange(s.direction, x, y, location)]
      + (if x.Typed? && y.Typed? then [Walk((x.id, y.id), AdditionalPart(location))] else [])
  }

  function ObjectSteps(s: Scene, a: Id, b: Id, location: Place): seq<Step>
    requires s.Valid() && s.Known(a, b) && s.base.nodes[a].Schema? && s.cand.nodes[b].Schema?
  {
    var o, n := s.base.nodes[a], s.cand.nodes[b];
    if o.properties.NotAPropertyMap? || n.properties.NotAPropertyMap? then [Break(ObjectShapeChange, location)]
    else
      AdditionalIsKnown(s.base, a);
      AdditionalIsKnown(s.cand, b);
      OldPropertySteps(s, o, n, location, |PropertyMembers(o.properties)|)
      + NewPropertySteps(o, n, location, |PropertyMembers(n.properties)|)
      + AdditionalSteps(s, o.additional, n.additional, location)
  }

  lemma AdditionalIsKnown(g: Graph, a: Id)
    requires g.Valid() && a in g.nodes && g.nodes[a].Schema?
    ensures g.nodes[a].additional.Typed? ==> g.nodes[a].additional.id in g.nodes
    ensures g.nodes[a].items.Some? ==> g.nodes[a].items.value in g.nodes
    ensures MembersKnown(g, PropertyMembers(g.nodes[a].properties))
  {
    var n := g.nodes[a];
    g.KidsAreKnown(a);
    if n.additional.Typed? {
      assert n.additional.id in Kids(n);
    }
    if n.items.Some? {
      assert n.items.value in Kids(n);
    }
    var members := PropertyMembers(n.properties);
    forall k | 0 <= k < |members|
      ensures members[k].id in g.nodes
    {
      assert MemberIds(members)[k] in MemberIds(members);
      assert members[k].id in Kids(n);
    }
  }

  // ---- value constraints

  predicate Less(x: Json, y: Json) {
    x.Num? && y.Num? && x.n < y.n
  }

  /** The bootstrap schema may carry the contract revision as a default. */
  predicate RevisionBump(s: Scene, was: Json, now: Json, location: Place) {
    && Render(location) in s.revisionPlaces
    && s.oldMajor == s.newMajor
    && s.oldRevision.Some? && s.newRevision.Some?
    && s.newRevision.value > s.oldRevision.value
    && PyEq(was, Num(s.oldRevision.value as real))
    && PyEq(now, Num(s.newRevision.value as real))
  }

  predicate Widened(key: Key, was: Json, now: Json) {
    || (key in {MinLength, Minimum, MinItems} && was != Null && (now == Null || Less(now, was)))
    || (key in {MaxLength, Maximum, MaxItems} && was != Null && (now == Null || Less(was, now)))
  }

  function Keyword(s: Scene, o: Node, n: Node, location: Place, key: Key): (r: seq<Step>)
    requires o.Schema? && n.Schema?
    ensures AtMostOneReport(r)
  {
    var x, y := Get(o.keywords, key), Get(n.keywords, key);
    if PyEq(x, y) then []
    else if key == Default && RevisionBump(s, x, y, location) then [Add(ApiRevisionMetadataBump, location)]
    else if s.direction == Request && Widened(key, x, y) then [Add(RequestConstraintWidening, location)]
    else [Break(SchemaConstraintChange, location)]
  }

  function KeywordSteps(s: Scene, o: Node, n: Node, location: Place, k: nat): seq<Step>
    requires o.Schema? && n.Schema? && k <= KeyCount()
  {
    if k == 0 then []
    else KeywordSteps(s, o, n, location, k - 1) + Keyword(s, o, n, location, CONSTRAINT_KEYS[k - 1])
  }

  // ---- one pair of nodes

  predicate ObjectLike(o: Node, n: Node)
    requires o.Schema? && n.Schema?
  {
    Get(o.keywords, Type) == Str("object") || !o.properties.NoProperties? || !n.properties.NoProperties?
  }

  function ShapeSteps(s: Scene, a: Id, b: Id, location: Place): seq<Step>
    requires s.Valid() && s.Known(a, b) && s.base.nodes[a].Schema? && s.cand.nodes[b].Schema?
  {
    var o, n := s.base.nodes[a], s.cand.nodes[b];
    if !PyEq(Get(o.keywords, Type), Get(n.keywords, Type))
       || !PyEq(Get(o.keywords, Format), Get(n.keywords, Format)) then
      [Break(TypeChange, location)]
    else if ObjectLike(o, n) then ObjectSteps(s, a, b, location)
    else
      (if Get(o.keywords, Type) == Str("array") then
         [Walk((ItemsOf(s.base, o), ItemsOf(s.cand, n)), Items(location))]
       else [])
      + KeywordSteps(s, o, n, location, KeyCount())
  }

  /** Everything the walk does at a pair of (resolved) nodes. */
  function Steps(s: Scene, a: Id, b: Id, location: Place): seq<Step>
    requires s.Valid() && s.Known(a, b)
  {
    var o, n := s.base.nodes[a], s.cand.nodes[b];
    if o.Scalar? || n.Scalar? then
      if Same(s.base, a, s.cand, b) then [] else [Break(SchemaChange, location)]
    else if FirstCombinator(o).Some? || FirstCombinator(n).Some? then PlanSteps(PlanVariants(s, a, b), location)
    else
      var verdict := CompareEnums(s.direction, o.enum, n.enum, location);
      verdict.steps + (if verdict.stop then [] else ShapeSteps(s, a, b, location))
  }

  // ---- the children a step list names exist

  ghost predicate Closed(s: Scene, steps: seq<Step>) {
    forall k {:trigger steps[k]} :: 0 <= k < |steps| && steps[k].Walk? ==> steps[k].pair in s.Pairs()
  }

  lemma ClosedConcat(s: Scene, p: seq<Step>, q: seq<Step>)
    requires Closed(s, p) && Closed(s, q)
    ensures Closed(s, p + q)
  {
  }

  lemma AdditionalStepsAreClosed(s: Scene, x: Additional, y: Additional, location: Place)
    requires s.Valid()
    requires x.Typed? ==> x.id in s.base.nodes
    requires y.Typed? ==> y.id in s.cand.nodes
    ensures Closed(s, AdditionalSteps(s, x, y, location))
  {
    if AdditionalDiffers(s, x, y) && x.Typed? && y.Typed? {
      assert AdditionalSteps(s, x, y, location)[1] == Walk((x.id, y.id), AdditionalPart(location));
    }
  }

  lemma ObjectStepsAreClosed(s: Scene, a: Id, b: Id, location: Place)
    requires s.Valid() && s.Known(a, b) && s.base.nodes[a].Schema? && s.cand.nodes[b].Schema?
    ensures Closed(s, ObjectSteps(s, a, b, location))
  {
    var o, n := s.base.nodes[a], s.cand.nodes[b];
    if !o.properties.NotAPropertyMap? && !n.properties.NotAPropertyMap? {
      AdditionalIsKnown(s.base, a);
      AdditionalIsKnown(s.cand, b);
      var p := OldPropertySteps(s, o, n, location, |PropertyMembers(o.properties)|);
      var q := NewPropertySteps(o, n, location, |PropertyMembers(n.properties)|);
      OldPropertyStepsAreClosed(s, o, n, location, |PropertyMembers(o.properties)|);
      NewPropertyStepsEmit(s, o, n, location, |PropertyMembers(n.properties)|);
      AdditionalStepsAreClosed(s, o.additional, n.additional, location);
      ClosedConcat(s, p, q);
      ClosedConcat(s, p + q, AdditionalSteps(s, o.additional, n.additional, location));
    }
  }

  lemma OldPropertyIsClosed(s: Scene, o: Node, n: Node, location: Place, p: Member)
    requires o.Schema? && n.Schema? && p.id in s.base.nodes
    requires MembersKnown(s.cand, PropertyMembers(n.properties))
    ensures Closed(s, OldProperty(s, o, n, location, p))
  {
  }

  lemma {:induction false} OldPropertyStepsAreClosed(s: Scene, o: Node, n: Node, location: Place, k: nat)
    requires o.Schema? && n.Schema? && k <= |PropertyMembers(o.properties)|
    requires MembersKnown(s.base, PropertyMembers(o.properties))
    requires MembersKnown(s.cand, PropertyMembers(n.properties))
    ensures Closed(s, OldPropertySteps(s, o, n, location, k))
  {
    if k > 0 {
      var p := PropertyMembers(o.properties)[k - 1];
      OldPropertyStepsAreClosed(s, o, n, location, k - 1);
      OldPropertyIsClosed(s, o, n, location, p);
      ClosedConcat(s, OldPropertySteps(s, o, n, location, k - 1), OldProperty(s, o, n, location, p));
    }
  }

  lemma {:induction false} NewPropertyStepsEmit(s: Scene, o: Node, n: Node, location: Place, k: nat)
    requires o.Schema? && n.Schema? && k <= |PropertyMembers(n.properties)|
    ensures Closed(s, NewPropertySteps(o, n, location, k))
  {
    if k > 0 {
      NewPropertyStepsEmit(s, o, n, location, k - 1);
    }
  }

  lemma {:induction false} KeywordStepsEmit(s: Scene, o: Node, n: Node, location: Place, k: nat)
    requires o.Schema? && n.Schema? && k <= KeyCount()
    ensures Closed(s, KeywordSteps(s, o, n, location, k))
  {
    if k > 0 {
      KeywordStepsEmit(s, o, n, location, k - 1);
    }
  }

  lemma ShapeStepsAreClosed(s: Scene, a: Id, b: Id, location: Place)
    requires s.Valid() && s.Known(a, b) && s.base.nodes[a].Schema? && s.cand.nodes[b].Schema?
    ensures Closed(s, ShapeSteps(s, a, b, location))
  {
    var o, n := s.base.nodes[a], s.cand.nodes[b];
    if ObjectLike(o, n) {
      ObjectStepsAreClosed(s, a, b, location);
    } else {
      AdditionalIsKnown(s.base, a);
      AdditionalIsKnown(s.cand, b);
      var items := [Walk((ItemsOf(s.base, o), ItemsOf(s.cand, n)), Items(location))];
      KeywordStepsEmit(s, o, n, location, KeyCount());
      ClosedConcat(s, items, KeywordSteps(s, o, n, location, KeyCount()));
      ClosedConcat(s, [], KeywordSteps(s, o, n, location, KeyCount()));
    }
  }

  lemma PlainStepsAreClosed(s: Scene, a: Id, b: Id, location: Place, verdict: EnumVerdict)
    requires s.Valid() && s.Known(a, b) && s.base.nodes[a].Schema? && s.cand.nodes[b].Schema?
    requires AtMostOneReport(verdict.steps)
    ensures Closed(s, verdict.steps + (if verdict.stop then [] else ShapeSteps(s, a, b, location)))
  {
    ShapeStepsAreClosed(s, a, b, location);
    ClosedConcat(s, verdict.steps, []);
    ClosedConcat(s, verdict.steps, ShapeSteps(s, a, b, location));
  }

  lemma StepsAreClosed(s: Scene, a: Id, b: Id, location: Place)
    requires s.Valid() && s.Known(a, b)
    ensures Closed(s, Steps(s, a, b, location))
  {
    var o, n := s.base.nodes[a], s.cand.nodes[b];
    if o.Scalar? || n.Scalar? {
    } else if FirstCombinator(o).Some? || FirstCombinator(n).Some? {
      PlanStepsAreClosed(s, PlanVariants(s, a, b), location);
    } else {
      PlainStepsAreClosed(s, a, b, location, CompareEnums(s.direction, o.enum, n.enum, location));
    }
  }

  // ---- the walk as a traversal

  ghost function WalkerOf(s: Scene): (w: Walker)
    requires s.Valid()
  {
    Walker(
      s.Pairs(),
      (m: Marker) => if s.Known(m.0, m.1) then (Resolve(s.base, m.0), Resolve(s.cand, m.1)) else m,
      (m: Marker, location: Place) => if s.Known(m.0, m.1) then Steps(s, m.0, m.1, location) else [])
  }

  /** `w` plans exactly what the checker does for `s`. */
  ghost predicate Drives(w: Walker, s: Scene)
    requires s.Valid()
  {
    && w.Valid()
    && w.universe == s.Pairs()
    && (forall a, b {:trigger Resolve(s.base, a), Resolve(s.cand, b)} :: s.Known(a, b) ==>
          w.head((a, b)) == (Resolve(s.base, a), Resolve(s.cand, b)))
    && (forall a, b, location {:trigger Steps(s, a, b, location)} :: s.Known(a, b) ==>
          w.plan((a, b), location) == Steps(s, a, b, location))
  }

  lemma WalkerDrives(s: Scene)
    requires s.Valid()
    ensures Drives(WalkerOf(s), s)
  {
    var w := WalkerOf(s);
    forall m, location | m in w.universe
      ensures w.Closed(w.plan(m, location))
    {
      StepsAreClosed(s, m.0, m.1, location);
      var steps := Steps(s, m.0, m.1, location);
      assert w.plan(m, location) == steps;
      forall k | 0 <= k < |steps| && steps[k].Walk?
        ensures steps[k].pair in w.universe
      {
      }
    }
  }
}
