module SchemaReport {
  /** What a schema comparison reports, kind by kind.

      The rules are written down here by themselves, each with its own conditions: no order, no early return.
      A comparison reports a change exactly when one of its stops meets the rule of that change. */

  import opened Common
  import opened Json
  import opened SchemaGraph
  import opened SchemaTraversal
  import opened SchemaTour
  import opened SchemaWalk

  // ---- combinators

  ghost predicate Combined(n: Node)
    requires n.Schema?
  {
    n.oneOf != NoVariants || n.anyOf != NoVariants || n.allOf != NoVariants
  }

  /** `c` is the first combinator of `n`, oneOf before anyOf before allOf, and lists these variants. */
  ghost predicate Lists(n: Node, c: Combinator, ids: seq<Id>)
    requires n.Schema?
  {
    match c
    case OneOf => n.oneOf == VariantList(ids)
    case AnyOf => n.oneOf == NoVariants && n.anyOf == VariantList(ids)
    case AllOf => n.oneOf == NoVariants && n.anyOf == NoVariants && n.allOf == VariantList(ids)
  }

  ghost predicate Equals(s: Scene, a: Id, b: Id)
    requires s.Valid()
  {
    s.Known(a, b) && Same(s.base, a, s.cand, b)
  }

  /** Variant `j` is the first of the new ones that equals the old one `x`. */
  ghost predicate FirstEqual(s: Scene, x: Id, ys: seq<Id>, j: int)
    requires s.Valid()
  {
    0 <= j < |ys| && Equals(s, x, ys[j]) && forall k :: 0 <= k < j ==> !Equals(s, x, ys[k])
  }

  ghost predicate HasEqual(s: Scene, x: Id, ys: seq<Id>)
    requires s.Valid()
  {
    exists j :: FirstEqual(s, x, ys, j)
  }

  /** `y` is that variant. */
  ghost predicate Partner(s: Scene, x: Id, ys: seq<Id>, y: Id)
    requires s.Valid()
  {
    exists j :: FirstEqual(s, x, ys, j) && ys[j] == y
  }

  /** A request keeps every old variant, in whatever place. */
  ghost predicate KeepsVariants(s: Scene, o: Node, n: Node, c: Combinator, xs: seq<Id>, ys: seq<Id>)
    requires s.Valid() && o.Schema? && n.Schema?
  {
    && Lists(o, c, xs) && Lists(n, c, ys) && s.direction == Request
    && forall i :: 0 <= i < |xs| ==> HasEqual(s, xs[i], ys)
  }

  /** The variants are the same ones in the same places. */
  ghost predicate SameVariantLists(s: Scene, o: Node, n: Node, c: Combinator, xs: seq<Id>, ys: seq<Id>)
    requires s.Valid() && o.Schema? && n.Schema?
  {
    && Lists(o, c, xs) && Lists(n, c, ys)
    && |xs| == |ys| && forall i :: 0 <= i < |xs| ==> Equals(s, xs[i], ys[i])
  }

  ghost predicate VariantReport(s: Scene, a: Id, b: Id, place: Place, change: Change)
    requires s.Valid() && s.Known(a, b) && s.base.nodes[a].Schema? && s.cand.nodes[b].Schema?
  {
    var o, n := s.base.nodes[a], s.cand.nodes[b];
    || (change == Change(Additive, SchemaVariantAddition, place)
        && exists c, xs: seq<Id>, ys: seq<Id> :: KeepsVariants(s, o, n, c, xs, ys) && |xs| < |ys|)
    || (change == Change(Breaking, SchemaVariantChange, place)
        && !Equals(s, a, b)
        && forall c, xs: seq<Id>, ys: seq<Id> :: !KeepsVariants(s, o, n, c, xs, ys) && !SameVariantLists(s, o, n, c, xs, ys))
  }

  ghost predicate VariantFollow(s: Scene, a: Id, b: Id, place: Place, pair: Marker, at: Place)
    requires s.Valid() && s.Known(a, b) && s.base.nodes[a].Schema? && s.cand.nodes[b].Schema?
  {
    exists c, xs: seq<Id>, ys: seq<Id>, i :: VariantPair(s, s.base.nodes[a], s.cand.nodes[b], c, xs, ys, i, place, pair, at)
  }

  /** An old variant of a request with the first new one that equals it; of a response, with the one in its place. */
  ghost predicate VariantPair(
    s: Scene, o: Node, n: Node, c: Combinator, xs: seq<Id>, ys: seq<Id>, i: int, place: Place, pair: Marker, at: Place)
    requires s.Valid() && o.Schema? && n.Schema?
  {
    && 0 <= i < |xs| && at == Variant(place, c, i) && pair.0 == xs[i]
    && ((KeepsVariants(s, o, n, c, xs, ys) && Partner(s, xs[i], ys, pair.1))
        || (SameVariantLists(s, o, n, c, xs, ys) && s.direction == Response && pair.1 == ys[i]))
  }

  // ---- enumerations

  ghost predicate Occurs(x: Json, ys: seq<Json>) {
    exists j :: 0 <= j < |ys| && PyEq(x, ys[j])
  }

  ghost predicate AllIn(xs: seq<Json>, ys: seq<Json>) {
    forall i :: 0 <= i < |xs| ==> Occurs(xs[i], ys)
  }

  ghost predicate EnumReport(s: Scene, was: Enum, now: Enum, place: Place, change: Change) {
    match (was, now)
    case (NoEnum, NoEnum) => false
    case (EnumList(x), EnumList(y)) =>
      || (change == Change(Additive, RequestEnumAddition, place) && s.direction == Request && AllIn(x, y) && !AllIn(y, x))
      || (change == Change(Breaking, EnumChange, place) && (!AllIn(x, y) || (s.direction == Response && !AllIn(y, x))))
    case (EnumList(_), _) =>
      change == if s.direction == Request then Change(Additive, RequestEnumWidening, place) else Change(Breaking, EnumChange, place)
    case _ => change == Change(Breaking, EnumChange, place)
  }

  /** The comparison goes on after the enumerations: there are none, or the listed values are kept. */
  ghost predicate PastEnums(s: Scene, was: Enum, now: Enum) {
    match (was, now)
    case (NoEnum, NoEnum) => true
    case (EnumList(x), EnumList(y)) => AllIn(x, y) && (AllIn(y, x) || s.direction == Request)
    case _ => false
  }

  // ---- types

  ghost predicate SameTypes(o: Node, n: Node)
    requires o.Schema? && n.Schema?
  {
    PyEq(Get(o.keywords, Type), Get(n.keywords, Type)) && PyEq(Get(o.keywords, Format), Get(n.keywords, Format))
  }

  ghost predicate AnObject(o: Node, n: Node)
    requires o.Schema? && n.Schema?
  {
    Get(o.keywords, Type) == Str("object") || o.properties != NoProperties || n.properties != NoProperties
  }

  // ---- objects

  ghost predicate HasProperty(n: Node, name: string)
    requires n.Schema?
  {
    n.properties.PropertyMap? && exists k :: 0 <= k < |n.properties.members| && n.properties.members[k].name == name
  }

  ghost predicate PropertyReport(s: Scene, o: Node, n: Node, name: string, place: Place, change: Change)
    requires o.Schema? && n.Schema?
  {
    var at := Property(place, name);
    || (HasProperty(o, name) && !HasProperty(n, name) && change == Change(Breaking, FieldRemoval, at))
    || (HasProperty(o, name) && HasProperty(n, name) && name in o.required && name !in n.required
        && change == if s.direction == Request then Change(Additive, RequestRequirednessWidening, at)
                     else Change(Breaking, ResponseRequirednessChange, at))
    || (HasProperty(o, name) && HasProperty(n, name) && name !in o.required && name in n.required
        && change == Change(Breaking, RequirednessChange, at))
    || (!HasProperty(o, name) && HasProperty(n, name)
        && change == if name in n.required then Change(Breaking, RequiredFieldAddition, at)
                     else Change(Additive, OptionalFieldAddition, at))
  }

  /** `additionalProperties` reads differently without documentation; absent, it reads `true`. */
  ghost predicate OthersDiffer(s: Scene, o: Node, n: Node)
    requires s.Valid() && o.Schema? && n.Schema?
  {
    match (o.additional, n.additional)
    case (Typed(c), Typed(d)) => !Equals(s, c, d)
    case (Typed(_), _) => true
    case (_, Typed(_)) => true
    case (x, y) => (x == Flag(false)) != (y == Flag(false))
  }

  ghost predicate ObjectReport(s: Scene, o: Node, n: Node, place: Place, change: Change)
    requires s.Valid() && o.Schema? && n.Schema?
  {
    if o.properties.NotAPropertyMap? || n.properties.NotAPropertyMap? then
      change == Change(Breaking, ObjectShapeChange, place)
    else
      || (exists name :: PropertyReport(s, o, n, name, place, change))
      || (OthersDiffer(s, o, n)
          && change == if s.direction == Request && o.additional == Flag(false) && !n.additional.Typed?
                       then Change(Additive, RequestObjectWidening, place) else Change(Breaking, ObjectAcceptanceChange, place))
  }

  ghost predicate ObjectFollow(s: Scene, o: Node, n: Node, place: Place, pair: Marker, at: Place)
    requires s.Valid() && o.Schema? && n.Schema?
  {
    && !o.properties.NotAPropertyMap? && !n.properties.NotAPropertyMap?
    && ((exists name :: at == Property(place, name) && o.properties.PropertyMap? && n.properties.PropertyMap?
           && Member(name, pair.0) in o.properties.members && Member(name, pair.1) in n.properties.members)
        || (at == AdditionalPart(place) && o.additional == Typed(pair.0) && n.additional == Typed(pair.1) && OthersDiffer(s, o, n)))
  }

  // ---- constraints

  const COMPARED_KEYS: set<Key> := {
    Pattern, MinLength, MaxLength, Minimum, Maximum, ExclusiveMinimum, ExclusiveMaximum, MultipleOf,
    MinItems, MaxItems, UniqueItems, Default, Const, ReadOnly, WriteOnly}

  /** A bound of a request that is gone, or a number that bounds less. */
  ghost predicate Loosened(s: Scene, key: Key, was: Json, now: Json) {
    && s.direction == Request && was != Null
    && ((key in {MinLength, Minimum, MinItems} && (now == Null || (was.Num? && now.Num? && now.n < was.n)))
        || (key in {MaxLength, Maximum, MaxItems} && (now == Null || (was.Num? && now.Num? && was.n < now.n))))
  }

  /** At one of the places of the contract revision the default goes from the old revision to the new, higher
      one, and the major stays. */
  ghost predicate RevisionAdvances(s: Scene, was: Json, now: Json, place: Place) {
    && Render(place) in s.revisionPlaces
    && s.oldMajor == s.newMajor
    && s.oldRevision.Some? && s.newRevision.Some? && s.oldRevision.value < s.newRevision.value
    && PyEq(was, Num(s.oldRevision.value as real)) && PyEq(now, Num(s.newRevision.value as real))
  }

  ghost predicate KeyReport(s: Scene, o: Node, n: Node, key: Key, place: Place, change: Change)
    requires o.Schema? && n.Schema?
  {
    var was, now := Get(o.keywords, key), Get(n.keywords, key);
    && key in COMPARED_KEYS && !PyEq(was, now)
    && change == if key == Default && RevisionAdvances(s, was, now, place) then Change(Additive, ApiRevisionMetadataBump, place)
                 else if Loosened(s, key, was, now) then Change(Additive, RequestConstraintWidening, place)
                 else Change(Breaking, SchemaConstraintChange, place)
  }

  // ---- one stop

  /** Both are schemas without combinators whose enumerations let the comparison go on. */
  ghost predicate Typable(s: Scene, o: Node, n: Node) {
    o.Schema? && n.Schema? && !Combined(o) && !Combined(n) && PastEnums(s, o.enum, n.enum)
  }

  /** Their objects are compared, or their constraints. */
  ghost predicate ComparesObjects(s: Scene, o: Node, n: Node) {
    Typable(s, o, n) && SameTypes(o, n) && AnObject(o, n)
  }

  ghost predicate ComparesKeys(s: Scene, o: Node, n: Node) {
    Typable(s, o, n) && SameTypes(o, n) && !AnObject(o, n)
  }

  /** The rules of the report. */
  ghost predicate Reported(s: Scene, a: Id, b: Id, place: Place, change: Change)
    requires s.Valid() && s.Known(a, b)
  {
    var o, n := s.base.nodes[a], s.cand.nodes[b];
    if o.Scalar? || n.Scalar? then change == Change(Breaking, SchemaChange, place) && !Equals(s, a, b)
    else
      || ((Combined(o) || Combined(n)) && VariantReport(s, a, b, place, change))
      || (!Combined(o) && !Combined(n) && EnumReport(s, o.enum, n.enum, place, change))
      || (Typable(s, o, n) && !SameTypes(o, n) && change == Change(Breaking, TypeChange, place))
      || (ComparesObjects(s, o, n) && ObjectReport(s, o, n, place, change))
      || (ComparesKeys(s, o, n) && exists key :: KeyReport(s, o, n, key, place, change))
  }

  /** Which pairs are compared next, and where. */
  ghost predicate Leading(s: Scene, a: Id, b: Id, place: Place, pair: Marker, at: Place)
    requires s.Valid() && s.Known(a, b)
  {
    var o, n := s.base.nodes[a], s.cand.nodes[b];
    && o.Schema? && n.Schema?
    && (((Combined(o) || Combined(n)) && VariantFollow(s, a, b, place, pair, at))
        || (ComparesObjects(s, o, n) && ObjectFollow(s, o, n, place, pair, at))
        || (ComparesKeys(s, o, n) && Get(o.keywords, Type) == Str("array") && at == SchemaTraversal.Items(place)
            && pair == (if o.items.Some? then o.items.value else s.base.empty, if n.items.Some? then n.items.value else s.cand.empty)))
  }

  // ---- the steps follow the rules: combinators

  lemma ListsIff(n: Node, c: Combinator, ids: seq<Id>)
    requires n.Schema?
    ensures Lists(n, c, ids) <==> FirstCombinator(n) == Some(c) && VariantsOf(n, c) == VariantList(ids)
  {
  }

  lemma FirstEqualIff(s: Scene, x: Id, ys: seq<Id>, j: nat)
    requires s.Valid() && x in s.base.nodes && Listed(s.cand, ys)
    ensures FirstEqual(s, x, ys, j) <==> j < |ys| && j == FirstMatch(s, x, ys)
  {
    var m := FirstMatch(s, x, ys);
    if FirstEqual(s, x, ys, j) && m < j {
      assert Equals(s, x, ys[m]);
    }
  }

  lemma PartnerIff(s: Scene, x: Id, ys: seq<Id>)
    requires s.Valid() && x in s.base.nodes && Listed(s.cand, ys)
    ensures var j := FirstMatch(s, x, ys);
      && (HasEqual(s, x, ys) <==> j < |ys|)
      && (j < |ys| ==> forall y :: Partner(s, x, ys, y) <==> y == ys[j])
  {
    var j := FirstMatch(s, x, ys);
    FirstEqualIff(s, x, ys, j);
    forall k | FirstEqual(s, x, ys, k)
      ensures k == j
    {
      FirstEqualIff(s, x, ys, k);
    }
  }

  lemma KeepsIff(s: Scene, a: Id, b: Id, c: Combinator, xs: seq<Id>, ys: seq<Id>)
    requires s.Valid() && s.Known(a, b) && s.base.nodes[a].Schema? && s.cand.nodes[b].Schema?
    requires Lists(s.base.nodes[a], c, xs) && Lists(s.cand.nodes[b], c, ys)
    ensures Listed(s.base, xs) && Listed(s.cand, ys)
    ensures KeepsVariants(s, s.base.nodes[a], s.cand.nodes[b], c, xs, ys) <==> s.direction == Request && AllMatched(s, xs, ys)
    ensures SameVariantLists(s, s.base.nodes[a], s.cand.nodes[b], c, xs, ys) <==> SameLists(s, xs, ys)
  {
    VariantsAreKnown(s.base, a, c);
    VariantsAreKnown(s.cand, b, c);
    forall i | 0 <= i < |xs|
      ensures HasEqual(s, xs[i], ys) <==> FirstMatch(s, xs[i], ys) < |ys|
    {
      PartnerIff(s, xs[i], ys);
    }
    forall i | 0 <= i < |xs| && i < |ys|
      ensures Equals(s, xs[i], ys[i]) <==> Same(s.base, xs[i], s.cand, ys[i])
    {
    }
  }

  /** A list that keeps its variants matches them, one equal to the old one matches place by place. */
  lemma SameListsMatch(s: Scene, xs: seq<Id>, ys: seq<Id>)
    requires s.Valid() && Listed(s.base, xs) && Listed(s.cand, ys) && SameLists(s, xs, ys)
    ensures AllMatched(s, xs, ys)
  {
    forall i | 0 <= i < |xs|
      ensures FirstMatch(s, xs[i], ys) < |ys|
    {
      assert Same(s.base, xs[i], s.cand, ys[i]);
    }
  }

  /** What the plan says in terms of the rules. */
  ghost predicate Planned(s: Scene, a: Id, b: Id, plan: VariantPlan)
    requires s.Valid() && s.Known(a, b) && s.base.nodes[a].Schema? && s.cand.nodes[b].Schema?
  {
    var o, n := s.base.nodes[a], s.cand.nodes[b];
    match plan
    case Matched(xs, ys, zs, c) =>
      && KeepsVariants(s, o, n, c, xs, ys)
      && |zs| == |xs| && forall i, y :: 0 <= i < |xs| ==> (Partner(s, xs[i], ys, y) <==> y == zs[i])
    case Indexed(xs, ys, c) => SameVariantLists(s, o, n, c, xs, ys) && s.direction == Response
    case Whole(equal) =>
      && equal == Equals(s, a, b)
      && forall c, xs: seq<Id>, ys: seq<Id> :: !KeepsVariants(s, o, n, c, xs, ys) && !SameVariantLists(s, o, n, c, xs, ys)
  }

  lemma PlanIsPlanned(s: Scene, a: Id, b: Id)
    requires s.Valid() && s.Known(a, b) && s.base.nodes[a].Schema? && s.cand.nodes[b].Schema?
    requires Combined(s.base.nodes[a]) || Combined(s.cand.nodes[b])
    ensures Planned(s, a, b, PlanVariants(s, a, b))
  {
    var o, n := s.base.nodes[a], s.cand.nodes[b];
    var plan := PlanVariants(s, a, b);
    match plan
    case Matched(xs, ys, zs, c) =>
      ListsIff(o, c, xs);
      ListsIff(n, c, ys);
      KeepsIff(s, a, b, c, xs, ys);
      forall i, y | 0 <= i < |xs|
        ensures Partner(s, xs[i], ys, y) <==> y == zs[i]
      {
        PartnerIff(s, xs[i], ys);
      }
    case Indexed(xs, ys, c) =>
      ListsIff(o, c, xs);
      ListsIff(n, c, ys);
      KeepsIff(s, a, b, c, xs, ys);
      SameListsMatch(s, xs, ys);
    case Whole(equal) =>
      forall c, xs: seq<Id>, ys: seq<Id>
        ensures !KeepsVariants(s, o, n, c, xs, ys) && !SameVariantLists(s, o, n, c, xs, ys)
      {
        WholeMatchesNothing(s, a, b, c, xs, ys);
      }
  }

  lemma WholeMatchesNothing(s: Scene, a: Id, b: Id, c: Combinator, xs: seq<Id>, ys: seq<Id>)
    requires s.Valid() && s.Known(a, b) && s.base.nodes[a].Schema? && s.cand.nodes[b].Schema?
    requires Combined(s.base.nodes[a]) || Combined(s.cand.nodes[b])
    requires PlanVariants(s, a, b).Whole?
    ensures !KeepsVariants(s, s.base.nodes[a], s.cand.nodes[b], c, xs, ys)
    ensures !SameVariantLists(s, s.base.nodes[a], s.cand.nodes[b], c, xs, ys)
  {
    if Lists(s.base.nodes[a], c, xs) && Lists(s.cand.nodes[b], c, ys) {
      ListsIff(s.base.nodes[a], c, xs);
      ListsIff(s.cand.nodes[b], c, ys);
      KeepsIff(s, a, b, c, xs, ys);
    }
  }

  /** The pair stands in one place of both lists, and `at` says which. */
  ghost predicate InPlaces(xs: seq<Id>, zs: seq<Id>, c: Combinator, place: Place, pair: Marker, at: Place) {
    exists i: nat :: i < |xs| && i < |zs| && at == Variant(place, c, i) && pair == (xs[i], zs[i])
  }

  lemma PlainIndexSteps(xs: seq<Id>, zs: seq<Id>, c: Combinator, place: Place)
    requires |xs| == |zs|
    ensures var steps := IndexSteps(xs, zs, c, place, |xs|);
      && (forall change :: Emit(change) !in steps)
      && (forall pair, at :: Walk(pair, at) in steps <==> InPlaces(xs, zs, c, place, pair, at))
  {
    IndexStepsAre(xs, zs, c, place, []);
    assert IndexSteps(xs, zs, c, place, |xs|) + [] == IndexSteps(xs, zs, c, place, |xs|);
  }

  lemma IndexStepsAre(xs: seq<Id>, zs: seq<Id>, c: Combinator, place: Place, growth: seq<Step>)
    requires |xs| == |zs| && forall k :: 0 <= k < |growth| ==> growth[k].Emit?
    ensures var steps := IndexSteps(xs, zs, c, place, |xs|) + growth;
      && (forall change :: Emit(change) in steps <==> Emit(change) in growth)
      && (forall pair, at :: Walk(pair, at) in steps <==>
            InPlaces(xs, zs, c, place, pair, at))
  {
    var steps := IndexSteps(xs, zs, c, place, |xs|) + growth;
    forall pair, at | InPlaces(xs, zs, c, place, pair, at)
      ensures Walk(pair, at) in steps
    {
      var i: nat :| i < |xs| && at == Variant(place, c, i) && pair == (xs[i], zs[i]);
      assert steps[i] == Walk(pair, at);
    }
  }

  lemma VariantSteps(s: Scene, a: Id, b: Id, place: Place)
    requires s.Valid() && s.Known(a, b) && s.base.nodes[a].Schema? && s.cand.nodes[b].Schema?
    requires Combined(s.base.nodes[a]) || Combined(s.cand.nodes[b])
    ensures var steps := PlanSteps(PlanVariants(s, a, b), place);
      && (forall c :: Emit(c) in steps <==> VariantReport(s, a, b, place, c))
      && (forall pair, at :: Walk(pair, at) in steps <==> VariantFollow(s, a, b, place, pair, at))
  {
    var plan := PlanVariants(s, a, b);
    PlanIsPlanned(s, a, b);
    match plan
    case Matched(xs, ys, zs, c) => MatchedSteps(s, a, b, place, xs, ys, zs, c);
    case Indexed(xs, ys, c) => IndexedSteps(s, a, b, place, xs, ys, c);
    case Whole(equal) => WholeSteps(s, a, b, place, equal);
  }

  lemma WholeSteps(s: Scene, a: Id, b: Id, place: Place, equal: bool)
    requires s.Valid() && s.Known(a, b) && s.base.nodes[a].Schema? && s.cand.nodes[b].Schema?
    requires Planned(s, a, b, Whole(equal))
    ensures var steps := PlanSteps(Whole(equal), place);
      && (forall c :: Emit(c) in steps <==> VariantReport(s, a, b, place, c))
      && (forall pair, at :: Walk(pair, at) in steps <==> VariantFollow(s, a, b, place, pair, at))
  {
  }

  lemma OneList(n: Node, c: Combinator, xs: seq<Id>, d: Combinator, ys: seq<Id>)
    requires n.Schema? && Lists(n, c, xs) && Lists(n, d, ys)
    ensures c == d && xs == ys
  {
  }

  /** The lists of both nodes, and with them what can be said of variants, are these ones only. */
  lemma OnlyLists(s: Scene, o: Node, n: Node, c: Combinator, xs: seq<Id>, ys: seq<Id>)
    requires s.Valid() && o.Schema? && n.Schema? && Lists(o, c, xs) && Lists(n, c, ys)
    ensures forall d, vs: seq<Id>, ws: seq<Id> :: KeepsVariants(s, o, n, d, vs, ws) || SameVariantLists(s, o, n, d, vs, ws) ==>
      d == c && vs == xs && ws == ys
  {
    forall d, vs: seq<Id>, ws: seq<Id> | Lists(o, d, vs) && Lists(n, d, ws)
      ensures d == c && vs == xs && ws == ys
    {
      OneList(o, c, xs, d, vs);
      OneList(n, c, ys, d, ws);
    }
  }

  lemma MatchedSteps(s: Scene, a: Id, b: Id, place: Place, xs: seq<Id>, ys: seq<Id>, zs: seq<Id>, c: Combinator)
    requires s.Valid() && s.Known(a, b) && s.base.nodes[a].Schema? && s.cand.nodes[b].Schema?
    requires Planned(s, a, b, Matched(xs, ys, zs, c))
    ensures var steps := PlanSteps(Matched(xs, ys, zs, c), place);
      && (forall change :: Emit(change) in steps <==> VariantReport(s, a, b, place, change))
      && (forall pair, at :: Walk(pair, at) in steps <==> VariantFollow(s, a, b, place, pair, at))
  {
    IndexStepsAre(xs, zs, c, place, Growth(xs, ys, place));
    MatchedReport(s, a, b, place, xs, ys, zs, c);
    forall pair, at
      ensures VariantFollow(s, a, b, place, pair, at) <==>
        InPlaces(xs, zs, c, place, pair, at)
    {
      MatchedPairs(s, a, b, place, xs, ys, zs, c, pair, at);
    }
  }

  lemma MatchedReport(s: Scene, a: Id, b: Id, place: Place, xs: seq<Id>, ys: seq<Id>, zs: seq<Id>, c: Combinator)
    requires s.Valid() && s.Known(a, b) && s.base.nodes[a].Schema? && s.cand.nodes[b].Schema?
    requires Planned(s, a, b, Matched(xs, ys, zs, c))
    ensures forall change :: VariantReport(s, a, b, place, change) <==>
      change == Change(Additive, SchemaVariantAddition, place) && |xs| < |ys|
  {
    OnlyLists(s, s.base.nodes[a], s.cand.nodes[b], c, xs, ys);
  }

  lemma IndexedReport(s: Scene, a: Id, b: Id, place: Place, xs: seq<Id>, ys: seq<Id>, c: Combinator)
    requires s.Valid() && s.Known(a, b) && s.base.nodes[a].Schema? && s.cand.nodes[b].Schema?
    requires Planned(s, a, b, Indexed(xs, ys, c))
    ensures forall change :: !VariantReport(s, a, b, place, change)
  {
    assert SameVariantLists(s, s.base.nodes[a], s.cand.nodes[b], c, xs, ys);
  }

  lemma MatchedFollows(
    s: Scene, a: Id, b: Id, place: Place, xs: seq<Id>, ys: seq<Id>, zs: seq<Id>, c: Combinator, pair: Marker, at: Place)
    requires s.Valid() && s.Known(a, b) && s.base.nodes[a].Schema? && s.cand.nodes[b].Schema?
    requires Planned(s, a, b, Matched(xs, ys, zs, c)) && VariantFollow(s, a, b, place, pair, at)
    ensures InPlaces(xs, zs, c, place, pair, at)
  {
    var o, n := s.base.nodes[a], s.cand.nodes[b];
    OnlyLists(s, o, n, c, xs, ys);
    var d, vs: seq<Id>, ws: seq<Id>, i :| VariantPair(s, o, n, d, vs, ws, i, place, pair, at);
    assert d == c && vs == xs && ws == ys;
    assert pair == (xs[i], zs[i]);
  }

  lemma MatchedLeads(
    s: Scene, a: Id, b: Id, place: Place, xs: seq<Id>, ys: seq<Id>, zs: seq<Id>, c: Combinator, pair: Marker, at: Place)
    requires s.Valid() && s.Known(a, b) && s.base.nodes[a].Schema? && s.cand.nodes[b].Schema?
    requires Planned(s, a, b, Matched(xs, ys, zs, c)) && InPlaces(xs, zs, c, place, pair, at)
    ensures VariantFollow(s, a, b, place, pair, at)
  {
    var i: nat :| i < |xs| && i < |zs| && at == Variant(place, c, i) && pair == (xs[i], zs[i]);
    assert VariantPair(s, s.base.nodes[a], s.cand.nodes[b], c, xs, ys, i, place, pair, at);
  }

  lemma MatchedPairs(
    s: Scene, a: Id, b: Id, place: Place, xs: seq<Id>, ys: seq<Id>, zs: seq<Id>, c: Combinator, pair: Marker, at: Place)
    requires s.Valid() && s.Known(a, b) && s.base.nodes[a].Schema? && s.cand.nodes[b].Schema?
    requires Planned(s, a, b, Matched(xs, ys, zs, c))
    ensures VariantFollow(s, a, b, place, pair, at) <==> InPlaces(xs, zs, c, place, pair, at)
  {
    if VariantFollow(s, a, b, place, pair, at) {
      MatchedFollows(s, a, b, place, xs, ys, zs, c, pair, at);
    }
    if InPlaces(xs, zs, c, place, pair, at) {
      MatchedLeads(s, a, b, place, xs, ys, zs, c, pair, at);
    }
  }

  lemma IndexedSteps(s: Scene, a: Id, b: Id, place: Place, xs: seq<Id>, ys: seq<Id>, c: Combinator)
    requires s.Valid() && s.Known(a, b) && s.base.nodes[a].Schema? && s.cand.nodes[b].Schema?
    requires Planned(s, a, b, Indexed(xs, ys, c))
    ensures var steps := PlanSteps(Indexed(xs, ys, c), place);
      && (forall change :: Emit(change) in steps <==> VariantReport(s, a, b, place, change))
      && (forall pair, at :: Walk(pair, at) in steps <==> VariantFollow(s, a, b, place, pair, at))
  {
    PlainIndexSteps(xs, ys, c, place);
    IndexedReport(s, a, b, place, xs, ys, c);
    forall pair, at
      ensures VariantFollow(s, a, b, place, pair, at) <==>
        InPlaces(xs, ys, c, place, pair, at)
    {
      IndexedPairs(s, a, b, place, xs, ys, c, pair, at);
    }
  }

  lemma IndexedFollows(
    s: Scene, a: Id, b: Id, place: Place, xs: seq<Id>, ys: seq<Id>, c: Combinator, pair: Marker, at: Place)
    requires s.Valid() && s.Known(a, b) && s.base.nodes[a].Schema? && s.cand.nodes[b].Schema?
    requires Planned(s, a, b, Indexed(xs, ys, c)) && VariantFollow(s, a, b, place, pair, at)
    ensures InPlaces(xs, ys, c, place, pair, at)
  {
    var o, n := s.base.nodes[a], s.cand.nodes[b];
    OnlyLists(s, o, n, c, xs, ys);
    var d, vs: seq<Id>, ws: seq<Id>, i :| VariantPair(s, o, n, d, vs, ws, i, place, pair, at);
    assert d == c && vs == xs && ws == ys;
    assert pair == (xs[i], ys[i]);
  }

  lemma IndexedLeads(
    s: Scene, a: Id, b: Id, place: Place, xs: seq<Id>, ys: seq<Id>, c: Combinator, pair: Marker, at: Place)
    requires s.Valid() && s.Known(a, b) && s.base.nodes[a].Schema? && s.cand.nodes[b].Schema?
    requires Planned(s, a, b, Indexed(xs, ys, c)) && InPlaces(xs, ys, c, place, pair, at)
    ensures VariantFollow(s, a, b, place, pair, at)
  {
    var i: nat :| i < |xs| && i < |ys| && at == Variant(place, c, i) && pair == (xs[i], ys[i]);
    assert VariantPair(s, s.base.nodes[a], s.cand.nodes[b], c, xs, ys, i, place, pair, at);
  }

  lemma IndexedPairs(
    s: Scene, a: Id, b: Id, place: Place, xs: seq<Id>, ys: seq<Id>, c: Combinator, pair: Marker, at: Place)
    requires s.Valid() && s.Known(a, b) && s.base.nodes[a].Schema? && s.cand.nodes[b].Schema?
    requires Planned(s, a, b, Indexed(xs, ys, c))
    ensures VariantFollow(s, a, b, place, pair, at) <==> InPlaces(xs, ys, c, place, pair, at)
  {
    if VariantFollow(s, a, b, place, pair, at) {
      IndexedFollows(s, a, b, place, xs, ys, c, pair, at);
    }
    if InPlaces(xs, ys, c, place, pair, at) {
      IndexedLeads(s, a, b, place, xs, ys, c, pair, at);
    }
  }

  // ---- enumerations

  lemma AllInIff(xs: seq<Json>, ys: seq<Json>)
    ensures AllIn(xs, ys) <==> ValuesWithin(xs, ys)
  {
    forall i | 0 <= i < |xs|
      ensures InValues(xs[i], ys) <==> Occurs(xs[i], ys)
    {
    }
  }

  lemma EnumSteps(s: Scene, was: Enum, now: Enum, place: Place)
    ensures var verdict := CompareEnums(s.direction, was, now, place);
      && (forall c :: Emit(c) in verdict.steps <==> EnumReport(s, was, now, place, c))
      && (forall pair, at :: Walk(pair, at) !in verdict.steps)
      && (verdict.stop <==> !PastEnums(s, was, now))
  {
    if was.EnumList? && now.EnumList? {
      AllInIff(was.values, now.values);
      AllInIff(now.values, was.values);
    }
  }

  // ---- objects

  lemma HasPropertyIff(n: Node, name: string)
    requires n.Schema? && !n.properties.NotAPropertyMap?
    ensures HasProperty(n, name) <==> Find(PropertyMembers(n.properties), name).Some?
  {
  }

  lemma FindIsMember(g: Graph, a: Id, name: string, p: Id)
    requires g.Valid() && a in g.nodes && g.nodes[a].Schema?
    ensures Find(PropertyMembers(g.nodes[a].properties), name) == Some(p) <==>
      Member(name, p) in PropertyMembers(g.nodes[a].properties)
  {
    var members := PropertyMembers(g.nodes[a].properties);
    assert g.NodeValid(a);
    if Member(name, p) in members {
      var i :| 0 <= i < |members| && members[i] == Member(name, p);
      var k :| 0 <= k < |members| && members[k] == Member(name, Find(members, name).value);
      assert i == k;
    }
  }

  /** A list built part by part. */
  ghost predicate Builds(whole: nat -> seq<Step>, part: nat -> seq<Step>, n: nat) {
    whole(0) == [] && forall k: nat {:trigger part(k)} :: k < n ==> whole(k + 1) == whole(k) + part(k)
  }

  lemma {:induction false} BuiltMember(whole: nat -> seq<Step>, part: nat -> seq<Step>, n: nat, k: nat, step: Step)
    requires Builds(whole, part, n) && k <= n
    ensures step in whole(k) <==> exists i: nat :: i < k && step in part(i)
    decreases k
  {
    if k > 0 {
      BuiltMember(whole, part, n, k - 1, step);
      assert whole(k) == whole(k - 1) + part(k - 1);
    }
  }

  ghost function OldPart(s: Scene, o: Node, n: Node, place: Place): nat -> seq<Step>
    requires o.Schema? && n.Schema?
  {
    (k: nat) =>
      if o.Schema? && n.Schema? && k < |PropertyMembers(o.properties)|
      then OldProperty(s, o, n, place, PropertyMembers(o.properties)[k]) else []
  }

  ghost function NewPart(o: Node, n: Node, place: Place): nat -> seq<Step>
    requires o.Schema? && n.Schema?
  {
    (k: nat) =>
      if o.Schema? && n.Schema? && k < |PropertyMembers(n.properties)|
      then NewProperty(o, n, place, PropertyMembers(n.properties)[k]) else []
  }

  ghost function KeyPart(s: Scene, o: Node, n: Node, place: Place): nat -> seq<Step>
    requires o.Schema? && n.Schema?
  {
    (k: nat) => if o.Schema? && n.Schema? && k < KeyCount() then Keyword(s, o, n, place, CONSTRAINT_KEYS[k]) else []
  }

  ghost function OldWhole(s: Scene, o: Node, n: Node, place: Place): nat -> seq<Step>
    requires o.Schema? && n.Schema?
  {
    (k: nat) => if o.Schema? && n.Schema? && k <= |PropertyMembers(o.properties)| then OldPropertySteps(s, o, n, place, k) else []
  }

  lemma OldStep(s: Scene, o: Node, n: Node, place: Place, k: nat)
    requires o.Schema? && n.Schema? && k < |PropertyMembers(o.properties)|
    ensures OldWhole(s, o, n, place)(k + 1) == OldWhole(s, o, n, place)(k) + OldPart(s, o, n, place)(k)
  {
  }

  lemma OldBuilds(s: Scene, o: Node, n: Node, place: Place)
    requires o.Schema? && n.Schema?
    ensures Builds(OldWhole(s, o, n, place), OldPart(s, o, n, place), |PropertyMembers(o.properties)|)
  {
    var whole, part := OldWhole(s, o, n, place), OldPart(s, o, n, place);
    forall k: nat {:trigger part(k)} | k < |PropertyMembers(o.properties)|
      ensures whole(k + 1) == whole(k) + part(k)
    {
      OldStep(s, o, n, place, k);
    }
  }

  ghost function NewWhole(o: Node, n: Node, place: Place): nat -> seq<Step>
    requires o.Schema? && n.Schema?
  {
    (k: nat) => if o.Schema? && n.Schema? && k <= |PropertyMembers(n.properties)| then NewPropertySteps(o, n, place, k) else []
  }

  lemma NewStep(o: Node, n: Node, place: Place, k: nat)
    requires o.Schema? && n.Schema? && k < |PropertyMembers(n.properties)|
    ensures NewWhole(o, n, place)(k + 1) == NewWhole(o, n, place)(k) + NewPart(o, n, place)(k)
  {
  }

  lemma NewBuilds(o: Node, n: Node, place: Place)
    requires o.Schema? && n.Schema?
    ensures Builds(NewWhole(o, n, place), NewPart(o, n, place), |PropertyMembers(n.properties)|)
  {
    var whole, part := NewWhole(o, n, place), NewPart(o, n, place);
    forall k: nat {:trigger part(k)} | k < |PropertyMembers(n.properties)|
      ensures whole(k + 1) == whole(k) + part(k)
    {
      NewStep(o, n, place, k);
    }
  }

  ghost function KeyWhole(s: Scene, o: Node, n: Node, place: Place): nat -> seq<Step>
    requires o.Schema? && n.Schema?
  {
    (k: nat) => if o.Schema? && n.Schema? && k <= KeyCount() then KeywordSteps(s, o, n, place, k) else []
  }

  lemma KeyStep(s: Scene, o: Node, n: Node, place: Place, k: nat)
    requires o.Schema? && n.Schema? && k < KeyCount()
    ensures KeyWhole(s, o, n, place)(k + 1) == KeyWhole(s, o, n, place)(k) + KeyPart(s, o, n, place)(k)
  {
  }

  lemma KeyBuilds(s: Scene, o: Node, n: Node, place: Place)
    requires o.Schema? && n.Schema?
    ensures Builds(KeyWhole(s, o, n, place), KeyPart(s, o, n, place), KeyCount())
  {
    var whole, part := KeyWhole(s, o, n, place), KeyPart(s, o, n, place);
    forall k: nat {:trigger part(k)} | k < KeyCount()
      ensures whole(k + 1) == whole(k) + part(k)
    {
      KeyStep(s, o, n, place, k);
    }
  }

  lemma OldPropertyMember(s: Scene, o: Node, n: Node, place: Place, step: Step)
    requires o.Schema? && n.Schema?
    ensures var count := |PropertyMembers(o.properties)|;
      step in OldPropertySteps(s, o, n, place, count) <==> exists i: nat :: i < count && step in OldPart(s, o, n, place)(i)
  {
    var count := |PropertyMembers(o.properties)|;
    OldBuilds(s, o, n, place);
    BuiltMember(OldWhole(s, o, n, place), OldPart(s, o, n, place), count, count, step);
  }

  lemma NewPropertyMember(o: Node, n: Node, place: Place, step: Step)
    requires o.Schema? && n.Schema?
    ensures var count := |PropertyMembers(n.properties)|;
      step in NewPropertySteps(o, n, place, count) <==> exists i: nat :: i < count && step in NewPart(o, n, place)(i)
  {
    var count := |PropertyMembers(n.properties)|;
    NewBuilds(o, n, place);
    BuiltMember(NewWhole(o, n, place), NewPart(o, n, place), count, count, step);
  }

  /** The part of the report about a property that was there before, and about one that was not. */
  ghost predicate OldPropertyReport(s: Scene, o: Node, n: Node, name: string, place: Place, change: Change)
    requires o.Schema? && n.Schema?
  {
    HasProperty(o, name) && PropertyReport(s, o, n, name, place, change)
  }

  ghost predicate NewPropertyReport(s: Scene, o: Node, n: Node, name: string, place: Place, change: Change)
    requires o.Schema? && n.Schema?
  {
    !HasProperty(o, name) && PropertyReport(s, o, n, name, place, change)
  }

  lemma OldPropertyIs(s: Scene, o: Node, n: Node, place: Place, p: Member)
    requires o.Schema? && n.Schema? && !n.properties.NotAPropertyMap? && p in PropertyMembers(o.properties)
    ensures forall c :: Emit(c) in OldProperty(s, o, n, place, p) <==> OldPropertyReport(s, o, n, p.name, place, c)
    ensures forall pair, at :: Walk(pair, at) in OldProperty(s, o, n, place, p) <==>
      at == Property(place, p.name) && pair.0 == p.id && Find(PropertyMembers(n.properties), p.name) == Some(pair.1)
  {
    HasPropertyIff(n, p.name);
    assert HasProperty(o, p.name);
  }

  lemma NewPropertyIs(s: Scene, o: Node, n: Node, place: Place, q: Member)
    requires o.Schema? && n.Schema? && !o.properties.NotAPropertyMap? && q in PropertyMembers(n.properties)
    ensures forall c :: Emit(c) in NewProperty(o, n, place, q) <==> NewPropertyReport(s, o, n, q.name, place, c)
    ensures forall pair, at :: Walk(pair, at) !in NewProperty(o, n, place, q)
  {
    HasPropertyIff(o, q.name);
    assert HasProperty(n, q.name);
  }

  lemma OldPropertiesAre(s: Scene, o: Node, n: Node, place: Place, c: Change)
    requires o.Schema? && n.Schema? && !o.properties.NotAPropertyMap? && !n.properties.NotAPropertyMap?
    ensures Emit(c) in OldPropertySteps(s, o, n, place, |PropertyMembers(o.properties)|) <==>
      exists name :: OldPropertyReport(s, o, n, name, place, c)
  {
    var members := PropertyMembers(o.properties);
    OldPropertyMember(s, o, n, place, Emit(c));
    forall i | 0 <= i < |members|
      ensures Emit(c) in OldPart(s, o, n, place)(i) <==> OldPropertyReport(s, o, n, members[i].name, place, c)
    {
      OldPropertyIs(s, o, n, place, members[i]);
    }
    forall name | OldPropertyReport(s, o, n, name, place, c)
      ensures exists i :: 0 <= i < |members| && members[i].name == name
    {
    }
  }

  lemma NewPropertiesAre(s: Scene, o: Node, n: Node, place: Place, c: Change)
    requires o.Schema? && n.Schema? && !o.properties.NotAPropertyMap? && !n.properties.NotAPropertyMap?
    ensures Emit(c) in NewPropertySteps(o, n, place, |PropertyMembers(n.properties)|) <==>
      exists name :: NewPropertyReport(s, o, n, name, place, c)
  {
    var members := PropertyMembers(n.properties);
    NewPropertyMember(o, n, place, Emit(c));
    forall i | 0 <= i < |members|
      ensures Emit(c) in NewPart(o, n, place)(i) <==> NewPropertyReport(s, o, n, members[i].name, place, c)
    {
      NewPropertyIs(s, o, n, place, members[i]);
    }
    forall name | NewPropertyReport(s, o, n, name, place, c)
      ensures exists i :: 0 <= i < |members| && members[i].name == name
    {
    }
  }

  lemma OldPropertyLeads(s: Scene, a: Id, b: Id, place: Place, pair: Marker, at: Place, p: Member)
    requires s.Valid() && s.Known(a, b) && s.base.nodes[a].Schema? && s.cand.nodes[b].Schema?
    requires !s.cand.nodes[b].properties.NotAPropertyMap? && p in PropertyMembers(s.base.nodes[a].properties)
    ensures Walk(pair, at) in OldProperty(s, s.base.nodes[a], s.cand.nodes[b], place, p) <==>
      at == Property(place, p.name) && pair.0 == p.id && Member(p.name, pair.1) in PropertyMembers(s.cand.nodes[b].properties)
  {
    OldPropertyIs(s, s.base.nodes[a], s.cand.nodes[b], place, p);
    FindIsMember(s.cand, b, p.name, pair.1);
  }

  lemma NewPropertiesLeadNowhere(o: Node, n: Node, place: Place, pair: Marker, at: Place)
    requires o.Schema? && n.Schema?
    ensures Walk(pair, at) !in NewPropertySteps(o, n, place, |PropertyMembers(n.properties)|)
  {
    NewPropertyMember(o, n, place, Walk(pair, at));
    var ys := PropertyMembers(n.properties);
    forall i | 0 <= i < |ys|
      ensures Walk(pair, at) !in NewPart(o, n, place)(i)
    {
      assert AtMostOneReport(NewProperty(o, n, place, ys[i]));
    }
  }

  lemma PropertiesLead(s: Scene, a: Id, b: Id, place: Place, pair: Marker, at: Place)
    requires s.Valid() && s.Known(a, b) && s.base.nodes[a].Schema? && s.cand.nodes[b].Schema?
    requires var o, n := s.base.nodes[a], s.cand.nodes[b]; !o.properties.NotAPropertyMap? && !n.properties.NotAPropertyMap?
    ensures var o, n := s.base.nodes[a], s.cand.nodes[b];
      Walk(pair, at) in OldPropertySteps(s, o, n, place, |PropertyMembers(o.properties)|) <==>
        exists name :: at == Property(place, name) && o.properties.PropertyMap? && n.properties.PropertyMap?
          && Member(name, pair.0) in o.properties.members && Member(name, pair.1) in n.properties.members
  {
    var o, n := s.base.nodes[a], s.cand.nodes[b];
    var xs, ys := PropertyMembers(o.properties), PropertyMembers(n.properties);
    OldPropertyMember(s, o, n, place, Walk(pair, at));
    forall i | 0 <= i < |xs|
      ensures Walk(pair, at) in OldPart(s, o, n, place)(i) <==>
        at == Property(place, xs[i].name) && pair.0 == xs[i].id && Member(xs[i].name, pair.1) in ys
    {
      OldPropertyLeads(s, a, b, place, pair, at, xs[i]);
    }
    forall name | Member(name, pair.0) in xs
      ensures exists i :: 0 <= i < |xs| && xs[i] == Member(name, pair.0)
    {
    }
  }

  lemma OthersReport(s: Scene, a: Id, b: Id, place: Place)
    requires s.Valid() && s.Known(a, b) && s.base.nodes[a].Schema? && s.cand.nodes[b].Schema?
    ensures var o, n := s.base.nodes[a], s.cand.nodes[b];
      && (o.additional.Typed? ==> o.additional.id in s.base.nodes) && (n.additional.Typed? ==> n.additional.id in s.cand.nodes)
      && var steps := AdditionalSteps(s, o.additional, n.additional, place);
      && (forall c :: Emit(c) in steps <==>
            OthersDiffer(s, o, n)
            && c == if s.direction == Request && o.additional == Flag(false) && !n.additional.Typed?
                    then Change(Additive, RequestObjectWidening, place) else Change(Breaking, ObjectAcceptanceChange, place))
      && (forall pair, at :: Walk(pair, at) in steps <==>
            at == AdditionalPart(place) && o.additional == Typed(pair.0) && n.additional == Typed(pair.1) && OthersDiffer(s, o, n))
  {
    AdditionalIsKnown(s.base, a);
    AdditionalIsKnown(s.cand, b);
  }

  lemma ObjectReports(s: Scene, a: Id, b: Id, place: Place, c: Change)
    requires s.Valid() && s.Known(a, b) && s.base.nodes[a].Schema? && s.cand.nodes[b].Schema?
    ensures Emit(c) in ObjectSteps(s, a, b, place) <==> ObjectReport(s, s.base.nodes[a], s.cand.nodes[b], place, c)
  {
    var o, n := s.base.nodes[a], s.cand.nodes[b];
    if !o.properties.NotAPropertyMap? && !n.properties.NotAPropertyMap? {
      OthersReport(s, a, b, place);
      OldPropertiesAre(s, o, n, place, c);
      NewPropertiesAre(s, o, n, place, c);
      PropertySplits(s, o, n, place, c);
    }
  }

  lemma ObjectLeads(s: Scene, a: Id, b: Id, place: Place, pair: Marker, at: Place)
    requires s.Valid() && s.Known(a, b) && s.base.nodes[a].Schema? && s.cand.nodes[b].Schema?
    ensures Walk(pair, at) in ObjectSteps(s, a, b, place) <==>
      ObjectFollow(s, s.base.nodes[a], s.cand.nodes[b], place, pair, at)
  {
    var o, n := s.base.nodes[a], s.cand.nodes[b];
    if !o.properties.NotAPropertyMap? && !n.properties.NotAPropertyMap? {
      OthersReport(s, a, b, place);
      PropertiesLead(s, a, b, place, pair, at);
      NewPropertiesLeadNowhere(o, n, place, pair, at);
    }
  }

  lemma PropertySplits(s: Scene, o: Node, n: Node, place: Place, c: Change)
    requires o.Schema? && n.Schema?
    ensures (exists name :: PropertyReport(s, o, n, name, place, c)) <==>
      (exists name :: OldPropertyReport(s, o, n, name, place, c)) || (exists name :: NewPropertyReport(s, o, n, name, place, c))
  {
    forall name
      ensures PropertyReport(s, o, n, name, place, c) <==>
        OldPropertyReport(s, o, n, name, place, c) || NewPropertyReport(s, o, n, name, place, c)
    {
    }
  }

  // ---- constraints

  lemma KeywordMember(s: Scene, o: Node, n: Node, place: Place, step: Step)
    requires o.Schema? && n.Schema?
    ensures step in KeywordSteps(s, o, n, place, KeyCount()) <==>
      exists i: nat :: i < KeyCount() && step in KeyPart(s, o, n, place)(i)
  {
    KeyBuilds(s, o, n, place);
    BuiltMember(KeyWhole(s, o, n, place), KeyPart(s, o, n, place), KeyCount(), KeyCount(), step);
  }

  lemma KeywordIs(s: Scene, o: Node, n: Node, place: Place, key: Key, c: Change)
    requires o.Schema? && n.Schema? && key in COMPARED_KEYS
    ensures Emit(c) in Keyword(s, o, n, place, key) <==> KeyReport(s, o, n, key, place, c)
  {
    WidenedIff(s, key, Get(o.keywords, key), Get(n.keywords, key));
  }

  lemma WidenedIff(s: Scene, key: Key, was: Json, now: Json)
    ensures Loosened(s, key, was, now) <==> s.direction == Request && Widened(key, was, now)
  {
  }

  lemma KeysAreCompared(key: Key)
    ensures key in CONSTRAINT_KEYS <==> key in COMPARED_KEYS
  {
  }

  lemma KeywordStepsAre(s: Scene, o: Node, n: Node, place: Place)
    requires o.Schema? && n.Schema?
    ensures var steps := KeywordSteps(s, o, n, place, KeyCount());
      && (forall c :: Emit(c) in steps <==> exists key :: KeyReport(s, o, n, key, place, c))
      && (forall pair, at :: Walk(pair, at) !in steps)
  {
    forall c
      ensures Emit(c) in KeywordSteps(s, o, n, place, KeyCount()) <==> exists key :: KeyReport(s, o, n, key, place, c)
    {
      ConstraintsReport(s, o, n, place, c);
    }
    forall pair, at
      ensures Walk(pair, at) !in KeywordSteps(s, o, n, place, KeyCount())
    {
      KeywordMember(s, o, n, place, Walk(pair, at));
    }
  }

  lemma ConstraintReports(s: Scene, o: Node, n: Node, place: Place, i: nat, c: Change)
    requires o.Schema? && n.Schema? && i < KeyCount()
    ensures Emit(c) in KeyPart(s, o, n, place)(i) <==> KeyReport(s, o, n, CONSTRAINT_KEYS[i], place, c)
  {
    KeysAreCompared(CONSTRAINT_KEYS[i]);
    KeywordIs(s, o, n, place, CONSTRAINT_KEYS[i], c);
  }

  lemma ConstraintsReport(s: Scene, o: Node, n: Node, place: Place, c: Change)
    requires o.Schema? && n.Schema?
    ensures Emit(c) in KeywordSteps(s, o, n, place, KeyCount()) <==> exists key :: KeyReport(s, o, n, key, place, c)
  {
    KeywordMember(s, o, n, place, Emit(c));
    forall i | 0 <= i < KeyCount()
      ensures Emit(c) in KeyPart(s, o, n, place)(i) <==> KeyReport(s, o, n, CONSTRAINT_KEYS[i], place, c)
    {
      ConstraintReports(s, o, n, place, i, c);
    }
    forall key | KeyReport(s, o, n, key, place, c)
      ensures exists i :: 0 <= i < KeyCount() && CONSTRAINT_KEYS[i] == key
    {
      KeysAreCompared(key);
    }
  }

  // ---- all steps

  lemma CombinedIff(n: Node)
    requires n.Schema?
    ensures Combined(n) <==> FirstCombinator(n).Some?
  {
  }

  lemma PlainReports(s: Scene, a: Id, b: Id, place: Place, c: Change)
    requires s.Valid() && s.Known(a, b) && s.base.nodes[a].Schema? && s.cand.nodes[b].Schema?
    ensures var o, n := s.base.nodes[a], s.cand.nodes[b];
      Emit(c) in ShapeSteps(s, a, b, place) <==>
        if !SameTypes(o, n) then c == Change(Breaking, TypeChange, place)
        else if AnObject(o, n) then ObjectReport(s, o, n, place, c)
        else exists key :: KeyReport(s, o, n, key, place, c)
  {
    var o, n := s.base.nodes[a], s.cand.nodes[b];
    if SameTypes(o, n) {
      if AnObject(o, n) {
        ObjectReports(s, a, b, place, c);
      } else {
        KeywordStepsAre(s, o, n, place);
      }
    }
  }

  lemma PlainLeads(s: Scene, a: Id, b: Id, place: Place, pair: Marker, at: Place)
    requires s.Valid() && s.Known(a, b) && s.base.nodes[a].Schema? && s.cand.nodes[b].Schema?
    ensures var o, n := s.base.nodes[a], s.cand.nodes[b];
      Walk(pair, at) in ShapeSteps(s, a, b, place) <==>
        && SameTypes(o, n)
        && if AnObject(o, n) then ObjectFollow(s, o, n, place, pair, at)
           else
             && Get(o.keywords, Type) == Str("array") && at == SchemaTraversal.Items(place)
             && pair == (if o.items.Some? then o.items.value else s.base.empty, if n.items.Some? then n.items.value else s.cand.empty)
  {
    var o, n := s.base.nodes[a], s.cand.nodes[b];
    if SameTypes(o, n) {
      if AnObject(o, n) {
        ObjectLeads(s, a, b, place, pair, at);
      } else {
        KeywordStepsAre(s, o, n, place);
      }
    }
  }

  lemma UncombinedReports(s: Scene, a: Id, b: Id, place: Place, c: Change)
    requires s.Valid() && s.Known(a, b) && s.base.nodes[a].Schema? && s.cand.nodes[b].Schema?
    requires !Combined(s.base.nodes[a]) && !Combined(s.cand.nodes[b])
    ensures Emit(c) in Steps(s, a, b, place) <==> Reported(s, a, b, place, c)
  {
    var o, n := s.base.nodes[a], s.cand.nodes[b];
    CombinedIff(o);
    CombinedIff(n);
    EnumSteps(s, o.enum, n.enum, place);
    PlainReports(s, a, b, place, c);
  }

  /** At each stop the comparison reports exactly what the rules say. */
  lemma StepsReport(s: Scene, a: Id, b: Id, place: Place, c: Change)
    requires s.Valid() && s.Known(a, b)
    ensures Emit(c) in Steps(s, a, b, place) <==> Reported(s, a, b, place, c)
  {
    var o, n := s.base.nodes[a], s.cand.nodes[b];
    if o.Schema? && n.Schema? {
      if Combined(o) || Combined(n) {
        CombinedIff(o);
        CombinedIff(n);
        VariantSteps(s, a, b, place);
      } else {
        UncombinedReports(s, a, b, place, c);
      }
    }
  }

  lemma UncombinedLeads(s: Scene, a: Id, b: Id, place: Place, pair: Marker, at: Place)
    requires s.Valid() && s.Known(a, b) && s.base.nodes[a].Schema? && s.cand.nodes[b].Schema?
    requires !Combined(s.base.nodes[a]) && !Combined(s.cand.nodes[b])
    ensures Walk(pair, at) in Steps(s, a, b, place) <==> Leading(s, a, b, place, pair, at)
  {
    var o, n := s.base.nodes[a], s.cand.nodes[b];
    CombinedIff(o);
    CombinedIff(n);
    EnumSteps(s, o.enum, n.enum, place);
    PlainLeads(s, a, b, place, pair, at);
  }

  /** And goes on to exactly the pairs that the rules name. */
  lemma StepsLead(s: Scene, a: Id, b: Id, place: Place, pair: Marker, at: Place)
    requires s.Valid() && s.Known(a, b)
    ensures Walk(pair, at) in Steps(s, a, b, place) <==> Leading(s, a, b, place, pair, at)
  {
    var o, n := s.base.nodes[a], s.cand.nodes[b];
    if o.Schema? && n.Schema? {
      if Combined(o) || Combined(n) {
        CombinedIff(o);
        CombinedIff(n);
        VariantSteps(s, a, b, place);
      } else {
        UncombinedLeads(s, a, b, place, pair, at);
      }
    }
  }

  // ---- the whole comparison

  /** Stop `i` is one of those that stop `j` leads to. */
  ghost predicate LedTo(s: Scene, stops: seq<Stop>, j: int, i: int)
    requires s.Valid() && 0 <= j < |stops| && 0 <= i < |stops| && KnownStop(s, stops[j])
  {
    exists pair: Marker ::
      && Leading(s, stops[j].at.0, stops[j].at.1, stops[j].place, pair, stops[i].place)
      && s.Known(pair.0, pair.1) && stops[i].at == (Resolve(s.base, pair.0), Resolve(s.cand, pair.1))
  }

  ghost predicate KnownStop(s: Scene, stop: Stop) {
    s.Known(stop.at.0, stop.at.1)
  }

  ghost predicate AllKnown(s: Scene, stops: seq<Stop>) {
    forall i :: 0 <= i < |stops| ==> KnownStop(s, stops[i])
  }

  ghost predicate LedEarlier(s: Scene, stops: seq<Stop>, i: int)
    requires s.Valid() && AllKnown(s, stops) && 0 <= i < |stops|
  {
    exists j :: 0 <= j < i && LedTo(s, stops, j, i)
  }

  /** From the two schemas, references resolved, to all that the rules lead to, each pair once. */
  ghost predicate Itinerary(s: Scene, a: Id, b: Id, place: Place, stops: seq<Stop>)
    requires s.Valid() && s.Known(a, b)
  {
    && stops != [] && stops[0] == Stop((Resolve(s.base, a), Resolve(s.cand, b)), place)
    && AllKnown(s, stops)
    && (forall i :: 0 < i < |stops| ==> LedEarlier(s, stops, i))
    && (forall i, j :: 0 <= i < j < |stops| ==> stops[i].at != stops[j].at)
    && (forall i, pair: Marker, at :: 0 <= i < |stops| && Leading(s, stops[i].at.0, stops[i].at.1, stops[i].place, pair, at) ==>
          s.Known(pair.0, pair.1) && Sees(stops, (Resolve(s.base, pair.0), Resolve(s.cand, pair.1))))
  }

  ghost predicate ReportedOn(s: Scene, stops: seq<Stop>, change: Change)
    requires s.Valid() && AllKnown(s, stops)
  {
    exists i :: 0 <= i < |stops| && Reported(s, stops[i].at.0, stops[i].at.1, stops[i].place, change)
  }

  lemma StopFollows(s: Scene, w: Walker, stop: Stop)
    requires s.Valid() && Drives(w, s) && KnownStop(s, stop)
    ensures forall c :: Emit(c) in PlanAt(w, stop) <==> Reported(s, stop.at.0, stop.at.1, stop.place, c)
    ensures forall pair, at :: Walk(pair, at) in PlanAt(w, stop) <==> Leading(s, stop.at.0, stop.at.1, stop.place, pair, at)
    ensures forall pair: Marker, at :: Walk(pair, at) in PlanAt(w, stop) ==> s.Known(pair.0, pair.1)
  {
    assert PlanAt(w, stop) == Steps(s, stop.at.0, stop.at.1, stop.place);
    forall c
      ensures Emit(c) in PlanAt(w, stop) <==> Reported(s, stop.at.0, stop.at.1, stop.place, c)
    {
      StepsReport(s, stop.at.0, stop.at.1, stop.place, c);
    }
    forall pair, at
      ensures Walk(pair, at) in PlanAt(w, stop) <==> Leading(s, stop.at.0, stop.at.1, stop.place, pair, at)
    {
      StepsLead(s, stop.at.0, stop.at.1, stop.place, pair, at);
    }
    StepsAreClosed(s, stop.at.0, stop.at.1, stop.place);
    var steps := Steps(s, stop.at.0, stop.at.1, stop.place);
    forall pair: Marker, at | Walk(pair, at) in steps
      ensures s.Known(pair.0, pair.1)
    {
      var k :| 0 <= k < |steps| && steps[k] == Walk(pair, at);
      assert steps[k].pair in s.Pairs();
    }
  }

  lemma HeadIs(s: Scene, w: Walker, pair: Marker)
    requires s.Valid() && Drives(w, s) && s.Known(pair.0, pair.1)
    ensures w.head(pair) == (Resolve(s.base, pair.0), Resolve(s.cand, pair.1))
  {
    assert w.head((pair.0, pair.1)) == (Resolve(s.base, pair.0), Resolve(s.cand, pair.1));
  }

  lemma {:induction false} TourIsKnown(s: Scene, w: Walker, root: Stop, stops: seq<Stop>, i: nat)
    requires s.Valid() && Drives(w, s) && Tour(w, root, stops) && KnownStop(s, root) && i <= |stops|
    ensures forall k :: 0 <= k < i ==> KnownStop(s, stops[k])
  {
    if i > 1 {
      TourIsKnown(s, w, root, stops, i - 1);
      assert AskedEarlier(w, stops, i - 1);
      var j :| 0 <= j < i - 1 && Asks(w, PlanAt(w, stops[j]), stops[i - 1]);
      AskedIsKnown(s, w, stops[j], stops[i - 1]);
    }
  }

  lemma AskedIsKnown(s: Scene, w: Walker, from: Stop, stop: Stop)
    requires s.Valid() && Drives(w, s) && KnownStop(s, from) && Asks(w, PlanAt(w, from), stop)
    ensures KnownStop(s, stop)
  {
    var pair :| Walk(pair, stop.place) in PlanAt(w, from) && w.head(pair) == stop.at;
    StopFollows(s, w, from);
    HeadIs(s, w, pair);
  }

  /** What a schema comparison reports: its stops are those the rules lead to, and its changes are exactly those the
      rules give at its stops. */
  lemma WalkReports(s: Scene, a: Id, b: Id, place: Place) returns (stops: seq<Stop>)
    requires s.Valid() && s.Known(a, b)
    ensures WalkerOf(s).Valid() && (a, b) in WalkerOf(s).universe
    ensures Itinerary(s, a, b, place, stops)
    ensures forall x :: x in Visit(WalkerOf(s), (a, b), place, Trace([], {})).seen <==> Sees(stops, x)
    ensures forall c :: c in Visit(WalkerOf(s), (a, b), place, Trace([], {})).changes <==> ReportedOn(s, stops, c)
  {
    WalkerDrives(s);
    var w := WalkerOf(s);
    stops := VisitTours(w, (a, b), place);
    HeadIs(s, w, (a, b));
    TourIsKnown(s, w, stops[0], stops, |stops|);
    TourIsItinerary(s, w, a, b, place, stops);
    forall c
      ensures Reports(w, stops, c) <==> ReportedOn(s, stops, c)
    {
      forall i | 0 <= i < |stops|
        ensures Emit(c) in PlanAt(w, stops[i]) <==> Reported(s, stops[i].at.0, stops[i].at.1, stops[i].place, c)
      {
        StopFollows(s, w, stops[i]);
      }
    }
  }

  lemma TourIsItinerary(s: Scene, w: Walker, a: Id, b: Id, place: Place, stops: seq<Stop>)
    requires s.Valid() && Drives(w, s) && s.Known(a, b) && AllKnown(s, stops)
    requires Tour(w, Stop((Resolve(s.base, a), Resolve(s.cand, b)), place), stops)
    ensures Itinerary(s, a, b, place, stops)
  {
    forall i | 0 < i < |stops|
      ensures LedEarlier(s, stops, i)
    {
      assert AskedEarlier(w, stops, i);
      var j :| 0 <= j < i && Asks(w, PlanAt(w, stops[j]), stops[i]);
      var pair :| Walk(pair, stops[i].place) in PlanAt(w, stops[j]) && w.head(pair) == stops[i].at;
      StopFollows(s, w, stops[j]);
      HeadIs(s, w, pair);
      assert LedTo(s, stops, j, i);
    }
    forall i, pair: Marker, at | 0 <= i < |stops| && Leading(s, stops[i].at.0, stops[i].at.1, stops[i].place, pair, at)
      ensures s.Known(pair.0, pair.1) && Sees(stops, (Resolve(s.base, pair.0), Resolve(s.cand, pair.1)))
    {
      StopFollows(s, w, stops[i]);
      HeadIs(s, w, pair);
    }
  }

  // ---- what the absence of a breaking change says

  /** Nothing breaking is reported exactly when no stop meets a rule for something breaking. */
  lemma CompatibleIff(s: Scene, a: Id, b: Id, place: Place) returns (stops: seq<Stop>)
    requires s.Valid() && s.Known(a, b)
    ensures WalkerOf(s).Valid() && (a, b) in WalkerOf(s).universe
    ensures Itinerary(s, a, b, place, stops)
    ensures NoBreaking(Visit(WalkerOf(s), (a, b), place, Trace([], {})).changes) <==>
      forall c :: ReportedOn(s, stops, c) ==> c.classification == Additive
  {
    stops := WalkReports(s, a, b, place);
    var changes := Visit(WalkerOf(s), (a, b), place, Trace([], {})).changes;
    forall k | 0 <= k < |changes|
      ensures ReportedOn(s, stops, changes[k])
    {
      assert changes[k] in changes;
    }
  }

  /** `readOnly` and `writeOnly` read the same, and so does `default`, unless it is the contract revision that
      advances at one of its two places. */
  ghost predicate AnnotationsKept(s: Scene, o: Node, n: Node, place: Place)
    requires o.Schema? && n.Schema?
  {
    && PyEq(Get(o.keywords, ReadOnly), Get(n.keywords, ReadOnly))
    && PyEq(Get(o.keywords, WriteOnly), Get(n.keywords, WriteOnly))
    && (PyEq(Get(o.keywords, Default), Get(n.keywords, Default))
        || RevisionAdvances(s, Get(o.keywords, Default), Get(n.keywords, Default), place))
  }

  /** A comparison without a breaking change keeps the annotations at every pair whose constraints it compares. */
  lemma CompatibleKeepsAnnotations(s: Scene, a: Id, b: Id, place: Place) returns (stops: seq<Stop>)
    requires s.Valid() && s.Known(a, b) && WalkerOf(s).Valid()
    requires NoBreaking(Visit(WalkerOf(s), (a, b), place, Trace([], {})).changes)
    ensures Itinerary(s, a, b, place, stops)
    ensures forall i :: 0 <= i < |stops| && ComparesKeys(s, s.base.nodes[stops[i].at.0], s.cand.nodes[stops[i].at.1]) ==>
      AnnotationsKept(s, s.base.nodes[stops[i].at.0], s.cand.nodes[stops[i].at.1], stops[i].place)
  {
    stops := CompatibleIff(s, a, b, place);
    forall i | 0 <= i < |stops| && ComparesKeys(s, s.base.nodes[stops[i].at.0], s.cand.nodes[stops[i].at.1])
      ensures AnnotationsKept(s, s.base.nodes[stops[i].at.0], s.cand.nodes[stops[i].at.1], stops[i].place)
    {
      assert !ReportedOn(s, stops, Change(Breaking, SchemaConstraintChange, stops[i].place));
      StopKeepsAnnotations(s, stops[i].at.0, stops[i].at.1, stops[i].place);
    }
  }

  lemma StopKeepsAnnotations(s: Scene, a: Id, b: Id, place: Place)
    requires s.Valid() && s.Known(a, b) && ComparesKeys(s, s.base.nodes[a], s.cand.nodes[b])
    requires !Reported(s, a, b, place, Change(Breaking, SchemaConstraintChange, place))
    ensures AnnotationsKept(s, s.base.nodes[a], s.cand.nodes[b], place)
  {
    var o, n := s.base.nodes[a], s.cand.nodes[b];
    var c := Change(Breaking, SchemaConstraintChange, place);
    assert !KeyReport(s, o, n, ReadOnly, place, c);
    assert !KeyReport(s, o, n, WriteOnly, place, c);
    assert !KeyReport(s, o, n, Default, place, c);
  }
}
