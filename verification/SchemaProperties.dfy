module SchemaProperties {
  /** Further facts about the schema walk: how the readings of acceptance relate, what the guarantees say
      of plain JSON Schema validity, and which documents are compared without any report. */

  import opened Common
  import opened Json
  import opened SchemaGraph
  import opened SchemaTraversal
  import opened SchemaWalk
  import opened SchemaAlike
  import opened SchemaMeaning
  import opened SchemaSoundness

  // ---- the three readings of acceptance

  /** Positions from which no schema leads out of the set. */
  ghost predicate ClosedUnder(g: Graph, scope: set<Id>) {
    forall a {:trigger a in scope} :: a in scope ==> a in g.nodes && Around(g, g.nodes[a]) <= scope
  }

  /** Every schema of the set that lists properties forbids all others. */
  ghost predicate Sealed(g: Graph, scope: set<Id>) {
    forall a :: a in scope && a in g.nodes ==> SealedNode(g.nodes[a])
  }

  ghost predicate Implies(g: Graph, scope: set<Id>, from: Reading, to: Reading) {
    forall a :: a in scope && a in g.nodes ==> Loosens(from, to, g.nodes[a])
  }

  ghost predicate Weakens(check: Check, g: Graph, scope: set<Id>, from: Reading, to: Reading, n: nat) {
    forall a, v {:trigger Accepts(check, from, g, a, v, n)} {:trigger Accepts(check, to, g, a, v, n)} ::
      a in scope && Accepts(check, from, g, a, v, n) ==> Accepts(check, to, g, a, v, n)
  }

  /** Closed acceptance implies exact acceptance, which implies open acceptance; with sealed records
      closed and exact acceptance are the same. */
  lemma {:induction false} ReadingsNest(check: Check, g: Graph, scope: set<Id>, from: Reading, to: Reading, n: nat)
    requires ClosedUnder(g, scope) && Implies(g, scope, from, to)
    ensures Weakens(check, g, scope, from, to, n)
  {
    if n > 0 {
      ReadingsNest(check, g, scope, from, to, n - 1);
      forall a: Id, v | a in scope && Accepts(check, from, g, a, v, n)
        ensures Accepts(check, to, g, a, v, n)
      {
        var f, h := Level(check, from, g, n - 1), Level(check, to, g, n - 1);
        forall c, w | c in Around(g, g.nodes[a]) && w in Parts(v) && f(c, w)
          ensures h(c, w)
        {
          assert c in scope && Accepts(check, from, g, c, w, n - 1);
        }
        NodeGrows(check, g, from, to, g.nodes[a], v, f, h);
      }
    }
  }

  lemma ValidWeakens(check: Check, g: Graph, scope: set<Id>, from: Reading, to: Reading, a: Id, v: Json)
    requires ClosedUnder(g, scope) && Implies(g, scope, from, to) && a in scope && ValidAt(check, from, g, a, v)
    ensures ValidAt(check, to, g, a, v)
  {
    var n: nat :| Accepts(check, from, g, a, v, n);
    ReadingsNest(check, g, scope, from, to, n);
    assert Accepts(check, to, g, a, v, n);
  }

  lemma AroundIsKnown(g: Graph, a: Id, c: Id)
    requires g.Valid() && a in g.nodes && c in Around(g, g.nodes[a])
    ensures c in g.nodes
  {
    g.KidsAreKnown(a);
    if c in Kids(g.nodes[a]) {
    } else if c != g.empty {
      assert Target(g, g.nodes[a]) == Some(c);
    }
  }

  lemma DocumentIsClosed(g: Graph)
    requires g.Valid()
    ensures ClosedUnder(g, g.nodes.Keys)
  {
    forall a, c | a in g.nodes && c in Around(g, g.nodes[a])
      ensures c in g.nodes
    {
      AroundIsKnown(g, a, c);
    }
  }

  /** Where the request records reachable from a schema are sealed, as the service's strict schemas are,
      the request guarantee holds of plain JSON Schema validity. */
  lemma SealedRequestSoundness(
    s: Scene, check: Check, pairs: set<Marker>, a: Id, b: Id, location: Place, changes: seq<Change>,
    scope: set<Id>, v: Json)
    requires s.Valid() && s.Known(a, b) && s.direction == Request && Passes(s, check, pairs, a, b, location, changes)
    requires a in scope && ClosedUnder(s.base, scope) && Sealed(s.base, scope)
    requires ValidAt(check, Exact, s.base, a, v)
    ensures ValidAt(check, Exact, s.cand, b, v)
  {
    ValidWeakens(check, s.base, scope, Exact, ClosedRecords, a, v);
    RequestSoundness(s, check, pairs, a, b, location, changes, v);
    DocumentIsClosed(s.cand);
    ValidWeakens(check, s.cand, s.cand.nodes.Keys, ClosedRecords, Exact, b, v);
  }

  /** What a valid response of the candidate means for a client of the base. */
  lemma ExactResponseSoundness(
    s: Scene, check: Check, pairs: set<Marker>, a: Id, b: Id, location: Place, changes: seq<Change>, v: Json)
    requires s.Valid() && s.Known(a, b) && s.direction == Response && Passes(s, check, pairs, a, b, location, changes)
    requires ValidAt(check, Exact, s.cand, b, v)
    ensures ValidAt(check, OpenRecords, s.base, a, v)
  {
    DocumentIsClosed(s.cand);
    ValidWeakens(check, s.cand, s.cand.nodes.Keys, Exact, OpenRecords, b, v);
    ResponseSoundness(s, check, pairs, a, b, location, changes, v);
  }

  // ---- pairs that are compared without a report

  /** Every keyword that should hold a list or an object does. */
  ghost predicate WellShaped(g: Graph) {
    forall a :: a in g.nodes ==> ShapedNode(g.nodes[a])
  }

  predicate ShapedNode(n: Node) {
    n.Schema? ==>
      && !n.oneOf.NotAVariantList? && !n.anyOf.NotAVariantList? && !n.allOf.NotAVariantList?
      && !n.enum.NotAnEnumList? && !n.properties.NotAPropertyMap?
  }

  /** Pairs of positions that hold the same. */
  ghost function Alike(s: Scene): set<Marker>
    requires s.Valid()
  {
    set m | m in s.Pairs() && Equal(s.base, m.0, s.cand, m.1)
  }

  /** The keywords the checker looks at somewhere read the same. */
  ghost predicate WatchedAgree(o: Node, n: Node)
    requires o.Schema? && n.Schema?
  {
    forall key: Key {:trigger Get(n.keywords, key)} ::
      !key.Other? && key != MinProperties && key != MaxProperties ==> PyEq(Get(o.keywords, key), Get(n.keywords, key))
  }

  /** Two schemas of the same form over children that are alike, equal up to the keywords that are never
      looked at. */
  ghost predicate Twins(s: Scene, a: Id, b: Id)
    requires s.Valid()
  {
    && s.Known(a, b) && s.base.nodes[a].Schema? && s.cand.nodes[b].Schema?
    && ShapedNode(s.base.nodes[a])
    && SameForm(s.base.nodes[a], s.cand.nodes[b]) && WatchedAgree(s.base.nodes[a], s.cand.nodes[b])
    && AlikeLists(s, Kids(s.base.nodes[a]), Kids(s.cand.nodes[b]))
  }

  lemma EqualAreTwins(s: Scene, a: Id, b: Id)
    requires s.Valid() && s.Known(a, b) && Equal(s.base, a, s.cand, b) && WellShaped(s.base)
    requires s.base.nodes[a].Schema? && s.cand.nodes[b].Schema?
    ensures Twins(s, a, b)
  {
    var o, n := s.base.nodes[a], s.cand.nodes[b];
    EqualIsAlike(s, a, b);
    assert SameShell(o, n);
    forall key: Key
      ensures PyEq(Get(o.keywords, key), Get(n.keywords, key))
    {
    }
  }

  lemma KeywordStepsGrow(s: Scene, o: Node, n: Node, location: Place, k: nat)
    requires o.Schema? && n.Schema? && k < KeyCount()
    ensures KeywordSteps(s, o, n, location, k + 1)
         == KeywordSteps(s, o, n, location, k) + Keyword(s, o, n, location, CONSTRAINT_KEYS[k])
  {
  }

  lemma {:induction false} NothingToReport(s: Scene, o: Node, n: Node, location: Place, k: nat)
    requires o.Schema? && n.Schema? && k <= KeyCount()
    requires forall i: nat {:trigger CONSTRAINT_KEYS[i]} :: i < k ==> Keyword(s, o, n, location, CONSTRAINT_KEYS[i]) == []
    ensures KeywordSteps(s, o, n, location, k) == []
  {
    if k > 0 {
      NothingToReport(s, o, n, location, k - 1);
      KeywordStepsGrow(s, o, n, location, k - 1);
    }
  }

  lemma QuietConcat(p: seq<Step>, q: seq<Step>, calm: set<Marker>)
    requires QuietSteps(p, calm) && QuietSteps(q, calm)
    ensures QuietSteps(p + q, calm)
  {
  }

  lemma IndexStepsAreQuiet(xs: seq<Id>, ys: seq<Id>, c: Combinator, location: Place, calm: set<Marker>)
    requires |xs| == |ys| && forall i :: 0 <= i < |xs| ==> (xs[i], ys[i]) in calm
    ensures QuietSteps(IndexSteps(xs, ys, c, location, |xs|), calm)
  {
  }

  lemma AlikeMatch(s: Scene, xs: seq<Id>, ys: seq<Id>)
    requires s.Valid() && AlikeLists(s, xs, ys)
    ensures Listed(s.base, xs) && Listed(s.cand, ys) && SameLists(s, xs, ys) && AllMatched(s, xs, ys)
  {
    forall i | 0 <= i < |xs|
      ensures Same(s.base, xs[i], s.cand, ys[i]) && FirstMatch(s, xs[i], ys) < |ys|
    {
      EqualIsSame(s, xs[i], ys[i]);
    }
  }

  /** Where a request has variants that `_semantic` confuses, an old variant may be compared with another one. */
  ghost predicate MatchesAreEqual(s: Scene)
    requires s.Valid()
  {
    s.direction == Request ==> ToldApart(s.base, s.cand)
  }

  /** Both schemas start with the same combinator, over variants that are alike. */
  ghost predicate AlikeVariants(s: Scene, a: Id, b: Id, c: Combinator)
    requires s.Valid()
  {
    && s.Known(a, b) && s.base.nodes[a].Schema? && s.cand.nodes[b].Schema?
    && FirstCombinator(s.base.nodes[a]) == Some(c) == FirstCombinator(s.cand.nodes[b])
    && VariantsOf(s.base.nodes[a], c).VariantList? && VariantsOf(s.cand.nodes[b], c).VariantList?
    && AlikeLists(s, VariantsOf(s.base.nodes[a], c).ids, VariantsOf(s.cand.nodes[b], c).ids)
  }

  ghost predicate PairwisePlan(plan: VariantPlan, calm: set<Marker>) {
    match plan
    case Matched(xs, ys, zs, _) => |xs| == |ys| == |zs| && forall i :: 0 <= i < |xs| ==> (xs[i], zs[i]) in calm
    case Indexed(xs, ys, _) => |xs| == |ys| && forall i :: 0 <= i < |xs| ==> (xs[i], ys[i]) in calm
    case Whole(_) => false
  }

  /** They are compared pairwise, also when a variant occurs twice. */
  lemma AlikePlan(s: Scene, a: Id, b: Id, c: Combinator)
    requires s.Valid() && MatchesAreEqual(s) && AlikeVariants(s, a, b, c)
    ensures PairwisePlan(PlanVariants(s, a, b), Alike(s))
  {
    AlikeMatch(s, VariantsOf(s.base.nodes[a], c).ids, VariantsOf(s.cand.nodes[b], c).ids);
    var plan := PlanVariants(s, a, b);
    if plan.Matched? {
      ListedVariants(s.base, a, c);
      ListedVariants(s.cand, b, c);
      MatchesAreAlike(s, plan.xs, plan.ys);
    } else {
      AlikeListed(s, plan.xs, plan.ys);
    }
  }

  lemma PairwisePlanIsQuiet(plan: VariantPlan, location: Place, calm: set<Marker>)
    requires PairwisePlan(plan, calm)
    ensures QuietSteps(PlanSteps(plan, location), calm)
  {
    match plan
    case Matched(xs, ys, zs, c) =>
      IndexStepsAreQuiet(xs, zs, c, location, calm);
      assert IndexSteps(xs, zs, c, location, |xs|) + [] == IndexSteps(xs, zs, c, location, |xs|);
    case Indexed(xs, ys, c) =>
      IndexStepsAreQuiet(xs, ys, c, location, calm);
  }

  lemma AlikeVariantsAreQuiet(s: Scene, a: Id, b: Id, c: Combinator, location: Place)
    requires s.Valid() && MatchesAreEqual(s) && AlikeVariants(s, a, b, c)
    ensures QuietSteps(PlanSteps(PlanVariants(s, a, b), location), Alike(s))
  {
    AlikePlan(s, a, b, c);
    PairwisePlanIsQuiet(PlanVariants(s, a, b), location, Alike(s));
  }

  lemma TwinVariants(s: Scene, a: Id, b: Id, c: Combinator)
    requires s.Valid() && Twins(s, a, b)
    requires FirstCombinator(s.base.nodes[a]) == Some(c) || FirstCombinator(s.cand.nodes[b]) == Some(c)
    ensures AlikeVariants(s, a, b, c)
  {
    AlikeParts(s, a, b);
    assert AlikeLists(s, VariantIds(VariantsOf(s.base.nodes[a], c)), VariantIds(VariantsOf(s.cand.nodes[b], c)));
  }

  ghost predicate AreVariants(g: Graph, ids: seq<Id>) {
    forall i :: 0 <= i < |ids| ==> IsVariant(g, ids[i])
  }

  lemma ListedVariants(g: Graph, a: Id, c: Combinator)
    requires a in g.nodes && g.nodes[a].Schema?
    ensures AreVariants(g, VariantIds(VariantsOf(g.nodes[a], c)))
  {
  }

  lemma MatchesAreAlike(s: Scene, xs: seq<Id>, ys: seq<Id>)
    requires s.Valid() && ToldApart(s.base, s.cand) && Listed(s.base, xs) && Listed(s.cand, ys) && AllMatched(s, xs, ys)
    requires AreVariants(s.base, xs) && AreVariants(s.cand, ys)
    ensures forall i :: 0 <= i < |xs| ==> (xs[i], Matches(s, xs, ys)[i]) in Alike(s)
  {
    var zs := Matches(s, xs, ys);
    forall i | 0 <= i < |xs|
      ensures (xs[i], zs[i]) in Alike(s)
    {
      assert FirstMatch(s, xs[i], ys) < |ys|;
      assert zs[i] == ys[FirstMatch(s, xs[i], ys)];
    }
  }

  lemma AlikeListed(s: Scene, xs: seq<Id>, ys: seq<Id>)
    requires s.Valid() && AlikeLists(s, xs, ys)
    ensures forall i :: 0 <= i < |xs| ==> (xs[i], ys[i]) in Alike(s)
  {
  }

  lemma AlikeEnumsAreQuiet(direction: Direction, e: Enum, f: Enum, location: Place)
    requires SameEnum(e, f) && !e.NotAnEnumList?
    ensures CompareEnums(direction, e, f, location) == EnumVerdict([], false)
  {
    if e.EnumList? {
      var x, y := e.values, f.values;
      assert PyForm(Arr(x)).items == PyForm(Arr(y)).items;
      forall i | 0 <= i < |x|
        ensures |x| == |y| && PyEq(x[i], y[i])
      {
        assert PyForm(Arr(x)).items[i] == PyForm(x[i]) && PyForm(Arr(y)).items[i] == PyForm(y[i]);
      }
    }
  }

  lemma FindListed(members: seq<Member>, k: nat, name: string)
    requires k < |members| && members[k].name == name
    ensures Find(members, name).Some?
  {
  }

  lemma FindDistinct(members: seq<Member>, k: nat)
    requires k < |members| && DistinctNames(members)
    ensures Find(members, members[k].name) == Some(members[k].id)
  {
    var r := Find(members, members[k].name);
    if r.Some? {
      var j :| 0 <= j < |members| && members[j] == Member(members[k].name, r.value);
    }
  }

  lemma {:induction false} PropertiesAreQuiet(s: Scene, o: Node, n: Node, location: Place, k: nat, calm: set<Marker>)
    requires o.Schema? && n.Schema? && k <= |PropertyMembers(o.properties)|
    requires forall i :: 0 <= i < k ==> QuietSteps(OldProperty(s, o, n, location, PropertyMembers(o.properties)[i]), calm)
    ensures QuietSteps(OldPropertySteps(s, o, n, location, k), calm)
  {
    if k > 0 {
      PropertiesAreQuiet(s, o, n, location, k - 1, calm);
      QuietConcat(OldPropertySteps(s, o, n, location, k - 1),
                  OldProperty(s, o, n, location, PropertyMembers(o.properties)[k - 1]), calm);
    }
  }

  /** Properties of the same name are alike. */
  lemma TwinProperty(s: Scene, a: Id, b: Id, k: nat)
    requires s.Valid() && Twins(s, a, b) && k < |PropertyMembers(s.base.nodes[a].properties)|
    ensures var p, q := PropertyMembers(s.base.nodes[a].properties), PropertyMembers(s.cand.nodes[b].properties);
      k < |q| && q[k].name == p[k].name && (p[k].id, q[k].id) in Alike(s)
  {
    AlikeParts(s, a, b);
    AlikeMember(s, PropertyMembers(s.base.nodes[a].properties), PropertyMembers(s.cand.nodes[b].properties), k);
  }

  lemma AlikeMember(s: Scene, p: seq<Member>, q: seq<Member>, k: nat)
    requires s.Valid() && AlikeLists(s, MemberIds(p), MemberIds(q)) && k < |p|
    ensures k < |q| && (p[k].id, q[k].id) in Alike(s)
  {
    assert |MemberIds(p)| == |p| && |MemberIds(q)| == |q|;
    assert MemberIds(p)[k] == p[k].id && MemberIds(q)[k] == q[k].id;
  }

  lemma TwinPropertyIsQuiet(s: Scene, a: Id, b: Id, location: Place, k: nat)
    requires s.Valid() && Twins(s, a, b) && k < |PropertyMembers(s.base.nodes[a].properties)|
    ensures var o, n := s.base.nodes[a], s.cand.nodes[b];
      QuietSteps(OldProperty(s, o, n, location, PropertyMembers(o.properties)[k]), Alike(s))
  {
    TwinProperty(s, a, b, k);
    assert s.cand.NodeValid(b);
    FindDistinct(PropertyMembers(s.cand.nodes[b].properties), k);
    MatchedPropertyIsQuiet(s, s.base.nodes[a], s.cand.nodes[b], location, k);
  }

  lemma MatchedPropertyIsQuiet(s: Scene, o: Node, n: Node, location: Place, k: nat)
    requires s.Valid() && o.Schema? && n.Schema? && o.required == n.required
    requires k < |PropertyMembers(o.properties)| && k < |PropertyMembers(n.properties)|
    requires var p, q := PropertyMembers(o.properties)[k], PropertyMembers(n.properties)[k];
      Find(PropertyMembers(n.properties), p.name) == Some(q.id) && (p.id, q.id) in Alike(s)
    ensures QuietSteps(OldProperty(s, o, n, location, PropertyMembers(o.properties)[k]), Alike(s))
  {
    var p, q := PropertyMembers(o.properties)[k], PropertyMembers(n.properties)[k];
    assert OldProperty(s, o, n, location, p) == [Walk((p.id, q.id), Property(location, p.name))];
  }

  lemma KnownAddsNothing(o: Node, n: Node, location: Place, q: Member)
    requires o.Schema? && n.Schema? && Find(PropertyMembers(o.properties), q.name).Some?
    ensures NewProperty(o, n, location, q) == []
  {
  }

  lemma SameNameAt(x: Properties, y: Properties, k: nat)
    requires SameNames(x, y) && k < |PropertyMembers(y)|
    ensures k < |PropertyMembers(x)| && Find(PropertyMembers(x), PropertyMembers(y)[k].name).Some?
  {
    FindListed(PropertyMembers(x), k, PropertyMembers(y)[k].name);
  }

  lemma {:induction false} AlikeAddsNothing(o: Node, n: Node, location: Place, k: nat)
    requires o.Schema? && n.Schema? && SameNames(o.properties, n.properties)
    requires k <= |PropertyMembers(n.properties)|
    ensures NewPropertySteps(o, n, location, k) == []
  {
    if k > 0 {
      var q := PropertyMembers(n.properties)[k - 1];
      assert NewProperty(o, n, location, q) == [] by {
        SameNameAt(o.properties, n.properties, k - 1);
        KnownAddsNothing(o, n, location, q);
      }
      AlikeAddsNothing(o, n, location, k - 1);
      assert NewPropertySteps(o, n, location, k) == NewPropertySteps(o, n, location, k - 1) + NewProperty(o, n, location, q);
    }
  }

  lemma TwinObjectsAreQuiet(s: Scene, a: Id, b: Id, location: Place)
    requires s.Valid() && Twins(s, a, b)
    ensures QuietSteps(ObjectSteps(s, a, b, location), Alike(s))
  {
    var o, n := s.base.nodes[a], s.cand.nodes[b];
    var x := OldPropertySteps(s, o, n, location, |PropertyMembers(o.properties)|);
    forall i | 0 <= i < |PropertyMembers(o.properties)|
      ensures QuietSteps(OldProperty(s, o, n, location, PropertyMembers(o.properties)[i]), Alike(s))
    {
      TwinPropertyIsQuiet(s, a, b, location, i);
    }
    PropertiesAreQuiet(s, o, n, location, |PropertyMembers(o.properties)|, Alike(s));
    AlikeAddsNothing(o, n, location, |PropertyMembers(n.properties)|);
    AdditionalIsKnown(s.base, a);
    AdditionalIsKnown(s.cand, b);
    assert !AdditionalDiffers(s, o.additional, n.additional) by {
      AlikeParts(s, a, b);
      if o.additional.Typed? {
        assert AdditionalIds(o)[0] == o.additional.id && AdditionalIds(n)[0] == n.additional.id;
        EqualIsSame(s, o.additional.id, n.additional.id);
      }
    }
    assert ObjectSteps(s, a, b, location) == x + [] + [];
    assert x + [] + [] == x;
  }

  lemma TwinShapesAreQuiet(s: Scene, a: Id, b: Id, location: Place)
    requires s.Valid() && Twins(s, a, b)
    ensures QuietSteps(ShapeSteps(s, a, b, location), Alike(s))
  {
    var o, n := s.base.nodes[a], s.cand.nodes[b];
    assert PyEq(Get(o.keywords, Type), Get(n.keywords, Type)) && PyEq(Get(o.keywords, Format), Get(n.keywords, Format));
    if ObjectLike(o, n) {
      TwinObjectsAreQuiet(s, a, b, location);
    } else {
      WatchedReportsNothing(s, o, n, location);
      TwinItems(s, a, b);
      OneWalkIsQuiet((ItemsOf(s.base, o), ItemsOf(s.cand, n)), Items(location), Alike(s));
    }
  }

  lemma OneWalkIsQuiet(pair: Marker, location: Place, calm: set<Marker>)
    requires pair in calm
    ensures QuietSteps([Walk(pair, location)] + [], calm) && QuietSteps([] + [], calm)
  {
  }

  lemma TwinItems(s: Scene, a: Id, b: Id)
    requires s.Valid() && Twins(s, a, b)
    ensures (ItemsOf(s.base, s.base.nodes[a]), ItemsOf(s.cand, s.cand.nodes[b])) in Alike(s)
  {
    var o, n := s.base.nodes[a], s.cand.nodes[b];
    AlikeParts(s, a, b);
    if o.items.Some? {
      assert ItemIds(o)[0] == ItemsOf(s.base, o) && ItemIds(n)[0] == ItemsOf(s.cand, n);
    } else {
      assert Kids(EMPTY_SCHEMA) == [];
    }
  }

  lemma WatchedKeyReportsNothing(s: Scene, o: Node, n: Node, location: Place, i: nat)
    requires o.Schema? && n.Schema? && WatchedAgree(o, n) && i < KeyCount()
    ensures Keyword(s, o, n, location, CONSTRAINT_KEYS[i]) == []
  {
    ConstraintKeysAreWatched(i);
    assert PyEq(Get(o.keywords, CONSTRAINT_KEYS[i]), Get(n.keywords, CONSTRAINT_KEYS[i]));
  }

  lemma WatchedReportsNothing(s: Scene, o: Node, n: Node, location: Place)
    requires o.Schema? && n.Schema? && WatchedAgree(o, n)
    ensures KeywordSteps(s, o, n, location, KeyCount()) == []
  {
    forall i: nat | i < KeyCount()
      ensures Keyword(s, o, n, location, CONSTRAINT_KEYS[i]) == []
    {
      WatchedKeyReportsNothing(s, o, n, location, i);
    }
    NothingToReport(s, o, n, location, KeyCount());
  }

  lemma ConstraintKeysAreWatched(i: nat)
    requires i < KeyCount()
    ensures !CONSTRAINT_KEYS[i].Other? && CONSTRAINT_KEYS[i] != MinProperties && CONSTRAINT_KEYS[i] != MaxProperties
  {
  }

  /** At such a pair the walk reports nothing, and compares only positions that are alike. */
  lemma TwinStepsAreQuiet(s: Scene, a: Id, b: Id, location: Place)
    requires s.Valid() && MatchesAreEqual(s) && Twins(s, a, b)
    ensures QuietSteps(Steps(s, a, b, location), Alike(s))
  {
    var o, n := s.base.nodes[a], s.cand.nodes[b];
    if FirstCombinator(o).Some? || FirstCombinator(n).Some? {
      var c := if FirstCombinator(o).Some? then FirstCombinator(o).value else FirstCombinator(n).value;
      TwinVariants(s, a, b, c);
      AlikeVariantsAreQuiet(s, a, b, c, location);
    } else {
      AlikeEnumsAreQuiet(s.direction, o.enum, n.enum, location);
      TwinShapesAreQuiet(s, a, b, location);
      QuietConcat([], ShapeSteps(s, a, b, location), Alike(s));
    }
  }

  // ---- documents

  /** References that read the same lead to components that read the same. */
  ghost predicate ReferencesAgree(s: Scene)
    requires s.Valid()
  {
    forall a, b {:trigger Resolve(s.base, a), Resolve(s.cand, b)} ::
      s.Known(a, b) && Equal(s.base, a, s.cand, b) ==> Equal(s.base, Resolve(s.base, a), s.cand, Resolve(s.cand, b))
  }

  /** Then alike positions are compared without a report. */
  lemma AlikeIsQuiet(s: Scene)
    requires s.Valid() && WellShaped(s.base)
    requires ReferencesAgree(s) && MatchesAreEqual(s)
    ensures WalkerOf(s).Valid() && Quiet(WalkerOf(s), Alike(s))
  {
    WalkerDrives(s);
    var w, calm := WalkerOf(s), Alike(s);
    forall m | m in calm
      ensures w.head(m) in calm
    {
      assert w.head((m.0, m.1)) == (Resolve(s.base, m.0), Resolve(s.cand, m.1));
    }
    forall m, l | m in calm
      ensures QuietSteps(w.plan(m, l), calm)
    {
      AlikeStepsAreQuiet(s, m.0, m.1, l);
    }
  }

  lemma AlikeStepsAreQuiet(s: Scene, a: Id, b: Id, location: Place)
    requires s.Valid() && s.Known(a, b) && Equal(s.base, a, s.cand, b) && WellShaped(s.base) && MatchesAreEqual(s)
    ensures QuietSteps(Steps(s, a, b, location), Alike(s))
  {
    if s.base.nodes[a].Schema? && s.cand.nodes[b].Schema? {
      EqualAreTwins(s, a, b);
      TwinStepsAreQuiet(s, a, b, location);
    } else {
      EqualIsSame(s, a, b);
    }
  }

  lemma AlikeResolve(s: Scene, a: Id, b: Id)
    requires s.Valid() && s.base == s.cand && s.Known(a, b) && Equal(s.base, a, s.cand, b)
    ensures Equal(s.base, Resolve(s.base, a), s.cand, Resolve(s.cand, b))
  {
    var x, y := Resolve(s.base, a), Resolve(s.cand, b);
    if s.base.nodes[a].Schema? && x == y {
      EqualIsReflexive(s.base, x);
    }
  }

  /** A document compared with itself, from positions that read the same: nothing is reported, whatever the
      contract revisions.  A request needs variants that are told apart (`SchemaLeniency.SelfComparisonCanFail`). */
  lemma SelfComparisonIsSilent(s: Scene, a: Id, b: Id, location: Place, t: Trace)
    requires s.Valid() && s.base == s.cand && WellShaped(s.base) && MatchesAreEqual(s)
    requires s.Known(a, b) && Equal(s.base, a, s.cand, b)
    ensures WalkerOf(s).Valid() && (a, b) in s.Pairs()
    ensures Visit(WalkerOf(s), (a, b), location, t).changes == t.changes
  {
    forall c: Id, d: Id | s.Known(c, d) && Equal(s.base, c, s.cand, d)
      ensures Equal(s.base, Resolve(s.base, c), s.cand, Resolve(s.cand, d))
    {
      AlikeResolve(s, c, d);
    }
    AlikeIsQuiet(s);
    QuietVisit(WalkerOf(s), Alike(s), (a, b), location, t);
  }

  /** A keyword the checker never looks at can change freely: between two schemas that are equal up to such
      keywords nothing is reported, whatever the keywords demand. */
  lemma UnknownKeywordsPass(s: Scene, a: Id, b: Id, location: Place, t: Trace)
    requires s.Valid() && WellShaped(s.base) && MatchesAreEqual(s)
    requires ReferencesAgree(s)
    requires s.Known(a, b) && Twins(s, Resolve(s.base, a), Resolve(s.cand, b))
    ensures WalkerOf(s).Valid() && (a, b) in s.Pairs()
    ensures Visit(WalkerOf(s), (a, b), location, t).changes == t.changes
  {
    WalkerDrives(s);
    AlikeIsQuiet(s);
    var w, x, y := WalkerOf(s), Resolve(s.base, a), Resolve(s.cand, b);
    assert w.head((a, b)) == (x, y);
    if (x, y) !in t.seen {
      TwinStepsAreQuiet(s, x, y, location);
      assert w.plan((x, y), location) == Steps(s, x, y, location);
      QuietRun(w, Alike(s), Steps(s, x, y, location), Trace(t.changes, t.seen + {(x, y)}));
    }
  }
}
