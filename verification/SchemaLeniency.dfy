module SchemaLeniency {
  /** Where the checker is more lenient than inclusion of accepted values.

      For each condition of SchemaConditions: what the walk does without it, whatever the schemas are, a
      value that shows the guarantee fails there, in every direction to which the condition applies, and,
      where one construct decides, exactly when it holds. */

  import opened Common
  import opened Json
  import opened SchemaGraph
  import opened SchemaTraversal
  import opened SchemaWalk
  import opened SchemaAlike
  import opened SchemaMeaning
  import opened SchemaMirror
  import opened SchemaConditions
  import opened SchemaSoundness
  import opened SchemaProperties

  /** Every value accepted at the writer's position is accepted at the reader's. */
  ghost predicate Included(s: Scene, check: Check, a: Id, b: Id) {
    forall v :: ValidAt(check, ReadingOf(s), WriterGraph(s), WriterId(s, a, b), v) ==>
      ValidAt(check, ReadingOf(s), ReaderGraph(s), ReaderId(s, a, b), v)
  }

  lemma RequestIncluded(s: Scene, check: Check, a: Id, b: Id)
    requires s.direction == Request
    ensures Included(s, check, a, b) <==> AddsNothing(s, check, a, b)
  {
    if Included(s, check, a, b) {
      forall v | ValidAt(check, ClosedRecords, s.base, a, v)
        ensures ValidAt(check, ClosedRecords, s.cand, b, v)
      {
        assert ValidAt(check, ReadingOf(s), WriterGraph(s), WriterId(s, a, b), v);
      }
    }
  }

  /** However undeclared members are read, `v` is accepted. */
  ghost predicate Admitted(check: Check, g: Graph, a: Id, v: Json) {
    forall reading: Reading :: ValidAt(check, reading, g, a, v)
  }

  /** A reader rejects `v`: a server that reads undeclared members exactly or as never sent, or a client
      that ignores them. */
  ghost predicate Rejected(check: Check, direction: Direction, g: Graph, a: Id, v: Json) {
    forall reading :: direction == Response || reading != OpenRecords ==> !ValidAt(check, reading, g, a, v)
  }

  /** The walk from two positions reports nothing breaking, although the writer may send `v` and the reader
      does not accept it. */
  ghost predicate Misjudged(s: Scene, check: Check, a: Id, b: Id, v: Json) {
    && s.Valid() && s.Known(a, b)
    && WalkerOf(s).Valid() && (a, b) in WalkerOf(s).universe
    && NoBreaking(Visit(WalkerOf(s), (a, b), Top("schema"), Trace([], {})).changes)
    && Admitted(check, WriterGraph(s), WriterId(s, a, b), v)
    && Rejected(check, s.direction, ReaderGraph(s), ReaderId(s, a, b), v)
  }

  /** So the guarantee fails there, also of values that are valid exactly. */
  lemma MisjudgedFails(s: Scene, check: Check, a: Id, b: Id, v: Json)
    requires Misjudged(s, check, a, b, v)
    ensures !Included(s, check, a, b)
    ensures ValidAt(check, Exact, WriterGraph(s), WriterId(s, a, b), v)
    ensures !ValidAt(check, if s.direction == Request then Exact else OpenRecords, ReaderGraph(s), ReaderId(s, a, b), v)
  {
    assert ValidAt(check, ReadingOf(s), WriterGraph(s), WriterId(s, a, b), v);
  }

  // ---- walks that report little

  lemma VisitRuns(s: Scene, a: Id, b: Id, location: Place, t: Trace)
    requires s.Valid() && s.Known(a, b) && (Resolve(s.base, a), Resolve(s.cand, b)) !in t.seen
    ensures Drives(WalkerOf(s), s) && (a, b) in WalkerOf(s).universe
    ensures var m := (Resolve(s.base, a), Resolve(s.cand, b));
      && WalkerOf(s).Closed(Steps(s, m.0, m.1, location))
      && Visit(WalkerOf(s), (a, b), location, t)
         == Run(WalkerOf(s), Steps(s, m.0, m.1, location), Trace(t.changes, t.seen + {m}))
  {
    WalkerDrives(s);
    var w, m := WalkerOf(s), (Resolve(s.base, a), Resolve(s.cand, b));
    assert w.head((a, b)) == m;
    assert w.plan(m, location) == Steps(s, m.0, m.1, location);
  }

  /** A pair at which at most one change is reported and nothing compared. */
  lemma ReportOnly(s: Scene, a: Id, b: Id, location: Place, t: Trace)
    requires s.Valid() && s.Known(a, b) && (Resolve(s.base, a), Resolve(s.cand, b)) !in t.seen
    requires AtMostOneReport(Steps(s, Resolve(s.base, a), Resolve(s.cand, b), location))
    ensures Drives(WalkerOf(s), s) && (a, b) in WalkerOf(s).universe
    ensures var steps := Steps(s, Resolve(s.base, a), Resolve(s.cand, b), location);
      Visit(WalkerOf(s), (a, b), location, t)
      == Trace(t.changes + (if steps == [] then [] else [steps[0].change]), t.seen + {(Resolve(s.base, a), Resolve(s.cand, b))})
  {
    VisitRuns(s, a, b, location, t);
    var m := (Resolve(s.base, a), Resolve(s.cand, b));
    RunReport(WalkerOf(s), Steps(s, m.0, m.1, location), Trace(t.changes, t.seen + {m}));
  }

  // ---- small documents: a schema at 2, and components A at 3 and B at 4

  function SmallGraph(x: Node, y: Node, z: Node): Graph {
    Graph(map[0 := EMPTY_SCHEMA, 1 := Scalar(Null), 2 := x, 3 := y, 4 := z], [Member("A", 3), Member("B", 4)], 5, 0, 1)
  }

  ghost predicate Lower(n: Node, a: Id) {
    && (forall c {:trigger c in Kids(n)} :: c in Kids(n) ==> a < c < 5)
    && (n.Schema? ==> DistinctNames(PropertyMembers(n.properties)))
  }

  lemma SmallNodeIsValid(g: Graph, a: Id)
    requires g.nodes.Keys == {0, 1, 2, 3, 4} && g.size == 5 && a in g.nodes && Lower(g.nodes[a], a)
    ensures a < g.size && g.NodeValid(a)
  {
    assert a in {0, 1, 2, 3, 4};
    forall c | c in Kids(g.nodes[a])
      ensures a < c && c in g.nodes
    {
      assert c == 1 || c == 2 || c == 3 || c == 4;
    }
  }

  lemma SmallGraphIsValid(x: Node, y: Node, z: Node)
    requires Lower(x, 2) && Lower(y, 3) && Lower(z, 4)
    ensures SmallGraph(x, y, z).Valid()
  {
    var g := SmallGraph(x, y, z);
    assert Lower(EMPTY_SCHEMA, 0) && Lower(Scalar(Null), 1);
    forall a {:trigger g.NodeValid(a)} | a in g.nodes
      ensures a < g.size && g.NodeValid(a)
    {
      assert Lower(g.nodes[a], a);
      SmallNodeIsValid(g, a);
    }
  }

  /** Two such documents: what the writer sees, and what the reader sees. */
  function SmallScene(direction: Direction, x: Node, y: Node, z: Node, x': Node, y': Node, z': Node): Scene {
    var writer, reader := SmallGraph(x, y, z), SmallGraph(x', y', z');
    Scene(if direction == Request then writer else reader, if direction == Request then reader else writer, direction,
          Some(1), Some(1), Some(1), Some(2), {})
  }

  ghost predicate IsSmall(g: Graph, x: Node, y: Node, z: Node) {
    && g.nodes.Keys == {0, 1, 2, 3, 4}
    && g.nodes[0] == EMPTY_SCHEMA && g.nodes[1] == Scalar(Null)
    && g.nodes[2] == x && g.nodes[3] == y && g.nodes[4] == z
    && g.schemas == [Member("A", 3), Member("B", 4)]
  }

  ghost predicate Small(s: Scene, x: Node, y: Node, z: Node, x': Node, y': Node, z': Node) {
    s.Valid() && IsSmall(WriterGraph(s), x, y, z) && IsSmall(ReaderGraph(s), x', y', z')
  }

  lemma SmallIsKnown(s: Scene, x: Node, y: Node, z: Node, x': Node, y': Node, z': Node)
    requires Small(s, x, y, z, x', y', z')
    ensures s.Known(2, 2) && s.Known(3, 3) && s.Known(4, 4)
  {
    assert 2 in {0, 1, 2, 3, 4} && 3 in {0, 1, 2, 3, 4} && 4 in {0, 1, 2, 3, 4};
  }

  lemma SmallSceneIsSmall(direction: Direction, x: Node, y: Node, z: Node, x': Node, y': Node, z': Node)
    requires Lower(x, 2) && Lower(y, 3) && Lower(z, 4) && Lower(x', 2) && Lower(y', 3) && Lower(z', 4)
    ensures Small(SmallScene(direction, x, y, z, x', y', z'), x, y, z, x', y', z')
  {
    SmallGraphIsValid(x, y, z);
    SmallGraphIsValid(x', y', z');
  }

  /** The small documents with these schemas, at the writer and at the reader, are misjudged at 2, because
      of `v`. */
  ghost predicate Refuted(
    check: Check, direction: Direction, v: Json, x: Node, y: Node, z: Node, x': Node, y': Node, z': Node)
  {
    exists s: Scene :: s.direction == direction && Small(s, x, y, z, x', y', z') && Misjudged(s, check, 2, 2, v)
  }

  const REF_A: string := REF_PREFIX + "A"
  const REF_B: string := REF_PREFIX + "B"

  lemma SmallTargets(g: Graph, n: Node)
    requires g.schemas == [Member("A", 3), Member("B", 4)] && 3 in g.nodes && 4 in g.nodes && n.Schema?
    ensures n.ref == None ==> Target(g, n) == None
    ensures n.ref == Some(REF_A) ==> Target(g, n) == Some(3)
    ensures n.ref == Some(REF_B) ==> Target(g, n) == Some(4)
  {
    assert REF_A[|REF_PREFIX|..] == "A" && REF_B[|REF_PREFIX|..] == "B";
    assert Find(g.schemas, "A") == Some(3);
    assert g.schemas[1..] == [Member("B", 4)];
    assert Find([Member("B", 4)], "B") == Some(4);
  }

  const TEXT: Node := EMPTY_SCHEMA.(keywords := map[Type := Str("string")])
  const WHOLE_NUMBER: Node := EMPTY_SCHEMA.(keywords := map[Type := Str("integer")])
  const RECORD: Node := EMPTY_SCHEMA.(keywords := map[Type := Str("object")])

  /** `n` accepts `v` whatever its neighbours accept, or rejects it whatever they accept. */
  ghost predicate Always(check: Check, n: Node, v: Json) {
    forall reading, g, below: Acceptance {:trigger NodeHolds(check, reading, g, n, v, below)} ::
      NodeHolds(check, reading, g, n, v, below)
  }

  ghost predicate Never(check: Check, n: Node, v: Json) {
    forall reading, g, below: Acceptance {:trigger NodeHolds(check, reading, g, n, v, below)} ::
      !NodeHolds(check, reading, g, n, v, below)
  }

  /** A step list that compares nothing and reports at most an additive change. */
  predicate Harmless(steps: seq<Step>) {
    AtMostOneReport(steps) && forall k | 0 <= k < |steps| :: steps[k].change.classification == Additive
  }

  lemma AlwaysIsValid(check: Check, g: Graph, a: Id, v: Json)
    requires a in g.nodes && Always(check, g.nodes[a], v)
    ensures Admitted(check, g, a, v)
  {
    forall reading: Reading
      ensures ValidAt(check, reading, g, a, v)
    {
      ValidUnfolds(check, reading, g, a, v);
    }
  }

  lemma NeverIsValid(check: Check, direction: Direction, g: Graph, a: Id, v: Json)
    requires a in g.nodes && Never(check, g.nodes[a], v)
    ensures Rejected(check, direction, g, a, v)
  {
    forall reading: Reading
      ensures !ValidAt(check, reading, g, a, v)
    {
      ValidUnfolds(check, reading, g, a, v);
    }
  }

  lemma AnyIsValid(check: Check, reading: Reading, g: Graph, a: Id, v: Json)
    requires g.Valid() && a in g.nodes && g.nodes[a] == EMPTY_SCHEMA
    ensures ValidAt(check, reading, g, a, v)
  {
    EmptyIsValid(check, reading, g, v);
    ValidUnfolds(check, reading, g, g.empty, v);
    ValidUnfolds(check, reading, g, a, v);
  }

  /** Two positions at whose schemas nothing breaking is reported, and a value that only the writer's accepts. */
  lemma TellsApart(s: Scene, check: Check, a: Id, b: Id, v: Json)
    requires s.Valid() && s.Known(a, b)
    requires Harmless(Steps(s, Resolve(s.base, a), Resolve(s.cand, b), Top("schema")))
    requires Admitted(check, WriterGraph(s), WriterId(s, a, b), v)
    requires Rejected(check, s.direction, ReaderGraph(s), ReaderId(s, a, b), v)
    ensures Misjudged(s, check, a, b, v)
  {
    ReportOnly(s, a, b, Top("schema"), Trace([], {}));
  }

  /** Two schemas, without references, that decide about `v` by themselves. */
  lemma PairTellsApart(s: Scene, check: Check, x: Node, y: Node, v: Json)
    requires Small(s, x, TEXT, TEXT, y, TEXT, TEXT) && x.Schema? && y.Schema? && x.ref == None && y.ref == None
    requires s.Known(2, 2) && Harmless(Steps(s, 2, 2, Top("schema")))
    requires Always(check, x, v) && Never(check, y, v)
    ensures Misjudged(s, check, 2, 2, v)
  {
    SmallIsKnown(s, x, TEXT, TEXT, y, TEXT, TEXT);
    SmallTargets(WriterGraph(s), x);
    SmallTargets(ReaderGraph(s), y);
    AlwaysIsValid(check, WriterGraph(s), 2, v);
    NeverIsValid(check, s.direction, ReaderGraph(s), 2, v);
    TellsApart(s, check, 2, 2, v);
  }

  /** A node whose type is one name accepts no value of another type. */
  lemma WrongType(check: Check, n: Node, v: Json)
    requires n.Schema? && Type in n.keywords && !HasType(n.keywords[Type], v)
    ensures Never(check, n, v)
  {
    forall reading, g, below: Acceptance
      ensures !NodeHolds(check, reading, g, n, v, below)
    {
      assert !KeywordsAccept(check, n, v) by {
        assert !KeywordAccepts(check, Type, n.keywords[Type], v);
      }
    }
  }

  lemma RightType(check: Check, n: Node, v: Json)
    requires n.Schema? && n == EMPTY_SCHEMA.(enum := n.enum, keywords := n.keywords) && EnumAccepts(n.enum, v)
    requires forall key :: key in n.keywords ==> KeywordAccepts(check, key, n.keywords[key], v)
    requires !v.Arr? && !v.Obj?
    ensures Always(check, n, v)
  {
  }

  // ---- pairs without a report

  /** Two schemas without combinators, enumerations and properties. */
  lemma PlainIsSilent(s: Scene, a: Id, b: Id, location: Place)
    requires s.Valid() && s.Known(a, b) && s.base.nodes[a].Schema? && s.cand.nodes[b].Schema?
    requires FirstCombinator(s.base.nodes[a]).None? && FirstCombinator(s.cand.nodes[b]).None?
    requires CompareEnums(s.direction, s.base.nodes[a].enum, s.cand.nodes[b].enum, location) == EnumVerdict([], false)
    requires WatchedAgree(s.base.nodes[a], s.cand.nodes[b])
    requires !ObjectLike(s.base.nodes[a], s.cand.nodes[b]) && Get(s.base.nodes[a].keywords, Type) != Str("array")
    ensures Steps(s, a, b, location) == []
  {
    var o, n := s.base.nodes[a], s.cand.nodes[b];
    assert PyEq(Get(o.keywords, Type), Get(n.keywords, Type)) && PyEq(Get(o.keywords, Format), Get(n.keywords, Format));
    WatchedReportsNothing(s, o, n, location);
  }

  /** The same schema without combinators, enumeration, properties and items. */
  lemma EqualIsSilent(s: Scene, a: Id, b: Id, location: Place)
    requires s.Valid() && s.Known(a, b) && s.base.nodes[a].Schema? && s.base.nodes[a] == s.cand.nodes[b]
    requires var o := s.base.nodes[a]; o == EMPTY_SCHEMA.(ref := o.ref, keywords := o.keywords)
    requires Get(s.base.nodes[a].keywords, Type) !in {Str("object"), Str("array")}
    ensures Steps(s, a, b, location) == []
  {
    PlainIsSilent(s, a, b, location);
  }

  /** Two object schemas without properties, whatever else they say. */
  lemma RecordIsSilent(s: Scene, a: Id, b: Id, location: Place)
    requires s.Valid() && s.Known(a, b) && s.base.nodes[a].Schema? && s.cand.nodes[b].Schema?
    requires FirstCombinator(s.base.nodes[a]).None? && FirstCombinator(s.cand.nodes[b]).None?
    requires s.base.nodes[a].enum == NoEnum && s.cand.nodes[b].enum == NoEnum
    requires Get(s.base.nodes[a].keywords, Type) == Str("object") == Get(s.cand.nodes[b].keywords, Type)
    requires Get(s.base.nodes[a].keywords, Format) == Get(s.cand.nodes[b].keywords, Format)
    requires !s.base.nodes[a].properties.NotAPropertyMap? && !s.cand.nodes[b].properties.NotAPropertyMap?
    requires PropertyMembers(s.base.nodes[a].properties) == [] && PropertyMembers(s.cand.nodes[b].properties) == []
    requires s.base.nodes[a].additional == s.cand.nodes[b].additional
    requires s.base.nodes[a].additional.Typed? ==>
      s.Known(s.base.nodes[a].additional.id, s.cand.nodes[b].additional.id)
      && Same(s.base, s.base.nodes[a].additional.id, s.cand, s.cand.nodes[b].additional.id)
    ensures Steps(s, a, b, location) == []
  {
    AdditionalIsKnown(s.base, a);
    AdditionalIsKnown(s.cand, b);
    assert ObjectSteps(s, a, b, location) == [];
  }

  // ---- dropped enumerations

  /** A request enum that disappears is reported as a widening whatever else changes at that node. */
  lemma DroppedEnumAlwaysPasses(s: Scene, a: Id, b: Id, location: Place, t: Trace)
    requires s.Valid() && s.Known(a, b) && (Resolve(s.base, a), Resolve(s.cand, b)) !in t.seen
    requires s.base.nodes[Resolve(s.base, a)].Schema? && s.cand.nodes[Resolve(s.cand, b)].Schema?
    requires FirstCombinator(s.base.nodes[Resolve(s.base, a)]).None? && FirstCombinator(s.cand.nodes[Resolve(s.cand, b)]).None?
    requires DropsEnum(s, s.base.nodes[Resolve(s.base, a)], s.cand.nodes[Resolve(s.cand, b)])
    ensures WalkerOf(s).Valid() && (a, b) in WalkerOf(s).universe
    ensures Visit(WalkerOf(s), (a, b), location, t)
         == Trace(t.changes + [Change(Additive, RequestEnumWidening, location)], t.seen + {(Resolve(s.base, a), Resolve(s.cand, b))})
  {
    var steps := Steps(s, Resolve(s.base, a), Resolve(s.cand, b), location);
    assert steps == [Add(RequestEnumWidening, location)];
    ReportOnly(s, a, b, location, t);
  }

  /** There the guarantee holds exactly when the candidate accepts every listed value the base accepts. */
  lemma DroppedEnumIff(s: Scene, check: Check, a: Id, b: Id)
    requires s.Valid() && s.Known(a, b) && s.direction == Request
    requires s.base.nodes[a].Schema? && s.base.nodes[a].enum.EnumList?
    ensures Included(s, check, a, b) <==> ListedKept(s, check, a, b, s.base.nodes[a].enum.values)
  {
    var values := s.base.nodes[a].enum.values;
    RequestIncluded(s, check, a, b);
    if AddsNothing(s, check, a, b) {
      assert ListedKept(s, check, a, b, values);
    }
    if ListedKept(s, check, a, b, values) {
      forall v | ValidAt(check, ClosedRecords, s.base, a, v)
        ensures ValidAt(check, ClosedRecords, s.cand, b, v)
      {
        ValidUnfolds(check, ClosedRecords, s.base, a, v);
        var i :| 0 <= i < |values| && values[i] == v;
      }
    }
  }

  lemma DroppedEnumSteps(s: Scene, a: Id, b: Id, location: Place)
    requires s.Valid() && s.Known(a, b) && s.base.nodes[a].Schema? && s.cand.nodes[b].Schema?
    requires FirstCombinator(s.base.nodes[a]).None? && FirstCombinator(s.cand.nodes[b]).None?
    requires DropsEnum(s, s.base.nodes[a], s.cand.nodes[b])
    ensures Steps(s, a, b, location) == [Add(RequestEnumWidening, location)]
  {
  }

  const LISTED_TEXT: Node := TEXT.(enum := EnumList([Str("a")]))

  lemma DroppedEnumMisjudged(s: Scene, check: Check)
    requires s.direction == Request
    requires Small(s, LISTED_TEXT, TEXT, TEXT, WHOLE_NUMBER, TEXT, TEXT)
    ensures Misjudged(s, check, 2, 2, Str("a"))
  {
    SmallIsKnown(s, LISTED_TEXT, TEXT, TEXT, WHOLE_NUMBER, TEXT, TEXT);
    DroppedEnumSteps(s, 2, 2, Top("schema"));
    RightType(check, LISTED_TEXT, Str("a"));
    WrongType(check, WHOLE_NUMBER, Str("a"));
    PairTellsApart(s, check, LISTED_TEXT, WHOLE_NUMBER, Str("a"));
  }

  /** "a" was listed and is no integer. */
  lemma DroppedEnumCanNarrow(check: Check)
    ensures Refuted(check, Request, Str("a"), LISTED_TEXT, TEXT, TEXT, WHOLE_NUMBER, TEXT, TEXT)
  {
    assert Kids(LISTED_TEXT) == [] && Kids(WHOLE_NUMBER) == [] && Kids(TEXT) == [];
    SmallSceneIsSmall(Request, LISTED_TEXT, TEXT, TEXT, WHOLE_NUMBER, TEXT, TEXT);
    DroppedEnumMisjudged(SmallScene(Request, LISTED_TEXT, TEXT, TEXT, WHOLE_NUMBER, TEXT, TEXT), check);
  }

  // ---- growing `allOf`

  lemma GrownPlan(s: Scene, a: Id, b: Id, xs: seq<Id>, ys: seq<Id>, location: Place)
    requires s.Valid() && s.Known(a, b) && s.direction == Request
    requires s.base.nodes[a].Schema? && s.base.nodes[a].allOf == VariantList(xs) && FirstCombinator(s.base.nodes[a]) == Some(AllOf)
    requires s.cand.nodes[b].Schema? && s.cand.nodes[b].allOf == VariantList(ys) && FirstCombinator(s.cand.nodes[b]) == Some(AllOf)
    requires Listed(s.base, xs) && Listed(s.cand, ys) && AllMatched(s, xs, ys) && |ys| > |xs|
    ensures Steps(s, a, b, location)
         == IndexSteps(xs, Matches(s, xs, ys), AllOf, location, |xs|) + [Add(SchemaVariantAddition, location)]
  {
    assert PlanVariants(s, a, b) == Matched(xs, ys, Matches(s, xs, ys), AllOf);
  }

  lemma RunThenReport(w: Walker, walks: seq<Step>, change: Change, t: Trace)
    requires w.Valid() && w.Closed(walks + [Emit(change)])
    ensures w.Closed(walks)
    ensures var u := Run(w, walks, t); Run(w, walks + [Emit(change)], t) == Trace(u.changes + [change], u.seen)
  {
    var steps := walks + [Emit(change)];
    assert forall k :: 0 <= k < |walks| ==> steps[k] == walks[k];
    RunConcat(w, walks, [Emit(change)], t);
    RunReport(w, [Emit(change)], Run(w, walks, t));
  }

  /** A request `allOf` whose old variants all have matches and which gains others: beyond what the walk
      reports about the old variants there is one additive change, whatever the new ones demand. */
  lemma GrownAllOfPasses(s: Scene, a: Id, b: Id, xs: seq<Id>, ys: seq<Id>, location: Place, t: Trace)
    requires s.Valid() && s.Known(a, b) && s.direction == Request
    requires Resolve(s.base, a) == a && Resolve(s.cand, b) == b && (a, b) !in t.seen
    requires s.base.nodes[a].Schema? && s.base.nodes[a].allOf == VariantList(xs) && FirstCombinator(s.base.nodes[a]) == Some(AllOf)
    requires s.cand.nodes[b].Schema? && s.cand.nodes[b].allOf == VariantList(ys) && FirstCombinator(s.cand.nodes[b]) == Some(AllOf)
    requires Listed(s.base, xs) && Listed(s.cand, ys) && AllMatched(s, xs, ys) && |ys| > |xs|
    ensures var walks := IndexSteps(xs, Matches(s, xs, ys), AllOf, location, |xs|);
      && WalkerOf(s).Valid() && (a, b) in WalkerOf(s).universe && WalkerOf(s).Closed(walks)
      && var u := Run(WalkerOf(s), walks, Trace(t.changes, t.seen + {(a, b)}));
         Visit(WalkerOf(s), (a, b), location, t)
         == Trace(u.changes + [Change(Additive, SchemaVariantAddition, location)], u.seen)
  {
    VisitRuns(s, a, b, location, t);
    GrownPlan(s, a, b, xs, ys, location);
    RunThenReport(WalkerOf(s), IndexSteps(xs, Matches(s, xs, ys), AllOf, location, |xs|),
                  Change(Additive, SchemaVariantAddition, location), Trace(t.changes, t.seen + {(a, b)}));
  }

  /** Where the old variants are kept, the guarantee holds exactly when every added variant accepts what the
      base accepts. */
  lemma GrownAllOfIff(s: Scene, check: Check, a: Id, b: Id, xs: seq<Id>, ys: seq<Id>)
    requires s.Valid() && s.Known(a, b) && s.direction == Request
    requires s.base.nodes[a].Schema? && s.base.nodes[a].allOf == VariantList(xs) && FirstCombinator(s.base.nodes[a]) == Some(AllOf)
    requires s.cand.nodes[b].Schema? && s.cand.nodes[b].allOf == VariantList(ys) && FirstCombinator(s.cand.nodes[b]) == Some(AllOf)
    requires Proper(s.base.nodes[a]) && Proper(s.cand.nodes[b]) && s.cand.nodes[b].ref == None
    requires Listed(s.base, xs) && Listed(s.cand, ys) && AllMatched(s, xs, ys)
    requires forall i :: 0 <= i < |xs| ==> Included(s, check, xs[i], Matches(s, xs, ys)[i])
    requires BesideKept(Request, s.base.nodes[a], s.cand.nodes[b])
    ensures Included(s, check, a, b) <==> AddedKept(s, check, a, xs, ys)
  {
    RequestIncluded(s, check, a, b);
    forall i | 0 <= i < |xs|
      ensures AddsNothing(s, check, xs[i], Matches(s, xs, ys)[i])
    {
      RequestIncluded(s, check, xs[i], Matches(s, xs, ys)[i]);
    }
    if AddedKept(s, check, a, xs, ys) {
      forall v | ValidAt(check, ClosedRecords, s.base, a, v)
        ensures ValidAt(check, ClosedRecords, s.cand, b, v)
      {
        GrownAllOfAccepts(s, check, a, b, xs, ys, v);
      }
    }
    if AddsNothing(s, check, a, b) {
      forall j {:trigger ys[j]} | 0 <= j < |ys|
        ensures AddsNothing(s, check, a, ys[j])
      {
        forall v | ValidAt(check, ClosedRecords, s.base, a, v)
          ensures ValidAt(check, ClosedRecords, s.cand, ys[j], v)
        {
          VariantIsValid(check, s.cand, b, ys, j, v);
        }
      }
    }
  }

  /** A variant that only annotates adds nothing. */
  lemma AnnotationAddsNothing(s: Scene, check: Check, a: Id, y: Id)
    requires s.Valid() && y in s.cand.nodes && Annotates(s.cand.nodes[y])
    ensures AddsNothing(s, check, a, y)
  {
    var all := AllValid(check, ClosedRecords, s.cand);
    forall v
      ensures ValidAt(check, ClosedRecords, s.cand, y, v)
    {
      EmptyIsValid(check, ClosedRecords, s.cand, v);
      ValidUnfolds(check, ClosedRecords, s.cand, s.cand.empty, v);
      ValidUnfolds(check, ClosedRecords, s.cand, y, v);
      assert OwnHolds(check, ClosedRecords, s.cand, EMPTY_SCHEMA, v, all);
      if v.Obj? {
        assert MembersHold(ClosedRecords, s.cand.nodes[y], v, all);
      }
    }
  }

  ghost predicate Annotates(n: Node) {
    n.Schema? && n == EMPTY_SCHEMA.(keywords := n.keywords) && n.keywords.Keys <= ANNOTATIONS
  }

  /** What a caller can check before: a request `allOf` that keeps its variants and gains only variants that
      match one of them or annotate accepts everything it accepted. */
  lemma AnnotatedGrowthIsKept(s: Scene, check: Check, a: Id, b: Id, xs: seq<Id>, ys: seq<Id>)
    requires s.Valid() && s.Known(a, b) && s.direction == Request
    requires s.base.nodes[a].Schema? && s.base.nodes[a].allOf == VariantList(xs) && FirstCombinator(s.base.nodes[a]) == Some(AllOf)
    requires s.cand.nodes[b].Schema? && s.cand.nodes[b].allOf == VariantList(ys) && FirstCombinator(s.cand.nodes[b]) == Some(AllOf)
    requires Proper(s.base.nodes[a]) && Proper(s.cand.nodes[b]) && s.cand.nodes[b].ref == None
    requires Listed(s.base, xs) && Listed(s.cand, ys) && AllMatched(s, xs, ys)
    requires forall i :: 0 <= i < |xs| ==> Included(s, check, xs[i], Matches(s, xs, ys)[i])
    requires BesideKept(Request, s.base.nodes[a], s.cand.nodes[b])
    requires forall j {:trigger ys[j]} :: 0 <= j < |ys| ==> IsMatch(s, xs, ys, j) || Annotates(s.cand.nodes[ys[j]])
    ensures Included(s, check, a, b)
  {
    forall j {:trigger ys[j]} | 0 <= j < |ys|
      ensures IsMatch(s, xs, ys, j) || AddsNothing(s, check, a, ys[j])
    {
      if !IsMatch(s, xs, ys, j) {
        AnnotationAddsNothing(s, check, a, ys[j]);
      }
    }
    GrownAllOfIff(s, check, a, b, xs, ys);
  }

  lemma VariantIsValid(check: Check, g: Graph, b: Id, ys: seq<Id>, j: nat, v: Json)
    requires b in g.nodes && g.nodes[b].Schema? && g.nodes[b].allOf == VariantList(ys) && j < |ys|
    requires ValidAt(check, ClosedRecords, g, b, v)
    ensures ValidAt(check, ClosedRecords, g, ys[j], v)
  {
    ValidUnfolds(check, ClosedRecords, g, b, v);
    assert AllHold(ys, v, AllValid(check, ClosedRecords, g));
    assert AllValid(check, ClosedRecords, g)(ys[j], v);
  }

  lemma GrownAllOfAccepts(s: Scene, check: Check, a: Id, b: Id, xs: seq<Id>, ys: seq<Id>, v: Json)
    requires s.Valid() && s.Known(a, b) && s.direction == Request
    requires s.base.nodes[a].Schema? && s.base.nodes[a].allOf == VariantList(xs) && FirstCombinator(s.base.nodes[a]) == Some(AllOf)
    requires s.cand.nodes[b].Schema? && s.cand.nodes[b].allOf == VariantList(ys) && FirstCombinator(s.cand.nodes[b]) == Some(AllOf)
    requires Proper(s.base.nodes[a]) && Proper(s.cand.nodes[b]) && s.cand.nodes[b].ref == None
    requires Listed(s.base, xs) && Listed(s.cand, ys) && AllMatched(s, xs, ys)
    requires forall i :: 0 <= i < |xs| ==> AddsNothing(s, check, xs[i], Matches(s, xs, ys)[i])
    requires BesideKept(Request, s.base.nodes[a], s.cand.nodes[b]) && AddedKept(s, check, a, xs, ys)
    requires ValidAt(check, ClosedRecords, s.base, a, v)
    ensures ValidAt(check, ClosedRecords, s.cand, b, v)
  {
    var f, h := AllValid(check, ClosedRecords, s.base), AllValid(check, ClosedRecords, s.cand);
    var zs := Matches(s, xs, ys);
    ValidUnfolds(check, ClosedRecords, s.base, a, v);
    ValidUnfolds(check, ClosedRecords, s.cand, b, v);
    EmptyCrosses(s, check, f, h);
    BesideCrosses(s, check, s.base.nodes[a], s.cand.nodes[b], v, {}, f, h);
    forall j | 0 <= j < |ys|
      ensures h(ys[j], v)
    {
      if IsMatch(s, xs, ys, j) {
        var i :| 0 <= i < |xs| && FirstMatch(s, xs[i], ys) == j;
        assert AllHold(xs, v, f) && f(xs[i], v) && zs[i] == ys[j];
        assert AddsNothing(s, check, xs[i], zs[i]);
      } else {
        assert AddsNothing(s, check, a, ys[j]);
      }
    }
  }

  lemma EmptyCrosses(s: Scene, check: Check, f: Acceptance, h: Acceptance)
    requires s.Valid() && h == AllValid(check, ReadingOf(s), ReaderGraph(s))
    ensures Crosses(s, {}, f, h)
  {
    forall v
      ensures h(ReaderGraph(s).empty, v)
    {
      EmptyIsValid(check, ReadingOf(s), ReaderGraph(s), v);
    }
  }

  // ---- beside references and combinators

  /** What stands beside references never changes a walk: it sees only what they lead to. */
  lemma BesideReferencePasses(s: Scene, a: Id, b: Id, a': Id, b': Id, location: Place, t: Trace)
    requires s.Valid() && s.Known(a, b) && s.Known(a', b')
    requires Resolve(s.base, a) == Resolve(s.base, a') && Resolve(s.cand, b) == Resolve(s.cand, b')
    ensures WalkerOf(s).Valid() && (a, b) in WalkerOf(s).universe && (a', b') in WalkerOf(s).universe
    ensures Visit(WalkerOf(s), (a, b), location, t) == Visit(WalkerOf(s), (a', b'), location, t)
  {
    WalkerDrives(s);
    var w := WalkerOf(s);
    assert w.head((a, b)) == (Resolve(s.base, a), Resolve(s.cand, b));
    assert w.head((a', b')) == (Resolve(s.base, a'), Resolve(s.cand, b'));
  }

  /** Where what the reader's reference leads to is kept, the guarantee holds exactly when everything beside
      the reference accepts what the writer may send. */
  lemma BesideReferenceIff(s: Scene, check: Check, a: Id, b: Id)
    requires s.Valid() && s.Known(a, b)
    requires Target(ReaderGraph(s), ReaderNode(s, s.base.nodes[a], s.cand.nodes[b])).Some?
    requires var g, target := ReaderGraph(s), Target(ReaderGraph(s), ReaderNode(s, s.base.nodes[a], s.cand.nodes[b])).value;
      forall v :: ValidAt(check, ReadingOf(s), WriterGraph(s), WriterId(s, a, b), v) ==> ValidAt(check, ReadingOf(s), g, target, v)
    ensures var g, y := ReaderGraph(s), ReaderNode(s, s.base.nodes[a], s.cand.nodes[b]);
      Included(s, check, a, b) <==>
        forall v :: ValidAt(check, ReadingOf(s), WriterGraph(s), WriterId(s, a, b), v) ==>
          OwnHolds(check, ReadingOf(s), g, y, v, AllValid(check, ReadingOf(s), g))
  {
    var g, y := ReaderGraph(s), ReaderNode(s, s.base.nodes[a], s.cand.nodes[b]);
    forall v
      ensures ValidAt(check, ReadingOf(s), g, ReaderId(s, a, b), v) <==>
        && ValidAt(check, ReadingOf(s), g, Target(g, y).value, v)
        && OwnHolds(check, ReadingOf(s), g, y, v, AllValid(check, ReadingOf(s), g))
    {
      ValidUnfolds(check, ReadingOf(s), g, ReaderId(s, a, b), v);
    }
  }

  /** What a caller can check before: where the reader's reference has nothing stricter beside it than the
      writer has, keeping its target is enough. */
  lemma BesideReferenceIsKept(s: Scene, check: Check, a: Id, b: Id)
    requires s.Valid() && s.Known(a, b) && PositionComparable(s, a, b)
    requires Target(ReaderGraph(s), ReaderNode(s, s.base.nodes[a], s.cand.nodes[b])).Some?
    requires WriterNode(s, s.base.nodes[a], s.cand.nodes[b]).Schema?
    requires var g, target := ReaderGraph(s), Target(ReaderGraph(s), ReaderNode(s, s.base.nodes[a], s.cand.nodes[b])).value;
      forall v :: ValidAt(check, ReadingOf(s), WriterGraph(s), WriterId(s, a, b), v) ==> ValidAt(check, ReadingOf(s), g, target, v)
    ensures Included(s, check, a, b)
  {
    var x, y := WriterNode(s, s.base.nodes[a], s.cand.nodes[b]), ReaderNode(s, s.base.nodes[a], s.cand.nodes[b]);
    var f, h := AllValid(check, ReadingOf(s), WriterGraph(s)), AllValid(check, ReadingOf(s), ReaderGraph(s));
    BesideReferenceIff(s, check, a, b);
    EmptyCrosses(s, check, f, h);
    forall v | ValidAt(check, ReadingOf(s), WriterGraph(s), WriterId(s, a, b), v)
      ensures OwnHolds(check, ReadingOf(s), ReaderGraph(s), y, v, h)
    {
      ValidUnfolds(check, ReadingOf(s), WriterGraph(s), WriterId(s, a, b), v);
      BesideCrosses(s, check, x, y, v, {}, f, h);
      assert VariantsHold(y, v, h);
    }
  }

  const TO_A: Node := EMPTY_SCHEMA.(ref := Some(REF_A))
  const TO_B: Node := EMPTY_SCHEMA.(ref := Some(REF_B))
  const TO_SHORT_A: Node := TO_A.(keywords := map[MaxLength := Num(0.0)])

  lemma BesideReferenceMisjudged(s: Scene, check: Check)
    requires Small(s, TO_A, TEXT, TEXT, TO_SHORT_A, TEXT, TEXT)
    ensures Misjudged(s, check, 2, 2, Str("a"))
  {
    SmallIsKnown(s, TO_A, TEXT, TEXT, TO_SHORT_A, TEXT, TEXT);
    SmallTargets(WriterGraph(s), TO_A);
    SmallTargets(ReaderGraph(s), TO_SHORT_A);
    EqualIsSilent(s, 3, 3, Top("schema"));
    RightType(check, TEXT, Str("a"));
    AlwaysIsValid(check, WriterGraph(s), 3, Str("a"));
    BehindReference(check, WriterGraph(s), 2, 3, Str("a"));
    TooLong(check);
    NeverIsValid(check, s.direction, ReaderGraph(s), 2, Str("a"));
    TellsApart(s, check, 2, 2, Str("a"));
  }

  lemma TooLong(check: Check)
    ensures Never(check, TO_SHORT_A, Str("a"))
  {
    assert TO_SHORT_A.keywords[MaxLength] == Num(0.0);
    KeywordRejects(check, TO_SHORT_A, MaxLength, Str("a"));
  }

  lemma KeywordRejects(check: Check, n: Node, key: Key, v: Json)
    requires n.Schema? && key in n.keywords && !KeywordAccepts(check, key, n.keywords[key], v)
    ensures !KeywordsAccept(check, n, v) && Never(check, n, v)
  {
    assert !KeywordAccepts(check, key, n.keywords[key], v);
  }

  /** A bare reference accepts what it leads to. */
  lemma BehindReference(check: Check, g: Graph, a: Id, c: Id, v: Json)
    requires g.Valid() && a in g.nodes && g.nodes[a].Schema? && Target(g, g.nodes[a]) == Some(c)
    requires g.nodes[a] == EMPTY_SCHEMA.(ref := g.nodes[a].ref)
    ensures forall reading: Reading :: ValidAt(check, reading, g, a, v) <==> ValidAt(check, reading, g, c, v)
  {
    forall reading: Reading
      ensures ValidAt(check, reading, g, a, v) <==> ValidAt(check, reading, g, c, v)
    {
      var all := AllValid(check, reading, g);
      EmptyIsValid(check, reading, g, v);
      ValidUnfolds(check, reading, g, g.empty, v);
      ValidUnfolds(check, reading, g, a, v);
      assert OwnHolds(check, reading, g, EMPTY_SCHEMA, v, all);
      assert OwnHolds(check, reading, g, g.nodes[a], v, all) by {
        if v.Obj? {
          assert MembersHold(reading, g.nodes[a], v, all);
        }
      }
    }
  }

  /** A reference that gains `maxLength` beside it: "a" is no longer accepted, and nothing is reported. */
  lemma BesideReferenceCanNarrow(check: Check, direction: Direction)
    ensures Refuted(check, direction, Str("a"), TO_A, TEXT, TEXT, TO_SHORT_A, TEXT, TEXT)
  {
    assert Kids(TO_A) == [] && Kids(TO_SHORT_A) == [] && Kids(TEXT) == [];
    SmallSceneIsSmall(direction, TO_A, TEXT, TEXT, TO_SHORT_A, TEXT, TEXT);
    BesideReferenceMisjudged(SmallScene(direction, TO_A, TEXT, TEXT, TO_SHORT_A, TEXT, TEXT), check);
  }

  // ---- references to references

  lemma BehindBoth(check: Check, g: Graph, v: Json)
    requires g.Valid() && 4 in g.nodes && IsSmall(g, TO_A, TO_B, g.nodes[4])
    ensures forall reading: Reading :: ValidAt(check, reading, g, 2, v) <==> ValidAt(check, reading, g, 4, v)
  {
    assert 2 in {0, 1, 2, 3, 4} && 3 in {0, 1, 2, 3, 4};
    SmallTargets(g, TO_A);
    SmallTargets(g, TO_B);
    BehindReference(check, g, 3, 4, v);
    BehindReference(check, g, 2, 3, v);
  }

  lemma ChainedReferenceMisjudged(s: Scene, check: Check)
    requires Small(s, TO_A, TO_B, TEXT, TO_A, TO_B, WHOLE_NUMBER)
    ensures Misjudged(s, check, 2, 2, Str("a"))
  {
    SmallIsKnown(s, TO_A, TO_B, TEXT, TO_A, TO_B, WHOLE_NUMBER);
    SmallTargets(WriterGraph(s), TO_A);
    SmallTargets(ReaderGraph(s), TO_A);
    EqualIsSilent(s, 3, 3, Top("schema"));
    RightType(check, TEXT, Str("a"));
    AlwaysIsValid(check, WriterGraph(s), 4, Str("a"));
    BehindBoth(check, WriterGraph(s), Str("a"));
    WrongType(check, WHOLE_NUMBER, Str("a"));
    NeverIsValid(check, s.direction, ReaderGraph(s), 4, Str("a"));
    BehindBoth(check, ReaderGraph(s), Str("a"));
    TellsApart(s, check, 2, 2, Str("a"));
  }

  /** References are resolved in one step: what a second one leads to may change. */
  lemma ChainedReferenceCanNarrow(check: Check, direction: Direction)
    ensures Refuted(check, direction, Str("a"), TO_A, TO_B, TEXT, TO_A, TO_B, WHOLE_NUMBER)
  {
    assert Kids(TO_A) == [] && Kids(TO_B) == [] && Kids(TEXT) == [] && Kids(WHOLE_NUMBER) == [];
    SmallSceneIsSmall(direction, TO_A, TO_B, TEXT, TO_A, TO_B, WHOLE_NUMBER);
    ChainedReferenceMisjudged(SmallScene(direction, TO_A, TO_B, TEXT, TO_A, TO_B, WHOLE_NUMBER), check);
  }

  // ---- beside combinators

  /** Two schemas whose first combinator is the same over variants that are alike: whatever stands beside it,
      other combinators included, nothing is reported at the pair. */
  lemma BesideCombinatorPasses(s: Scene, a: Id, b: Id, c: Combinator, location: Place, t: Trace)
    requires s.Valid() && WellShaped(s.base) && ReferencesAgree(s) && MatchesAreEqual(s)
    requires s.Known(a, b) && Resolve(s.base, a) == a && Resolve(s.cand, b) == b && (a, b) !in t.seen
    requires AlikeVariants(s, a, b, c)
    ensures WalkerOf(s).Valid() && (a, b) in WalkerOf(s).universe
    ensures Visit(WalkerOf(s), (a, b), location, t).changes == t.changes
  {
    VisitRuns(s, a, b, location, t);
    AlikeIsQuiet(s);
    assert Steps(s, a, b, location) == PlanSteps(PlanVariants(s, a, b), location) by {
      CombinatorSteps(s, a, b, location);
    }
    AlikeVariantsAreQuiet(s, a, b, c, location);
    QuietRun(WalkerOf(s), Alike(s), Steps(s, a, b, location), Trace(t.changes, t.seen + {(a, b)}));
  }

  lemma CombinatorSteps(s: Scene, a: Id, b: Id, location: Place)
    requires s.Valid() && s.Known(a, b) && s.base.nodes[a].Schema? && s.cand.nodes[b].Schema?
    requires FirstCombinator(s.base.nodes[a]).Some? || FirstCombinator(s.cand.nodes[b]).Some?
    ensures Steps(s, a, b, location) == PlanSteps(PlanVariants(s, a, b), location)
  {
  }

  const ALL_A: Node := EMPTY_SCHEMA.(allOf := VariantList([3]))
  const ALL_A_WHOLE: Node := ALL_A.(keywords := map[Type := Str("integer")])

  lemma BareResolves(g: Graph)
    requires forall a :: a in g.nodes ==> g.nodes[a].Scalar? || g.nodes[a].ref == None
    ensures forall a :: a in g.nodes ==> Resolve(g, a) == a
  {
  }

  lemma SmallResolves(g: Graph, x: Node, y: Node, z: Node)
    requires IsSmall(g, x, y, z) && x.Schema? && y.Schema? && z.Schema?
    requires x.ref == None && y.ref == None && z.ref == None
    ensures forall a :: a in g.nodes ==> Resolve(g, a) == a
  {
    forall a | a in g.nodes
      ensures g.nodes[a].Scalar? || g.nodes[a].ref == None
    {
      assert a in {0, 1, 2, 3, 4};
    }
    BareResolves(g);
  }

  lemma SmallReferencesAgree(s: Scene, x: Node, y: Node, z: Node, x': Node, y': Node, z': Node)
    requires Small(s, x, y, z, x', y', z') && x.Schema? && y.Schema? && z.Schema? && x'.Schema? && y'.Schema? && z'.Schema?
    requires x.ref == None == x'.ref && y.ref == None == y'.ref && z.ref == None == z'.ref
    ensures ReferencesAgree(s)
  {
    SmallResolves(WriterGraph(s), x, y, z);
    SmallResolves(ReaderGraph(s), x', y', z');
  }

  lemma SmallIsShaped(g: Graph, x: Node, y: Node, z: Node)
    requires IsSmall(g, x, y, z) && ShapedNode(x) && ShapedNode(y) && ShapedNode(z)
    ensures WellShaped(g)
  {
    forall a | a in g.nodes
      ensures ShapedNode(g.nodes[a])
    {
      assert a in {0, 1, 2, 3, 4};
    }
  }

  lemma SmallIsPlain(g: Graph, x: Node, y: Node, z: Node)
    requires IsSmall(g, x, y, z) && Semantic(x) == x && Semantic(y) == y && Semantic(z) == z
    ensures PlainDocument(g)
  {
    forall a | a in g.nodes
      ensures Semantic(g.nodes[a]) == g.nodes[a]
    {
      assert a in {0, 1, 2, 3, 4};
    }
  }

  lemma SmallIsToldApart(s: Scene, x: Node, y: Node, z: Node, x': Node, y': Node, z': Node)
    requires Small(s, x, y, z, x', y', z')
    requires Semantic(x) == x && Semantic(y) == y && Semantic(z) == z
    requires Semantic(x') == x' && Semantic(y') == y' && Semantic(z') == z'
    ensures s.Valid() && ToldApart(s.base, s.cand)
  {
    SmallIsPlain(WriterGraph(s), x, y, z);
    SmallIsPlain(ReaderGraph(s), x', y', z');
    PlainIsToldApart(s);
  }

  lemma AllOfTextAccepts(check: Check, g: Graph)
    requires 2 in g.nodes && g.nodes[2] == ALL_A && 3 in g.nodes && g.nodes[3] == TEXT
    ensures Admitted(check, g, 2, Str("a"))
  {
    RightType(check, TEXT, Str("a"));
    AlwaysIsValid(check, g, 3, Str("a"));
    VariantAccepts(check, g, 2, 3, Str("a"));
  }

  lemma BesideCombinatorIsReady(s: Scene)
    requires Small(s, ALL_A, TEXT, TEXT, ALL_A_WHOLE, TEXT, TEXT)
    ensures s.Valid() && s.Known(2, 2) && s.Known(3, 3)
    ensures WellShaped(s.base) && ReferencesAgree(s) && MatchesAreEqual(s)
    ensures Resolve(s.base, 2) == 2 && Resolve(s.cand, 2) == 2
  {
    SmallIsKnown(s, ALL_A, TEXT, TEXT, ALL_A_WHOLE, TEXT, TEXT);
    SmallTargets(WriterGraph(s), ALL_A);
    SmallTargets(ReaderGraph(s), ALL_A_WHOLE);
    SmallReferencesAgree(s, ALL_A, TEXT, TEXT, ALL_A_WHOLE, TEXT, TEXT);
    SmallIsShaped(WriterGraph(s), ALL_A, TEXT, TEXT);
    SmallIsShaped(ReaderGraph(s), ALL_A_WHOLE, TEXT, TEXT);
    SmallIsToldApart(s, ALL_A, TEXT, TEXT, ALL_A_WHOLE, TEXT, TEXT);
  }

  lemma BesideVariants(s: Scene)
    requires Small(s, ALL_A, TEXT, TEXT, ALL_A_WHOLE, TEXT, TEXT)
    ensures AlikeVariants(s, 2, 2, AllOf)
  {
    SmallIsKnown(s, ALL_A, TEXT, TEXT, ALL_A_WHOLE, TEXT, TEXT);
    TextIsText(s);
  }

  lemma BesideCombinatorIsSilent(s: Scene)
    requires Small(s, ALL_A, TEXT, TEXT, ALL_A_WHOLE, TEXT, TEXT)
    ensures WalkerOf(s).Valid() && (2, 2) in WalkerOf(s).universe
    ensures Visit(WalkerOf(s), (2, 2), Top("schema"), Trace([], {})).changes == []
  {
    BesideCombinatorIsReady(s);
    BesideVariants(s);
    BesideCombinatorPasses(s, 2, 2, AllOf, Top("schema"), Trace([], {}));
  }

  lemma TextIsText(s: Scene)
    requires s.Valid() && s.Known(3, 3) && s.base.nodes[3] == TEXT == s.cand.nodes[3]
    ensures Equal(s.base, 3, s.cand, 3) && Same(s.base, 3, s.cand, 3)
  {
    assert Kids(TEXT) == [];
    EqualIsSame(s, 3, 3);
  }

  lemma BesideCombinatorMisjudged(s: Scene, check: Check)
    requires Small(s, ALL_A, TEXT, TEXT, ALL_A_WHOLE, TEXT, TEXT)
    ensures Misjudged(s, check, 2, 2, Str("a"))
  {
    SmallIsKnown(s, ALL_A, TEXT, TEXT, ALL_A_WHOLE, TEXT, TEXT);
    BesideCombinatorIsSilent(s);
    AllOfTextAccepts(check, WriterGraph(s));
    WrongType(check, ALL_A_WHOLE, Str("a"));
    NeverIsValid(check, s.direction, ReaderGraph(s), 2, Str("a"));
  }

  lemma VariantAccepts(check: Check, g: Graph, a: Id, c: Id, v: Json)
    requires a in g.nodes && g.nodes[a] == EMPTY_SCHEMA.(allOf := VariantList([c])) && !v.Arr? && !v.Obj?
    requires Admitted(check, g, c, v)
    ensures Admitted(check, g, a, v)
  {
    forall reading: Reading
      ensures ValidAt(check, reading, g, a, v)
    {
      ValidUnfolds(check, reading, g, a, v);
      assert KeywordsAccept(check, g.nodes[a], v);
    }
  }

  /** A type that appears beside an `allOf`. */
  lemma BesideCombinatorCanNarrow(check: Check, direction: Direction)
    ensures Refuted(check, direction, Str("a"), ALL_A, TEXT, TEXT, ALL_A_WHOLE, TEXT, TEXT)
  {
    assert Kids(ALL_A) == [3] && Kids(ALL_A_WHOLE) == [3] && Kids(TEXT) == [];
    SmallSceneIsSmall(direction, ALL_A, TEXT, TEXT, ALL_A_WHOLE, TEXT, TEXT);
    BesideCombinatorMisjudged(SmallScene(direction, ALL_A, TEXT, TEXT, ALL_A_WHOLE, TEXT, TEXT), check);
  }

  const ALL_A_B: Node := EMPTY_SCHEMA.(allOf := VariantList([3, 4]))

  lemma MatchedIsQuiet(s: Scene, a: Id, b: Id, xs: seq<Id>, ys: seq<Id>, location: Place)
    requires s.Valid() && s.Known(a, b) && ToldApart(s.base, s.cand)
    requires s.base.nodes[a].Schema? && s.base.nodes[a].allOf == VariantList(xs)
    requires s.cand.nodes[b].Schema? && s.cand.nodes[b].allOf == VariantList(ys)
    requires Listed(s.base, xs) && Listed(s.cand, ys) && AllMatched(s, xs, ys)
    ensures QuietSteps(IndexSteps(xs, Matches(s, xs, ys), AllOf, location, |xs|), Alike(s))
  {
    ListedVariants(s.base, a, AllOf);
    ListedVariants(s.cand, b, AllOf);
    MatchesAreAlike(s, xs, ys);
    IndexStepsAreQuiet(xs, Matches(s, xs, ys), AllOf, location, Alike(s));
  }

  /** Where components are unchanged, the old variants are compared without a report. */
  lemma GrownAllOfIsQuiet(s: Scene, a: Id, b: Id, xs: seq<Id>, ys: seq<Id>, location: Place, t: Trace)
    requires s.Valid() && s.Known(a, b) && s.direction == Request && WellShaped(s.base) && ReferencesAgree(s) && ToldApart(s.base, s.cand)
    requires Resolve(s.base, a) == a && Resolve(s.cand, b) == b && (a, b) !in t.seen
    requires s.base.nodes[a].Schema? && s.base.nodes[a].allOf == VariantList(xs) && FirstCombinator(s.base.nodes[a]) == Some(AllOf)
    requires s.cand.nodes[b].Schema? && s.cand.nodes[b].allOf == VariantList(ys) && FirstCombinator(s.cand.nodes[b]) == Some(AllOf)
    requires Listed(s.base, xs) && Listed(s.cand, ys) && AllMatched(s, xs, ys) && |ys| > |xs|
    ensures WalkerOf(s).Valid() && (a, b) in WalkerOf(s).universe
    ensures Visit(WalkerOf(s), (a, b), location, t).changes == t.changes + [Change(Additive, SchemaVariantAddition, location)]
  {
    GrownAllOfPasses(s, a, b, xs, ys, location, t);
    AlikeIsQuiet(s);
    var walks := IndexSteps(xs, Matches(s, xs, ys), AllOf, location, |xs|);
    MatchedIsQuiet(s, a, b, xs, ys, location);
    QuietRun(WalkerOf(s), Alike(s), walks, Trace(t.changes, t.seen + {(a, b)}));
  }

  lemma GrownAllOfReports(s: Scene)
    requires s.direction == Request && Small(s, ALL_A, TEXT, TEXT, ALL_A_B, TEXT, WHOLE_NUMBER)
    ensures WalkerOf(s).Valid() && (2, 2) in WalkerOf(s).universe
    ensures Visit(WalkerOf(s), (2, 2), Top("schema"), Trace([], {})).changes
         == [Change(Additive, SchemaVariantAddition, Top("schema"))]
  {
    SmallIsKnown(s, ALL_A, TEXT, TEXT, ALL_A_B, TEXT, WHOLE_NUMBER);
    SmallTargets(WriterGraph(s), ALL_A);
    SmallTargets(ReaderGraph(s), ALL_A_B);
    SmallReferencesAgree(s, ALL_A, TEXT, TEXT, ALL_A_B, TEXT, WHOLE_NUMBER);
    SmallIsShaped(WriterGraph(s), ALL_A, TEXT, TEXT);
    SmallIsToldApart(s, ALL_A, TEXT, TEXT, ALL_A_B, TEXT, WHOLE_NUMBER);
    FirstIsMatched(s);
    GrownAllOfIsQuiet(s, 2, 2, [3], [3, 4], Top("schema"), Trace([], {}));
  }

  lemma FirstIsMatched(s: Scene)
    requires s.Valid() && s.Known(3, 3) && 4 in s.cand.nodes && s.base.nodes[3] == TEXT == s.cand.nodes[3]
    ensures Listed(s.base, [3]) && Listed(s.cand, [3, 4]) && AllMatched(s, [3], [3, 4])
  {
    TextIsText(s);
    assert FirstMatch(s, 3, [3, 4]) == 0;
  }

  lemma GrownAllOfRejects(check: Check, g: Graph)
    requires 2 in g.nodes && g.nodes[2] == ALL_A_B && 4 in g.nodes && g.nodes[4] == WHOLE_NUMBER
    ensures Rejected(check, Request, g, 2, Str("a"))
  {
    WrongType(check, WHOLE_NUMBER, Str("a"));
    NeverIsValid(check, Request, g, 4, Str("a"));
    forall reading: Reading | reading != OpenRecords
      ensures !ValidAt(check, reading, g, 2, Str("a"))
    {
      ValidUnfolds(check, reading, g, 2, Str("a"));
      assert ALL_A_B.allOf.ids[1] == 4;
    }
  }

  lemma GrownAllOfMisjudged(s: Scene, check: Check)
    requires s.direction == Request
    requires Small(s, ALL_A, TEXT, TEXT, ALL_A_B, TEXT, WHOLE_NUMBER)
    ensures Misjudged(s, check, 2, 2, Str("a"))
  {
    SmallIsKnown(s, ALL_A, TEXT, TEXT, ALL_A_B, TEXT, WHOLE_NUMBER);
    GrownAllOfReports(s);
    AllOfTextAccepts(check, WriterGraph(s));
    GrownAllOfRejects(check, ReaderGraph(s));
  }

  /** An `allOf` of texts that gains a variant for integers. */
  lemma GrownAllOfCanNarrow(check: Check)
    ensures Refuted(check, Request, Str("a"), ALL_A, TEXT, TEXT, ALL_A_B, TEXT, WHOLE_NUMBER)
  {
    assert Kids(ALL_A) == [3] && Kids(ALL_A_B) == [3, 4] && Kids(TEXT) == [] && Kids(WHOLE_NUMBER) == [];
    SmallSceneIsSmall(Request, ALL_A, TEXT, TEXT, ALL_A_B, TEXT, WHOLE_NUMBER);
    GrownAllOfMisjudged(SmallScene(Request, ALL_A, TEXT, TEXT, ALL_A_B, TEXT, WHOLE_NUMBER), check);
  }

  // ---- literals and null constants

  const LISTED_ONE: Node := EMPTY_SCHEMA.(enum := EnumList([Num(1.0)]))
  const LISTED_TRUE: Node := EMPTY_SCHEMA.(enum := EnumList([Bool(true)]))

  lemma OneValueAgrees(direction: Direction, x: Json, y: Json, location: Place)
    requires PyEq(x, y)
    ensures CompareEnums(direction, EnumList([x]), EnumList([y]), location) == EnumVerdict([], false)
  {
    assert PyEq(x, [y][0]) && PyEq(y, [x][0]);
    assert InValues(x, [y]) && InValues(y, [x]);
  }

  lemma OneIsNotTrue(check: Check)
    ensures Always(check, LISTED_ONE, Num(1.0)) && Never(check, LISTED_TRUE, Num(1.0))
  {
    RightType(check, LISTED_ONE, Num(1.0));
  }

  lemma LiteralsMisjudged(s: Scene, check: Check)
    requires Small(s, LISTED_ONE, TEXT, TEXT, LISTED_TRUE, TEXT, TEXT)
    ensures Misjudged(s, check, 2, 2, Num(1.0))
  {
    SmallIsKnown(s, LISTED_ONE, TEXT, TEXT, LISTED_TRUE, TEXT, TEXT);
    OneValueAgrees(s.direction, Num(1.0), Bool(true), Top("schema"));
    OneValueAgrees(s.direction, Bool(true), Num(1.0), Top("schema"));
    PlainIsSilent(s, 2, 2, Top("schema"));
    OneIsNotTrue(check);
    PairTellsApart(s, check, LISTED_ONE, LISTED_TRUE, Num(1.0));
  }

  /** `1 == True` in Python: an enumeration of 1 may become one of `true`. */
  lemma LiteralsCanNarrow(check: Check, direction: Direction)
    ensures Refuted(check, direction, Num(1.0), LISTED_ONE, TEXT, TEXT, LISTED_TRUE, TEXT, TEXT)
  {
    assert Kids(LISTED_ONE) == [] && Kids(LISTED_TRUE) == [] && Kids(TEXT) == [];
    SmallSceneIsSmall(direction, LISTED_ONE, TEXT, TEXT, LISTED_TRUE, TEXT, TEXT);
    LiteralsMisjudged(SmallScene(direction, LISTED_ONE, TEXT, TEXT, LISTED_TRUE, TEXT, TEXT), check);
  }

  const ALWAYS_NULL: Node := EMPTY_SCHEMA.(keywords := map[Const := Null])

  lemma NullConstMisjudged(s: Scene, check: Check)
    requires Small(s, EMPTY_SCHEMA, TEXT, TEXT, ALWAYS_NULL, TEXT, TEXT)
    ensures Misjudged(s, check, 2, 2, Str("a"))
  {
    SmallIsKnown(s, EMPTY_SCHEMA, TEXT, TEXT, ALWAYS_NULL, TEXT, TEXT);
    PlainIsSilent(s, 2, 2, Top("schema"));
    RightType(check, EMPTY_SCHEMA, Str("a"));
    assert ALWAYS_NULL.keywords[Const] == Null;
    KeywordRejects(check, ALWAYS_NULL, Const, Str("a"));
    PairTellsApart(s, check, EMPTY_SCHEMA, ALWAYS_NULL, Str("a"));
  }

  /** `get` finds no difference between a missing constant and the constant null. */
  lemma NullConstCanNarrow(check: Check, direction: Direction)
    ensures Refuted(check, direction, Str("a"), EMPTY_SCHEMA, TEXT, TEXT, ALWAYS_NULL, TEXT, TEXT)
  {
    assert Kids(EMPTY_SCHEMA) == [] && Kids(ALWAYS_NULL) == [] && Kids(TEXT) == [];
    SmallSceneIsSmall(direction, EMPTY_SCHEMA, TEXT, TEXT, ALWAYS_NULL, TEXT, TEXT);
    NullConstMisjudged(SmallScene(direction, EMPTY_SCHEMA, TEXT, TEXT, ALWAYS_NULL, TEXT, TEXT), check);
  }

  // ---- keywords that are never looked at

  function OnlyKeyword(key: Key, x: Json): Node {
    EMPTY_SCHEMA.(keywords := map[key := x])
  }

  predicate NeverCompared(key: Key) {
    key.Other? || key == MinProperties || key == MaxProperties
  }

  /** Two schemas from which the documents reach the same, but for one keyword more at the reader. */
  ghost predicate GainsKeyword(s: Scene, rel: Relation, a: Id, b: Id, key: Key, k: Json) {
    && s.Known(a, b) && s.base.nodes[a].Schema? && s.cand.nodes[b].Schema? && Mirrors(s.base, s.cand, rel)
    && ShapeMirrored(rel, s.base.nodes[a], s.cand.nodes[b])
    && TargetsMirrored(rel, s.base, s.base.nodes[a], s.cand, s.cand.nodes[b])
    && var x, y := WriterNode(s, s.base.nodes[a], s.cand.nodes[b]), ReaderNode(s, s.base.nodes[a], s.cand.nodes[b]);
       key !in x.keywords && y.keywords == x.keywords[key := k]
  }

  lemma GainedKeywordDecides(check: Check, x: Node, y: Node, key: Key, k: Json, v: Json)
    requires x.Schema? && y.Schema? && key !in x.keywords && y.keywords == x.keywords[key := k]
    ensures KeywordsAccept(check, y, v) <==> KeywordsAccept(check, x, v) && KeywordAccepts(check, key, k, v)
  {
    assert y.keywords[key] == k;
    if KeywordsAccept(check, y, v) {
      assert KeywordAccepts(check, key, y.keywords[key], v);
      forall other | other in x.keywords
        ensures KeywordAccepts(check, other, x.keywords[other], v)
      {
        assert KeywordAccepts(check, other, y.keywords[other], v);
      }
    }
  }

  /** There the guarantee holds exactly when the keyword accepts what the writer may send. */
  lemma GainedKeywordIff(s: Scene, check: Check, rel: Relation, a: Id, b: Id, key: Key, k: Json)
    requires s.Valid() && GainsKeyword(s, rel, a, b, key, k)
    ensures Included(s, check, a, b) <==>
      forall v :: ValidAt(check, ReadingOf(s), WriterGraph(s), WriterId(s, a, b), v) ==> KeywordAccepts(check, key, k, v)
  {
    var o, n := s.base.nodes[a], s.cand.nodes[b];
    var f, h := AllValid(check, ReadingOf(s), s.base), AllValid(check, ReadingOf(s), s.cand);
    ValidMirrors(check, ReadingOf(s), s.base, s.cand, rel);
    forall v | ValidAt(check, ReadingOf(s), WriterGraph(s), WriterId(s, a, b), v)
      ensures ValidAt(check, ReadingOf(s), ReaderGraph(s), ReaderId(s, a, b), v) <==> KeywordAccepts(check, key, k, v)
    {
      ValidUnfolds(check, ReadingOf(s), s.base, a, v);
      ValidUnfolds(check, ReadingOf(s), s.cand, b, v);
      GainedKeywordDecides(check, WriterNode(s, o, n), ReaderNode(s, o, n), key, k, v);
      ShapeMirrors(check, ReadingOf(s), s.base, s.cand, rel, o, n, v, f, h);
    }
  }

  /** A schema that gains a keyword the checker never looks at, over children that read the same: nothing is
      reported, and the guarantee holds exactly when the keyword accepts what the writer may send. */
  lemma UnknownKeywordIff(
    s: Scene, check: Check, rel: Relation, a: Id, b: Id, key: Key, k: Json, location: Place, t: Trace)
    requires s.Valid() && WellShaped(s.base) && ReferencesAgree(s) && MatchesAreEqual(s) && NeverCompared(key)
    requires GainsKeyword(s, rel, a, b, key, k) && Twins(s, a, b)
    requires Resolve(s.base, a) == a && Resolve(s.cand, b) == b
    ensures WalkerOf(s).Valid() && (a, b) in s.Pairs()
    ensures Visit(WalkerOf(s), (a, b), location, t).changes == t.changes
    ensures Included(s, check, a, b) <==>
      forall v :: ValidAt(check, ReadingOf(s), WriterGraph(s), WriterId(s, a, b), v) ==> KeywordAccepts(check, key, k, v)
  {
    UnknownKeywordsPass(s, a, b, location, t);
    GainedKeywordIff(s, check, rel, a, b, key, k);
  }

  /** An empty schema that gains such a keyword: nothing is reported, and the guarantee holds exactly when the
      keyword accepts every value. */
  lemma LoneKeywordIff(s: Scene, check: Check, key: Key, x: Json)
    requires NeverCompared(key) && Small(s, EMPTY_SCHEMA, TEXT, TEXT, OnlyKeyword(key, x), TEXT, TEXT)
    ensures WalkerOf(s).Valid() && (2, 2) in WalkerOf(s).universe
    ensures Visit(WalkerOf(s), (2, 2), Top("schema"), Trace([], {})).changes == []
    ensures Included(s, check, 2, 2) <==> forall v :: KeywordAccepts(check, key, x, v)
  {
    LoneKeywordIsSilent(s, key, x);
    SmallIsKnown(s, EMPTY_SCHEMA, TEXT, TEXT, OnlyKeyword(key, x), TEXT, TEXT);
    LoneInclusion(s, check, 2, 2, key, x);
  }

  lemma LoneInclusion(s: Scene, check: Check, a: Id, b: Id, key: Key, x: Json)
    requires s.Valid() && s.Known(a, b)
    requires WriterNode(s, s.base.nodes[a], s.cand.nodes[b]) == EMPTY_SCHEMA
    requires ReaderNode(s, s.base.nodes[a], s.cand.nodes[b]) == OnlyKeyword(key, x)
    ensures Included(s, check, a, b) <==> forall v :: KeywordAccepts(check, key, x, v)
  {
    forall v
      ensures ValidAt(check, ReadingOf(s), WriterGraph(s), WriterId(s, a, b), v)
      ensures ValidAt(check, ReadingOf(s), ReaderGraph(s), ReaderId(s, a, b), v) <==> KeywordAccepts(check, key, x, v)
    {
      AnyIsValid(check, ReadingOf(s), WriterGraph(s), WriterId(s, a, b), v);
      OnlyKeywordDecides(check, ReadingOf(s), ReaderGraph(s), ReaderId(s, a, b), key, x, v);
    }
  }

  lemma LoneKeywordIsSilent(s: Scene, key: Key, x: Json)
    requires NeverCompared(key) && Small(s, EMPTY_SCHEMA, TEXT, TEXT, OnlyKeyword(key, x), TEXT, TEXT)
    ensures WalkerOf(s).Valid() && (2, 2) in WalkerOf(s).universe
    ensures Visit(WalkerOf(s), (2, 2), Top("schema"), Trace([], {})).changes == []
  {
    SmallIsKnown(s, EMPTY_SCHEMA, TEXT, TEXT, OnlyKeyword(key, x), TEXT, TEXT);
    SmallTargets(WriterGraph(s), EMPTY_SCHEMA);
    SmallTargets(ReaderGraph(s), OnlyKeyword(key, x));
    OnlyKeywordIsUnwatched(key, x);
    PlainIsSilent(s, 2, 2, Top("schema"));
    ReportOnly(s, 2, 2, Top("schema"), Trace([], {}));
  }

  lemma OnlyKeywordIsUnwatched(key: Key, x: Json)
    requires NeverCompared(key)
    ensures WatchedAgree(EMPTY_SCHEMA, OnlyKeyword(key, x)) && WatchedAgree(OnlyKeyword(key, x), EMPTY_SCHEMA)
    ensures !ObjectLike(EMPTY_SCHEMA, OnlyKeyword(key, x)) && !ObjectLike(OnlyKeyword(key, x), EMPTY_SCHEMA)
  {
  }

  lemma OnlyKeywordDecides(check: Check, reading: Reading, g: Graph, a: Id, key: Key, x: Json, v: Json)
    requires g.Valid() && a in g.nodes && g.nodes[a] == OnlyKeyword(key, x)
    ensures ValidAt(check, reading, g, a, v) <==> KeywordAccepts(check, key, x, v)
  {
    var n, all := g.nodes[a], AllValid(check, reading, g);
    EmptyIsValid(check, reading, g, v);
    ValidUnfolds(check, reading, g, g.empty, v);
    ValidUnfolds(check, reading, g, a, v);
    assert OwnHolds(check, reading, g, EMPTY_SCHEMA, v, all);
    if v.Obj? {
      assert MembersHold(reading, n, v, all);
    }
    assert n.keywords[key] == x;
    assert KeywordsAccept(check, n, v) <==> KeywordAccepts(check, key, x, v);
  }

  const NON_EMPTY: Node := OnlyKeyword(MinProperties, Num(1.0))

  lemma MinPropertiesMisjudged(s: Scene, check: Check)
    requires Small(s, EMPTY_SCHEMA, TEXT, TEXT, NON_EMPTY, TEXT, TEXT)
    ensures Misjudged(s, check, 2, 2, Obj(map[]))
  {
    SmallIsKnown(s, EMPTY_SCHEMA, TEXT, TEXT, NON_EMPTY, TEXT, TEXT);
    PlainIsSilent(s, 2, 2, Top("schema"));
    TooSmall(check);
    PairTellsApart(s, check, EMPTY_SCHEMA, NON_EMPTY, Obj(map[]));
  }

  lemma TooSmall(check: Check)
    ensures Always(check, EMPTY_SCHEMA, Obj(map[])) && Never(check, NON_EMPTY, Obj(map[]))
  {
    assert NON_EMPTY.keywords[MinProperties] == Num(1.0);
    KeywordRejects(check, NON_EMPTY, MinProperties, Obj(map[]));
  }

  /** `minProperties` is such a keyword, and the empty object has no member. */
  lemma MinPropertiesCanNarrow(check: Check, direction: Direction)
    ensures Refuted(check, direction, Obj(map[]), EMPTY_SCHEMA, TEXT, TEXT, NON_EMPTY, TEXT, TEXT)
  {
    assert Kids(EMPTY_SCHEMA) == [] && Kids(NON_EMPTY) == [] && Kids(TEXT) == [];
    SmallSceneIsSmall(direction, EMPTY_SCHEMA, TEXT, TEXT, NON_EMPTY, TEXT, TEXT);
    MinPropertiesMisjudged(SmallScene(direction, EMPTY_SCHEMA, TEXT, TEXT, NON_EMPTY, TEXT, TEXT), check);
  }

  // ---- objects

  /** Two object schemas without properties in small documents; `v` is accepted by one side only. */
  lemma RecordsTellApart(s: Scene, check: Check, x: Node, y: Node, v: Json)
    requires Small(s, x, TEXT, TEXT, y, TEXT, TEXT) && x.Schema? && y.Schema? && x.ref == None && y.ref == None
    requires FirstCombinator(x).None? && FirstCombinator(y).None? && x.enum == NoEnum && y.enum == NoEnum
    requires Get(x.keywords, Type) == Str("object") == Get(y.keywords, Type)
    requires Get(x.keywords, Format) == Get(y.keywords, Format)
    requires !x.properties.NotAPropertyMap? && !y.properties.NotAPropertyMap?
    requires PropertyMembers(x.properties) == [] == PropertyMembers(y.properties) && x.additional == Unstated == y.additional
    requires Always(check, x, v) && Never(check, y, v)
    ensures Misjudged(s, check, 2, 2, v)
  {
    RecordIsSilent(s, 2, 2, Top("schema"));
    PairTellsApart(s, check, x, y, v);
  }

  lemma RecordAccepts(check: Check, n: Node)
    requires n.Schema? && n == RECORD.(properties := n.properties)
    ensures Always(check, n, Obj(map[]))
  {
    assert forall key :: key in n.keywords ==> KeywordAccepts(check, key, n.keywords[key], Obj(map[]));
  }

  const CONSTANT_RECORD: Node := RECORD.(keywords := map[Type := Str("object"), Const := Num(5.0)])

  lemma NotTheConstant(check: Check)
    ensures Never(check, CONSTANT_RECORD, Obj(map[]))
  {
    assert CONSTANT_RECORD.keywords[Const] == Num(5.0);
    KeywordRejects(check, CONSTANT_RECORD, Const, Obj(map[]));
  }

  /** The constraints of an object schema are not looked at: the empty object is not the constant. */
  lemma RecordConstraintCanNarrow(check: Check, direction: Direction)
    ensures Refuted(check, direction, Obj(map[]), RECORD, TEXT, TEXT, CONSTANT_RECORD, TEXT, TEXT)
  {
    assert Kids(RECORD) == [] && Kids(CONSTANT_RECORD) == [] && Kids(TEXT) == [];
    SmallSceneIsSmall(direction, RECORD, TEXT, TEXT, CONSTANT_RECORD, TEXT, TEXT);
    RecordAccepts(check, RECORD);
    NotTheConstant(check);
    RecordsTellApart(SmallScene(direction, RECORD, TEXT, TEXT, CONSTANT_RECORD, TEXT, TEXT), check, RECORD, CONSTANT_RECORD, Obj(map[]));
  }

  const EMPTY_RECORD: Node := RECORD.(properties := PropertyMap([]))
  const DEMANDING_RECORD: Node := EMPTY_RECORD.(required := ["a"])

  /** A required name that is no declared property is not looked at. */
  lemma UndeclaredRequiredCanNarrow(check: Check, direction: Direction)
    ensures Refuted(check, direction, Obj(map[]), EMPTY_RECORD, TEXT, TEXT, DEMANDING_RECORD, TEXT, TEXT)
  {
    assert Kids(EMPTY_RECORD) == [] && Kids(DEMANDING_RECORD) == [] && Kids(TEXT) == [];
    SmallSceneIsSmall(direction, EMPTY_RECORD, TEXT, TEXT, DEMANDING_RECORD, TEXT, TEXT);
    RecordAccepts(check, EMPTY_RECORD);
    assert "a" in DEMANDING_RECORD.required;
    assert Never(check, DEMANDING_RECORD, Obj(map[]));
    RecordsTellApart(SmallScene(direction, EMPTY_RECORD, TEXT, TEXT, DEMANDING_RECORD, TEXT, TEXT), check,
                     EMPTY_RECORD, DEMANDING_RECORD, Obj(map[]));
  }

  const SEALED_ANYTHING: Node := EMPTY_SCHEMA.(additional := Flag(false))
  const ONE_MEMBER: Json := Obj(map["a" := Null])

  lemma SealRejects(check: Check, g: Graph)
    requires 2 in g.nodes && g.nodes[2] == SEALED_ANYTHING
    ensures Rejected(check, Request, g, 2, ONE_MEMBER)
  {
    forall reading: Reading | reading != OpenRecords
      ensures !ValidAt(check, reading, g, 2, ONE_MEMBER)
    {
      ValidUnfolds(check, reading, g, 2, ONE_MEMBER);
      MemberDecides(reading, SEALED_ANYTHING, AllValid(check, reading, g));
    }
  }

  lemma AnythingAccepts(check: Check)
    ensures Always(check, EMPTY_SCHEMA, ONE_MEMBER)
  {
  }

  lemma UntypedSealMisjudged(s: Scene, check: Check)
    requires s.direction == Request
    requires Small(s, EMPTY_SCHEMA, TEXT, TEXT, SEALED_ANYTHING, TEXT, TEXT)
    ensures Misjudged(s, check, 2, 2, ONE_MEMBER)
  {
    SmallIsKnown(s, EMPTY_SCHEMA, TEXT, TEXT, SEALED_ANYTHING, TEXT, TEXT);
    PlainIsSilent(s, 2, 2, Top("schema"));
    AnythingAccepts(check);
    AlwaysIsValid(check, WriterGraph(s), 2, ONE_MEMBER);
    SealRejects(check, ReaderGraph(s));
    SmallTargets(WriterGraph(s), EMPTY_SCHEMA);
    SmallTargets(ReaderGraph(s), SEALED_ANYTHING);
    TellsApart(s, check, 2, 2, ONE_MEMBER);
  }

  /** `additionalProperties` is looked at only beside a type or properties. */
  lemma UntypedSealCanNarrow(check: Check)
    ensures Refuted(check, Request, ONE_MEMBER, EMPTY_SCHEMA, TEXT, TEXT, SEALED_ANYTHING, TEXT, TEXT)
  {
    assert Kids(EMPTY_SCHEMA) == [] && Kids(SEALED_ANYTHING) == [] && Kids(TEXT) == [];
    SmallSceneIsSmall(Request, EMPTY_SCHEMA, TEXT, TEXT, SEALED_ANYTHING, TEXT, TEXT);
    UntypedSealMisjudged(SmallScene(Request, EMPTY_SCHEMA, TEXT, TEXT, SEALED_ANYTHING, TEXT, TEXT), check);
  }

  const ITEMS_ALONE: Node := EMPTY_SCHEMA.(items := Some(3))
  const ONE_ITEM: Json := Arr([Null])

  lemma TextRejectsNull(check: Check, direction: Direction, g: Graph)
    requires 3 in g.nodes && g.nodes[3] == TEXT
    ensures Rejected(check, direction, g, 3, Null)
  {
    WrongType(check, TEXT, Null);
    NeverIsValid(check, direction, g, 3, Null);
  }

  lemma ItemsReject(check: Check, direction: Direction, g: Graph)
    requires 2 in g.nodes && g.nodes[2] == ITEMS_ALONE && 3 in g.nodes && g.nodes[3] == TEXT
    ensures Rejected(check, direction, g, 2, ONE_ITEM)
  {
    TextRejectsNull(check, direction, g);
    forall reading: Reading | direction == Response || reading != OpenRecords
      ensures !ValidAt(check, reading, g, 2, ONE_ITEM)
    {
      ValidUnfolds(check, reading, g, 2, ONE_ITEM);
      assert ONE_ITEM.items[0] == Null;
    }
  }

  lemma UntypedItemsMisjudged(s: Scene, check: Check)
    requires Small(s, EMPTY_SCHEMA, TEXT, TEXT, ITEMS_ALONE, TEXT, TEXT)
    ensures Misjudged(s, check, 2, 2, ONE_ITEM)
  {
    SmallIsKnown(s, EMPTY_SCHEMA, TEXT, TEXT, ITEMS_ALONE, TEXT, TEXT);
    SmallTargets(WriterGraph(s), EMPTY_SCHEMA);
    SmallTargets(ReaderGraph(s), ITEMS_ALONE);
    PlainIsSilent(s, 2, 2, Top("schema"));
    ItemsReject(check, s.direction, ReaderGraph(s));
    forall reading: Reading
      ensures ValidAt(check, reading, WriterGraph(s), 2, ONE_ITEM)
    {
      AnyIsValid(check, reading, WriterGraph(s), 2, ONE_ITEM);
    }
    TellsApart(s, check, 2, 2, ONE_ITEM);
  }

  /** `items` is looked at only beside the type of arrays. */
  lemma UntypedItemsCanNarrow(check: Check, direction: Direction)
    ensures Refuted(check, direction, ONE_ITEM, EMPTY_SCHEMA, TEXT, TEXT, ITEMS_ALONE, TEXT, TEXT)
  {
    assert Kids(EMPTY_SCHEMA) == [] && Kids(ITEMS_ALONE) == [3] && Kids(TEXT) == [];
    SmallSceneIsSmall(direction, EMPTY_SCHEMA, TEXT, TEXT, ITEMS_ALONE, TEXT, TEXT);
    UntypedItemsMisjudged(SmallScene(direction, EMPTY_SCHEMA, TEXT, TEXT, ITEMS_ALONE, TEXT, TEXT), check);
  }

  const TEXT_RECORD: Node := RECORD.(properties := PropertyMap([Member("a", 3)]))

  /** An object schema without properties that gains an optional one reports only the addition. */
  lemma GainedPropertyIsAdditive(s: Scene, a: Id, b: Id, location: Place)
    requires s.Valid() && s.Known(a, b) && s.base.nodes[a] == RECORD && s.cand.nodes[b] == TEXT_RECORD
    ensures Steps(s, a, b, location) == [Add(OptionalFieldAddition, Property(location, "a"))]
  {
    AdditionalIsKnown(s.base, a);
    AdditionalIsKnown(s.cand, b);
    assert NewPropertySteps(RECORD, TEXT_RECORD, location, 1)
        == NewPropertySteps(RECORD, TEXT_RECORD, location, 0) + NewProperty(RECORD, TEXT_RECORD, location, Member("a", 3));
    assert OldPropertySteps(s, RECORD, TEXT_RECORD, location, 0) == [];
    assert ObjectSteps(s, a, b, location) == [Add(OptionalFieldAddition, Property(location, "a"))];
  }

  lemma GainedPropertyMisjudged(s: Scene, check: Check)
    requires s.direction == Request
    requires Small(s, RECORD, TEXT, TEXT, TEXT_RECORD, TEXT, TEXT)
    ensures Misjudged(s, check, 2, 2, ONE_MEMBER)
  {
    SmallIsKnown(s, RECORD, TEXT, TEXT, TEXT_RECORD, TEXT, TEXT);
    SmallTargets(WriterGraph(s), RECORD);
    SmallTargets(ReaderGraph(s), TEXT_RECORD);
    GainedPropertyIsAdditive(s, 2, 2, Top("schema"));
    TextRejectsNull(check, Request, s.cand);
    OpenRecordAccepts(check, s.base, 2);
    forall reading: Reading | reading != OpenRecords
      ensures !ValidAt(check, reading, s.cand, 2, ONE_MEMBER)
    {
      ValidUnfolds(check, reading, s.cand, 2, ONE_MEMBER);
      MemberDecides(reading, TEXT_RECORD, AllValid(check, reading, s.cand));
      assert Find(PropertyMembers(TEXT_RECORD.properties), "a") == Some(3);
    }
    TellsApart(s, check, 2, 2, ONE_MEMBER);
  }

  lemma MemberDecides(reading: Reading, n: Node, below: Acceptance)
    requires n.Schema?
    ensures MembersHold(reading, n, ONE_MEMBER, below) ==> MemberHolds(reading, n, "a", Null, below)
  {
    assert "a" in ONE_MEMBER.members && ONE_MEMBER.members["a"] == Null;
  }

  lemma OpenRecordAccepts(check: Check, g: Graph, a: Id)
    requires a in g.nodes && g.nodes[a] == RECORD
    ensures Admitted(check, g, a, ONE_MEMBER)
  {
    assert KeywordAccepts(check, Type, RECORD.keywords[Type], ONE_MEMBER);
    assert Always(check, RECORD, ONE_MEMBER);
    AlwaysIsValid(check, g, a, ONE_MEMBER);
  }

  /** An open object schema that begins to list properties no longer accepts every value there. */
  lemma GainedPropertyCanNarrow(check: Check)
    ensures Refuted(check, Request, ONE_MEMBER, RECORD, TEXT, TEXT, TEXT_RECORD, TEXT, TEXT)
  {
    assert Kids(RECORD) == [] && Kids(TEXT) == [];
    assert Kids(TEXT_RECORD) == [3];
    SmallSceneIsSmall(Request, RECORD, TEXT, TEXT, TEXT_RECORD, TEXT, TEXT);
    GainedPropertyMisjudged(SmallScene(Request, RECORD, TEXT, TEXT, TEXT_RECORD, TEXT, TEXT), check);
  }

  const MAP_OF_A: Node := RECORD.(additional := Typed(3))

  lemma TypedMapMisjudged(s: Scene, check: Check)
    requires s.direction == Request
    requires Small(s, MAP_OF_A, TO_B, EMPTY_SCHEMA, MAP_OF_A, TO_B, TEXT)
    ensures Misjudged(s, check, 2, 2, ONE_MEMBER)
  {
    SmallIsKnown(s, MAP_OF_A, TO_B, EMPTY_SCHEMA, MAP_OF_A, TO_B, TEXT);
    SmallTargets(WriterGraph(s), MAP_OF_A);
    SmallTargets(ReaderGraph(s), MAP_OF_A);
    SmallTargets(WriterGraph(s), TO_B);
    SmallTargets(ReaderGraph(s), TO_B);
    assert Same(s.base, 3, s.cand, 3) by {
      assert Kids(TO_B) == [];
    }
    RecordIsSilent(s, 2, 2, Top("schema"));
    BehindReference(check, WriterGraph(s), 3, 4, Null);
    BehindReference(check, ReaderGraph(s), 3, 4, Null);
    WrongType(check, TEXT, Null);
    NeverIsValid(check, s.direction, ReaderGraph(s), 4, Null);
    forall reading: Reading
      ensures ValidAt(check, reading, s.base, 2, ONE_MEMBER)
    {
      AnyIsValid(check, reading, s.base, 4, Null);
      MapDecides(check, reading, s.base, 2);
    }
    forall reading: Reading | reading != OpenRecords
      ensures !ValidAt(check, reading, s.cand, 2, ONE_MEMBER)
    {
      MapDecides(check, reading, s.cand, 2);
    }
    TellsApart(s, check, 2, 2, ONE_MEMBER);
  }

  lemma MapDecides(check: Check, reading: Reading, g: Graph, a: Id)
    requires a in g.nodes && g.nodes[a] == MAP_OF_A
    ensures ValidAt(check, reading, g, 3, Null) ==> ValidAt(check, reading, g, a, ONE_MEMBER)
    ensures reading != OpenRecords && ValidAt(check, reading, g, a, ONE_MEMBER) ==> ValidAt(check, reading, g, 3, Null)
  {
    ValidUnfolds(check, reading, g, a, ONE_MEMBER);
    assert KeywordAccepts(check, Type, MAP_OF_A.keywords[Type], ONE_MEMBER);
    assert KeywordsAccept(check, MAP_OF_A, ONE_MEMBER);
    var all := AllValid(check, reading, g);
    assert reading != OpenRecords ==> (MemberHolds(reading, MAP_OF_A, "a", Null, all) <==> ValidAt(check, reading, g, 3, Null));
    assert "a" in ONE_MEMBER.members && ONE_MEMBER.members["a"] == Null;
  }

  /** Typed maps are compared as text: what their references lead to may change. */
  lemma TypedMapCanNarrow(check: Check)
    ensures Refuted(check, Request, ONE_MEMBER, MAP_OF_A, TO_B, EMPTY_SCHEMA, MAP_OF_A, TO_B, TEXT)
  {
    assert Kids(MAP_OF_A) == [3] && Kids(TO_B) == [] && Kids(TEXT) == [] && Kids(EMPTY_SCHEMA) == [];
    SmallSceneIsSmall(Request, MAP_OF_A, TO_B, EMPTY_SCHEMA, MAP_OF_A, TO_B, TEXT);
    TypedMapMisjudged(SmallScene(Request, MAP_OF_A, TO_B, EMPTY_SCHEMA, MAP_OF_A, TO_B, TEXT), check);
  }
}
