module SchemaConditions {
  /** What a walk that reports nothing breaking takes for granted.

      A request is written for the base and read by the candidate, a response is written by the
      candidate and read by clients of the base.  The walk does not look at everything; what it overlooks
      must not be stricter at the reader, unless the two documents reach the same from there.  The
      conditions compare the text of nodes, with two exceptions that speak of accepted values: what a
      dropped enumeration listed (`ListedKept`, finitely many values) and variants an `allOf` gained
      (`AddsNothing`, which holds of pure annotations).  They are sufficient; for each, SchemaLeniency
      shows an input on which the checker passes and the guarantee fails without it. */

  import opened Common
  import opened Json
  import opened SchemaGraph
  import opened SchemaTraversal
  import opened SchemaWalk
  import opened SchemaMeaning
  import opened SchemaMirror

  // ---- who writes and who reads

  function ReadingOf(s: Scene): Reading {
    if s.direction == Request then ClosedRecords else OpenRecords
  }

  function WriterGraph(s: Scene): Graph {
    if s.direction == Request then s.base else s.cand
  }

  function ReaderGraph(s: Scene): Graph {
    if s.direction == Request then s.cand else s.base
  }

  function WriterId(s: Scene, a: Id, b: Id): Id {
    if s.direction == Request then a else b
  }

  function ReaderId(s: Scene, a: Id, b: Id): Id {
    if s.direction == Request then b else a
  }

  function WriterNode(s: Scene, o: Node, n: Node): Node {
    if s.direction == Request then o else n
  }

  function ReaderNode(s: Scene, o: Node, n: Node): Node {
    if s.direction == Request then n else o
  }

  // ---- keywords

  const ANNOTATIONS: set<Key> := {Default, ReadOnly, WriteOnly}
  const LOWER_BOUNDS: set<Key> := {MinLength, Minimum, MinItems, MinProperties}
  const UPPER_BOUNDS: set<Key> := {MaxLength, Maximum, MaxItems, MaxProperties}

  /** The keywords of a schema have the shapes JSON Schema gives them. */
  ghost predicate Proper(n: Node) {
    match n
    case Scalar(_) => true
    case Schema(_, x, y, z, enum, properties, _, _, _, keywords) =>
      && !x.NotAVariantList? && !y.NotAVariantList? && !z.NotAVariantList?
      && !enum.NotAnEnumList? && !properties.NotAPropertyMap?
      && (forall key :: key in keywords && key in LOWER_BOUNDS + UPPER_BOUNDS ==> keywords[key].Num?)
      && (forall key :: key in keywords && keywords[key] == Null ==> key in ANNOTATIONS || key == Const || key.Other?)
  }

  predicate Looser(key: Key, was: Json, now: Json) {
    && was.Num? && now.Num?
    && ((key in LOWER_BOUNDS && now.n <= was.n) || (key in UPPER_BOUNDS && was.n <= now.n))
  }

  /** A keyword of the reader `y` is no stricter than at the writer `x`. */
  predicate KeyKept(key: Key, x: Node, y: Node)
    requires x.Schema? && y.Schema? && key in y.keywords
  {
    || key in ANNOTATIONS
    || (key in x.keywords && (x.keywords[key] == y.keywords[key] || Looser(key, x.keywords[key], y.keywords[key])))
  }

  ghost predicate KeysKept(x: Node, y: Node)
    requires x.Schema? && y.Schema?
  {
    forall key {:trigger KeyKept(key, x, y)} {:trigger y.keywords[key]} :: key in y.keywords ==> KeyKept(key, x, y)
  }

  predicate EnumKept(x: Enum, y: Enum) {
    y.EnumList? ==> x.EnumList? && forall value :: value in x.values ==> value in y.values
  }

  // ---- what stands beside a combinator or a reference is never compared

  predicate AdditionalKept(direction: Direction, x: Node, y: Node)
    requires x.Schema? && y.Schema?
  {
    direction == Request ==>
      && !y.additional.Typed?
      && (y.additional == Flag(false) ==> x.additional == Flag(false) && PropertyMembers(x.properties) == [])
  }

  ghost predicate BesideKept(direction: Direction, x: Node, y: Node)
    requires x.Schema? && y.Schema?
  {
    && KeysKept(x, y) && EnumKept(x.enum, y.enum)
    && PropertyMembers(y.properties) == [] && y.items == None
    && (forall name :: name in y.required ==> name in x.required)
    && AdditionalKept(direction, x, y)
  }

  function Own(n: Node): (r: Node)
    ensures r.Schema?
  {
    if n.Schema? then n else EMPTY_SCHEMA
  }

  /** A reference at the reader has nothing beside it that is stricter than at the writer. */
  ghost predicate PositionComparable(s: Scene, a: Id, b: Id)
    requires s.Known(a, b)
  {
    var x, y := WriterNode(s, s.base.nodes[a], s.cand.nodes[b]), ReaderNode(s, s.base.nodes[a], s.cand.nodes[b]);
    y.Schema? && y.ref.Some? ==> FirstCombinator(y).None? && BesideKept(s.direction, Own(x), y)
  }

  ghost predicate OneCombinator(n: Node)
    requires n.Schema?
  {
    && (n.oneOf.NoVariants? || n.anyOf.NoVariants?)
    && (n.oneOf.NoVariants? || n.allOf.NoVariants?)
    && (n.anyOf.NoVariants? || n.allOf.NoVariants?)
  }

  /** The walk compares some old variant with this new one. */
  ghost predicate IsMatch(s: Scene, xs: seq<Id>, ys: seq<Id>, j: nat)
    requires s.Valid() && Listed(s.base, xs) && Listed(s.cand, ys)
  {
    exists i :: 0 <= i < |xs| && FirstMatch(s, xs[i], ys) == j
  }

  /** Variant `y` of the candidate accepts whatever the base accepts at `a`. */
  ghost predicate AddsNothing(s: Scene, check: Check, a: Id, y: Id) {
    forall v :: ValidAt(check, ClosedRecords, s.base, a, v) ==> ValidAt(check, ClosedRecords, s.cand, y, v)
  }

  /** Every variant a request `allOf` has gained accepts what was accepted before. */
  ghost predicate AddedKept(s: Scene, check: Check, a: Id, xs: seq<Id>, ys: seq<Id>)
    requires s.Valid() && Listed(s.base, xs) && Listed(s.cand, ys)
  {
    forall j {:trigger ys[j]} :: 0 <= j < |ys| ==> IsMatch(s, xs, ys, j) || AddsNothing(s, check, a, ys[j])
  }

  ghost predicate CombinatorComparable(s: Scene, check: Check, a: Id, b: Id)
    requires s.Valid() && s.Known(a, b) && s.base.nodes[a].Schema? && s.cand.nodes[b].Schema?
  {
    var o, n := s.base.nodes[a], s.cand.nodes[b];
    && OneCombinator(ReaderNode(s, o, n))
    && BesideKept(s.direction, WriterNode(s, o, n), ReaderNode(s, o, n))
    && (s.direction == Request && o.allOf.VariantList? && n.allOf.VariantList? ==>
          && Listed(s.base, o.allOf.ids) && Listed(s.cand, n.allOf.ids)
          && AddedKept(s, check, a, o.allOf.ids, n.allOf.ids))
  }

  // ---- nodes without combinators

  predicate DropsEnum(s: Scene, o: Node, n: Node)
    requires o.Schema? && n.Schema?
  {
    s.direction == Request && o.enum.EnumList? && n.enum.NoEnum?
  }

  /** Every value that a dropped request enum listed is still accepted if it was. */
  ghost predicate ListedKept(s: Scene, check: Check, a: Id, b: Id, values: seq<Json>) {
    forall i {:trigger values[i]} :: 0 <= i < |values| && ValidAt(check, ClosedRecords, s.base, a, values[i]) ==>
      ValidAt(check, ClosedRecords, s.cand, b, values[i])
  }

  /** The keywords the walk does not compare at a pair without combinators. */
  predicate Overlooked(o: Node, n: Node, key: Key)
    requires o.Schema? && n.Schema?
  {
    key.Other? || key == MinProperties || key == MaxProperties || (ObjectLike(o, n) && key != Type && key != Format)
  }

  /** Whether arrays get past the items the walk did not compare. */
  predicate ItemsCompared(o: Node, n: Node, y: Node)
    requires o.Schema? && n.Schema? && y.Schema?
  {
    y.items.Some? ==>
      && Get(y.keywords, Type).Str?
      && (Get(y.keywords, Type) == Str("array") ==> !ObjectLike(o, n))
  }

  /** A request object that lists properties listed some before, and is no typed map. */
  predicate RecordComparable(o: Node, n: Node)
    requires o.Schema? && n.Schema?
  {
    && (PropertyMembers(o.properties) == [] && o.additional != Flag(false) ==> PropertyMembers(n.properties) == [])
    && (n.additional.Typed? ==> PropertyMembers(n.properties) != [])
  }

  ghost predicate PlainComparable(s: Scene, o: Node, n: Node)
    requires o.Schema? && n.Schema?
  {
    var x, y := WriterNode(s, o, n), ReaderNode(s, o, n);
    && (forall key {:trigger KeyKept(key, x, y)} {:trigger y.keywords[key]} ::
          key in y.keywords && Overlooked(o, n, key) ==> KeyKept(key, x, y))
    && (Const in y.keywords && y.keywords[Const] == Null ==> Const in x.keywords)
    && (forall name :: name in y.required && Find(PropertyMembers(o.properties), name).None? ==> name in x.required)
    && ItemsCompared(o, n, y)
    && (if ObjectLike(o, n) then s.direction == Request ==> RecordComparable(o, n)
        else AdditionalKept(s.direction, x, y))
  }

  // ---- pairs

  /** Python finds no two literals equal that JSON tells apart (`true` and `1`). */
  ghost predicate LiteralsAgree(o: Node, n: Node) {
    match (o, n)
    case (Scalar(x), Scalar(y)) => PyEq(x, y) ==> x == y
    case (Schema(_, _, _, _, e, _, _, _, _, k), Schema(_, _, _, _, f, _, _, _, _, l)) =>
      && (forall key :: key in k && key in l && PyEq(k[key], l[key]) ==> k[key] == l[key])
      && (e.EnumList? && f.EnumList? ==>
            forall i, j :: 0 <= i < |e.values| && 0 <= j < |f.values| && PyEq(e.values[i], f.values[j]) ==>
              e.values[i] == f.values[j])
    case _ => true
  }

  ghost predicate Comparable(s: Scene, check: Check, a: Id, b: Id)
    requires s.Valid() && s.Known(a, b)
  {
    var o, n := s.base.nodes[a], s.cand.nodes[b];
    && LiteralsAgree(o, n) && Proper(o) && Proper(n)
    && (o.Schema? && n.Schema? ==>
          && ReaderNode(s, o, n).ref == None
          && if FirstCombinator(o).Some? || FirstCombinator(n).Some? then CombinatorComparable(s, check, a, b)
             else if DropsEnum(s, o, n) then ListedKept(s, check, a, b, o.enum.values)
             else PlainComparable(s, o, n))
  }

  // ---- regions

  /** A set of positions that the walk, started inside, does not leave. */
  ghost predicate Explores(s: Scene, pairs: set<Marker>)
    requires s.Valid()
  {
    forall m {:trigger m in pairs} :: m in pairs ==> s.Known(m.0, m.1) && KeepsTo(s, pairs, m.0, m.1)
  }

  ghost predicate KeepsTo(s: Scene, pairs: set<Marker>, a: Id, b: Id)
    requires s.Valid() && s.Known(a, b)
  {
    forall location {:trigger Steps(s, Resolve(s.base, a), Resolve(s.cand, b), location)} ::
      InRegion(Steps(s, Resolve(s.base, a), Resolve(s.cand, b), location), pairs)
  }

  /** A pair of positions that reach the same, or whose comparison stays in the region and overlooks nothing
      that matters. */
  ghost predicate Handled(s: Scene, check: Check, pairs: set<Marker>, a: Id, b: Id)
    requires s.Valid()
  {
    && s.Known(a, b)
    && (Unchanged(s.base, s.cand, a, b)
        || (KeepsTo(s, pairs, a, b) && PositionComparable(s, a, b)
            && Comparable(s, check, Resolve(s.base, a), Resolve(s.cand, b))))
  }

  ghost predicate AllHandled(s: Scene, check: Check, pairs: set<Marker>)
    requires s.Valid()
  {
    forall m {:trigger m in pairs} :: m in pairs ==> Handled(s, check, pairs, m.0, m.1)
  }

  /** A region around a pair all of whose pairs are handled: conditions on the two documents, stated before
      any walk. */
  ghost predicate Suitable(s: Scene, check: Check, pairs: set<Marker>, a: Id, b: Id)
    requires s.Valid()
  {
    (a, b) in pairs && AllHandled(s, check, pairs)
  }

  /** Equal documents are suitable everywhere, whatever their schemas are. */
  lemma EqualDocumentsAreSuitable(s: Scene, check: Check, a: Id)
    requires s.Valid() && s.base == s.cand && a in s.base.nodes
    ensures Suitable(s, check, {(a, a)}, a, a)
  {
    SelfIsUnchanged(s.base, a);
  }
}
