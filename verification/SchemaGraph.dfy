module SchemaGraph {
  /** The schema part of an OpenAPI document.

      A parsed document is a tree of JSON objects, each with an identity of its own (`id(...)` in the
      checker); `$ref` strings turn the tree into a possibly cyclic graph.  Identities are numbers
      given in document order, so children carry larger numbers than their parents.  Keywords that
      only document a schema (title, description, examples, deprecated) are not represented: the
      checker never reads them, and `_semantic` removes them before every strict comparison. */

  import opened Common
  import opened Json

  type Id = nat

  datatype Member = Member(name: string, id: Id)

  datatype Combinator = OneOf | AnyOf | AllOf

  // A keyword that should hold a list or an object is absent, well shaped, or something else.
  datatype Variants = NoVariants | VariantList(ids: seq<Id>) | NotAVariantList(value: Json)
  datatype Enum = NoEnum | EnumList(values: seq<Json>) | NotAnEnumList(value: Json)
  datatype Properties = NoProperties | PropertyMap(members: seq<Member>) | NotAPropertyMap(value: Json)
  datatype Additional = Unstated | Flag(allowed: bool) | Typed(id: Id)

  /** The keywords whose values the checker looks at, the two bounds on the number of members, which it
      does not look at, and every other keyword by name. */
  datatype Key =
    | Type | Format | Const | Default | ExclusiveMaximum | ExclusiveMinimum | MaxItems | MaxLength
    | Maximum | MinItems | MinLength | Minimum | MultipleOf | Pattern | ReadOnly | UniqueItems
    | WriteOnly | MinProperties | MaxProperties | Other(name: string)

  /** A schema position: a JSON object with its keywords, or anything else (`true`, `false`, null).
      `keywords` holds every keyword whose value is compared as a plain value; property maps list
      their members in the order of their sorted names. */
  datatype Node =
    | Scalar(value: Json)
    | Schema(
        ref: Option<string>,
        oneOf: Variants,
        anyOf: Variants,
        allOf: Variants,
        enum: Enum,
        properties: Properties,
        required: seq<string>,
        additional: Additional,
        items: Option<Id>,
        keywords: map<Key, Json>)

  const REF_PREFIX := "#/components/schemas/"

  const EMPTY_SCHEMA :=
    Schema(None, NoVariants, NoVariants, NoVariants, NoEnum, NoProperties, [], Unstated, None, map[])

  /** `empty` and `none` are the values `.get('items', {})` and `.get('schema')` fall back to. */
  datatype Graph = Graph(nodes: map<Id, Node>, schemas: seq<Member>, size: nat, empty: Id, none: Id) {
    ghost predicate Valid() {
      && (forall a {:trigger NodeValid(a)} :: a in nodes ==> a < size && NodeValid(a))
      && (forall m {:trigger m in schemas} :: m in schemas ==> m.id in nodes)
      && empty in nodes && nodes[empty] == EMPTY_SCHEMA
      && none in nodes && nodes[none] == Scalar(Null)
    }

    ghost predicate NodeValid(a: Id)
      requires a in nodes
    {
      && (forall c {:trigger c in Kids(nodes[a])} :: c in Kids(nodes[a]) ==> a < c && c in nodes)
      && (nodes[a].Schema? ==> DistinctNames(PropertyMembers(nodes[a].properties)))
    }

    lemma KidsAreKnown(a: Id)
      requires Valid() && a in nodes
      ensures a < size
      ensures forall c {:trigger c in Kids(nodes[a])} :: c in Kids(nodes[a]) ==> a < c < size && c in nodes
    {
      assert NodeValid(a);
      forall c | c in Kids(nodes[a])
        ensures c < size
      {
        assert NodeValid(c);
      }
    }
  }

  /** `schema.get(key)`: a missing keyword and an explicit `null` read the same. */
  function Get(keywords: map<Key, Json>, key: Key): Json {
    if key in keywords then keywords[key] else Null
  }

  function VariantIds(v: Variants): seq<Id> {
    if v.VariantList? then v.ids else []
  }

  function PropertyMembers(p: Properties): seq<Member> {
    if p.PropertyMap? then p.members else []
  }

  predicate DistinctNames(members: seq<Member>) {
    forall i, j | 0 <= i < j < |members| :: members[i].name != members[j].name
  }

  function MemberIds(members: seq<Member>): seq<Id> {
    seq(|members|, k requires 0 <= k < |members| => members[k].id)
  }

  /** `schema.get('items', {})` */
  function ItemsOf(g: Graph, n: Node): Id
    requires n.Schema?
  {
    if n.items.Some? then n.items.value else g.empty
  }

  /** The schema positions directly below a node, keyword by keyword. */
  function Kids(n: Node): seq<Id> {
    match n
    case Scalar(_) => []
    case Schema(_, x, y, z, _, p, _, additional, items, _) =>
      VariantIds(x) + VariantIds(y) + VariantIds(z) + MemberIds(PropertyMembers(p))
      + (if additional.Typed? then [additional.id] else [])
      + (if items.Some? then [items.value] else [])
  }

  function Find(members: seq<Member>, name: string): (r: Option<Id>)
    ensures r.Some? ==> exists k :: 0 <= k < |members| && members[k] == Member(name, r.value)
    ensures r.None? ==> forall k :: 0 <= k < |members| ==> members[k].name != name
  {
    if members == [] then None
    else if members[0].name == name then Some(members[0].id)
    else Find(members[1..], name)
  }

  /** `reference.split('/')[-1]` */
  function LastSegment(ref: string): string {
    if ref == "" then ""
    else if ref[|ref| - 1] == '/' then ""
    else LastSegment(ref[..|ref| - 1]) + [ref[|ref| - 1]]
  }

  /** The component that the reference of a node names. */
  function Target(g: Graph, n: Node): (r: Option<Id>)
    ensures r.Some? ==> r.value in g.nodes && n.Schema? && n.ref.Some?
  {
    match n
    case Schema(Some(ref), _, _, _, _, _, _, _, _, _) =>
      if StartsWith(ref, REF_PREFIX) then
        match Find(g.schemas, ref[|REF_PREFIX|..])
        case Some(target) => if target in g.nodes then Some(target) else None
        case None => None
      else None
    case _ => None
  }

  /** `_resolved`: one step through a local reference; anything unresolvable stays as it is. */
  function Resolve(g: Graph, a: Id): (r: Id)
    requires a in g.nodes
    ensures r in g.nodes
  {
    match Target(g, g.nodes[a])
    case Some(target) => target
    case None => a
  }

  // ---- equality

  /** The same document, up to Python's equality of values.  References are compared as text and not followed. */
  predicate Equal(g: Graph, a: Id, h: Graph, b: Id)
    requires g.Valid() && h.Valid() && a in g.nodes && b in h.nodes
    decreases g.size - a
  {
    var x, y := Kids(g.nodes[a]), Kids(h.nodes[b]);
    g.KidsAreKnown(a);
    h.KidsAreKnown(b);
    && SameShell(g.nodes[a], h.nodes[b])
    && |x| == |y|
    && forall i | 0 <= i < |x| ::
         assert x[i] in x && y[i] in y;
         Equal(g, x[i], h, y[i])
  }

  /** What `_semantic` removes from objects: the keywords that only document a schema. */
  const DOCUMENTATION: set<string> := {"title", "description", "examples", "deprecated"}

  /** `_semantic` on a plain value. */
  function Plain(j: Json): Json {
    match j
    case Arr(items) => Arr(seq(|items|, i requires 0 <= i < |items| => Plain(items[i])))
    case Obj(members) => Obj(map k | k in members && k !in DOCUMENTATION :: Plain(members[k]))
    case _ => j
  }

  /** `_semantic` takes a property map for any other object: properties named like a documentation keyword go. */
  function Said(members: seq<Member>): (r: seq<Member>)
    ensures forall m :: m in r <==> m in members && m.name !in DOCUMENTATION
  {
    if members == [] then []
    else (if members[0].name in DOCUMENTATION then [] else [members[0]]) + Said(members[1..])
  }

  function PlainVariants(v: Variants): Variants {
    if v.NotAVariantList? then NotAVariantList(Plain(v.value)) else v
  }

  function PlainEnum(e: Enum): Enum {
    match e
    case NoEnum => e
    case EnumList(values) => EnumList(seq(|values|, i requires 0 <= i < |values| => Plain(values[i])))
    case NotAnEnumList(value) => NotAnEnumList(Plain(value))
  }

  function PlainProperties(p: Properties): Properties {
    match p
    case NoProperties => p
    case PropertyMap(members) => PropertyMap(Said(members))
    case NotAPropertyMap(value) => NotAPropertyMap(Plain(value))
  }

  function PlainKeywords(keywords: map<Key, Json>): map<Key, Json> {
    map key | key in keywords :: Plain(keywords[key])
  }

  /** What `_semantic` leaves of a node. */
  function Semantic(n: Node): Node {
    match n
    case Scalar(value) => Scalar(Plain(value))
    case Schema(ref, x, y, z, enum, properties, required, additional, items, keywords) =>
      Schema(
        ref, PlainVariants(x), PlainVariants(y), PlainVariants(z), PlainEnum(enum), PlainProperties(properties), required,
        additional, items, PlainKeywords(keywords))
  }

  lemma SemanticVariants(v: Variants)
    ensures VariantIds(PlainVariants(v)) == VariantIds(v)
  {
  }

  lemma SemanticParts(n: Node)
    requires n.Schema?
    ensures var m := Semantic(n);
      && m.Schema? && m.ref == n.ref && m.required == n.required && m.additional == n.additional && m.items == n.items
      && VariantIds(m.oneOf) == VariantIds(n.oneOf) && VariantIds(m.anyOf) == VariantIds(n.anyOf)
      && VariantIds(m.allOf) == VariantIds(n.allOf)
      && PropertyMembers(m.properties) == Said(PropertyMembers(n.properties))
  {
    SemanticVariants(n.oneOf);
    SemanticVariants(n.anyOf);
    SemanticVariants(n.allOf);
  }

  lemma SemanticKid(n: Node, c: Id)
    requires c in Kids(Semantic(n))
    ensures c in Kids(n)
  {
    if n.Schema? {
      SemanticParts(n);
      SemanticKidOf(n, Semantic(n), c);
    }
  }

  lemma SemanticKidOf(n: Node, m: Node, c: Id)
    requires n.Schema? && m.Schema? && c in Kids(m)
    requires m.additional == n.additional && m.items == n.items
    requires VariantIds(m.oneOf) == VariantIds(n.oneOf) && VariantIds(m.anyOf) == VariantIds(n.anyOf)
    requires VariantIds(m.allOf) == VariantIds(n.allOf)
    requires PropertyMembers(m.properties) == Said(PropertyMembers(n.properties))
    ensures c in Kids(n)
  {
    KidIff(n, c);
    KidIff(m, c);
    if c in MemberIds(PropertyMembers(m.properties)) {
      SaidIds(PropertyMembers(n.properties), c);
    }
  }

  lemma KidIff(n: Node, c: Id)
    requires n.Schema?
    ensures c in Kids(n) <==>
      || c in VariantIds(n.oneOf) || c in VariantIds(n.anyOf) || c in VariantIds(n.allOf)
      || c in MemberIds(PropertyMembers(n.properties)) || n.additional == Typed(c) || n.items == Some(c)
  {
    var ids := MemberIds(PropertyMembers(n.properties));
    var front := VariantIds(n.oneOf) + VariantIds(n.anyOf) + VariantIds(n.allOf) + ids;
    var additional := if n.additional.Typed? then [n.additional.id] else [];
    assert Kids(n) == front + additional + (if n.items.Some? then [n.items.value] else []);
  }

  lemma SaidIds(members: seq<Member>, c: Id)
    requires c in MemberIds(Said(members))
    ensures c in MemberIds(members)
  {
    var k :| 0 <= k < |Said(members)| && Said(members)[k].id == c;
    assert Said(members)[k] in members;
    var j :| 0 <= j < |members| && members[j] == Said(members)[k];
    assert MemberIds(members)[j] == c;
  }

  lemma SemanticKidsAreKnown(g: Graph, a: Id)
    requires g.Valid() && a in g.nodes
    ensures a < g.size
    ensures forall c {:trigger c in Kids(Semantic(g.nodes[a]))} :: c in Kids(Semantic(g.nodes[a])) ==> a < c < g.size && c in g.nodes
  {
    g.KidsAreKnown(a);
    forall c | c in Kids(Semantic(g.nodes[a]))
      ensures a < c < g.size && c in g.nodes
    {
      SemanticKid(g.nodes[a], c);
    }
  }

  /** `_semantic(x) == _semantic(y)` */
  predicate Same(g: Graph, a: Id, h: Graph, b: Id)
    requires g.Valid() && h.Valid() && a in g.nodes && b in h.nodes
    decreases g.size - a
  {
    var x, y := Kids(Semantic(g.nodes[a])), Kids(Semantic(h.nodes[b]));
    SemanticKidsAreKnown(g, a);
    SemanticKidsAreKnown(h, b);
    && SameShell(Semantic(g.nodes[a]), Semantic(h.nodes[b]))
    && |x| == |y|
    && forall i | 0 <= i < |x| ::
         assert x[i] in x && y[i] in y;
         Same(g, x[i], h, y[i])
  }

  /** Equality of two nodes up to the identities of their children. */
  predicate SameShell(m: Node, n: Node) {
    match (m, n)
    case (Scalar(x), Scalar(y)) => PyEq(x, y)
    case (Schema(ref, x, y, z, e, p, required, additional, items, keywords),
          Schema(ref', x', y', z', e', p', required', additional', items', keywords')) =>
      && ref == ref'
      && SameVariants(x, x') && SameVariants(y, y') && SameVariants(z, z')
      && SameEnum(e, e')
      && SameNames(p, p')
      && required == required'
      && (additional == additional' || (additional.Typed? && additional'.Typed?))
      && items.Some? == items'.Some?
      && SameKeywords(keywords, keywords')
    case _ => false
  }

  predicate SameVariants(v: Variants, w: Variants) {
    match (v, w)
    case (VariantList(x), VariantList(y)) => |x| == |y|
    case (NotAVariantList(x), NotAVariantList(y)) => PyEq(x, y)
    case _ => v.NoVariants? && w.NoVariants?
  }

  predicate SameEnum(e: Enum, f: Enum) {
    match (e, f)
    case (EnumList(x), EnumList(y)) => PyEq(Arr(x), Arr(y))
    case (NotAnEnumList(x), NotAnEnumList(y)) => PyEq(x, y)
    case _ => e.NoEnum? && f.NoEnum?
  }

  predicate SameNames(p: Properties, q: Properties) {
    match (p, q)
    case (PropertyMap(x), PropertyMap(y)) => |x| == |y| && forall i | 0 <= i < |x| :: x[i].name == y[i].name
    case (NotAPropertyMap(x), NotAPropertyMap(y)) => PyEq(x, y)
    case _ => p.NoProperties? && q.NoProperties?
  }

  predicate SameKeywords(k: map<Key, Json>, l: map<Key, Json>) {
    k.Keys == l.Keys && forall key | key in k :: PyEq(k[key], l[key])
  }

  lemma {:induction false} EqualIsReflexive(g: Graph, a: Id)
    requires g.Valid() && a in g.nodes
    ensures Equal(g, a, g, a)
    decreases g.size - a
  {
    var x := Kids(g.nodes[a]);
    g.KidsAreKnown(a);
    forall i | 0 <= i < |x|
      ensures x[i] in x && Equal(g, x[i], g, x[i])
    {
      assert x[i] in x;
      EqualIsReflexive(g, x[i]);
    }
  }

  lemma {:induction false} SameIsReflexive(g: Graph, a: Id)
    requires g.Valid() && a in g.nodes
    ensures Same(g, a, g, a)
    decreases g.size - a
  {
    var x := Kids(Semantic(g.nodes[a]));
    SemanticKidsAreKnown(g, a);
    forall i | 0 <= i < |x|
      ensures x[i] in x && Same(g, x[i], g, x[i])
    {
      assert x[i] in x;
      SameIsReflexive(g, x[i]);
    }
  }
}
