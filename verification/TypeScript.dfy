module TypeScript {
  /** `ts`: the TypeScript type generated for a schema.

      The generator prints text; the model keeps the type expression it prints.  A type is inhabited by
      the JSON values a TypeScript program may hold at that type, objects being structural.  Generated
      types over-approximate: every value a supported schema accepts inhabits its type, through
      recursive references too.  Together with response soundness, what a newer server sends still
      inhabits the types an older client was compiled with. */

  import opened Common
  import opened Json
  import opened SchemaGraph
  import opened SchemaTraversal
  import opened SchemaWalk
  import opened SchemaMeaning
  import opened SchemaConditions
  import opened SchemaSoundness
  import SchemaProperties

  datatype Field = Field(name: string, optional: bool, fieldType: TsType)

  datatype TsType =
    | Named(identifier: string)
    | Literal(value: Json)
    | Union(alternatives: seq<TsType>)
    | Intersection(parts: seq<TsType>)
    | NumberType
    | BooleanType
    | StringType
    | NullType
    | ArrayOf(element: TsType)
    | ObjectType(fields: seq<Field>, index: Option<TsType>)
    | Unknown

  // ---- the compiler

  predicate IdentifierChar(c: char) {
    'A' <= c <= 'Z' || 'a' <= c <= 'z' || '0' <= c <= '9' || c == '_' || c == '$'
  }

  /** `identifier`: drop every character a TypeScript name cannot hold. */
  function Identifier(name: string): string {
    if name == "" then ""
    else (if IdentifierChar(name[0]) then [name[0]] else []) + Identifier(name[1..])
  }

  function LiteralUnion(values: seq<Json>): TsType {
    Union(seq(|values|, i requires 0 <= i < |values| => Literal(values[i])))
  }

  predicate SaysNothing(n: Node)
    requires n.Schema?
  {
    n == EMPTY_SCHEMA.(keywords := if Default in n.keywords then map[Default := n.keywords[Default]] else map[])
  }

  /** Name and requiredness of the first `k` properties, with their types. */
  function Fields(g: Graph, a: Id, k: nat): (r: Result<seq<Field>>)
    requires g.Valid() && a in g.nodes && g.nodes[a].Schema?
    requires k <= |PropertyMembers(g.nodes[a].properties)|
    ensures r.Ok? ==> |r.value| == k
    decreases g.size - a, 1, k
  {
    if k == 0 then Ok([])
    else
      var p := PropertyMembers(g.nodes[a].properties)[k - 1];
      AdditionalIsKnown(g, a);
      KidBelow(g, a, p.id, k - 1);
      match (Fields(g, a, k - 1), Compile(g, p.id))
      case (Ok(front), Ok(t)) => Ok(front + [Field(p.name, p.name !in g.nodes[a].required, t)])
      case (Err(reason), _) => Err(reason)
      case (_, Err(reason)) => Err(reason)
  }

  lemma KidBelow(g: Graph, a: Id, c: Id, k: nat)
    requires g.Valid() && a in g.nodes && g.nodes[a].Schema?
    requires k < |PropertyMembers(g.nodes[a].properties)| && PropertyMembers(g.nodes[a].properties)[k].id == c
    ensures a < c < g.size && c in g.nodes
  {
    g.KidsAreKnown(a);
    assert MemberIds(PropertyMembers(g.nodes[a].properties))[k] == c;
    assert c in Kids(g.nodes[a]);
  }

  function Alternatives(g: Graph, a: Id, ids: seq<Id>): (r: Result<seq<TsType>>)
    requires g.Valid() && a in g.nodes
    requires forall i :: 0 <= i < |ids| ==> a < ids[i] < g.size && ids[i] in g.nodes
    ensures r.Ok? ==> |r.value| == |ids|
    decreases g.size - a, 1, |ids|
  {
    if ids == [] then Ok([])
    else
      match (Alternatives(g, a, ids[..|ids| - 1]), Compile(g, ids[|ids| - 1]))
      case (Ok(front), Ok(t)) => Ok(front + [t])
      case (Err(reason), _) => Err(reason)
      case (_, Err(reason)) => Err(reason)
  }

  lemma VariantsBelow(g: Graph, a: Id, c: Combinator)
    requires g.Valid() && a in g.nodes && g.nodes[a].Schema?
    ensures var ids := VariantIds(VariantsOf(g.nodes[a], c));
      forall i :: 0 <= i < |ids| ==> a < ids[i] < g.size && ids[i] in g.nodes
  {
    g.KidsAreKnown(a);
    var ids := VariantIds(VariantsOf(g.nodes[a], c));
    forall i | 0 <= i < |ids|
      ensures a < ids[i] < g.size && ids[i] in g.nodes
    {
      assert ids[i] in Kids(g.nodes[a]);
    }
  }

  /** The combinator `ts` looks for first: anyOf, then oneOf, then allOf. */
  function FirstForTs(n: Node): Option<Combinator>
    requires n.Schema?
  {
    if !n.anyOf.NoVariants? then Some(AnyOf)
    else if !n.oneOf.NoVariants? then Some(OneOf)
    else if !n.allOf.NoVariants? then Some(AllOf)
    else None
  }

  /** `ts(schema)`; an unsupported construct is an error, never `any`. */
  function Compile(g: Graph, a: Id): (r: Result<TsType>)
    requires g.Valid() && a in g.nodes
    decreases g.size - a, 3, 0
  {
    var n := g.nodes[a];
    if n.Scalar? then Err("Unsupported non-object schema.")
    else if n.ref.Some? then
      if StartsWith(n.ref.value, REF_PREFIX) then Ok(Named(Identifier(LastSegment(n.ref.value))))
      else Err("Only local OpenAPI schema references are supported.")
    else if Const in n.keywords then Ok(Literal(n.keywords[Const]))
    else if !n.enum.NoEnum? then
      if n.enum.EnumList? then Ok(LiteralUnion(n.enum.values)) else Err("Malformed enum.")
    else if FirstForTs(n).Some? then
      var c := FirstForTs(n).value;
      VariantsBelow(g, a, c);
      if !VariantsOf(n, c).VariantList? then Err("Malformed variants.")
      else
        match Alternatives(g, a, VariantIds(VariantsOf(n, c)))
        case Ok(types) => Ok(if c == AllOf then Intersection(types) else Union(types))
        case Err(reason) => Err(reason)
    else CompileByType(g, a)
  }

  function CompileByType(g: Graph, a: Id): (r: Result<TsType>)
    requires g.Valid() && a in g.nodes && g.nodes[a].Schema?
    decreases g.size - a, 2, 0
  {
    var n := g.nodes[a];
    var kind := Get(n.keywords, Type);
    if kind == Str("integer") || kind == Str("number") then Ok(NumberType)
    else if kind == Str("boolean") then Ok(BooleanType)
    else if kind == Str("string") then Ok(StringType)
    else if kind == Str("null") then Ok(NullType)
    else if kind == Str("array") then
      if Other("prefixItems") in n.keywords then Err("Tuple schemas need an explicit generator extension.")
      else if n.items.None? then Ok(ArrayOf(Unknown))
      else
        g.KidsAreKnown(a);
        assert n.items.value in Kids(n);
        match Compile(g, n.items.value)
        case Ok(t) => Ok(ArrayOf(t))
        case Err(reason) => Err(reason)
    else if kind == Str("object") || !n.properties.NoProperties? then CompileObject(g, a)
    else if SaysNothing(n) then Ok(Unknown)
    else Err("Unsupported schema.")
  }

  function CompileObject(g: Graph, a: Id): (r: Result<TsType>)
    requires g.Valid() && a in g.nodes && g.nodes[a].Schema?
    decreases g.size - a, 1, |PropertyMembers(g.nodes[a].properties)| + 1
  {
    var n := g.nodes[a];
    if n.properties.NotAPropertyMap? then Err("Malformed properties.")
    else
      match Fields(g, a, |PropertyMembers(n.properties)|)
      case Err(reason) => Err(reason)
      case Ok(fields) =>
        match n.additional
        case Flag(false) => Ok(ObjectType(fields, None))
        case Typed(c) =>
          g.KidsAreKnown(a);
          assert c in Kids(n);
          match Compile(g, c) {
            case Ok(t) => Ok(ObjectType(fields, Some(t)))
            case Err(reason) => Err(reason)
          }
        case _ => Ok(ObjectType(fields, Some(Unknown)))
  }

  /** The declarations `generate` writes for the first `k` components, in order. */
  function Declarations(g: Graph, k: nat): Result<map<string, TsType>>
    requires g.Valid() && k <= |g.schemas|
  {
    if k == 0 then Ok(map[])
    else
      assert g.schemas[k - 1] in g.schemas;
      match (Declarations(g, k - 1), Compile(g, g.schemas[k - 1].id))
      case (Ok(env), Ok(t)) => Ok(env[Identifier(g.schemas[k - 1].name) := t])
      case (Err(reason), _) => Err(reason)
      case (_, Err(reason)) => Err(reason)
  }

  // ---- what a type means

  type Env = map<string, TsType>

  /** `v` is a value of type `t`; named types are looked up in `env`, and `h` bounds the height of the
      derivation, named types being recursive. */
  ghost predicate Inhabits(env: Env, t: TsType, v: Json, h: nat)
    decreases h
  {
    match t
    case Named(x) => h > 0 && x in env && Inhabits(env, env[x], v, h - 1)
    case Literal(value) => v == value
    case Union(types) => h > 0 && exists i :: 0 <= i < |types| && Inhabits(env, types[i], v, h - 1)
    case Intersection(types) => h > 0 && forall i :: 0 <= i < |types| ==> Inhabits(env, types[i], v, h - 1)
    case NumberType => v.Num?
    case BooleanType => v.Bool?
    case StringType => v.Str?
    case NullType => v.Null?
    case ArrayOf(element) =>
      h > 0 && v.Arr? && forall i :: 0 <= i < |v.items| ==> Inhabits(env, element, v.items[i], h - 1)
    case ObjectType(fields, index) =>
      && h > 0 && v.Obj?
      && (forall k :: 0 <= k < |fields| ==>
            if fields[k].name in v.members then Inhabits(env, fields[k].fieldType, v.members[fields[k].name], h - 1)
            else fields[k].optional)
      && (index.Some? ==>
            forall name :: name in v.members && Undeclared(fields, name) ==> Inhabits(env, index.value, v.members[name], h - 1))
    case Unknown => true
  }

  ghost predicate Undeclared(fields: seq<Field>, name: string) {
    forall k :: 0 <= k < |fields| ==> fields[k].name != name
  }

  /** More height never hurts. */
  lemma {:induction false} InhabitsGrows(env: Env, t: TsType, v: Json, h: nat)
    requires Inhabits(env, t, v, h)
    ensures Inhabits(env, t, v, h + 1)
    decreases h
  {
    match t
    case Named(x) =>
      InhabitsGrows(env, env[x], v, h - 1);
    case Union(types) =>
      var i :| 0 <= i < |types| && Inhabits(env, types[i], v, h - 1);
      InhabitsGrows(env, types[i], v, h - 1);
    case Intersection(types) =>
      forall i | 0 <= i < |types|
        ensures Inhabits(env, types[i], v, h)
      {
        InhabitsGrows(env, types[i], v, h - 1);
      }
    case ArrayOf(element) =>
      forall i | 0 <= i < |v.items|
        ensures Inhabits(env, element, v.items[i], h)
      {
        InhabitsGrows(env, element, v.items[i], h - 1);
      }
    case ObjectType(fields, index) =>
      forall k | 0 <= k < |fields| && fields[k].name in v.members
        ensures Inhabits(env, fields[k].fieldType, v.members[fields[k].name], h)
      {
        InhabitsGrows(env, fields[k].fieldType, v.members[fields[k].name], h - 1);
      }
      if index.Some? {
        forall name | name in v.members && Undeclared(fields, name)
          ensures Inhabits(env, index.value, v.members[name], h)
        {
          InhabitsGrows(env, index.value, v.members[name], h - 1);
        }
      }
    case _ =>
  }

  // ---- over-approximation

  /** Components with names that declare different types. */
  ghost predicate Nameable(g: Graph) {
    && (forall i :: 0 <= i < |g.schemas| ==> '/' !in g.schemas[i].name)
    && (forall i, j :: 0 <= i < j < |g.schemas| ==> Identifier(g.schemas[i].name) != Identifier(g.schemas[j].name))
  }

  /** The positions whose types the type of a node is made of. */
  function Components(g: Graph, n: Node): set<Id> {
    match n
    case Scalar(_) => {}
    case Schema(ref, _, _, _, enum, _, _, _, _, keywords) =>
      if ref.Some? then (if Target(g, n).Some? then {Target(g, n).value} else {})
      else if Const in keywords || !enum.NoEnum? then {}
      else if FirstForTs(n).Some? then set c | c in VariantIds(VariantsOf(n, FirstForTs(n).value))
      else ShapeComponents(n)
  }

  function ShapeComponents(n: Node): set<Id>
    requires n.Schema?
  {
    var kind := Get(n.keywords, Type);
    if kind == Str("array") then (if n.items.Some? then {n.items.value} else {})
    else if IsObject(n) then
      (set c | c in MemberIds(PropertyMembers(n.properties))) + (if n.additional.Typed? then {n.additional.id} else {})
    else {}
  }

  predicate IsScalarKind(kind: Json) {
    kind in {Str("integer"), Str("number"), Str("boolean"), Str("string"), Str("null")}
  }

  /** The schema is compiled to an object type if it gets there. */
  predicate IsObject(n: Node)
    requires n.Schema?
  {
    var kind := Get(n.keywords, Type);
    !IsScalarKind(kind) && kind != Str("array") && (kind == Str("object") || !n.properties.NoProperties?)
  }

  predicate CompiledByType(n: Node)
    requires n.Schema?
  {
    n.ref.None? && Const !in n.keywords && n.enum.NoEnum? && FirstForTs(n).None?
  }

  /** Types of the node mean what the schema accepts: its reference resolves, and an object type is
      declared as one and, where a client ignores unknown members, types none of them. */
  predicate Suits(g: Graph, reading: Reading, n: Node) {
    n.Schema? ==>
      && (n.ref.Some? ==> Target(g, n).Some?)
      && (CompiledByType(n) && IsObject(n) ==>
            Get(n.keywords, Type) == Str("object") && (reading == OpenRecords ==> !n.additional.Typed?))
  }

  /** Positions that the types of their schemas do not lead out of, all of them suitable. */
  ghost predicate Scope(g: Graph, reading: Reading, scope: set<Id>) {
    forall a {:trigger a in scope} :: a in scope ==>
      a in g.nodes && Components(g, g.nodes[a]) <= scope && Suits(g, reading, g.nodes[a])
  }

  /** Every component's declaration is its compiled type. */
  lemma {:induction false} DeclarationsCover(g: Graph, k: nat, i: nat)
    requires g.Valid() && Nameable(g) && i < k <= |g.schemas| && Declarations(g, k).Ok?
    ensures g.schemas[i].id in g.nodes
    ensures Identifier(g.schemas[i].name) in Declarations(g, k).value
    ensures Compile(g, g.schemas[i].id) == Ok(Declarations(g, k).value[Identifier(g.schemas[i].name)])
    decreases k
  {
    assert g.schemas[i] in g.schemas;
    if i < k - 1 {
      DeclarationsCover(g, k - 1, i);
      assert Identifier(g.schemas[i].name) != Identifier(g.schemas[k - 1].name);
    }
  }

  lemma {:induction false} LastSegmentOfRef(prefix: string, name: string)
    requires '/' !in name && |prefix| > 0 && prefix[|prefix| - 1] == '/'
    ensures LastSegment(prefix + name) == name
    decreases |name|
  {
    if name == "" {
      assert prefix + name == prefix;
    } else {
      assert (prefix + name)[..|prefix + name| - 1] == prefix + name[..|name| - 1];
      LastSegmentOfRef(prefix, name[..|name| - 1]);
    }
  }

  lemma {:induction false} AlternativesAt(g: Graph, a: Id, ids: seq<Id>, i: nat)
    requires g.Valid() && a in g.nodes
    requires forall k :: 0 <= k < |ids| ==> a < ids[k] < g.size && ids[k] in g.nodes
    requires Alternatives(g, a, ids).Ok? && i < |ids|
    ensures Compile(g, ids[i]) == Ok(Alternatives(g, a, ids).value[i])
    decreases |ids|
  {
    if i < |ids| - 1 {
      AlternativesAt(g, a, ids[..|ids| - 1], i);
    }
  }

  lemma {:induction false} FieldsAt(g: Graph, a: Id, k: nat, i: nat)
    requires g.Valid() && a in g.nodes && g.nodes[a].Schema?
    requires i < k <= |PropertyMembers(g.nodes[a].properties)| && Fields(g, a, k).Ok?
    ensures var p := PropertyMembers(g.nodes[a].properties)[i];
      && p.id in g.nodes && Compile(g, p.id).Ok?
      && Fields(g, a, k).value[i] == Field(p.name, p.name !in g.nodes[a].required, Compile(g, p.id).value)
    decreases k
  {
    KidBelow(g, a, PropertyMembers(g.nodes[a].properties)[k - 1].id, k - 1);
    if i < k - 1 {
      FieldsAt(g, a, k - 1, i);
    }
  }

  /** Everything accepted in the scope inhabits the compiled type. */
  ghost predicate Covered(check: Check, reading: Reading, g: Graph, scope: set<Id>, env: Env, m: nat)
    requires g.Valid()
  {
    forall a, v {:trigger Accepts(check, reading, g, a, v, m)} ::
      a in scope && a in g.nodes && Compile(g, a).Ok? && Accepts(check, reading, g, a, v, m) ==>
        Inhabits(env, Compile(g, a).value, v, 2 * m)
  }

  /** What a node asks of the positions below it, given as values of their types. */
  ghost predicate Typing(g: Graph, scope: set<Id>, env: Env, below: Acceptance, m: nat)
    requires g.Valid()
  {
    forall c, w {:trigger below(c, w)} ::
      c in scope && c in g.nodes && below(c, w) && Compile(g, c).Ok? ==> Inhabits(env, Compile(g, c).value, w, m)
  }

  lemma CoveredTypes(check: Check, reading: Reading, g: Graph, scope: set<Id>, env: Env, m: nat)
    requires g.Valid() && Covered(check, reading, g, scope, env, m)
    ensures Typing(g, scope, env, Level(check, reading, g, m), 2 * m)
  {
    forall c, w | c in scope && c in g.nodes && Level(check, reading, g, m)(c, w) && Compile(g, c).Ok?
      ensures Inhabits(env, Compile(g, c).value, w, 2 * m)
    {
      assert Accepts(check, reading, g, c, w, m);
    }
  }

  lemma UndeclaredIsAbsent(g: Graph, a: Id, name: string)
    requires g.Valid() && a in g.nodes && g.nodes[a].Schema?
    requires Fields(g, a, |PropertyMembers(g.nodes[a].properties)|).Ok?
    requires Undeclared(Fields(g, a, |PropertyMembers(g.nodes[a].properties)|).value, name)
    ensures Find(PropertyMembers(g.nodes[a].properties), name).None?
  {
    var p := PropertyMembers(g.nodes[a].properties);
    var r := Find(p, name);
    if r.Some? {
      var k :| 0 <= k < |p| && p[k] == Member(name, r.value);
      FieldsAt(g, a, |p|, k);
    }
  }

  lemma FieldInhabited(
    g: Graph, reading: Reading, scope: set<Id>, env: Env, a: Id, v: Json, below: Acceptance, m: nat, k: nat)
    requires g.Valid() && a in g.nodes && g.nodes[a].Schema? && v.Obj? && Typing(g, scope, env, below, m)
    requires MembersHold(reading, g.nodes[a], v, below)
    requires k < |PropertyMembers(g.nodes[a].properties)| && PropertyMembers(g.nodes[a].properties)[k].id in scope
    requires Fields(g, a, |PropertyMembers(g.nodes[a].properties)|).Ok?
    ensures var f := Fields(g, a, |PropertyMembers(g.nodes[a].properties)|).value[k];
      if f.name in v.members then Inhabits(env, f.fieldType, v.members[f.name], m) else f.optional
  {
    var p := PropertyMembers(g.nodes[a].properties);
    assert g.NodeValid(a);
    FieldsAt(g, a, |p|, k);
    SchemaProperties.FindDistinct(p, k);
    if p[k].name in v.members {
      assert MemberHolds(reading, g.nodes[a], p[k].name, v.members[p[k].name], below);
      assert below(p[k].id, v.members[p[k].name]);
    }
  }

  lemma IndexInhabited(
    g: Graph, reading: Reading, scope: set<Id>, env: Env, a: Id, v: Json, below: Acceptance, m: nat, name: string)
    requires g.Valid() && a in g.nodes && g.nodes[a].Schema? && v.Obj? && Typing(g, scope, env, below, m)
    requires reading != OpenRecords && g.nodes[a].additional.Typed? && g.nodes[a].additional.id in scope
    requires MembersHold(reading, g.nodes[a], v, below)
    requires Fields(g, a, |PropertyMembers(g.nodes[a].properties)|).Ok?
    requires name in v.members && Undeclared(Fields(g, a, |PropertyMembers(g.nodes[a].properties)|).value, name)
    requires g.nodes[a].additional.id in g.nodes && Compile(g, g.nodes[a].additional.id).Ok?
    ensures Inhabits(env, Compile(g, g.nodes[a].additional.id).value, v.members[name], m)
  {
    UndeclaredIsAbsent(g, a, name);
    assert MemberHolds(reading, g.nodes[a], name, v.members[name], below);
    assert below(g.nodes[a].additional.id, v.members[name]);
  }

  lemma ObjectInhabits(
    g: Graph, reading: Reading, scope: set<Id>, env: Env, a: Id, v: Json, below: Acceptance, m: nat)
    requires g.Valid() && a in g.nodes && g.nodes[a].Schema? && v.Obj? && Typing(g, scope, env, below, m)
    requires IsObject(g.nodes[a]) && ShapeComponents(g.nodes[a]) <= scope
    requires reading == OpenRecords ==> !g.nodes[a].additional.Typed?
    requires CompileObject(g, a).Ok? && MembersHold(reading, g.nodes[a], v, below)
    ensures Inhabits(env, CompileObject(g, a).value, v, m + 1)
  {
    var n := g.nodes[a];
    var fields := Fields(g, a, |PropertyMembers(n.properties)|).value;
    forall k | 0 <= k < |fields|
      ensures if fields[k].name in v.members then Inhabits(env, fields[k].fieldType, v.members[fields[k].name], m)
              else fields[k].optional
    {
      assert MemberIds(PropertyMembers(n.properties))[k] in MemberIds(PropertyMembers(n.properties));
      assert PropertyMembers(n.properties)[k].id in ShapeComponents(n);
      FieldInhabited(g, reading, scope, env, a, v, below, m, k);
    }
    if n.additional.Typed? {
      g.KidsAreKnown(a);
      assert n.additional.id in Kids(n);
      forall name | name in v.members && Undeclared(fields, name)
        ensures Inhabits(env, Compile(g, n.additional.id).value, v.members[name], m)
      {
        IndexInhabited(g, reading, scope, env, a, v, below, m, name);
      }
    }
  }

  lemma VariantsInhabit(g: Graph, scope: set<Id>, env: Env, a: Id, c: Combinator, v: Json, below: Acceptance, m: nat)
    requires g.Valid() && a in g.nodes && g.nodes[a].Schema? && VariantsOf(g.nodes[a], c).VariantList?
    requires Typing(g, scope, env, below, m) && VariantsHold(g.nodes[a], v, below)
    requires forall i :: 0 <= i < |VariantIds(VariantsOf(g.nodes[a], c))| ==>
      a < VariantIds(VariantsOf(g.nodes[a], c))[i] < g.size && VariantIds(VariantsOf(g.nodes[a], c))[i] in g.nodes
      && VariantIds(VariantsOf(g.nodes[a], c))[i] in scope
    requires Alternatives(g, a, VariantIds(VariantsOf(g.nodes[a], c))).Ok?
    ensures var types := Alternatives(g, a, VariantIds(VariantsOf(g.nodes[a], c))).value;
      Inhabits(env, if c == AllOf then Intersection(types) else Union(types), v, m + 1)
  {
    var ids := VariantIds(VariantsOf(g.nodes[a], c));
    var types := Alternatives(g, a, ids).value;
    if c == AllOf {
      forall i | 0 <= i < |types|
        ensures Inhabits(env, types[i], v, m)
      {
        AlternativesAt(g, a, ids, i);
        assert below(ids[i], v);
      }
    } else {
      assert SomeHold(ids, v, below);
      var i :| 0 <= i < |ids| && below(ids[i], v);
      AlternativesAt(g, a, ids, i);
      assert Inhabits(env, types[i], v, m);
    }
  }

  lemma ArrayInhabits(g: Graph, scope: set<Id>, env: Env, a: Id, v: Json, below: Acceptance, m: nat)
    requires g.Valid() && a in g.nodes && g.nodes[a].Schema? && v.Arr?
    requires Get(g.nodes[a].keywords, Type) == Str("array") && ShapeComponents(g.nodes[a]) <= scope
    requires Typing(g, scope, env, below, m) && CompileByType(g, a).Ok?
    requires ItemsHold(ItemsOf(g, g.nodes[a]), v, below)
    ensures Inhabits(env, CompileByType(g, a).value, v, m + 1)
  {
    var n := g.nodes[a];
    if n.items.Some? {
      g.KidsAreKnown(a);
      assert n.items.value in Kids(n) && n.items.value in ShapeComponents(n);
      forall i | 0 <= i < |v.items|
        ensures Inhabits(env, Compile(g, n.items.value).value, v.items[i], m)
      {
        assert below(n.items.value, v.items[i]);
      }
    }
  }

  lemma TypedNodeInhabits(
    check: Check, reading: Reading, g: Graph, scope: set<Id>, env: Env, a: Id, v: Json, below: Acceptance, m: nat)
    requires g.Valid() && a in g.nodes && g.nodes[a].Schema? && CompiledByType(g.nodes[a])
    requires Suits(g, reading, g.nodes[a]) && ShapeComponents(g.nodes[a]) <= scope
    requires Typing(g, scope, env, below, m) && CompileByType(g, a).Ok?
    requires OwnHolds(check, reading, g, g.nodes[a], v, below)
    ensures Inhabits(env, CompileByType(g, a).value, v, m + 1)
  {
    var n := g.nodes[a];
    var kind := Get(n.keywords, Type);
    if Type in n.keywords {
      assert KeywordAccepts(check, Type, n.keywords[Type], v);
    }
    if kind == Str("array") {
      assert v.Arr?;
      ArrayInhabits(g, scope, env, a, v, below, m);
    } else if IsObject(n) {
      assert v.Obj?;
      ObjectInhabits(g, reading, scope, env, a, v, below, m);
    }
  }

  /** What a node accepts inhabits its compiled type, given that this holds around it. */
  lemma NodeInhabits(
    check: Check, reading: Reading, g: Graph, scope: set<Id>, env: Env, a: Id, v: Json, below: Acceptance, m: nat)
    requires g.Valid() && a in g.nodes && Suits(g, reading, g.nodes[a]) && Components(g, g.nodes[a]) <= scope
    requires g.nodes[a].Schema? ==> g.nodes[a].ref.None?
    requires Typing(g, scope, env, below, m) && Compile(g, a).Ok? && NodeHolds(check, reading, g, g.nodes[a], v, below)
    ensures Inhabits(env, Compile(g, a).value, v, m + 1)
  {
    var n := g.nodes[a];
    if Const in n.keywords {
      assert KeywordAccepts(check, Const, n.keywords[Const], v);
    } else if n.enum.EnumList? {
      var i :| 0 <= i < |n.enum.values| && n.enum.values[i] == v;
      assert Inhabits(env, LiteralUnion(n.enum.values).alternatives[i], v, m);
    } else if FirstForTs(n).Some? {
      VariantsBelow(g, a, FirstForTs(n).value);
      var ids := VariantIds(VariantsOf(n, FirstForTs(n).value));
      forall i | 0 <= i < |ids|
        ensures ids[i] in scope
      {
        assert ids[i] in Components(g, n);
      }
      VariantsInhabit(g, scope, env, a, FirstForTs(n).value, v, below, m);
    } else {
      TypedNodeInhabits(check, reading, g, scope, env, a, v, below, m);
    }
  }

  /** A resolved reference names the declaration of its target. */
  lemma ReferenceNames(g: Graph, a: Id)
    requires g.Valid() && Nameable(g) && a in g.nodes && Target(g, g.nodes[a]).Some?
    requires Declarations(g, |g.schemas|).Ok?
    ensures var target := Target(g, g.nodes[a]).value;
      && target in g.nodes
      && Compile(g, a).Ok? && Compile(g, a).value.Named?
      && Compile(g, a).value.identifier in Declarations(g, |g.schemas|).value
      && Compile(g, target) == Ok(Declarations(g, |g.schemas|).value[Compile(g, a).value.identifier])
  {
    var ref := g.nodes[a].ref.value;
    var name := ref[|REF_PREFIX|..];
    var i :| 0 <= i < |g.schemas| && g.schemas[i] == Member(name, Find(g.schemas, name).value);
    assert ref == REF_PREFIX + name;
    LastSegmentOfRef(REF_PREFIX, name);
    DeclarationsCover(g, |g.schemas|, i);
  }

  lemma ReferenceInhabits(g: Graph, scope: set<Id>, env: Env, a: Id, v: Json, below: Acceptance, m: nat)
    requires g.Valid() && Nameable(g) && Declarations(g, |g.schemas|) == Ok(env) && Typing(g, scope, env, below, m)
    requires a in g.nodes && Target(g, g.nodes[a]).Some? && Target(g, g.nodes[a]).value in scope
    requires below(Target(g, g.nodes[a]).value, v)
    ensures Compile(g, a).Ok? && Inhabits(env, Compile(g, a).value, v, m + 2)
  {
    ReferenceNames(g, a);
    InhabitsGrows(env, Compile(g, Target(g, g.nodes[a]).value).value, v, m);
  }

  lemma PositionInhabits(
    check: Check, reading: Reading, g: Graph, scope: set<Id>, env: Env, a: Id, v: Json, below: Acceptance, m: nat)
    requires g.Valid() && Nameable(g) && Declarations(g, |g.schemas|) == Ok(env) && Typing(g, scope, env, below, m)
    requires a in g.nodes && Suits(g, reading, g.nodes[a]) && Components(g, g.nodes[a]) <= scope
    requires Compile(g, a).Ok? && NodeHolds(check, reading, g, g.nodes[a], v, below)
    ensures Inhabits(env, Compile(g, a).value, v, m + 2)
  {
    if g.nodes[a].Schema? && g.nodes[a].ref.Some? {
      assert Target(g, g.nodes[a]).value in Components(g, g.nodes[a]);
      ReferenceInhabits(g, scope, env, a, v, below, m);
    } else {
      NodeInhabits(check, reading, g, scope, env, a, v, below, m);
      InhabitsGrows(env, Compile(g, a).value, v, m + 1);
    }
  }

  lemma CoverStep(check: Check, reading: Reading, g: Graph, scope: set<Id>, env: Env, a: Id, v: Json, k: nat)
    requires g.Valid() && Nameable(g) && Scope(g, reading, scope) && Declarations(g, |g.schemas|) == Ok(env)
    requires k > 0 && Covered(check, reading, g, scope, env, k - 1)
    requires a in scope && Compile(g, a).Ok? && Accepts(check, reading, g, a, v, k)
    ensures Inhabits(env, Compile(g, a).value, v, 2 * k)
  {
    CoveredTypes(check, reading, g, scope, env, k - 1);
    PositionInhabits(check, reading, g, scope, env, a, v, Level(check, reading, g, k - 1), 2 * (k - 1));
  }

  /** Generated types over-approximate their schemas, through every chain of references. */
  lemma {:induction false} TypesCover(check: Check, reading: Reading, g: Graph, scope: set<Id>, m: nat)
    requires g.Valid() && Nameable(g) && Scope(g, reading, scope) && Declarations(g, |g.schemas|).Ok?
    ensures Covered(check, reading, g, scope, Declarations(g, |g.schemas|).value, m)
  {
    if m > 0 {
      TypesCover(check, reading, g, scope, m - 1);
      var env := Declarations(g, |g.schemas|).value;
      forall a, v | a in scope && a in g.nodes && Compile(g, a).Ok? && Accepts(check, reading, g, a, v, m)
        ensures Inhabits(env, Compile(g, a).value, v, 2 * m)
      {
        CoverStep(check, reading, g, scope, env, a, v, m);
      }
    }
  }

  /** Values of the type generated for position `a`. */
  ghost predicate OfGeneratedType(g: Graph, a: Id, v: Json)
    requires g.Valid() && a in g.nodes && Declarations(g, |g.schemas|).Ok? && Compile(g, a).Ok?
  {
    exists h: nat :: Inhabits(Declarations(g, |g.schemas|).value, Compile(g, a).value, v, h)
  }

  /** Types cover validity in any reading, wherever the schemas a type is made of are suitable. */
  lemma GeneratedTypeCovers(check: Check, reading: Reading, g: Graph, scope: set<Id>, a: Id, v: Json)
    requires g.Valid() && Nameable(g) && Scope(g, reading, scope) && Declarations(g, |g.schemas|).Ok?
    requires a in scope && Compile(g, a).Ok? && ValidAt(check, reading, g, a, v)
    ensures OfGeneratedType(g, a, v)
  {
    var m: nat :| Accepts(check, reading, g, a, v, m);
    TypesCover(check, reading, g, scope, m);
    assert Inhabits(Declarations(g, |g.schemas|).value, Compile(g, a).value, v, 2 * m);
  }

  /** A schema that lists properties without saying `type: object` is compiled to an object type and accepts
      null, which is no object: there the type does not cover the schema. */
  lemma UntypedRecordEscapes(check: Check, reading: Reading, g: Graph, a: Id)
    requires g.Valid() && Declarations(g, |g.schemas|).Ok? && a in g.nodes && Compile(g, a).Ok?
    requires g.nodes[a].Schema? && CompiledByType(g.nodes[a]) && !g.nodes[a].properties.NoProperties?
    requires g.nodes[a].keywords.Keys <= ANNOTATIONS
    ensures ValidAt(check, reading, g, a, Null) && !OfGeneratedType(g, a, Null)
  {
    NullIsAccepted(check, reading, g, a);
    assert Type !in g.nodes[a].keywords;
    ObjectIsCompiled(g, a);
  }

  lemma NullIsAccepted(check: Check, reading: Reading, g: Graph, a: Id)
    requires a in g.nodes && g.nodes[a].Schema? && CompiledByType(g.nodes[a]) && g.nodes[a].keywords.Keys <= ANNOTATIONS
    ensures ValidAt(check, reading, g, a, Null)
  {
    assert KeywordsAccept(check, g.nodes[a], Null);
    ValidUnfolds(check, reading, g, a, Null);
  }

  lemma ObjectIsCompiled(g: Graph, a: Id)
    requires g.Valid() && a in g.nodes && g.nodes[a].Schema? && CompiledByType(g.nodes[a]) && IsObject(g.nodes[a])
    ensures Compile(g, a) == CompileObject(g, a)
    ensures Compile(g, a).Ok? ==> Compile(g, a).value.ObjectType?
  {
    assert Compile(g, a) == CompileByType(g, a);
  }

  /** A client that ignores unknown members learns nothing about the values of a map: where some value is
      not of the type the map promises, the type does not cover the open reading. */
  lemma OpenMapEscapes(check: Check, g: Graph, a: Id, w: Json)
    requires g.Valid() && Declarations(g, |g.schemas|).Ok? && a in g.nodes && Compile(g, a).Ok?
    requires g.nodes[a].Schema? && g.nodes[a].additional.Typed?
    requires g.nodes[a] == EMPTY_SCHEMA.(additional := g.nodes[a].additional, keywords := map[Type := Str("object")])
    requires g.nodes[a].additional.id in g.nodes && Compile(g, g.nodes[a].additional.id).Ok?
    requires !OfGeneratedType(g, g.nodes[a].additional.id, w)
    ensures ValidAt(check, OpenRecords, g, a, Obj(map["k" := w])) && !OfGeneratedType(g, a, Obj(map["k" := w]))
  {
    MapIsOpen(check, g, a, w);
    ObjectIsCompiled(g, a);
    var t := Compile(g, a).value;
    assert t == ObjectType([], Some(Compile(g, g.nodes[a].additional.id).value));
    forall h: nat
      ensures !Inhabits(Declarations(g, |g.schemas|).value, t, Obj(map["k" := w]), h)
    {
      IndexIsBinding(Declarations(g, |g.schemas|).value, t, w, h);
    }
  }

  lemma MapIsOpen(check: Check, g: Graph, a: Id, w: Json)
    requires a in g.nodes && g.nodes[a].Schema?
    requires g.nodes[a] == EMPTY_SCHEMA.(additional := g.nodes[a].additional, keywords := map[Type := Str("object")])
    ensures ValidAt(check, OpenRecords, g, a, Obj(map["k" := w]))
  {
    var n, v := g.nodes[a], Obj(map["k" := w]);
    assert n.keywords[Type] == Str("object") && KeywordsAccept(check, n, v);
    assert MembersHold(OpenRecords, n, v, AllValid(check, OpenRecords, g));
    ValidUnfolds(check, OpenRecords, g, a, v);
  }

  lemma IndexIsBinding(env: Env, t: TsType, w: Json, h: nat)
    requires t.ObjectType? && t.fields == [] && t.index.Some?
    requires forall k: nat :: !Inhabits(env, t.index.value, w, k)
    ensures !Inhabits(env, t, Obj(map["k" := w]), h)
  {
    var v := Obj(map["k" := w]);
    assert Undeclared(t.fields, "k") && "k" in v.members && v.members["k"] == w;
    if h > 0 {
      assert !Inhabits(env, t.index.value, v.members["k"], h - 1);
    }
  }

  /** Old clients survive new servers: once the response walk passes, every value the candidate's
      response schema accepts inhabits the type generated from the base contract. */
  lemma NewResponsesInhabitOldTypes(
    s: Scene, check: Check, pairs: set<Marker>, a: Id, b: Id, location: Place, changes: seq<Change>,
    scope: set<Id>, v: Json)
    requires s.Valid() && s.Known(a, b) && s.direction == Response && Passes(s, check, pairs, a, b, location, changes)
    requires Nameable(s.base) && a in scope && Scope(s.base, OpenRecords, scope)
    requires Declarations(s.base, |s.base.schemas|).Ok? && Compile(s.base, a).Ok?
    requires ValidAt(check, Exact, s.cand, b, v)
    ensures OfGeneratedType(s.base, a, v)
  {
    SchemaProperties.ExactResponseSoundness(s, check, pairs, a, b, location, changes, v);
    GeneratedTypeCovers(check, OpenRecords, s.base, scope, a, v);
  }
}
