module TypeScriptBare {
  /** What the generated type of any schema says.

      A type cannot say bounds, patterns, formats or that a record is sealed, and a reference, a constant, an
      enumeration or a combinator hides what stands beside it.  The bare schema keeps the rest.  Generated
      types have exactly the values that the bare document accepts. */

  import opened Common
  import opened Json
  import opened SchemaGraph
  import opened SchemaWalk
  import opened SchemaMeaning
  import opened SchemaConditions
  import opened TypeScript
  import opened TypeScriptExact

  // ---- the bare document

  /** The declared names that are required. */
  function RequiredNames(members: seq<Member>, required: seq<string>): (r: seq<string>)
    ensures forall name :: name in r <==> name in required && exists k :: 0 <= k < |members| && members[k].name == name
  {
    if members == [] then []
    else (if members[0].name in required then [members[0].name] else []) + RequiredNames(members[1..], required)
  }

  function BareShape(n: Node): Node
    requires n.Schema?
  {
    var kind := Get(n.keywords, Type);
    if IsScalarKind(kind) then
      EMPTY_SCHEMA.(keywords := map[Type := if kind == Str("integer") then Str("number") else kind])
    else if kind == Str("array") then EMPTY_SCHEMA.(keywords := map[Type := kind], items := n.items)
    else if IsObject(n) then BareRecord(n)
    else EMPTY_SCHEMA
  }

  function BareRecord(n: Node): Node
    requires n.Schema?
  {
    EMPTY_SCHEMA.(
      keywords := map[Type := Str("object")], properties := n.properties,
      required := RequiredNames(PropertyMembers(n.properties), n.required),
      additional := if n.additional.Typed? then n.additional else Unstated)
  }

  function Bare(n: Node): Node {
    match n
    case Scalar(_) => n
    case Schema(ref, oneOf, anyOf, allOf, enum, _, _, _, _, keywords) =>
      if ref.Some? then EMPTY_SCHEMA.(ref := ref)
      else if Const in keywords then EMPTY_SCHEMA.(keywords := map[Const := keywords[Const]])
      else if !enum.NoEnum? then EMPTY_SCHEMA.(enum := enum)
      else if !anyOf.NoVariants? then EMPTY_SCHEMA.(anyOf := anyOf)
      else if !oneOf.NoVariants? then EMPTY_SCHEMA.(oneOf := oneOf)
      else if !allOf.NoVariants? then EMPTY_SCHEMA.(allOf := allOf)
      else BareShape(n)
  }

  function BareGraph(g: Graph): Graph {
    g.(nodes := map a | a in g.nodes :: Bare(g.nodes[a]))
  }

  /** Whatever `m` lists below it, `n` lists too. */
  predicate PartOf(m: Node, n: Node)
    requires m.Schema? && n.Schema?
  {
    && (m.oneOf == n.oneOf || m.oneOf.NoVariants?) && (m.anyOf == n.anyOf || m.anyOf.NoVariants?)
    && (m.allOf == n.allOf || m.allOf.NoVariants?) && (m.properties == n.properties || m.properties.NoProperties?)
    && (m.additional == n.additional || m.additional.Unstated?) && (m.items == n.items || m.items.None?)
  }

  lemma BareShapeIsPart(n: Node)
    requires n.Schema?
    ensures BareShape(n).Schema? && PartOf(BareShape(n), n)
  {
  }

  lemma BareIsPart(n: Node)
    requires n.Schema?
    ensures Bare(n).Schema? && PartOf(Bare(n), n)
  {
    BareShapeIsPart(n);
  }

  lemma PartKids(m: Node, n: Node, c: Id)
    requires m.Schema? && n.Schema? && PartOf(m, n) && c in Kids(m)
    ensures c in Kids(n)
  {
    KidIff(n, c);
    KidIff(m, c);
  }

  lemma BareKids(n: Node, c: Id)
    requires n.Schema? && c in Kids(Bare(n))
    ensures c in Kids(n)
  {
    BareIsPart(n);
    PartKids(Bare(n), n, c);
  }

  lemma BareNames(n: Node)
    requires n.Schema?
    ensures Bare(n).Schema? && PropertyMembers(Bare(n).properties) in {[], PropertyMembers(n.properties)}
  {
  }

  lemma BareIsValid(g: Graph)
    requires g.Valid()
    ensures BareGraph(g).Valid()
  {
    var b := BareGraph(g);
    forall a | a in b.nodes
      ensures a < b.size && b.NodeValid(a)
    {
      assert g.NodeValid(a);
      if g.nodes[a].Schema? {
        BareNames(g.nodes[a]);
        forall c | c in Kids(b.nodes[a])
          ensures a < c && c in b.nodes
        {
          BareKids(g.nodes[a], c);
        }
      }
    }
  }

  lemma BareTarget(g: Graph, n: Node)
    requires n.Schema? && n.ref.Some?
    ensures Target(BareGraph(g), Bare(n)) == Target(g, n)
  {
  }

  // ---- sealed object types

  /** TypeScript objects are structural: a type without an index signature lets unknown members in. */
  function Unsealed(t: TsType): TsType {
    match t
    case Union(types) => Union(UnsealedTypes(types))
    case Intersection(types) => Intersection(UnsealedTypes(types))
    case ArrayOf(element) => ArrayOf(Unsealed(element))
    case ObjectType(fields, index) =>
      ObjectType(UnsealedFields(fields), Some(if index.Some? then Unsealed(index.value) else Unknown))
    case _ => t
  }

  function UnsealedField(f: Field): Field {
    Field(f.name, f.optional, Unsealed(f.fieldType))
  }

  function UnsealedTypes(types: seq<TsType>): (r: seq<TsType>)
    ensures |r| == |types| && forall i :: 0 <= i < |r| ==> r[i] == Unsealed(types[i])
  {
    seq(|types|, i requires 0 <= i < |types| => Unsealed(types[i]))
  }

  function UnsealedFields(fields: seq<Field>): (r: seq<Field>)
    ensures |r| == |fields| && forall k :: 0 <= k < |r| ==> r[k] == UnsealedField(fields[k])
  {
    seq(|fields|, k requires 0 <= k < |fields| => UnsealedField(fields[k]))
  }

  function UnsealedAll(env: Env): Env {
    map x | x in env :: Unsealed(env[x])
  }

  /** Unsealing does not change whether `v` is of type `t`. */
  ghost predicate Agrees(env: Env, t: TsType, v: Json, h: nat) {
    Inhabits(UnsealedAll(env), Unsealed(t), v, h) <==> Inhabits(env, t, v, h)
  }

  ghost predicate AllAgree(env: Env, h: nat) {
    forall t, v :: Agrees(env, t, v, h)
  }

  lemma PartsAgree(env: Env, types: seq<TsType>, v: Json, h: nat)
    requires AllAgree(env, h)
    ensures forall i :: 0 <= i < |types| ==>
      (Inhabits(UnsealedAll(env), UnsealedTypes(types)[i], v, h) <==> Inhabits(env, types[i], v, h))
  {
    forall i | 0 <= i < |types|
      ensures Inhabits(UnsealedAll(env), UnsealedTypes(types)[i], v, h) <==> Inhabits(env, types[i], v, h)
    {
      assert Agrees(env, types[i], v, h);
    }
  }

  lemma UnionAgrees(env: Env, types: seq<TsType>, v: Json, h: nat)
    requires h > 0 && AllAgree(env, h - 1)
    ensures Agrees(env, Union(types), v, h)
  {
    PartsAgree(env, types, v, h - 1);
  }

  lemma IntersectionAgrees(env: Env, types: seq<TsType>, v: Json, h: nat)
    requires h > 0 && AllAgree(env, h - 1)
    ensures Agrees(env, Intersection(types), v, h)
  {
    PartsAgree(env, types, v, h - 1);
  }

  lemma ElementsAgree(env: Env, t: TsType, v: Json, h: nat)
    requires h > 0 && AllAgree(env, h - 1) && t.ArrayOf? && v.Arr?
    ensures Agrees(env, t, v, h)
  {
    forall i | 0 <= i < |v.items|
      ensures Inhabits(UnsealedAll(env), Unsealed(t.element), v.items[i], h - 1) <==> Inhabits(env, t.element, v.items[i], h - 1)
    {
      assert Agrees(env, t.element, v.items[i], h - 1);
    }
  }

  ghost predicate FieldHolds(env: Env, f: Field, v: Json, h: nat)
    requires v.Obj?
  {
    if f.name in v.members then Inhabits(env, f.fieldType, v.members[f.name], h) else f.optional
  }

  ghost predicate RestHolds(env: Env, fields: seq<Field>, index: Option<TsType>, v: Json, h: nat)
    requires v.Obj?
  {
    index.Some? ==> forall name :: name in v.members && Undeclared(fields, name) ==> Inhabits(env, index.value, v.members[name], h)
  }

  lemma ObjectUnfolds(env: Env, fields: seq<Field>, index: Option<TsType>, v: Json, h: nat)
    requires h > 0 && v.Obj?
    ensures Inhabits(env, ObjectType(fields, index), v, h) <==>
      (forall k :: 0 <= k < |fields| ==> FieldHolds(env, fields[k], v, h - 1)) && RestHolds(env, fields, index, v, h - 1)
  {
  }

  lemma FieldsAgree(env: Env, fields: seq<Field>, v: Json, h: nat)
    requires AllAgree(env, h) && v.Obj?
    ensures forall k :: 0 <= k < |fields| ==>
      (FieldHolds(UnsealedAll(env), UnsealedFields(fields)[k], v, h) <==> FieldHolds(env, fields[k], v, h))
  {
    forall k | 0 <= k < |fields|
      ensures FieldHolds(UnsealedAll(env), UnsealedFields(fields)[k], v, h) <==> FieldHolds(env, fields[k], v, h)
    {
      if fields[k].name in v.members {
        assert Agrees(env, fields[k].fieldType, v.members[fields[k].name], h);
      }
    }
  }

  lemma RestAgrees(env: Env, fields: seq<Field>, index: Option<TsType>, v: Json, h: nat)
    requires AllAgree(env, h) && v.Obj?
    ensures var u := Some(if index.Some? then Unsealed(index.value) else Unknown);
      RestHolds(UnsealedAll(env), UnsealedFields(fields), u, v, h) <==> RestHolds(env, fields, index, v, h)
  {
    forall name | name in v.members
      ensures Undeclared(UnsealedFields(fields), name) <==> Undeclared(fields, name)
      ensures index.Some? ==> Agrees(env, index.value, v.members[name], h)
    {
      assert forall k :: 0 <= k < |fields| ==> UnsealedFields(fields)[k].name == fields[k].name;
    }
  }

  lemma ObjectsAgree(env: Env, t: TsType, v: Json, h: nat)
    requires h > 0 && AllAgree(env, h - 1) && t.ObjectType? && v.Obj?
    ensures Agrees(env, t, v, h)
  {
    var u := Unsealed(t);
    ObjectUnfolds(env, t.fields, t.index, v, h);
    ObjectUnfolds(UnsealedAll(env), u.fields, u.index, v, h);
    FieldsAgree(env, t.fields, v, h - 1);
    RestAgrees(env, t.fields, t.index, v, h - 1);
  }

  lemma {:induction false} UnsealedIsSame(env: Env, h: nat)
    ensures AllAgree(env, h)
  {
    if h > 0 {
      UnsealedIsSame(env, h - 1);
    }
    forall t, v
      ensures Agrees(env, t, v, h)
    {
      if h > 0 {
        StepAgrees(env, t, v, h);
      }
    }
  }

  lemma StepAgrees(env: Env, t: TsType, v: Json, h: nat)
    requires h > 0 && AllAgree(env, h - 1)
    ensures Agrees(env, t, v, h)
  {
    match t
    case Named(x) =>
      if x in env {
        assert Agrees(env, env[x], v, h - 1);
      }
    case Union(types) => UnionAgrees(env, types, v, h);
    case Intersection(types) => IntersectionAgrees(env, types, v, h);
    case ArrayOf(_) =>
      if v.Arr? {
        ElementsAgree(env, t, v, h);
      }
    case ObjectType(_, _) =>
      if v.Obj? {
        ObjectsAgree(env, t, v, h);
      }
    case _ =>
  }

  lemma UnsealedLiterals(values: seq<Json>)
    ensures Unsealed(LiteralUnion(values)) == LiteralUnion(values)
  {
    var types := LiteralUnion(values).alternatives;
    assert UnsealedTypes(types) == types;
  }

  // ---- the bare document compiles to the same types

  lemma {:induction false} CompileBare(g: Graph, a: Id)
    requires g.Valid() && BareGraph(g).Valid() && a in g.nodes && Compile(g, a).Ok?
    ensures Compile(BareGraph(g), a) == Ok(Unsealed(Compile(g, a).value))
    decreases g.size - a, 3, 0
  {
    var n, b := g.nodes[a], BareGraph(g);
    if n.enum.EnumList? {
      UnsealedLiterals(n.enum.values);
    }
    if n.ref.None? && Const !in n.keywords && n.enum.NoEnum? {
      if FirstForTs(n).Some? {
        var c := FirstForTs(n).value;
        VariantsBelow(g, a, c);
        VariantsBelow(b, a, c);
        AlternativesBare(g, a, VariantIds(VariantsOf(n, c)));
      } else {
        CompileByTypeBare(g, a);
      }
    }
  }

  lemma {:induction false} AlternativesBare(g: Graph, a: Id, ids: seq<Id>)
    requires g.Valid() && BareGraph(g).Valid() && a in g.nodes
    requires forall i :: 0 <= i < |ids| ==> a < ids[i] < g.size && ids[i] in g.nodes
    requires Alternatives(g, a, ids).Ok?
    ensures var types := Alternatives(g, a, ids).value;
      Alternatives(BareGraph(g), a, ids) == Ok(UnsealedTypes(types))
    decreases g.size - a, 1, |ids|
  {
    if ids != [] {
      AlternativesBare(g, a, ids[..|ids| - 1]);
      CompileBare(g, ids[|ids| - 1]);
      assert UnsealedTypes(Alternatives(g, a, ids).value)
          == UnsealedTypes(Alternatives(g, a, ids[..|ids| - 1]).value) + [Unsealed(Compile(g, ids[|ids| - 1]).value)];
    }
  }

  lemma {:induction false} CompileByTypeBare(g: Graph, a: Id)
    requires g.Valid() && BareGraph(g).Valid() && a in g.nodes && g.nodes[a].Schema? && CompiledByType(g.nodes[a])
    requires CompileByType(g, a).Ok?
    ensures CompileByType(BareGraph(g), a) == Ok(Unsealed(CompileByType(g, a).value))
    decreases g.size - a, 2, 0
  {
    var n := g.nodes[a];
    if IsObject(n) {
      CompileObjectBare(g, a);
    } else if Get(n.keywords, Type) == Str("array") {
      ArrayBare(g, a);
    }
  }

  lemma {:induction false} ArrayBare(g: Graph, a: Id)
    requires g.Valid() && BareGraph(g).Valid() && a in g.nodes && g.nodes[a].Schema? && CompiledByType(g.nodes[a])
    requires Get(g.nodes[a].keywords, Type) == Str("array") && CompileByType(g, a).Ok?
    ensures CompileByType(BareGraph(g), a) == Ok(Unsealed(CompileByType(g, a).value))
    decreases g.size - a, 1, 0
  {
    var n := g.nodes[a];
    if n.items.Some? {
      g.KidsAreKnown(a);
      assert n.items.value in Kids(n);
      CompileBare(g, n.items.value);
    }
  }

  lemma {:induction false} CompileObjectBare(g: Graph, a: Id)
    requires g.Valid() && BareGraph(g).Valid() && a in g.nodes && g.nodes[a].Schema? && CompiledByType(g.nodes[a])
    requires IsObject(g.nodes[a]) && CompileObject(g, a).Ok?
    ensures CompileObject(BareGraph(g), a) == Ok(Unsealed(CompileObject(g, a).value))
    decreases g.size - a, 1, |PropertyMembers(g.nodes[a].properties)| + 1
  {
    var n := g.nodes[a];
    FieldsBare(g, a, |PropertyMembers(n.properties)|);
    if n.additional.Typed? {
      g.KidsAreKnown(a);
      assert n.additional.id in Kids(n);
      CompileBare(g, n.additional.id);
    }
  }

  lemma {:induction false} FieldsBare(g: Graph, a: Id, k: nat)
    requires g.Valid() && BareGraph(g).Valid() && a in g.nodes && g.nodes[a].Schema? && CompiledByType(g.nodes[a])
    requires IsObject(g.nodes[a]) && k <= |PropertyMembers(g.nodes[a].properties)| && Fields(g, a, k).Ok?
    ensures var fields := Fields(g, a, k).value;
      Fields(BareGraph(g), a, k) == Ok(UnsealedFields(fields))
    decreases g.size - a, 1, k
  {
    if k > 0 {
      var p := PropertyMembers(g.nodes[a].properties)[k - 1];
      KidBelow(g, a, p.id, k - 1);
      FieldsBare(g, a, k - 1);
      CompileBare(g, p.id);
      var f := Field(p.name, p.name !in g.nodes[a].required, Compile(g, p.id).value);
      assert UnsealedFields(Fields(g, a, k).value) == UnsealedFields(Fields(g, a, k - 1).value) + [UnsealedField(f)];
    }
  }

  lemma UnsealedEntry(env: Env, x: string, t: TsType)
    ensures UnsealedAll(env[x := t]) == UnsealedAll(env)[x := Unsealed(t)]
  {
  }

  lemma {:induction false} DeclarationsBare(g: Graph, k: nat)
    requires g.Valid() && BareGraph(g).Valid() && k <= |g.schemas| && Declarations(g, k).Ok?
    ensures Declarations(BareGraph(g), k) == Ok(UnsealedAll(Declarations(g, k).value))
  {
    if k > 0 {
      assert g.schemas[k - 1] in g.schemas;
      DeclarationsBare(g, k - 1);
      CompileBare(g, g.schemas[k - 1].id);
      UnsealedEntry(Declarations(g, k - 1).value, Identifier(g.schemas[k - 1].name), Compile(g, g.schemas[k - 1].id).value);
    }
  }

  // ---- what the type says

  /** Positions that compile, whose references resolve, and that their types do not lead out of. */
  ghost predicate Supported(g: Graph, scope: set<Id>)
    requires g.Valid()
  {
    forall a {:trigger a in scope} :: a in scope ==>
      && a in g.nodes && Compile(g, a).Ok? && Components(g, g.nodes[a]) <= scope
      && (g.nodes[a].Schema? && g.nodes[a].ref.Some? ==> Target(g, g.nodes[a]).Some?)
  }

  lemma BareShapeIsExpressible(g: Graph, n: Node)
    requires n.Schema? && (IsObject(n) ==> !n.properties.NotAPropertyMap?)
    ensures var m := BareShape(n); m.Schema? && (Primitive(m) || List(m) || Record(Exact, m))
  {
    var m := BareShape(n);
    if m.keywords == map[Type := Str("object")] {
      assert forall name :: name in m.required ==> Find(PropertyMembers(m.properties), name).Some?;
    }
  }

  lemma BareIsExpressible(g: Graph, a: Id)
    requires g.Valid() && a in g.nodes && Compile(g, a).Ok?
    requires g.nodes[a].ref.Some? ==> Target(g, g.nodes[a]).Some?
    ensures Expressible(BareGraph(g), Exact, Bare(g.nodes[a]))
  {
    var n := g.nodes[a];
    if n.ref.Some? {
      BareTarget(g, n);
    } else if CompiledByType(n) {
      if IsObject(n) {
        ObjectIsCompiled(g, a);
      }
      BareShapeIsExpressible(BareGraph(g), n);
    }
  }

  lemma BareComponents(g: Graph, n: Node)
    requires n.Schema?
    ensures Components(BareGraph(g), Bare(n)) <= Components(g, n)
  {
    if n.ref.Some? {
      BareTarget(g, n);
    }
  }

  /** The generated type of a supported schema has exactly the values its bare document accepts. */
  lemma GeneratedTypeIsBareSchema(check: Check, g: Graph, scope: set<Id>, a: Id, v: Json)
    requires g.Valid() && Nameable(g) && Declarations(g, |g.schemas|).Ok? && Supported(g, scope) && a in scope
    ensures OfGeneratedType(g, a, v) <==> ValidAt(check, Exact, BareGraph(g), a, v)
  {
    var b := BareGraph(g);
    BareIsValid(g);
    DeclarationsBare(g, |g.schemas|);
    CompileBare(g, a);
    forall c | c in scope
      ensures c in b.nodes && Components(b, b.nodes[c]) <= scope && Expressible(b, Exact, b.nodes[c])
    {
      BareIsExpressible(g, c);
      BareComponents(g, g.nodes[c]);
    }
    GeneratedTypeIsExact(check, Exact, b, scope, a, v);
    var env, t := Declarations(g, |g.schemas|).value, Compile(g, a).value;
    forall h: nat
      ensures Inhabits(UnsealedAll(env), Unsealed(t), v, h) <==> Inhabits(env, t, v, h)
    {
      UnsealedIsSame(env, h);
      assert Agrees(env, t, v, h);
    }
  }
}
