module TypeScriptExact {
  /** Where a TypeScript type can say all that a schema says, the generated type does.

      The types cover their schemas (`TypeScript.TypesCover`); here is the other half.  Schemas that say no more
      than a type can say accept every value of their generated type, through recursive references too. */

  import opened Common
  import opened Json
  import opened SchemaGraph
  import opened SchemaWalk
  import opened SchemaMeaning
  import opened SchemaConditions
  import opened TypeScript
  import SchemaProperties

  // ---- schemas that say no more than a type can

  ghost predicate Annotated(n: Node)
    requires n.Schema?
  {
    n.keywords.Keys <= ANNOTATIONS
  }

  ghost predicate Reference(g: Graph, n: Node)
    requires n.Schema?
  {
    n == EMPTY_SCHEMA.(ref := n.ref, keywords := n.keywords) && n.ref.Some? && Target(g, n).Some? && Annotated(n)
  }

  ghost predicate Constant(n: Node)
    requires n.Schema?
  {
    n == EMPTY_SCHEMA.(keywords := n.keywords) && Const in n.keywords && n.keywords.Keys <= ANNOTATIONS + {Const}
  }

  ghost predicate Enumeration(n: Node)
    requires n.Schema?
  {
    n == EMPTY_SCHEMA.(enum := n.enum, keywords := n.keywords) && n.enum.EnumList? && Annotated(n)
  }

  ghost predicate Choice(n: Node)
    requires n.Schema?
  {
    && Annotated(n)
    && ((n == EMPTY_SCHEMA.(oneOf := n.oneOf, keywords := n.keywords) && n.oneOf.VariantList?)
        || (n == EMPTY_SCHEMA.(anyOf := n.anyOf, keywords := n.keywords) && n.anyOf.VariantList?)
        || (n == EMPTY_SCHEMA.(allOf := n.allOf, keywords := n.keywords) && n.allOf.VariantList?))
  }

  ghost predicate OfKind(n: Node, kind: Json)
    requires n.Schema?
  {
    Type in n.keywords && n.keywords[Type] == kind && n.keywords.Keys <= ANNOTATIONS + {Type}
  }

  /** A number, a boolean, a string, null, or anything. */
  ghost predicate Primitive(n: Node)
    requires n.Schema?
  {
    && n == EMPTY_SCHEMA.(keywords := n.keywords)
    && (Annotated(n) || OfKind(n, Str("number")) || OfKind(n, Str("boolean")) || OfKind(n, Str("string")) || OfKind(n, Str("null")))
  }

  ghost predicate List(n: Node)
    requires n.Schema?
  {
    n == EMPTY_SCHEMA.(items := n.items, keywords := n.keywords) && OfKind(n, Str("array"))
  }

  /** Every required name is declared; and what the type cannot say of undeclared members does not matter. */
  ghost predicate Record(reading: Reading, n: Node)
    requires n.Schema?
  {
    && n == EMPTY_SCHEMA.(properties := n.properties, required := n.required, additional := n.additional, keywords := n.keywords)
    && OfKind(n, Str("object")) && !n.properties.NotAPropertyMap?
    && (forall name :: name in n.required ==> Find(PropertyMembers(n.properties), name).Some?)
    && match reading
       case OpenRecords => !n.additional.Typed?
       case Exact => n.additional != Flag(false)
       case ClosedRecords => false
  }

  ghost predicate Expressible(g: Graph, reading: Reading, n: Node) {
    && n.Schema?
    && (Reference(g, n) || Constant(n) || Enumeration(n) || Choice(n) || Primitive(n) || List(n) || Record(reading, n))
  }

  /** Positions that the types of their schemas do not lead out of, all of them expressible. */
  ghost predicate ExactScope(g: Graph, reading: Reading, scope: set<Id>) {
    forall a {:trigger a in scope} :: a in scope ==>
      a in g.nodes && Components(g, g.nodes[a]) <= scope && Expressible(g, reading, g.nodes[a])
  }

  lemma ExactScopeIsScope(g: Graph, reading: Reading, scope: set<Id>)
    requires ExactScope(g, reading, scope)
    ensures Scope(g, reading, scope)
  {
    forall a | a in scope
      ensures Suits(g, reading, g.nodes[a])
    {
      var n := g.nodes[a];
      assert Expressible(g, reading, n);
      if CompiledByType(n) && IsObject(n) {
        assert Record(reading, n) || Primitive(n);
      }
    }
  }

  // ---- values of the type are accepted

  /** Values of the types of the scope whose derivations are lower than `h` are accepted. */
  ghost predicate Accepting(check: Check, reading: Reading, g: Graph, scope: set<Id>, env: Env, h: nat)
    requires g.Valid()
  {
    forall c, w {:trigger Asks(c, w)} ::
      Asks(c, w) && h > 0 && c in scope && c in g.nodes && Compile(g, c).Ok? && Inhabits(env, Compile(g, c).value, w, h - 1)
      ==> ValidAt(check, reading, g, c, w)
  }

  /** Names a question, to be answered by `Accepting`. */
  ghost predicate Asks(c: Id, w: Json) {
    true
  }

  /** Where a schema says nothing of members and items, all of them are accepted. */
  lemma PlainHolds(check: Check, reading: Reading, g: Graph, n: Node, v: Json)
    requires g.Valid() && n.Schema? && n.properties.NoProperties? && n.required == [] && n.additional == Unstated && n.items.None?
    requires n.ref.Some? ==> Target(g, n).Some? && ValidAt(check, reading, g, Target(g, n).value, v)
    requires KeywordsAccept(check, n, v) && EnumAccepts(n.enum, v) && VariantsHold(n, v, AllValid(check, reading, g))
    ensures NodeHolds(check, reading, g, n, v, AllValid(check, reading, g))
  {
    PlainItemsHold(check, reading, g, n, v);
    if v.Obj? {
      assert MembersHold(reading, n, v, AllValid(check, reading, g));
    }
  }

  lemma AnnotationsAccept(check: Check, n: Node, v: Json)
    requires n.Schema? && Annotated(n)
    ensures KeywordsAccept(check, n, v)
  {
    forall key | key in n.keywords
      ensures KeywordAccepts(check, key, n.keywords[key], v)
    {
      assert key in ANNOTATIONS;
    }
  }

  lemma KindAccepts(check: Check, n: Node, kind: Json, v: Json)
    requires n.Schema? && OfKind(n, kind) && HasType(kind, v)
    ensures KeywordsAccept(check, n, v)
  {
    forall key | key in n.keywords
      ensures KeywordAccepts(check, key, n.keywords[key], v)
    {
      assert key in ANNOTATIONS + {Type};
    }
  }

  lemma PlainItemsHold(check: Check, reading: Reading, g: Graph, n: Node, v: Json)
    requires g.Valid() && n.Schema? && n.items.None?
    ensures v.Arr? ==> ItemsHold(ItemsOf(g, n), v, AllValid(check, reading, g))
  {
    if v.Arr? {
      forall i | 0 <= i < |v.items|
        ensures ValidAt(check, reading, g, g.empty, v.items[i])
      {
        EmptyIsValid(check, reading, g, v.items[i]);
      }
    }
  }

  lemma ReferenceAccepts(check: Check, reading: Reading, g: Graph, scope: set<Id>, env: Env, a: Id, v: Json, h: nat)
    requires g.Valid() && Nameable(g) && Declarations(g, |g.schemas|) == Ok(env)
    requires a in g.nodes && g.nodes[a].Schema? && Reference(g, g.nodes[a]) && Components(g, g.nodes[a]) <= scope
    requires Accepting(check, reading, g, scope, env, h)
    requires Compile(g, a).Ok? && Inhabits(env, Compile(g, a).value, v, h)
    ensures NodeHolds(check, reading, g, g.nodes[a], v, AllValid(check, reading, g))
  {
    var n := g.nodes[a];
    var target := Target(g, n).value;
    ReferenceNames(g, a);
    assert target in Components(g, n);
    assert Asks(target, v);
    AnnotationsAccept(check, n, v);
    PlainHolds(check, reading, g, n, v);
  }

  lemma LiteralAccepts(check: Check, reading: Reading, g: Graph, env: Env, a: Id, v: Json, h: nat)
    requires g.Valid() && a in g.nodes && g.nodes[a].Schema? && (Constant(g.nodes[a]) || Enumeration(g.nodes[a]))
    requires Compile(g, a).Ok? && Inhabits(env, Compile(g, a).value, v, h)
    ensures NodeHolds(check, reading, g, g.nodes[a], v, AllValid(check, reading, g))
  {
    var n := g.nodes[a];
    if Constant(n) {
      assert KeywordsAccept(check, n, v);
    } else {
      var i :| 0 <= i < |n.enum.values| && Inhabits(env, LiteralUnion(n.enum.values).alternatives[i], v, h - 1);
      assert n.enum.values[i] == v;
      AnnotationsAccept(check, n, v);
    }
    PlainHolds(check, reading, g, n, v);
  }

  lemma VariantsAccept(
    check: Check, reading: Reading, g: Graph, scope: set<Id>, env: Env, a: Id, c: Combinator, v: Json, h: nat)
    requires g.Valid() && a in g.nodes && g.nodes[a].Schema? && VariantsOf(g.nodes[a], c).VariantList?
    requires forall i :: 0 <= i < |VariantIds(VariantsOf(g.nodes[a], c))| ==>
      a < VariantIds(VariantsOf(g.nodes[a], c))[i] < g.size && VariantIds(VariantsOf(g.nodes[a], c))[i] in g.nodes
      && VariantIds(VariantsOf(g.nodes[a], c))[i] in scope
    requires Alternatives(g, a, VariantIds(VariantsOf(g.nodes[a], c))).Ok?
    requires Accepting(check, reading, g, scope, env, h)
    requires var types := Alternatives(g, a, VariantIds(VariantsOf(g.nodes[a], c))).value;
      Inhabits(env, if c == AllOf then Intersection(types) else Union(types), v, h)
    ensures var ids := VariantIds(VariantsOf(g.nodes[a], c));
      if c == AllOf then AllHold(ids, v, AllValid(check, reading, g)) else SomeHold(ids, v, AllValid(check, reading, g))
  {
    var ids := VariantIds(VariantsOf(g.nodes[a], c));
    var types := Alternatives(g, a, ids).value;
    if c == AllOf {
      forall i | 0 <= i < |ids|
        ensures ValidAt(check, reading, g, ids[i], v)
      {
        AlternativesAt(g, a, ids, i);
        assert Inhabits(env, types[i], v, h - 1) && Asks(ids[i], v);
      }
    } else {
      var i :| 0 <= i < |types| && Inhabits(env, types[i], v, h - 1);
      AlternativesAt(g, a, ids, i);
      assert Asks(ids[i], v);
      assert AllValid(check, reading, g)(ids[i], v);
    }
  }

  lemma ChoiceAccepts(check: Check, reading: Reading, g: Graph, scope: set<Id>, env: Env, a: Id, v: Json, h: nat)
    requires g.Valid() && a in g.nodes && g.nodes[a].Schema? && Choice(g.nodes[a])
    requires Components(g, g.nodes[a]) <= scope && Accepting(check, reading, g, scope, env, h)
    requires Compile(g, a).Ok? && Inhabits(env, Compile(g, a).value, v, h)
    ensures NodeHolds(check, reading, g, g.nodes[a], v, AllValid(check, reading, g))
  {
    var n := g.nodes[a];
    var c := FirstForTs(n).value;
    VariantsBelow(g, a, c);
    var ids := VariantIds(VariantsOf(n, c));
    forall i | 0 <= i < |ids|
      ensures ids[i] in scope
    {
      assert ids[i] in Components(g, n);
    }
    VariantsAccept(check, reading, g, scope, env, a, c, v, h);
    ChoiceHolds(check, reading, g, n, v);
  }

  lemma ChoiceHolds(check: Check, reading: Reading, g: Graph, n: Node, v: Json)
    requires g.Valid() && n.Schema? && Choice(n)
    requires var c := FirstForTs(n).value;
      var ids := VariantIds(VariantsOf(n, c));
      if c == AllOf then AllHold(ids, v, AllValid(check, reading, g)) else SomeHold(ids, v, AllValid(check, reading, g))
    ensures NodeHolds(check, reading, g, n, v, AllValid(check, reading, g))
  {
    AnnotationsAccept(check, n, v);
    PlainHolds(check, reading, g, n, v);
  }

  lemma PrimitiveAccepts(check: Check, reading: Reading, g: Graph, env: Env, a: Id, v: Json, h: nat)
    requires g.Valid() && a in g.nodes && g.nodes[a].Schema? && Primitive(g.nodes[a])
    requires Compile(g, a).Ok? && Inhabits(env, Compile(g, a).value, v, h)
    ensures NodeHolds(check, reading, g, g.nodes[a], v, AllValid(check, reading, g))
  {
    var n := g.nodes[a];
    assert Compile(g, a) == CompileByType(g, a);
    if Annotated(n) {
      AnnotationsAccept(check, n, v);
    } else {
      KindAccepts(check, n, n.keywords[Type], v);
    }
    PlainHolds(check, reading, g, n, v);
  }

  lemma ListAccepts(check: Check, reading: Reading, g: Graph, scope: set<Id>, env: Env, a: Id, v: Json, h: nat)
    requires g.Valid() && a in g.nodes && g.nodes[a].Schema? && List(g.nodes[a])
    requires Components(g, g.nodes[a]) <= scope && Accepting(check, reading, g, scope, env, h)
    requires Compile(g, a).Ok? && Inhabits(env, Compile(g, a).value, v, h)
    ensures NodeHolds(check, reading, g, g.nodes[a], v, AllValid(check, reading, g))
  {
    var n := g.nodes[a];
    assert Compile(g, a) == CompileByType(g, a);
    KindAccepts(check, n, Str("array"), v);
    if n.items.None? {
      PlainHolds(check, reading, g, n, v);
    } else {
      g.KidsAreKnown(a);
      assert n.items.value in Kids(n) && n.items.value in Components(g, n);
      forall i | 0 <= i < |v.items|
        ensures ValidAt(check, reading, g, n.items.value, v.items[i])
      {
        assert Asks(n.items.value, v.items[i]);
      }
    }
  }

  /** A member of a value of an object type is accepted: by its property, or as an undeclared one. */
  lemma MemberAccepted(
    check: Check, reading: Reading, g: Graph, scope: set<Id>, env: Env, a: Id, v: Json, h: nat, name: string)
    requires g.Valid() && a in g.nodes && g.nodes[a].Schema? && Record(reading, g.nodes[a]) && v.Obj?
    requires ShapeComponents(g.nodes[a]) <= scope && Accepting(check, reading, g, scope, env, h)
    requires CompileObject(g, a).Ok? && Inhabits(env, CompileObject(g, a).value, v, h) && name in v.members
    ensures MemberHolds(reading, g.nodes[a], name, v.members[name], AllValid(check, reading, g))
  {
    var n := g.nodes[a];
    var members := PropertyMembers(n.properties);
    var fields := Fields(g, a, |members|).value;
    var found := Find(members, name);
    if found.Some? {
      var k :| 0 <= k < |members| && members[k] == Member(name, found.value);
      FieldsAt(g, a, |members|, k);
      assert MemberIds(members)[k] in MemberIds(members);
      assert members[k].id in ShapeComponents(n);
      assert fields[k].name == name && Asks(found.value, v.members[name]);
    } else if n.additional.Typed? {
      g.KidsAreKnown(a);
      assert n.additional.id in Kids(n) && n.additional.id in ShapeComponents(n);
      NameIsUndeclared(g, a, name);
      assert Asks(n.additional.id, v.members[name]);
    }
  }

  lemma NameIsUndeclared(g: Graph, a: Id, name: string)
    requires g.Valid() && a in g.nodes && g.nodes[a].Schema?
    requires Fields(g, a, |PropertyMembers(g.nodes[a].properties)|).Ok?
    requires Find(PropertyMembers(g.nodes[a].properties), name).None?
    ensures Undeclared(Fields(g, a, |PropertyMembers(g.nodes[a].properties)|).value, name)
  {
    var members := PropertyMembers(g.nodes[a].properties);
    forall k | 0 <= k < |members|
      ensures Fields(g, a, |members|).value[k].name != name
    {
      FieldsAt(g, a, |members|, k);
    }
  }

  /** Required names are fields that may not be left out. */
  lemma RequiredIsPresent(reading: Reading, g: Graph, env: Env, a: Id, v: Json, h: nat, name: string)
    requires g.Valid() && a in g.nodes && g.nodes[a].Schema? && Record(reading, g.nodes[a]) && v.Obj?
    requires CompileObject(g, a).Ok? && Inhabits(env, CompileObject(g, a).value, v, h) && name in g.nodes[a].required
    ensures name in v.members
  {
    var members := PropertyMembers(g.nodes[a].properties);
    var k :| 0 <= k < |members| && members[k] == Member(name, Find(members, name).value);
    FieldsAt(g, a, |members|, k);
    assert Fields(g, a, |members|).value[k].name == name;
  }

  lemma RecordAccepts(check: Check, reading: Reading, g: Graph, scope: set<Id>, env: Env, a: Id, v: Json, h: nat)
    requires g.Valid() && a in g.nodes && g.nodes[a].Schema? && Record(reading, g.nodes[a])
    requires Components(g, g.nodes[a]) <= scope && Accepting(check, reading, g, scope, env, h)
    requires Compile(g, a).Ok? && Inhabits(env, Compile(g, a).value, v, h)
    ensures NodeHolds(check, reading, g, g.nodes[a], v, AllValid(check, reading, g))
  {
    var n := g.nodes[a];
    ObjectIsCompiled(g, a);
    KindAccepts(check, n, Str("object"), v);
    forall name | name in v.members
      ensures MemberHolds(reading, n, name, v.members[name], AllValid(check, reading, g))
    {
      MemberAccepted(check, reading, g, scope, env, a, v, h, name);
    }
    forall name | name in n.required
      ensures name in v.members
    {
      RequiredIsPresent(reading, g, env, a, v, h, name);
    }
  }

  lemma PositionAccepts(check: Check, reading: Reading, g: Graph, scope: set<Id>, env: Env, a: Id, v: Json, h: nat)
    requires g.Valid() && Nameable(g) && Declarations(g, |g.schemas|) == Ok(env)
    requires a in g.nodes && Expressible(g, reading, g.nodes[a]) && Components(g, g.nodes[a]) <= scope
    requires Accepting(check, reading, g, scope, env, h)
    requires Compile(g, a).Ok? && Inhabits(env, Compile(g, a).value, v, h)
    ensures ValidAt(check, reading, g, a, v)
  {
    var n := g.nodes[a];
    ValidUnfolds(check, reading, g, a, v);
    if Reference(g, n) {
      ReferenceAccepts(check, reading, g, scope, env, a, v, h);
    } else if Constant(n) || Enumeration(n) {
      LiteralAccepts(check, reading, g, env, a, v, h);
    } else if Choice(n) {
      ChoiceAccepts(check, reading, g, scope, env, a, v, h);
    } else if Primitive(n) {
      PrimitiveAccepts(check, reading, g, env, a, v, h);
    } else if List(n) {
      ListAccepts(check, reading, g, scope, env, a, v, h);
    } else {
      RecordAccepts(check, reading, g, scope, env, a, v, h);
    }
  }

  /** Values of the generated types are accepted, through every chain of references. */
  lemma {:induction false} TypesAccept(check: Check, reading: Reading, g: Graph, scope: set<Id>, h: nat)
    requires g.Valid() && Nameable(g) && ExactScope(g, reading, scope) && Declarations(g, |g.schemas|).Ok?
    ensures Accepting(check, reading, g, scope, Declarations(g, |g.schemas|).value, h)
  {
    var env := Declarations(g, |g.schemas|).value;
    if h > 0 {
      TypesAccept(check, reading, g, scope, h - 1);
      forall c, w | c in scope && Compile(g, c).Ok? && Inhabits(env, Compile(g, c).value, w, h - 1)
        ensures ValidAt(check, reading, g, c, w)
      {
        PositionAccepts(check, reading, g, scope, env, c, w, h - 1);
      }
    }
  }

  /** Where schemas say no more than types can, the generated type has exactly the accepted values.  An open
      reading suits a client that ignores what it does not know, the exact one a schema that leaves records open. */
  lemma GeneratedTypeIsExact(check: Check, reading: Reading, g: Graph, scope: set<Id>, a: Id, v: Json)
    requires g.Valid() && Nameable(g) && ExactScope(g, reading, scope) && Declarations(g, |g.schemas|).Ok?
    requires a in scope && a in g.nodes && Compile(g, a).Ok?
    ensures OfGeneratedType(g, a, v) <==> ValidAt(check, reading, g, a, v)
  {
    if ValidAt(check, reading, g, a, v) {
      ExactScopeIsScope(g, reading, scope);
      GeneratedTypeCovers(check, reading, g, scope, a, v);
    }
    if OfGeneratedType(g, a, v) {
      var h: nat :| Inhabits(Declarations(g, |g.schemas|).value, Compile(g, a).value, v, h);
      TypesAccept(check, reading, g, scope, h + 1);
      assert Asks(a, v);
    }
  }

  /** An object type lacks an index signature exactly when its schema accepts no undeclared member at all. */
  lemma IndexIff(g: Graph, a: Id, name: string)
    requires g.Valid() && a in g.nodes && g.nodes[a].Schema? && CompiledByType(g.nodes[a]) && IsObject(g.nodes[a])
    requires Compile(g, a).Ok? && Find(PropertyMembers(g.nodes[a].properties), name).None?
    ensures Compile(g, a).value.ObjectType?
    ensures Compile(g, a).value.index.None? <==>
      forall w, below: Acceptance :: !MemberHolds(Exact, g.nodes[a], name, w, below)
  {
    ObjectIsCompiled(g, a);
    var n := g.nodes[a];
    if n.additional != Flag(false) {
      var all: Acceptance := (c: Id, w: Json) => true;
      assert MemberHolds(Exact, n, name, Null, all);
    }
  }
}
