module TypeScriptSupport {
  /** Which schemas the generator supports, and how it names types. */

  import opened Common
  import opened Json
  import opened SchemaGraph
  import opened SchemaWalk
  import opened TypeScript

  // ---- what compiles

  /** A local reference; a constant, whatever else is said; a list of values; a list of variants under the first of
      anyOf, oneOf and allOf; a type the generator knows, or properties; or nothing but documentation and a default. */
  ghost predicate Understood(n: Node) {
    && n.Schema?
    && match (n.ref, n.enum)
       case (Some(ref), _) => "#/components/schemas/" <= ref
       case (None, e) =>
         if Const in n.keywords then true
         else if e != NoEnum then e.EnumList?
         else if n.anyOf != NoVariants then n.anyOf.VariantList?
         else if n.oneOf != NoVariants then n.oneOf.VariantList?
         else if n.allOf != NoVariants then n.allOf.VariantList?
         else UnderstoodType(n)
  }

  ghost predicate HasKind(n: Node, kind: string)
    requires n.Schema?
  {
    Type in n.keywords && n.keywords[Type] == Str(kind)
  }

  ghost predicate UnderstoodType(n: Node)
    requires n.Schema?
  {
    if HasKind(n, "integer") || HasKind(n, "number") || HasKind(n, "boolean") || HasKind(n, "string") || HasKind(n, "null") then true
    else if HasKind(n, "array") then Other("prefixItems") !in n.keywords
    else if HasKind(n, "object") || n.properties != NoProperties then n.properties == NoProperties || n.properties.PropertyMap?
    else n == EMPTY_SCHEMA.(keywords := n.keywords) && n.keywords.Keys <= {Default}
  }

  /** The schemas that are compiled with this one: its variants, its items, its properties and its map values.  What
      a reference leads to is compiled on its own. */
  ghost function Inside(g: Graph, n: Node): set<Id> {
    if n.Schema? && n.ref.None? then Components(g, n) else {}
  }

  lemma {:induction false} AlternativesIff(g: Graph, a: Id, ids: seq<Id>)
    requires g.Valid() && a in g.nodes
    requires forall i :: 0 <= i < |ids| ==> a < ids[i] < g.size && ids[i] in g.nodes
    ensures Alternatives(g, a, ids).Ok? <==> forall i :: 0 <= i < |ids| ==> Compile(g, ids[i]).Ok?
    decreases |ids|
  {
    if ids != [] {
      AlternativesIff(g, a, ids[..|ids| - 1]);
    }
  }

  lemma {:induction false} FieldsIff(g: Graph, a: Id, k: nat)
    requires g.Valid() && a in g.nodes && g.nodes[a].Schema? && k <= |PropertyMembers(g.nodes[a].properties)|
    ensures Fields(g, a, k).Ok? <==>
      forall i :: 0 <= i < k ==>
        PropertyMembers(g.nodes[a].properties)[i].id in g.nodes && Compile(g, PropertyMembers(g.nodes[a].properties)[i].id).Ok?
    decreases k
  {
    if k > 0 {
      KidBelow(g, a, PropertyMembers(g.nodes[a].properties)[k - 1].id, k - 1);
      FieldsIff(g, a, k - 1);
    }
  }

  lemma ObjectCompilesIff(g: Graph, a: Id)
    requires g.Valid() && a in g.nodes && g.nodes[a].Schema? && IsObject(g.nodes[a])
    ensures CompileObject(g, a).Ok? <==>
      !g.nodes[a].properties.NotAPropertyMap?
      && forall c :: c in ShapeComponents(g.nodes[a]) ==> c in g.nodes && Compile(g, c).Ok?
  {
    var n := g.nodes[a];
    var members := PropertyMembers(n.properties);
    FieldsIff(g, a, |members|);
    AdditionalIsKnown(g, a);
    forall c
      ensures c in ShapeComponents(n) <==> (exists i :: 0 <= i < |members| && members[i].id == c) || n.additional == Typed(c)
    {
      MemberIdIff(members, c);
    }
  }

  lemma MemberIdIff(members: seq<Member>, c: Id)
    ensures c in MemberIds(members) <==> exists i :: 0 <= i < |members| && members[i].id == c
  {
    if c in MemberIds(members) {
      var i :| 0 <= i < |members| && MemberIds(members)[i] == c;
      assert members[i].id == c;
    }
    if i :| 0 <= i < |members| && members[i].id == c {
      assert MemberIds(members)[i] == c;
    }
  }

  lemma TypeCompilesIff(g: Graph, a: Id)
    requires g.Valid() && a in g.nodes && g.nodes[a].Schema? && CompiledByType(g.nodes[a])
    ensures CompileByType(g, a).Ok? <==>
      UnderstoodType(g.nodes[a]) && forall c :: c in ShapeComponents(g.nodes[a]) ==> c in g.nodes && Compile(g, c).Ok?
  {
    var n := g.nodes[a];
    if IsObject(n) {
      ObjectCompilesIff(g, a);
    }
    AdditionalIsKnown(g, a);
  }

  /** A schema compiles exactly when it is understood and so is everything compiled with it. */
  lemma CompilesIff(g: Graph, a: Id)
    requires g.Valid() && a in g.nodes
    ensures Compile(g, a).Ok? <==>
      Understood(g.nodes[a]) && forall c :: c in Inside(g, g.nodes[a]) ==> c in g.nodes && Compile(g, c).Ok?
  {
    var n := g.nodes[a];
    if n.Schema? && CompiledByType(n) {
      TypeCompilesIff(g, a);
    } else if n.Schema? && n.ref.None? && Const !in n.keywords && n.enum.NoEnum? {
      VariantsCompileIff(g, a);
    }
  }

  lemma VariantsCompileIff(g: Graph, a: Id)
    requires g.Valid() && a in g.nodes && g.nodes[a].Schema? && FirstForTs(g.nodes[a]).Some?
    requires g.nodes[a].ref.None? && Const !in g.nodes[a].keywords && g.nodes[a].enum.NoEnum?
    ensures Compile(g, a).Ok? <==>
      Understood(g.nodes[a]) && forall c :: c in Inside(g, g.nodes[a]) ==> c in g.nodes && Compile(g, c).Ok?
  {
    var c := FirstForTs(g.nodes[a]).value;
    VariantsBelow(g, a, c);
    AlternativesIff(g, a, VariantIds(VariantsOf(g.nodes[a], c)));
  }

  // ---- names

  const SMALL_LETTERS: string := "abcdefghijklmnopqrstuvwxyz"
  const CAPITALS: string := "ABCDEFGHIJKLMNOPQRSTUVWXYZ"
  const DIGITS: string := "0123456789"

  ghost predicate NameChar(c: char) {
    c in SMALL_LETTERS || c in CAPITALS || c in DIGITS || c == '_' || c == '$'
  }

  lemma {:induction false} IdentifierJoins(p: string, q: string)
    ensures Identifier(p + q) == Identifier(p) + Identifier(q)
  {
    if p == "" {
      assert p + q == q;
    } else {
      var front := if IdentifierChar(p[0]) then [p[0]] else [];
      IdentifierJoins(p[1..], q);
      assert (p + q)[0] == p[0] && (p + q)[1..] == p[1..] + q;
      assert front + (Identifier(p[1..]) + Identifier(q)) == front + Identifier(p[1..]) + Identifier(q);
    }
  }

  /** The characters of a name are kept in order, every other one is dropped. */
  lemma IdentifierIs(p: string, c: char, q: string)
    ensures Identifier(p + [c] + q) == Identifier(p) + (if NameChar(c) then [c] else []) + Identifier(q)
  {
    IdentifierJoins(p + [c], q);
    IdentifierJoins(p, [c]);
    assert Identifier([c]) == (if IdentifierChar(c) then [c] else []) + Identifier("");
    NameCharIff(c);
  }

  lemma NameCharIff(c: char)
    ensures NameChar(c) <==> IdentifierChar(c)
  {
    SmallLetterIff(c);
    CapitalIff(c);
    DigitIff(c);
  }

  lemma SmallLetterIff(c: char)
    ensures c in SMALL_LETTERS <==> 'a' <= c <= 'z'
  {
    if 'a' <= c <= 'z' {
      assert SMALL_LETTERS[c as int - 'a' as int] == c;
    }
  }

  lemma CapitalIff(c: char)
    ensures c in CAPITALS <==> 'A' <= c <= 'Z'
  {
    if 'A' <= c <= 'Z' {
      assert CAPITALS[c as int - 'A' as int] == c;
    }
  }

  lemma DigitIff(c: char)
    ensures c in DIGITS <==> '0' <= c <= '9'
  {
    if '0' <= c <= '9' {
      assert DIGITS[c as int - '0' as int] == c;
    }
  }
}
