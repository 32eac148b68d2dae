module SchemaMeaning {
  /** Which JSON values a schema accepts, after JSON Schema 2020-12 (Core sections 8.2.3.1, 10.2.1 and
      10.3.2, Validation sections 6.1 to 6.5).

      A reference applies beside every other constraint of the schema that holds it.  References make
      schemas cyclic, so acceptance is the existence of a finite derivation; `n` bounds its height.
      `check` gives the meaning of the keywords the checker only compares for equality (pattern, format,
      multipleOf, ...): every result below holds for every such meaning. */

  import opened Common
  import opened Json
  import opened SchemaGraph

  type Check = (Key, Json, Json) -> bool

  /** Which values the schemas next to a node accept. */
  type Acceptance = (Id, Json) -> bool

  /** How undeclared members of an object are read: as `additionalProperties` says, as always
      allowed (a client ignores what it does not know), or as never sent where the schema lists
      properties. */
  datatype Reading = Exact | OpenRecords | ClosedRecords

  predicate HasTypeName(name: Json, v: Json) {
    match v
    case Null => name == Str("null")
    case Bool(_) => name == Str("boolean")
    case Num(n) => name == Str("number") || (name == Str("integer") && n.Floor as real == n)
    case Str(_) => name == Str("string")
    case Arr(_) => name == Str("array")
    case Obj(_) => name == Str("object")
  }

  predicate HasType(t: Json, v: Json) {
    match t
    case Arr(names) => exists i | 0 <= i < |names| :: HasTypeName(names[i], v)
    case _ => HasTypeName(t, v)
  }

  predicate AtLeast(size: real, bound: Json) {
    bound.Num? && bound.n <= size
  }

  predicate AtMost(size: real, bound: Json) {
    bound.Num? && size <= bound.n
  }

  predicate KeywordAccepts(check: Check, key: Key, x: Json, v: Json) {
    match key
    case Type => HasType(x, v)
    case Const => v == x
    case MinLength => v.Str? ==> AtLeast(|v.s| as real, x)
    case MaxLength => v.Str? ==> AtMost(|v.s| as real, x)
    case Minimum => v.Num? ==> AtLeast(v.n, x)
    case Maximum => v.Num? ==> AtMost(v.n, x)
    case MinItems => v.Arr? ==> AtLeast(|v.items| as real, x)
    case MaxItems => v.Arr? ==> AtMost(|v.items| as real, x)
    case MinProperties => v.Obj? ==> AtLeast(|v.members| as real, x)
    case MaxProperties => v.Obj? ==> AtMost(|v.members| as real, x)
    case Default => true
    case ReadOnly => true
    case WriteOnly => true
    case _ => check(key, x, v)
  }

  ghost predicate KeywordsAccept(check: Check, n: Node, v: Json)
    requires n.Schema?
  {
    forall key {:trigger n.keywords[key]} :: key in n.keywords ==> KeywordAccepts(check, key, n.keywords[key], v)
  }

  ghost predicate EnumAccepts(e: Enum, v: Json) {
    e.EnumList? ==> v in e.values
  }

  // ---- one node, given what the nodes next to it accept

  ghost predicate NodeHolds(check: Check, reading: Reading, g: Graph, n: Node, v: Json, below: Acceptance) {
    match n
    case Scalar(x) => x != Bool(false)
    case Schema(_, _, _, _, _, _, _, _, _, _) =>
      && (n.ref.Some? ==> Target(g, n).Some? && below(Target(g, n).value, v))
      && OwnHolds(check, reading, g, n, v, below)
  }

  /** Everything a schema demands apart from its reference. */
  ghost predicate OwnHolds(check: Check, reading: Reading, g: Graph, n: Node, v: Json, below: Acceptance)
    requires n.Schema?
  {
    && KeywordsAccept(check, n, v)
    && EnumAccepts(n.enum, v)
    && VariantsHold(n, v, below)
    && (v.Obj? ==> MembersHold(reading, n, v, below))
    && (v.Arr? ==> ItemsHold(ItemsOf(g, n), v, below))
  }

  /** `oneOf` is read as "at least one". */
  ghost predicate VariantsHold(n: Node, v: Json, below: Acceptance)
    requires n.Schema?
  {
    && (n.oneOf.VariantList? ==> SomeHold(n.oneOf.ids, v, below))
    && (n.anyOf.VariantList? ==> SomeHold(n.anyOf.ids, v, below))
    && (n.allOf.VariantList? ==> AllHold(n.allOf.ids, v, below))
  }

  ghost predicate SomeHold(ids: seq<Id>, v: Json, below: Acceptance) {
    exists i :: 0 <= i < |ids| && below(ids[i], v)
  }

  ghost predicate AllHold(ids: seq<Id>, v: Json, below: Acceptance) {
    forall i :: 0 <= i < |ids| ==> below(ids[i], v)
  }

  ghost predicate MembersHold(reading: Reading, n: Node, v: Json, below: Acceptance)
    requires n.Schema? && v.Obj?
  {
    && (forall name :: name in n.required ==> name in v.members)
    && forall name {:trigger MemberHolds(reading, n, name, v.members[name], below)} ::
         name in v.members ==> MemberHolds(reading, n, name, v.members[name], below)
  }

  ghost predicate MemberHolds(reading: Reading, n: Node, name: string, w: Json, below: Acceptance)
    requires n.Schema?
  {
    match Find(PropertyMembers(n.properties), name)
    case Some(id) => below(id, w)
    case None =>
      if reading.OpenRecords? then true
      else if reading.ClosedRecords? && PropertyMembers(n.properties) != [] then false
      else
        match n.additional
        case Unstated => true
        case Flag(allowed) => allowed
        case Typed(id) => below(id, w)
  }

  ghost predicate ItemsHold(items: Id, v: Json, below: Acceptance)
    requires v.Arr?
  {
    forall i :: 0 <= i < |v.items| ==> below(items, v.items[i])
  }

  // ---- acceptance

  /** `v` is accepted at position `a` by a derivation of height at most `n`. */
  ghost predicate Accepts(check: Check, reading: Reading, g: Graph, a: Id, v: Json, n: nat)
    decreases n, 0
  {
    n > 0 && a in g.nodes && NodeHolds(check, reading, g, g.nodes[a], v, Level(check, reading, g, n - 1))
  }

  ghost function Level(check: Check, reading: Reading, g: Graph, n: nat): Acceptance
    decreases n, 1
  {
    (c: Id, w: Json) => Accepts(check, reading, g, c, w, n)
  }

  /** `v` is accepted: some derivation exists. */
  ghost predicate ValidAt(check: Check, reading: Reading, g: Graph, a: Id, v: Json) {
    exists n: nat :: Accepts(check, reading, g, a, v, n)
  }

  ghost function AllValid(check: Check, reading: Reading, g: Graph): Acceptance {
    (c: Id, w: Json) => ValidAt(check, reading, g, c, w)
  }

  // ---- how the readings relate, one node at a time

  /** The schema positions a node asks about, and the values it asks them about. */
  function Around(g: Graph, n: Node): set<Id> {
    (set c | c in Kids(n)) + {g.empty}
    + (if Target(g, n).Some? then {Target(g, n).value} else {})
  }

  function Parts(v: Json): set<Json> {
    {v} + match v
          case Obj(members) => members.Values
          case Arr(items) => set x | x in items
          case _ => {}
  }

  /** Acceptance at one node only grows from one reading to another. */
  predicate Loosens(from: Reading, to: Reading, n: Node) {
    || from == to || to == OpenRecords || (from == ClosedRecords && to == Exact)
    || (from == Exact && to == ClosedRecords && SealedNode(n))
  }

  /** A schema that lists properties and forbids all others. */
  predicate SealedNode(n: Node) {
    n.Schema? && PropertyMembers(n.properties) != [] ==> n.additional == Flag(false)
  }

  ghost predicate Grows(g: Graph, n: Node, v: Json, from: Acceptance, to: Acceptance) {
    forall c, w {:trigger from(c, w)} {:trigger to(c, w)} ::
      c in Around(g, n) && w in Parts(v) && from(c, w) ==> to(c, w)
  }

  lemma KidsAround(g: Graph, n: Node)
    requires n.Schema?
    ensures forall c {:trigger c in Around(g, n)} :: c in Kids(n) ==> c in Around(g, n)
    ensures forall i :: 0 <= i < |VariantIds(n.oneOf)| ==> VariantIds(n.oneOf)[i] in Kids(n)
    ensures forall i :: 0 <= i < |VariantIds(n.anyOf)| ==> VariantIds(n.anyOf)[i] in Kids(n)
    ensures forall i :: 0 <= i < |VariantIds(n.allOf)| ==> VariantIds(n.allOf)[i] in Kids(n)
    ensures n.additional.Typed? ==> n.additional.id in Kids(n)
    ensures ItemsOf(g, n) in Around(g, n)
  {
  }

  lemma FoundAround(n: Node, name: string)
    requires n.Schema? && Find(PropertyMembers(n.properties), name).Some?
    ensures Find(PropertyMembers(n.properties), name).value in Kids(n)
  {
    var members := PropertyMembers(n.properties);
    var k :| 0 <= k < |members| && members[k] == Member(name, Find(members, name).value);
    assert MemberIds(members)[k] == members[k].id;
    assert members[k].id in MemberIds(members);
  }

  lemma MembersGrow(g: Graph, from: Reading, to: Reading, n: Node, v: Json, f: Acceptance, h: Acceptance)
    requires n.Schema? && v.Obj? && Loosens(from, to, n) && Grows(g, n, v, f, h)
    requires MembersHold(from, n, v, f)
    ensures MembersHold(to, n, v, h)
  {
    KidsAround(g, n);
    forall name | name in v.members
      ensures MemberHolds(to, n, name, v.members[name], h)
    {
      assert MemberHolds(from, n, name, v.members[name], f);
      assert v.members[name] in Parts(v);
      if Find(PropertyMembers(n.properties), name).Some? {
        FoundAround(n, name);
      }
    }
  }

  lemma VariantsGrow(g: Graph, n: Node, v: Json, f: Acceptance, h: Acceptance)
    requires n.Schema? && Grows(g, n, v, f, h) && VariantsHold(n, v, f)
    ensures VariantsHold(n, v, h)
  {
    KidsAround(g, n);
    assert v in Parts(v);
    if n.oneOf.VariantList? {
      var i :| 0 <= i < |n.oneOf.ids| && f(n.oneOf.ids[i], v);
      assert VariantIds(n.oneOf)[i] in Kids(n) && h(n.oneOf.ids[i], v);
    }
    if n.anyOf.VariantList? {
      var i :| 0 <= i < |n.anyOf.ids| && f(n.anyOf.ids[i], v);
      assert VariantIds(n.anyOf)[i] in Kids(n) && h(n.anyOf.ids[i], v);
    }
    if n.allOf.VariantList? {
      forall i | 0 <= i < |n.allOf.ids|
        ensures h(n.allOf.ids[i], v)
      {
        assert VariantIds(n.allOf)[i] in Kids(n) && f(n.allOf.ids[i], v);
      }
    }
  }

  /** A node that accepts a value still does when its reading loosens and what is around it accepts more. */
  lemma NodeGrows(
    check: Check, g: Graph, from: Reading, to: Reading, n: Node, v: Json, f: Acceptance, h: Acceptance)
    requires Loosens(from, to, n) && Grows(g, n, v, f, h)
    requires NodeHolds(check, from, g, n, v, f)
    ensures NodeHolds(check, to, g, n, v, h)
  {
    if n.Schema? {
      assert v in Parts(v);
      KidsAround(g, n);
      VariantsGrow(g, n, v, f, h);
      if v.Obj? {
        MembersGrow(g, from, to, n, v, f, h);
      }
      if v.Arr? {
        forall i | 0 <= i < |v.items|
          ensures h(ItemsOf(g, n), v.items[i])
        {
          assert v.items[i] in Parts(v) && f(ItemsOf(g, n), v.items[i]);
        }
      }
      if n.ref.Some? {
        assert Target(g, n).value in Around(g, n);
      }
    }
  }

  // ---- heights

  ghost predicate Below(f: Acceptance, h: Acceptance) {
    forall c, w {:trigger f(c, w)} :: f(c, w) ==> h(c, w)
  }

  lemma NodeRises(check: Check, reading: Reading, g: Graph, n: Node, v: Json, f: Acceptance, h: Acceptance)
    requires Below(f, h) && NodeHolds(check, reading, g, n, v, f)
    ensures NodeHolds(check, reading, g, n, v, h)
  {
    assert Grows(g, n, v, f, h);
    NodeGrows(check, g, reading, reading, n, v, f, h);
  }

  lemma {:induction false} LevelsRise(check: Check, reading: Reading, g: Graph, n: nat, m: nat)
    requires n <= m
    ensures Below(Level(check, reading, g, n), Level(check, reading, g, m))
    decreases n
  {
    if n > 0 {
      LevelsRise(check, reading, g, n - 1, m - 1);
      forall c: Id, w: Json | Level(check, reading, g, n)(c, w)
        ensures Level(check, reading, g, m)(c, w)
      {
        assert Accepts(check, reading, g, c, w, n);
        NodeRises(check, reading, g, g.nodes[c], w, Level(check, reading, g, n - 1), Level(check, reading, g, m - 1));
        assert Accepts(check, reading, g, c, w, m);
      }
    }
  }

  lemma AcceptsHigher(check: Check, reading: Reading, g: Graph, a: Id, v: Json, n: nat, m: nat)
    requires Accepts(check, reading, g, a, v, n) && n <= m
    ensures Accepts(check, reading, g, a, v, m)
  {
    LevelsRise(check, reading, g, n, m);
    assert Level(check, reading, g, n)(a, v);
  }

  /** One height at which everything valid among finitely many questions is accepted. */
  lemma {:induction false} CommonHeight(check: Check, reading: Reading, g: Graph, ids: set<Id>, values: set<Json>)
    returns (n: nat)
    ensures forall c, w :: c in ids && w in values && ValidAt(check, reading, g, c, w) ==> Accepts(check, reading, g, c, w, n)
    decreases |ids|
  {
    if ids == {} {
      n := 0;
    } else {
      var c :| c in ids;
      var i := CommonHeight(check, reading, g, ids - {c}, values);
      var j := HeightFor(check, reading, g, c, values);
      n := if i < j then j else i;
      forall d, w | d in ids && w in values && ValidAt(check, reading, g, d, w)
        ensures Accepts(check, reading, g, d, w, n)
      {
        AcceptsHigher(check, reading, g, d, w, if d == c then j else i, n);
      }
    }
  }

  lemma {:induction false} HeightFor(check: Check, reading: Reading, g: Graph, c: Id, values: set<Json>) returns (n: nat)
    ensures forall w :: w in values && ValidAt(check, reading, g, c, w) ==> Accepts(check, reading, g, c, w, n)
    decreases |values|
  {
    if values == {} {
      n := 0;
    } else {
      var v :| v in values;
      var i := HeightFor(check, reading, g, c, values - {v});
      n := i;
      if ValidAt(check, reading, g, c, v) {
        var j: nat :| Accepts(check, reading, g, c, v, j);
        n := if i < j then j else i;
        AcceptsHigher(check, reading, g, c, v, j, n);
      }
      forall w | w in values && ValidAt(check, reading, g, c, w)
        ensures Accepts(check, reading, g, c, w, n)
      {
        if w != v {
          AcceptsHigher(check, reading, g, c, w, i, n);
        }
      }
    }
  }

  /** Validity is what one node says of validity around it: the least such reading, by derivations. */
  lemma ValidUnfolds(check: Check, reading: Reading, g: Graph, a: Id, v: Json)
    requires a in g.nodes
    ensures ValidAt(check, reading, g, a, v) <==> NodeHolds(check, reading, g, g.nodes[a], v, AllValid(check, reading, g))
  {
    var node, all := g.nodes[a], AllValid(check, reading, g);
    if ValidAt(check, reading, g, a, v) {
      var n: nat :| Accepts(check, reading, g, a, v, n);
      var f := Level(check, reading, g, n - 1);
      forall c, w | c in Around(g, node) && w in Parts(v) && f(c, w)
        ensures all(c, w)
      {
        assert Accepts(check, reading, g, c, w, n - 1);
      }
      NodeGrows(check, g, reading, reading, node, v, f, all);
    }
    if NodeHolds(check, reading, g, node, v, all) {
      var n := CommonHeight(check, reading, g, Around(g, node), Parts(v));
      var f := Level(check, reading, g, n);
      NodeGrows(check, g, reading, reading, node, v, all, f);
      assert Accepts(check, reading, g, a, v, n + 1);
    }
  }

  /** The schema that a missing keyword stands for accepts everything. */
  lemma {:induction false} EmptyIsValid(check: Check, reading: Reading, g: Graph, v: Json)
    requires g.Valid()
    ensures ValidAt(check, reading, g, g.empty, v)
    decreases v
  {
    var all := AllValid(check, reading, g);
    if v.Arr? {
      forall i | 0 <= i < |v.items|
        ensures all(g.empty, v.items[i])
      {
        EmptyIsValid(check, reading, g, v.items[i]);
      }
    }
    if v.Obj? {
      assert MembersHold(reading, EMPTY_SCHEMA, v, all);
    }
    assert KeywordsAccept(check, EMPTY_SCHEMA, v);
    ValidUnfolds(check, reading, g, g.empty, v);
  }
}
