module SchemaMirror {
  /** Positions of two documents from which the same is reached.

      Identities differ between documents, so sameness is a relation between positions: related nodes say
      the same, over related children and related reference targets.  What a schema accepts depends on
      nothing else. */

  import opened Common
  import opened Json
  import opened SchemaGraph
  import opened SchemaMeaning

  type Relation = set<(Id, Id)>

  ghost predicate ListsMirrored(rel: Relation, xs: seq<Id>, ys: seq<Id>) {
    |xs| == |ys| && forall i {:trigger xs[i]} {:trigger ys[i]} :: 0 <= i < |xs| ==> (xs[i], ys[i]) in rel
  }

  ghost predicate VariantsMirrored(rel: Relation, v: Variants, w: Variants) {
    match (v, w)
    case (VariantList(xs), VariantList(ys)) => ListsMirrored(rel, xs, ys)
    case _ => v == w
  }

  ghost predicate MembersMirrored(rel: Relation, p: seq<Member>, q: seq<Member>) {
    |p| == |q| && forall i {:trigger p[i]} {:trigger q[i]} :: 0 <= i < |p| ==> p[i].name == q[i].name && (p[i].id, q[i].id) in rel
  }

  ghost predicate PropertiesMirrored(rel: Relation, p: Properties, q: Properties) {
    match (p, q)
    case (PropertyMap(x), PropertyMap(y)) => MembersMirrored(rel, x, y)
    case _ => p == q
  }

  ghost predicate AdditionalMirrored(rel: Relation, x: Additional, y: Additional) {
    match (x, y)
    case (Typed(c), Typed(d)) => (c, d) in rel
    case _ => x == y
  }

  ghost predicate ItemsMirrored(rel: Relation, x: Option<Id>, y: Option<Id>) {
    match (x, y)
    case (Some(c), Some(d)) => (c, d) in rel
    case _ => x == y
  }

  /** Two schemas that say the same but for plain keywords, over related children. */
  ghost predicate ShapeMirrored(rel: Relation, o: Node, n: Node)
    requires o.Schema? && n.Schema?
  {
    && o.ref == n.ref && o.enum == n.enum && o.required == n.required
    && VariantsMirrored(rel, o.oneOf, n.oneOf)
    && VariantsMirrored(rel, o.anyOf, n.anyOf)
    && VariantsMirrored(rel, o.allOf, n.allOf)
    && PropertiesMirrored(rel, o.properties, n.properties)
    && AdditionalMirrored(rel, o.additional, n.additional)
    && ItemsMirrored(rel, o.items, n.items)
  }

  ghost predicate Mirrored(rel: Relation, o: Node, n: Node) {
    match (o, n)
    case (Scalar(x), Scalar(y)) => x == y
    case (Schema(_, _, _, _, _, _, _, _, _, k), Schema(_, _, _, _, _, _, _, _, _, l)) => k == l && ShapeMirrored(rel, o, n)
    case _ => false
  }

  ghost predicate TargetsMirrored(rel: Relation, g: Graph, o: Node, h: Graph, n: Node) {
    match (Target(g, o), Target(h, n))
    case (Some(c), Some(d)) => (c, d) in rel
    case (x, y) => x == y
  }

  ghost predicate MirroredAt(g: Graph, h: Graph, rel: Relation, a: Id, b: Id) {
    a in g.nodes && b in h.nodes && Mirrored(rel, g.nodes[a], h.nodes[b]) && TargetsMirrored(rel, g, g.nodes[a], h, h.nodes[b])
  }

  ghost predicate Mirrors(g: Graph, h: Graph, rel: Relation) {
    && (g.empty, h.empty) in rel
    && forall a, b {:trigger (a, b) in rel} {:trigger MirroredAt(g, h, rel, a, b)} :: (a, b) in rel ==> MirroredAt(g, h, rel, a, b)
  }

  /** From these positions the two documents reach the same, reference targets included. */
  ghost predicate Unchanged(g: Graph, h: Graph, a: Id, b: Id) {
    exists rel :: Mirrors(g, h, rel) && (a, b) in rel
  }

  // ---- acceptance depends on nothing else

  ghost predicate Agree(rel: Relation, f: Acceptance, k: Acceptance) {
    forall c, d, w {:trigger f(c, w), k(d, w)} :: (c, d) in rel ==> (f(c, w) <==> k(d, w))
  }

  lemma {:induction false} FindMirrored(rel: Relation, p: seq<Member>, q: seq<Member>, name: string)
    requires MembersMirrored(rel, p, q)
    ensures Find(p, name).Some? <==> Find(q, name).Some?
    ensures Find(p, name).Some? ==> (Find(p, name).value, Find(q, name).value) in rel
    decreases |p|
  {
    if p != [] && p[0].name != name {
      FindMirrored(rel, p[1..], q[1..], name);
    }
  }

  lemma SomeMirrored(rel: Relation, xs: seq<Id>, ys: seq<Id>, v: Json, f: Acceptance, k: Acceptance)
    requires ListsMirrored(rel, xs, ys) && Agree(rel, f, k)
    ensures SomeHold(xs, v, f) <==> SomeHold(ys, v, k)
    ensures AllHold(xs, v, f) <==> AllHold(ys, v, k)
  {
    forall i | 0 <= i < |xs|
      ensures f(xs[i], v) <==> k(ys[i], v)
    {
      assert (xs[i], ys[i]) in rel;
    }
    if SomeHold(xs, v, f) {
      var i :| 0 <= i < |xs| && f(xs[i], v);
      assert k(ys[i], v);
    }
    if SomeHold(ys, v, k) {
      var i :| 0 <= i < |ys| && k(ys[i], v);
      assert f(xs[i], v);
    }
  }

  lemma VariantsMirror(rel: Relation, o: Node, n: Node, v: Json, f: Acceptance, k: Acceptance)
    requires o.Schema? && n.Schema? && ShapeMirrored(rel, o, n) && Agree(rel, f, k)
    ensures VariantsHold(o, v, f) <==> VariantsHold(n, v, k)
  {
    if o.oneOf.VariantList? {
      SomeMirrored(rel, o.oneOf.ids, n.oneOf.ids, v, f, k);
    }
    if o.anyOf.VariantList? {
      SomeMirrored(rel, o.anyOf.ids, n.anyOf.ids, v, f, k);
    }
    if o.allOf.VariantList? {
      SomeMirrored(rel, o.allOf.ids, n.allOf.ids, v, f, k);
    }
  }

  lemma MemberMirrors(rel: Relation, reading: Reading, o: Node, n: Node, name: string, w: Json, f: Acceptance, k: Acceptance)
    requires o.Schema? && n.Schema? && ShapeMirrored(rel, o, n) && Agree(rel, f, k)
    ensures MemberHolds(reading, o, name, w, f) <==> MemberHolds(reading, n, name, w, k)
  {
    var p, q := PropertyMembers(o.properties), PropertyMembers(n.properties);
    assert MembersMirrored(rel, p, q);
    FindMirrored(rel, p, q, name);
    if Find(p, name).Some? {
      assert f(Find(p, name).value, w) <==> k(Find(q, name).value, w);
    } else if o.additional.Typed? {
      assert f(o.additional.id, w) <==> k(n.additional.id, w);
    }
  }

  lemma MembersMirror(rel: Relation, reading: Reading, o: Node, n: Node, v: Json, f: Acceptance, k: Acceptance)
    requires o.Schema? && n.Schema? && ShapeMirrored(rel, o, n) && Agree(rel, f, k) && v.Obj?
    ensures MembersHold(reading, o, v, f) <==> MembersHold(reading, n, v, k)
  {
    forall name | name in v.members
      ensures MemberHolds(reading, o, name, v.members[name], f) <==> MemberHolds(reading, n, name, v.members[name], k)
    {
      MemberMirrors(rel, reading, o, n, name, v.members[name], f, k);
    }
  }

  /** What two schemas of the same shape demand, their plain keywords apart. */
  lemma ShapeMirrors(
    check: Check, reading: Reading, g: Graph, h: Graph, rel: Relation, o: Node, n: Node, v: Json, f: Acceptance, k: Acceptance)
    requires o.Schema? && n.Schema? && ShapeMirrored(rel, o, n) && TargetsMirrored(rel, g, o, h, n)
    requires (g.empty, h.empty) in rel && Agree(rel, f, k)
    ensures KeywordsAccept(check, o, v) && KeywordsAccept(check, n, v) ==>
      (NodeHolds(check, reading, g, o, v, f) <==> NodeHolds(check, reading, h, n, v, k))
    ensures KeywordsAccept(check, o, v) && NodeHolds(check, reading, h, n, v, k) ==> NodeHolds(check, reading, g, o, v, f)
    ensures KeywordsAccept(check, n, v) && NodeHolds(check, reading, g, o, v, f) ==> NodeHolds(check, reading, h, n, v, k)
  {
    VariantsMirror(rel, o, n, v, f, k);
    if v.Obj? {
      MembersMirror(rel, reading, o, n, v, f, k);
    }
    if v.Arr? {
      forall i | 0 <= i < |v.items|
        ensures f(ItemsOf(g, o), v.items[i]) <==> k(ItemsOf(h, n), v.items[i])
      {
      }
    }
    if Target(g, o).Some? {
      assert f(Target(g, o).value, v) <==> k(Target(h, n).value, v);
    }
  }

  lemma NodeMirrors(
    check: Check, reading: Reading, g: Graph, h: Graph, rel: Relation, o: Node, n: Node, v: Json, f: Acceptance, k: Acceptance)
    requires Mirrored(rel, o, n) && TargetsMirrored(rel, g, o, h, n)
    requires (g.empty, h.empty) in rel && Agree(rel, f, k)
    ensures NodeHolds(check, reading, g, o, v, f) <==> NodeHolds(check, reading, h, n, v, k)
  {
    if o.Schema? {
      ShapeMirrors(check, reading, g, h, rel, o, n, v, f, k);
      assert KeywordsAccept(check, o, v) <==> KeywordsAccept(check, n, v);
    }
  }

  lemma {:induction false} LevelsMirror(check: Check, reading: Reading, g: Graph, h: Graph, rel: Relation, n: nat)
    requires Mirrors(g, h, rel)
    ensures Agree(rel, Level(check, reading, g, n), Level(check, reading, h, n))
  {
    if n > 0 {
      LevelsMirror(check, reading, g, h, rel, n - 1);
    }
    forall c, d, w | (c, d) in rel
      ensures Level(check, reading, g, n)(c, w) <==> Level(check, reading, h, n)(d, w)
    {
      assert MirroredAt(g, h, rel, c, d);
      if n > 0 {
        NodeMirrors(check, reading, g, h, rel, g.nodes[c], h.nodes[d], w, Level(check, reading, g, n - 1), Level(check, reading, h, n - 1));
      }
      assert Level(check, reading, g, n)(c, w) == Accepts(check, reading, g, c, w, n);
      assert Level(check, reading, h, n)(d, w) == Accepts(check, reading, h, d, w, n);
    }
  }

  /** What is accepted at a position depends only on what is reached from it. */
  lemma ReachDetermines(check: Check, reading: Reading, g: Graph, h: Graph, a: Id, b: Id, v: Json)
    requires Unchanged(g, h, a, b)
    ensures ValidAt(check, reading, g, a, v) <==> ValidAt(check, reading, h, b, v)
  {
    var rel :| Mirrors(g, h, rel) && (a, b) in rel;
    ValidMirrors(check, reading, g, h, rel);
    assert AllValid(check, reading, g)(a, v) <==> AllValid(check, reading, h)(b, v);
  }

  lemma ValidMirrors(check: Check, reading: Reading, g: Graph, h: Graph, rel: Relation)
    requires Mirrors(g, h, rel)
    ensures Agree(rel, AllValid(check, reading, g), AllValid(check, reading, h))
  {
    forall c, d, w | (c, d) in rel
      ensures AllValid(check, reading, g)(c, w) <==> AllValid(check, reading, h)(d, w)
    {
      forall n: nat
        ensures Accepts(check, reading, g, c, w, n) <==> Accepts(check, reading, h, d, w, n)
      {
        LevelsMirror(check, reading, g, h, rel, n);
        assert Level(check, reading, g, n)(c, w) <==> Level(check, reading, h, n)(d, w);
      }
    }
  }

  // ---- a document and itself

  /** Every position of a document reaches what it reaches in an equal document. */
  lemma SelfIsUnchanged(g: Graph, a: Id)
    requires g.Valid() && a in g.nodes
    ensures Unchanged(g, g, a, a)
  {
    var rel := set c | c in g.nodes :: (c, c);
    forall c, d | (c, d) in rel
      ensures MirroredAt(g, g, rel, c, d)
    {
      SelfIsMirrored(g, rel, c);
    }
    assert Mirrors(g, g, rel);
  }

  lemma SelfIsMirrored(g: Graph, rel: Relation, a: Id)
    requires g.Valid() && a in g.nodes && forall c :: c in g.nodes ==> (c, c) in rel
    ensures MirroredAt(g, g, rel, a, a)
  {
    var n := g.nodes[a];
    g.KidsAreKnown(a);
    if n.Schema? {
      KidsAround(g, n);
      forall i | 0 <= i < |PropertyMembers(n.properties)|
        ensures PropertyMembers(n.properties)[i].id in Kids(n)
      {
        assert MemberIds(PropertyMembers(n.properties))[i] in MemberIds(PropertyMembers(n.properties));
      }
      assert n.items.Some? ==> n.items.value in Kids(n);
    }
  }
}
