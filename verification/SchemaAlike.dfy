module SchemaAlike {
  /** Positions that hold the same, and positions that `_semantic` does not tell apart, part by part. */

  import opened Common
  import opened Json
  import opened SchemaGraph
  import opened SchemaTraversal
  import opened SchemaWalk

  // ---- children in pairs

  type Pairing = (Id, Id) -> bool

  ghost predicate Pairwise(rel: Pairing, xs: seq<Id>, ys: seq<Id>) {
    |xs| == |ys| && forall i :: 0 <= i < |xs| ==> rel(xs[i], ys[i])
  }

  lemma PairwiseConcat(rel: Pairing, p: seq<Id>, p': seq<Id>, q: seq<Id>, q': seq<Id>)
    requires |p'| == |q'|
    ensures Pairwise(rel, p + p', q + q') <==> Pairwise(rel, p, q) && Pairwise(rel, p', q')
  {
    if Pairwise(rel, p + p', q + q') {
      forall i | 0 <= i < |p|
        ensures rel(p[i], q[i])
      {
        assert (p + p')[i] == p[i] && (q + q')[i] == q[i];
      }
      forall i | 0 <= i < |p'|
        ensures rel(p'[i], q'[i])
      {
        assert (p + p')[|p| + i] == p'[i] && (q + q')[|p| + i] == q'[i];
      }
    }
  }

  lemma PairwiseSix(rel: Pairing,
      p0: seq<Id>, p1: seq<Id>, p2: seq<Id>, p3: seq<Id>, p4: seq<Id>, p5: seq<Id>,
      q0: seq<Id>, q1: seq<Id>, q2: seq<Id>, q3: seq<Id>, q4: seq<Id>, q5: seq<Id>)
    requires |p1| == |q1| && |p2| == |q2| && |p3| == |q3| && |p4| == |q4| && |p5| == |q5|
    ensures Pairwise(rel, p0 + p1 + p2 + p3 + p4 + p5, q0 + q1 + q2 + q3 + q4 + q5) <==>
      && Pairwise(rel, p0, q0) && Pairwise(rel, p1, q1) && Pairwise(rel, p2, q2)
      && Pairwise(rel, p3, q3) && Pairwise(rel, p4, q4) && Pairwise(rel, p5, q5)
  {
    PairwiseConcat(rel, p0 + p1 + p2 + p3 + p4, p5, q0 + q1 + q2 + q3 + q4, q5);
    PairwiseConcat(rel, p0 + p1 + p2 + p3, p4, q0 + q1 + q2 + q3, q4);
    PairwiseConcat(rel, p0 + p1 + p2, p3, q0 + q1 + q2, q3);
    PairwiseConcat(rel, p0 + p1, p2, q0 + q1, q2);
    PairwiseConcat(rel, p0, p1, q0, q1);
  }

  function AdditionalIds(n: Node): seq<Id>
    requires n.Schema?
  {
    if n.additional.Typed? then [n.additional.id] else []
  }

  function ItemIds(n: Node): seq<Id>
    requires n.Schema?
  {
    if n.items.Some? then [n.items.value] else []
  }

  /** Equality of two schemas up to the identities of their children and the values of their keywords. */
  predicate SameForm(o: Node, n: Node)
    requires o.Schema? && n.Schema?
  {
    SameShell(o.(keywords := map[]), n.(keywords := map[]))
  }

  /** The children of nodes of the same form are related when they are part by part. */
  lemma PairwiseKids(rel: Pairing, o: Node, n: Node)
    requires o.Schema? && n.Schema? && SameForm(o, n)
    ensures Pairwise(rel, Kids(o), Kids(n)) <==>
      && Pairwise(rel, VariantIds(o.oneOf), VariantIds(n.oneOf))
      && Pairwise(rel, VariantIds(o.anyOf), VariantIds(n.anyOf))
      && Pairwise(rel, VariantIds(o.allOf), VariantIds(n.allOf))
      && Pairwise(rel, MemberIds(PropertyMembers(o.properties)), MemberIds(PropertyMembers(n.properties)))
      && Pairwise(rel, AdditionalIds(o), AdditionalIds(n))
      && Pairwise(rel, ItemIds(o), ItemIds(n))
  {
    PairwiseSix(rel,
      VariantIds(o.oneOf), VariantIds(o.anyOf), VariantIds(o.allOf), MemberIds(PropertyMembers(o.properties)), AdditionalIds(o), ItemIds(o),
      VariantIds(n.oneOf), VariantIds(n.anyOf), VariantIds(n.allOf), MemberIds(PropertyMembers(n.properties)), AdditionalIds(n), ItemIds(n));
  }

  // ---- positions that hold the same

  ghost predicate AlikeLists(s: Scene, xs: seq<Id>, ys: seq<Id>)
    requires s.Valid()
  {
    |xs| == |ys| && forall i :: 0 <= i < |xs| ==> s.Known(xs[i], ys[i]) && Equal(s.base, xs[i], s.cand, ys[i])
  }

  ghost function EqualIn(s: Scene): Pairing {
    (a: Id, b: Id) => s.Valid() && s.Known(a, b) && Equal(s.base, a, s.cand, b)
  }

  lemma PairwiseIsAlike(s: Scene, xs: seq<Id>, ys: seq<Id>)
    requires s.Valid()
    ensures Pairwise(EqualIn(s), xs, ys) <==> AlikeLists(s, xs, ys)
  {
    if AlikeLists(s, xs, ys) {
      forall i | 0 <= i < |xs|
        ensures EqualIn(s)(xs[i], ys[i])
      {
      }
    } else if Pairwise(EqualIn(s), xs, ys) {
      forall i | 0 <= i < |xs|
        ensures s.Known(xs[i], ys[i]) && Equal(s.base, xs[i], s.cand, ys[i])
      {
        assert EqualIn(s)(xs[i], ys[i]);
      }
    }
  }

  lemma AlikeKids(s: Scene, a: Id, b: Id)
    requires s.Valid() && s.Known(a, b) && Equal(s.base, a, s.cand, b)
    ensures AlikeLists(s, Kids(s.base.nodes[a]), Kids(s.cand.nodes[b]))
  {
    var x, y := Kids(s.base.nodes[a]), Kids(s.cand.nodes[b]);
    s.base.KidsAreKnown(a);
    s.cand.KidsAreKnown(b);
    forall i | 0 <= i < |x|
      ensures s.Known(x[i], y[i]) && Equal(s.base, x[i], s.cand, y[i])
    {
      assert x[i] in x && y[i] in y;
    }
  }

  /** Two nodes of the same form whose children are alike have, part by part, children that are alike. */
  lemma AlikeParts(s: Scene, a: Id, b: Id)
    requires s.Valid() && s.Known(a, b) && s.base.nodes[a].Schema? && s.cand.nodes[b].Schema?
    requires SameForm(s.base.nodes[a], s.cand.nodes[b])
    requires AlikeLists(s, Kids(s.base.nodes[a]), Kids(s.cand.nodes[b]))
    ensures var o, n := s.base.nodes[a], s.cand.nodes[b];
      && (forall c :: AlikeLists(s, VariantIds(VariantsOf(o, c)), VariantIds(VariantsOf(n, c))))
      && AlikeLists(s, MemberIds(PropertyMembers(o.properties)), MemberIds(PropertyMembers(n.properties)))
      && AlikeLists(s, AdditionalIds(o), AdditionalIds(n))
      && AlikeLists(s, ItemIds(o), ItemIds(n))
  {
    var o, n := s.base.nodes[a], s.cand.nodes[b];
    var rel := EqualIn(s);
    PairwiseKids(rel, o, n);
    PairwiseIsAlike(s, Kids(o), Kids(n));
    PairwiseIsAlike(s, VariantIds(o.oneOf), VariantIds(n.oneOf));
    PairwiseIsAlike(s, VariantIds(o.anyOf), VariantIds(n.anyOf));
    PairwiseIsAlike(s, VariantIds(o.allOf), VariantIds(n.allOf));
    PairwiseIsAlike(s, MemberIds(PropertyMembers(o.properties)), MemberIds(PropertyMembers(n.properties)));
    PairwiseIsAlike(s, AdditionalIds(o), AdditionalIds(n));
    PairwiseIsAlike(s, ItemIds(o), ItemIds(n));
  }

  lemma EqualIsAlike(s: Scene, a: Id, b: Id)
    requires s.Valid() && s.Known(a, b) && s.base.nodes[a].Schema? && s.cand.nodes[b].Schema?
    requires Equal(s.base, a, s.cand, b)
    ensures SameForm(s.base.nodes[a], s.cand.nodes[b])
    ensures AlikeLists(s, Kids(s.base.nodes[a]), Kids(s.cand.nodes[b]))
  {
    assert SameShell(s.base.nodes[a], s.cand.nodes[b]);
    AlikeKids(s, a, b);
  }

  // ---- positions that are not told apart

  ghost function SameIn(s: Scene): Pairing {
    (a: Id, b: Id) => s.Valid() && s.Known(a, b) && Same(s.base, a, s.cand, b)
  }

  lemma SameKids(s: Scene, a: Id, b: Id)
    requires s.Valid() && s.Known(a, b)
    ensures Same(s.base, a, s.cand, b) <==>
      && SameShell(Semantic(s.base.nodes[a]), Semantic(s.cand.nodes[b]))
      && Pairwise(SameIn(s), Kids(Semantic(s.base.nodes[a])), Kids(Semantic(s.cand.nodes[b])))
  {
    var x, y := Kids(Semantic(s.base.nodes[a])), Kids(Semantic(s.cand.nodes[b]));
    SemanticKidsAreKnown(s.base, a);
    SemanticKidsAreKnown(s.cand, b);
    if |x| == |y| {
      forall i | 0 <= i < |x|
        ensures x[i] in s.base.nodes && y[i] in s.cand.nodes
        ensures SameIn(s)(x[i], y[i]) <==> Same(s.base, x[i], s.cand, y[i])
      {
        assert x[i] in x && y[i] in y;
      }
    }
  }

  lemma SameVariantIds(v: Variants, w: Variants)
    requires SameVariants(PlainVariants(v), PlainVariants(w))
    ensures v.NoVariants? == w.NoVariants? && v.VariantList? == w.VariantList?
  {
  }

  /** Schemas that are not told apart have the same combinators, over variants that are not told apart. */
  lemma SameVariantLists(s: Scene, a: Id, b: Id, c: Combinator)
    requires s.Valid() && s.Known(a, b) && Same(s.base, a, s.cand, b)
    requires s.base.nodes[a].Schema? && s.cand.nodes[b].Schema?
    ensures var v, w := VariantsOf(s.base.nodes[a], c), VariantsOf(s.cand.nodes[b], c);
      v.NoVariants? == w.NoVariants? && v.VariantList? == w.VariantList? && Pairwise(SameIn(s), VariantIds(v), VariantIds(w))
  {
    var o, n := s.base.nodes[a], s.cand.nodes[b];
    SameKids(s, a, b);
    SemanticParts(o);
    SemanticParts(n);
    PairwiseKids(SameIn(s), Semantic(o), Semantic(n));
    SameVariantIds(VariantsOf(o, c), VariantsOf(n, c));
  }

  // ---- what holds the same is not told apart

  lemma {:induction false} PlainKeepsPyEq(x: Json, y: Json)
    requires PyEq(x, y)
    ensures PyEq(Plain(x), Plain(y))
  {
    match x
    case Arr(items) =>
      assert y.Arr? && |PyForm(x).items| == |items| == |y.items|;
      forall i | 0 <= i < |items|
        ensures PyEq(Plain(items[i]), Plain(y.items[i]))
      {
        assert PyForm(x).items[i] == PyForm(items[i]) && PyForm(y).items[i] == PyForm(y.items[i]);
        PlainKeepsPyEq(items[i], y.items[i]);
      }
    case Obj(members) =>
      assert y.Obj? && PyForm(x).members.Keys == members.Keys == y.members.Keys;
      forall k | k in members
        ensures PyEq(Plain(members[k]), Plain(y.members[k]))
      {
        assert PyForm(x).members[k] == PyForm(members[k]) && PyForm(y).members[k] == PyForm(y.members[k]);
        PlainKeepsPyEq(members[k], y.members[k]);
      }
    case _ =>
  }

  lemma PlainListed(values: seq<Json>)
    ensures PlainEnum(EnumList(values)) == EnumList(Plain(Arr(values)).items)
  {
    assert PlainEnum(EnumList(values)).values == Plain(Arr(values)).items;
  }

  lemma PlainKeepsEnums(e: Enum, f: Enum)
    requires SameEnum(e, f)
    ensures SameEnum(PlainEnum(e), PlainEnum(f))
  {
    match e
    case NoEnum =>
    case EnumList(values) =>
      PlainListed(values);
      PlainListed(f.values);
      PlainKeepsPyEq(Arr(values), Arr(f.values));
    case NotAnEnumList(value) => PlainKeepsPyEq(value, f.value);
  }

  lemma PlainKeepsVariants(v: Variants, w: Variants)
    requires SameVariants(v, w)
    ensures SameVariants(PlainVariants(v), PlainVariants(w))
  {
    if v.NotAVariantList? {
      PlainKeepsPyEq(v.value, w.value);
    }
  }

  /** Two lists of properties have the same names in the same places, over related schemas. */
  ghost predicate PairedMembers(rel: Pairing, p: seq<Member>, q: seq<Member>) {
    |p| == |q| && forall i :: 0 <= i < |p| ==> p[i].name == q[i].name && rel(p[i].id, q[i].id)
  }

  lemma PairedIds(rel: Pairing, p: seq<Member>, q: seq<Member>)
    requires |p| == |q| && forall i :: 0 <= i < |p| ==> p[i].name == q[i].name
    ensures PairedMembers(rel, p, q) <==> Pairwise(rel, MemberIds(p), MemberIds(q))
  {
    forall i | 0 <= i < |p|
      ensures rel(p[i].id, q[i].id) <==> rel(MemberIds(p)[i], MemberIds(q)[i])
    {
    }
  }

  /** They still do when the properties named like documentation are gone. */
  lemma {:induction false} SaidArePaired(rel: Pairing, p: seq<Member>, q: seq<Member>)
    requires PairedMembers(rel, p, q)
    ensures PairedMembers(rel, Said(p), Said(q))
  {
    if p != [] {
      assert PairedMembers(rel, p[1..], q[1..]);
      SaidArePaired(rel, p[1..], q[1..]);
    }
  }

  lemma SaidPairs(rel: Pairing, p: seq<Member>, q: seq<Member>)
    requires |p| == |q| && forall i :: 0 <= i < |p| ==> p[i].name == q[i].name
    requires Pairwise(rel, MemberIds(p), MemberIds(q))
    ensures |Said(p)| == |Said(q)| && forall i :: 0 <= i < |Said(p)| ==> Said(p)[i].name == Said(q)[i].name
    ensures Pairwise(rel, MemberIds(Said(p)), MemberIds(Said(q)))
  {
    PairedIds(rel, p, q);
    SaidArePaired(rel, p, q);
    PairedIds(rel, Said(p), Said(q));
  }

  lemma PlainKeepsShells(rel: Pairing, o: Node, n: Node)
    requires o.Schema? && n.Schema? && SameShell(o, n)
    requires Pairwise(rel, MemberIds(PropertyMembers(o.properties)), MemberIds(PropertyMembers(n.properties)))
    ensures SameShell(Semantic(o), Semantic(n))
    ensures Pairwise(rel, MemberIds(Said(PropertyMembers(o.properties))), MemberIds(Said(PropertyMembers(n.properties))))
  {
    SaidPairs(rel, PropertyMembers(o.properties), PropertyMembers(n.properties));
    PlainKeepsVariants(o.oneOf, n.oneOf);
    PlainKeepsVariants(o.anyOf, n.anyOf);
    PlainKeepsVariants(o.allOf, n.allOf);
    PlainKeepsEnums(o.enum, n.enum);
    if o.properties.NotAPropertyMap? {
      PlainKeepsPyEq(o.properties.value, n.properties.value);
    }
    PlainKeepsKeywords(o.keywords, n.keywords);
  }

  lemma PlainKeepsKeywords(k: map<Key, Json>, l: map<Key, Json>)
    requires SameKeywords(k, l)
    ensures SameKeywords(PlainKeywords(k), PlainKeywords(l))
  {
    forall key | key in k
      ensures PyEq(Plain(k[key]), Plain(l[key]))
    {
      PlainKeepsPyEq(k[key], l[key]);
    }
  }

  lemma SchemasAreNotToldApart(s: Scene, a: Id, b: Id)
    requires s.Valid() && s.Known(a, b) && s.base.nodes[a].Schema? && s.cand.nodes[b].Schema?
    requires SameShell(s.base.nodes[a], s.cand.nodes[b])
    requires Pairwise(SameIn(s), Kids(s.base.nodes[a]), Kids(s.cand.nodes[b]))
    ensures Same(s.base, a, s.cand, b)
  {
    var o, n := s.base.nodes[a], s.cand.nodes[b];
    PairwiseKids(SameIn(s), o, n);
    PlainKeepsShells(SameIn(s), o, n);
    SemanticParts(o);
    SemanticParts(n);
    PairwiseKids(SameIn(s), Semantic(o), Semantic(n));
    SameKids(s, a, b);
  }

  lemma {:induction false} EqualIsSame(s: Scene, a: Id, b: Id)
    requires s.Valid() && s.Known(a, b) && Equal(s.base, a, s.cand, b)
    ensures Same(s.base, a, s.cand, b)
    decreases s.base.size - a
  {
    var o, n := s.base.nodes[a], s.cand.nodes[b];
    var x, y := Kids(o), Kids(n);
    s.base.KidsAreKnown(a);
    AlikeKids(s, a, b);
    forall i | 0 <= i < |x|
      ensures SameIn(s)(x[i], y[i])
    {
      assert x[i] in x;
      EqualIsSame(s, x[i], y[i]);
    }
    if o.Schema? {
      SchemasAreNotToldApart(s, a, b);
    } else {
      PlainKeepsPyEq(o.value, n.value);
      SameKids(s, a, b);
    }
  }

  // ---- documents in which `_semantic` finds nothing to remove

  /** No property, and no member of a value, is named like a documentation keyword. */
  ghost predicate PlainDocument(g: Graph) {
    forall a {:trigger g.nodes[a]} :: a in g.nodes ==> Semantic(g.nodes[a]) == g.nodes[a]
  }

  /** A position that some combinator lists. */
  ghost predicate IsVariant(g: Graph, x: Id) {
    exists a, c, i {:trigger VariantIds(VariantsOf(g.nodes[a], c))[i]} ::
      && a in g.nodes && g.nodes[a].Schema?
      && 0 <= i < |VariantIds(VariantsOf(g.nodes[a], c))| && VariantIds(VariantsOf(g.nodes[a], c))[i] == x
  }

  /** Variants that are not told apart hold the same. */
  ghost predicate ToldApart(g: Graph, h: Graph)
    requires g.Valid() && h.Valid()
  {
    forall x, y {:trigger Same(g, x, h, y)} ::
      x in g.nodes && y in h.nodes && IsVariant(g, x) && IsVariant(h, y) && Same(g, x, h, y) ==> Equal(g, x, h, y)
  }

  lemma {:induction false} PlainIsEqual(s: Scene, a: Id, b: Id)
    requires s.Valid() && PlainDocument(s.base) && PlainDocument(s.cand)
    requires s.Known(a, b) && Same(s.base, a, s.cand, b)
    ensures Equal(s.base, a, s.cand, b)
    decreases s.base.size - a
  {
    var x, y := Kids(s.base.nodes[a]), Kids(s.cand.nodes[b]);
    s.base.KidsAreKnown(a);
    s.cand.KidsAreKnown(b);
    SameKids(s, a, b);
    forall i | 0 <= i < |x|
      ensures x[i] in x && y[i] in y && Equal(s.base, x[i], s.cand, y[i])
    {
      assert x[i] in x && SameIn(s)(x[i], y[i]);
      PlainIsEqual(s, x[i], y[i]);
    }
  }

  lemma PlainIsToldApart(s: Scene)
    requires s.Valid() && PlainDocument(s.base) && PlainDocument(s.cand)
    ensures ToldApart(s.base, s.cand)
  {
    forall x, y | s.Known(x, y) && Same(s.base, x, s.cand, y)
      ensures Equal(s.base, x, s.cand, y)
    {
      PlainIsEqual(s, x, y);
    }
  }
}
