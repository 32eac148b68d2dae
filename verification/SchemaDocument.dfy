module SchemaDocument {
  /** The comparison of positions is Python's comparison of documents.

      A position of the graph stands for a JSON document.  `_semantic` removes documentation from JSON values
      (`SchemaGraph.Plain`), and Python compares what is left (`Json.PyEq`).  `Same`, which walks two graphs
      side by side, answers the same. */

  import opened Common
  import opened Json
  import opened Ordering
  import opened SchemaGraph
  import opened SchemaTraversal
  import opened SchemaWalk
  import opened SchemaAlike

  // ---- the document at a position

  /** What a schema object may say; `Word` stands for the keywords that hold plain values. */
  datatype Slot =
    | RefSlot | VariantsSlot(c: Combinator) | EnumSlot | PropertiesSlot | RequiredSlot | AdditionalSlot
    | ItemsSlot | Word(key: Key)

  /** How slots are written; different ones differently, and none like a documentation keyword. */
  datatype Script = Script(spelling: Slot -> string, words: set<Key>) {
    predicate Covers(slot: Slot) {
      slot.Word? ==> slot.key in words
    }

    ghost predicate Valid() {
      && (forall x, y :: Covers(x) && Covers(y) && spelling(x) == spelling(y) ==> x == y)
      && (forall x :: Covers(x) ==> spelling(x) !in DOCUMENTATION)
    }
  }

  const OTHER_SLOTS: set<Slot> := {
    RefSlot, VariantsSlot(OneOf), VariantsSlot(AnyOf), VariantsSlot(AllOf), EnumSlot, PropertiesSlot, RequiredSlot,
    AdditionalSlot, ItemsSlot}

  predicate Says(n: Node, slot: Slot)
    requires n.Schema?
  {
    match slot
    case RefSlot => n.ref.Some?
    case VariantsSlot(c) => !VariantsOf(n, c).NoVariants?
    case EnumSlot => !n.enum.NoEnum?
    case PropertiesSlot => !n.properties.NoProperties?
    case RequiredSlot => n.required != []
    case AdditionalSlot => !n.additional.Unstated?
    case ItemsSlot => n.items.Some?
    case Word(key) => key in n.keywords
  }

  function Slots(n: Node): (slots: set<Slot>)
    requires n.Schema?
    ensures forall slot :: slot in slots <==> Says(n, slot)
  {
    var words := set key | key in n.keywords :: Word(key);
    assert forall slot: Slot :: Says(n, slot) ==> slot in OTHER_SLOTS + words;
    set slot | slot in OTHER_SLOTS + words && Says(n, slot)
  }

  /** What is kept apart by kind has that kind: a schema position that is no object, a list that is none. */
  ghost predicate Faithful(g: Graph, n: Node, script: Script) {
    match n
    case Scalar(value) => !value.Obj?
    case Schema(_, x, y, z, enum, properties, _, additional, _, keywords) =>
      && VariantsFaithful(x) && VariantsFaithful(y) && VariantsFaithful(z)
      && (enum.NotAnEnumList? ==> !enum.value.Arr?)
      && (properties.NotAPropertyMap? ==> !properties.value.Obj?)
      && SortedNames(PropertyMembers(properties))
      && (additional.Typed? ==> additional.id in g.nodes && g.nodes[additional.id].Schema?)
      && keywords.Keys <= script.words
  }

  predicate VariantsFaithful(v: Variants) {
    v.NotAVariantList? ==> !v.value.Arr?
  }

  ghost predicate SortedNames(members: seq<Member>) {
    forall i, j :: 0 <= i < j < |members| ==> members[i].name != members[j].name && Precedes(members[i].name, members[j].name)
  }

  ghost predicate Writable(g: Graph, script: Script) {
    g.Valid() && script.Valid() && forall a {:trigger g.nodes[a]} :: a in g.nodes ==> Faithful(g, g.nodes[a], script)
  }

  lemma SlotsAreCovered(g: Graph, a: Id, script: Script)
    requires Writable(g, script) && a in g.nodes && g.nodes[a].Schema?
    ensures forall slot :: Says(g.nodes[a], slot) ==> script.Covers(slot)
  {
    assert Faithful(g, g.nodes[a], script);
  }

  /** An object with a member for each slot. */
  ghost function Spelled(spelling: Slot -> string, slots: set<Slot>, part: Slot -> Json): (r: map<string, Json>)
    requires forall x, y :: x in slots && y in slots && spelling(x) == spelling(y) ==> x == y
    ensures forall x :: x in slots ==> spelling(x) in r && r[spelling(x)] == part(x)
    ensures forall k :: k in r ==> exists x :: x in slots && k == spelling(x)
  {
    map x | x in slots :: spelling(x) := part(x)
  }

  /** The JSON document at a position, without the keywords that only document a schema. */
  ghost function Document(g: Graph, script: Script, a: Id): Json
    requires Writable(g, script) && a in g.nodes
    decreases g.size - a, 2
  {
    var n := g.nodes[a];
    if n.Scalar? then n.value
    else
      SlotsAreCovered(g, a, script);
      Obj(Spelled(script.spelling, Slots(n), (slot: Slot) => if Says(n, slot) then Part(g, script, a, slot) else Null))
  }

  ghost function Part(g: Graph, script: Script, a: Id, slot: Slot): Json
    requires Writable(g, script) && a in g.nodes && g.nodes[a].Schema? && Says(g.nodes[a], slot)
    decreases g.size - a, 1
  {
    var n := g.nodes[a];
    PartsAreKnown(g, a);
    match slot
    case RefSlot => Str(n.ref.value)
    case VariantsSlot(c) =>
      var v := VariantsOf(n, c);
      VariantsText(v, Documents(g, script, a, VariantIds(v)))
    case EnumSlot => EnumText(n.enum)
    case PropertiesSlot =>
      if n.properties.PropertyMap? then Obj(Members(g, script, a, PropertyMembers(n.properties))) else n.properties.value
    case RequiredSlot => Arr(Strings(n.required))
    case AdditionalSlot =>
      AdditionalText(n.additional, if n.additional.Typed? then Document(g, script, n.additional.id) else Null)
    case ItemsSlot => Document(g, script, n.items.value)
    case Word(key) => n.keywords[key]
  }

  ghost function Documents(g: Graph, script: Script, a: Id, ids: seq<Id>): (r: seq<Json>)
    requires Writable(g, script) && forall i {:trigger ids[i]} :: 0 <= i < |ids| ==> a < ids[i] < g.size && ids[i] in g.nodes
    ensures |r| == |ids| && forall i :: 0 <= i < |ids| ==> r[i] == Document(g, script, ids[i])
    decreases g.size - a, 0
  {
    seq(|ids|, i requires 0 <= i < |ids| => Document(g, script, ids[i]))
  }

  ghost function Members(g: Graph, script: Script, a: Id, members: seq<Member>): (r: map<string, Json>)
    requires Writable(g, script) && DistinctNames(members)
    requires forall i {:trigger members[i]} :: 0 <= i < |members| ==> a < members[i].id < g.size && members[i].id in g.nodes
    ensures forall i :: 0 <= i < |members| ==> members[i].name in r && r[members[i].name] == Document(g, script, members[i].id)
    ensures forall name :: name in r ==> exists i :: 0 <= i < |members| && members[i].name == name
    decreases g.size - a, 0
  {
    map i | 0 <= i < |members| :: members[i].name := Document(g, script, members[i].id)
  }

  function Strings(texts: seq<string>): seq<Json> {
    seq(|texts|, i requires 0 <= i < |texts| => Str(texts[i]))
  }

  lemma PartsAreKnown(g: Graph, a: Id)
    requires g.Valid() && a in g.nodes && g.nodes[a].Schema?
    ensures var n := g.nodes[a];
      && (forall c: Combinator, i :: 0 <= i < |VariantIds(VariantsOf(n, c))| ==>
            a < VariantIds(VariantsOf(n, c))[i] < g.size && VariantIds(VariantsOf(n, c))[i] in g.nodes)
      && (forall i :: 0 <= i < |PropertyMembers(n.properties)| ==>
            a < PropertyMembers(n.properties)[i].id < g.size && PropertyMembers(n.properties)[i].id in g.nodes)
      && DistinctNames(PropertyMembers(n.properties))
      && (n.additional.Typed? ==> (a < n.additional.id < g.size && n.additional.id in g.nodes))
      && (n.items.Some? ==> (a < n.items.value < g.size && n.items.value in g.nodes))
  {
    g.KidsAreKnown(a);
    KidsByPart(g.nodes[a]);
    assert g.NodeValid(a);
  }

  lemma KidsByPart(n: Node)
    requires n.Schema?
    ensures forall c: Combinator, i :: 0 <= i < |VariantIds(VariantsOf(n, c))| ==> VariantIds(VariantsOf(n, c))[i] in Kids(n)
    ensures forall i :: 0 <= i < |PropertyMembers(n.properties)| ==> PropertyMembers(n.properties)[i].id in Kids(n)
    ensures n.additional.Typed? ==> n.additional.id in Kids(n)
    ensures n.items.Some? ==> n.items.value in Kids(n)
  {
    forall c: Combinator, i | 0 <= i < |VariantIds(VariantsOf(n, c))|
      ensures VariantIds(VariantsOf(n, c))[i] in Kids(n)
    {
      KidIff(n, VariantIds(VariantsOf(n, c))[i]);
    }
    forall i | 0 <= i < |PropertyMembers(n.properties)|
      ensures PropertyMembers(n.properties)[i].id in Kids(n)
    {
      assert MemberIds(PropertyMembers(n.properties))[i] in MemberIds(PropertyMembers(n.properties));
      KidIff(n, PropertyMembers(n.properties)[i].id);
    }
    if n.additional.Typed? {
      KidIff(n, n.additional.id);
    }
    if n.items.Some? {
      KidIff(n, n.items.value);
    }
  }

  /** `_semantic` removes the members that document an object, at every depth, and nothing else. */
  lemma PlainIs(members: map<string, Json>, k: string)
    ensures k in Plain(Obj(members)).members <==>
      k in members && k != "title" && k != "description" && k != "examples" && k != "deprecated"
    ensures k in Plain(Obj(members)).members ==> Plain(Obj(members)).members[k] == Plain(members[k])
  {
  }

  // ---- Python's comparison of objects, part by part

  /** `_semantic` leaves equal values. */
  ghost predicate Agree(x: Json, y: Json) {
    PyEq(Plain(x), Plain(y))
  }

  /** Both objects have equal members of this name, or none. */
  ghost predicate KeyAgrees(m: map<string, Json>, n: map<string, Json>, k: string) {
    (k in m <==> k in n) && (k in m ==> Agree(m[k], n[k]))
  }

  lemma ObjectsAgree(m: map<string, Json>, n: map<string, Json>)
    ensures Agree(Obj(m), Obj(n)) <==> forall k :: k !in DOCUMENTATION ==> KeyAgrees(m, n, k)
  {
    var x, y := Plain(Obj(m)).members, Plain(Obj(n)).members;
    var p, q := PyForm(Obj(x)).members, PyForm(Obj(y)).members;
    assert forall k :: k in p <==> k in m && k !in DOCUMENTATION;
    assert forall k :: k in q <==> k in n && k !in DOCUMENTATION;
    assert forall k :: k in p ==> p[k] == PyForm(Plain(m[k]));
    assert forall k :: k in q ==> q[k] == PyForm(Plain(n[k]));
    if Agree(Obj(m), Obj(n)) {
      forall k | k !in DOCUMENTATION
        ensures KeyAgrees(m, n, k)
      {
        assert k in p <==> k in q;
      }
    }
    if forall k :: k !in DOCUMENTATION ==> KeyAgrees(m, n, k) {
      forall k | k !in DOCUMENTATION
        ensures (k in p <==> k in q) && (k in p ==> p[k] == q[k])
      {
        assert KeyAgrees(m, n, k);
      }
      assert p == q;
    }
  }

  lemma ListsAgree(xs: seq<Json>, ys: seq<Json>)
    ensures Agree(Arr(xs), Arr(ys)) <==> |xs| == |ys| && forall i :: 0 <= i < |xs| ==> Agree(xs[i], ys[i])
  {
    var p, q := PyForm(Plain(Arr(xs))).items, PyForm(Plain(Arr(ys))).items;
    assert |p| == |xs| && forall i :: 0 <= i < |p| ==> p[i] == PyForm(Plain(xs[i]));
    assert |q| == |ys| && forall i :: 0 <= i < |q| ==> q[i] == PyForm(Plain(ys[i]));
    if |xs| == |ys| && forall i :: 0 <= i < |xs| ==> Agree(xs[i], ys[i]) {
      assert p == q;
    }
  }

  /** Both documents say the same in this slot, or both nothing. */
  ghost predicate SlotAgrees(s: Scene, script: Script, a: Id, b: Id, slot: Slot)
    requires Written(s, script, a, b)
  {
    && (Says(s.base.nodes[a], slot) <==> Says(s.cand.nodes[b], slot))
    && (Says(s.base.nodes[a], slot) ==> Agree(Part(s.base, script, a, slot), Part(s.cand, script, b, slot)))
  }

  /** Two schemas whose documents can be written. */
  ghost predicate Written(s: Scene, script: Script, a: Id, b: Id) {
    && Writable(s.base, script) && Writable(s.cand, script)
    && s.Known(a, b) && s.base.nodes[a].Schema? && s.cand.nodes[b].Schema?
  }

  lemma DocumentMembers(g: Graph, script: Script, a: Id, slot: Slot)
    requires Writable(g, script) && a in g.nodes && g.nodes[a].Schema? && script.Covers(slot)
    ensures Document(g, script, a).Obj?
    ensures Says(g.nodes[a], slot) <==> script.spelling(slot) in Document(g, script, a).members
    ensures Says(g.nodes[a], slot) ==> Document(g, script, a).members[script.spelling(slot)] == Part(g, script, a, slot)
  {
    SlotsAreCovered(g, a, script);
  }

  lemma DocumentSlots(g: Graph, script: Script, a: Id, k: string)
    requires Writable(g, script) && a in g.nodes && g.nodes[a].Schema?
    ensures Document(g, script, a).Obj?
    ensures k in Document(g, script, a).members ==> exists slot :: script.Covers(slot) && k == script.spelling(slot)
  {
    SlotsAreCovered(g, a, script);
  }

  /** Every slot, one after the other. */
  ghost predicate AllSlotsAgree(s: Scene, script: Script, a: Id, b: Id)
    requires Written(s, script, a, b)
  {
    forall slot :: script.Covers(slot) ==> SlotAgrees(s, script, a, b, slot)
  }

  lemma SlotAgreesByKey(s: Scene, script: Script, a: Id, b: Id, slot: Slot)
    requires Written(s, script, a, b) && script.Covers(slot)
    ensures Document(s.base, script, a).Obj? && Document(s.cand, script, b).Obj?
    ensures SlotAgrees(s, script, a, b, slot) <==>
      KeyAgrees(Document(s.base, script, a).members, Document(s.cand, script, b).members, script.spelling(slot))
  {
    DocumentMembers(s.base, script, a, slot);
    DocumentMembers(s.cand, script, b, slot);
  }

  lemma OtherKeysAgree(s: Scene, script: Script, a: Id, b: Id, k: string)
    requires Written(s, script, a, b) && forall slot :: script.Covers(slot) ==> script.spelling(slot) != k
    ensures Document(s.base, script, a).Obj? && Document(s.cand, script, b).Obj?
    ensures KeyAgrees(Document(s.base, script, a).members, Document(s.cand, script, b).members, k)
  {
    DocumentSlots(s.base, script, a, k);
    DocumentSlots(s.cand, script, b, k);
  }

  /** Documents are compared slot by slot. */
  lemma DocumentsAgreeBySlot(s: Scene, script: Script, a: Id, b: Id)
    requires Written(s, script, a, b)
    ensures Agree(Document(s.base, script, a), Document(s.cand, script, b)) <==> AllSlotsAgree(s, script, a, b)
  {
    SlotAgreesByKey(s, script, a, b, RefSlot);
    var m, n := Document(s.base, script, a).members, Document(s.cand, script, b).members;
    ObjectsAgree(m, n);
    if forall k :: k !in DOCUMENTATION ==> KeyAgrees(m, n, k) {
      forall slot | script.Covers(slot)
        ensures SlotAgrees(s, script, a, b, slot)
      {
        SlotAgreesByKey(s, script, a, b, slot);
      }
    }
    if AllSlotsAgree(s, script, a, b) {
      forall k | k !in DOCUMENTATION
        ensures KeyAgrees(m, n, k)
      {
        if slot :| script.Covers(slot) && script.spelling(slot) == k {
          SlotAgreesByKey(s, script, a, b, slot);
        } else {
          OtherKeysAgree(s, script, a, b, k);
        }
      }
    }
  }

  // ---- values in their slots

  lemma AgreeKinds(x: Json, y: Json)
    requires Agree(x, y)
    ensures x.Arr? == y.Arr? && x.Obj? == y.Obj?
  {
  }

  ghost predicate AllAgree(xs: seq<Json>, ys: seq<Json>) {
    |xs| == |ys| && forall i :: 0 <= i < |xs| ==> Agree(xs[i], ys[i])
  }

  function VariantsText(v: Variants, documents: seq<Json>): Json
    requires !v.NoVariants?
  {
    if v.VariantList? then Arr(documents) else v.value
  }

  lemma VariantTextsAgree(v: Variants, xs: seq<Json>, w: Variants, ys: seq<Json>)
    requires !v.NoVariants? && VariantsFaithful(v) && |xs| == |VariantIds(v)|
    requires !w.NoVariants? && VariantsFaithful(w) && |ys| == |VariantIds(w)|
    ensures Agree(VariantsText(v, xs), VariantsText(w, ys)) <==> SameVariants(PlainVariants(v), PlainVariants(w)) && AllAgree(xs, ys)
  {
    var x, y := VariantsText(v, xs), VariantsText(w, ys);
    ListsAgree(xs, ys);
    if Agree(x, y) {
      AgreeKinds(x, y);
    }
  }

  function EnumText(e: Enum): Json
    requires !e.NoEnum?
  {
    if e.EnumList? then Arr(e.values) else e.value
  }

  lemma EnumTextsAgree(e: Enum, f: Enum)
    requires !e.NoEnum? && !f.NoEnum? && (e.NotAnEnumList? ==> !e.value.Arr?) && (f.NotAnEnumList? ==> !f.value.Arr?)
    ensures Agree(EnumText(e), EnumText(f)) <==> SameEnum(PlainEnum(e), PlainEnum(f))
  {
    if e.EnumList? {
      PlainListed(e.values);
    }
    if f.EnumList? {
      PlainListed(f.values);
    }
    if Agree(EnumText(e), EnumText(f)) {
      AgreeKinds(EnumText(e), EnumText(f));
    }
  }

  lemma StringsAgree(p: seq<string>, q: seq<string>)
    ensures Agree(Arr(Strings(p)), Arr(Strings(q))) <==> p == q
  {
    ListsAgree(Strings(p), Strings(q));
    if Agree(Arr(Strings(p)), Arr(Strings(q))) {
      forall i | 0 <= i < |p|
        ensures p[i] == q[i]
      {
        assert Agree(Strings(p)[i], Strings(q)[i]);
      }
    }
  }

  lemma FlagsAgree(x: bool, y: bool)
    ensures Agree(Bool(x), Bool(y)) <==> x == y
  {
  }

  // ---- properties

  /** Two ordered lists with the same names have them in the same places. */
  lemma {:induction false} OrderedNamesAgree(p: seq<Member>, q: seq<Member>)
    requires SortedNames(p) && SortedNames(q)
    requires forall name :: HasName(p, name) <==> HasName(q, name)
    ensures |p| == |q| && forall i :: 0 <= i < |p| ==> p[i].name == q[i].name
  {
    if p == [] || q == [] {
      assert p != [] ==> HasName(p, p[0].name);
      assert q != [] ==> HasName(q, q[0].name);
    } else {
      FirstNamesAgree(p, q);
      forall name
        ensures HasName(p[1..], name) <==> HasName(q[1..], name)
      {
        LaterNames(p, name);
        LaterNames(q, name);
      }
      OrderedNamesAgree(p[1..], q[1..]);
    }
  }

  ghost predicate HasName(p: seq<Member>, name: string) {
    exists i :: 0 <= i < |p| && p[i].name == name
  }

  lemma FirstNamesAgree(p: seq<Member>, q: seq<Member>)
    requires p != [] && q != [] && SortedNames(p) && SortedNames(q)
    requires forall name :: HasName(p, name) <==> HasName(q, name)
    ensures p[0].name == q[0].name
  {
    var x, y := p[0].name, q[0].name;
    assert HasName(p, x) && HasName(q, y);
    assert HasName(q, x) && HasName(p, y);
    var i :| 0 <= i < |q| && q[i].name == x;
    var j :| 0 <= j < |p| && p[j].name == y;
    PrecedesIsTotal(x, y);
  }

  lemma LaterNames(p: seq<Member>, name: string)
    requires p != [] && SortedNames(p)
    ensures HasName(p[1..], name) <==> HasName(p, name) && name != p[0].name
  {
    if HasName(p, name) && name != p[0].name {
      var i :| 0 <= i < |p| && p[i].name == name;
      assert p[1..][i - 1].name == name;
    }
    if HasName(p[1..], name) {
      var i :| 0 <= i < |p[1..]| && p[1..][i].name == name;
      assert p[i + 1].name == name;
    }
  }

  lemma {:induction false} SaidIsSorted(p: seq<Member>)
    requires SortedNames(p)
    ensures SortedNames(Said(p))
  {
    if p != [] {
      SaidIsSorted(p[1..]);
      var rest := Said(p[1..]);
      forall j | 0 <= j < |rest|
        ensures p[0].name != rest[j].name && Precedes(p[0].name, rest[j].name)
      {
        assert rest[j] in p[1..];
        var i :| 0 <= i < |p[1..]| && p[1..][i] == rest[j];
        assert p[i + 1] == rest[j];
      }
    }
  }

  lemma SaidNames(p: seq<Member>, name: string)
    ensures HasName(Said(p), name) <==> HasName(p, name) && name !in DOCUMENTATION
  {
    if HasName(p, name) && name !in DOCUMENTATION {
      var i :| 0 <= i < |p| && p[i].name == name;
      assert p[i] in Said(p);
      var j :| 0 <= j < |Said(p)| && Said(p)[j] == p[i];
    }
    if HasName(Said(p), name) {
      var j :| 0 <= j < |Said(p)| && Said(p)[j].name == name;
      assert Said(p)[j] in p;
      var i :| 0 <= i < |p| && p[i] == Said(p)[j];
    }
  }

  /** The object holds what the members say. */
  ghost predicate Holds(m: map<string, Json>, p: seq<Member>) {
    forall name :: name in m <==> HasName(p, name)
  }

  /** Schemas of the same name are related when their values agree. */
  ghost predicate Relates(rel: Pairing, m: map<string, Json>, p: seq<Member>, n: map<string, Json>, q: seq<Member>)
    requires Holds(m, p) && Holds(n, q)
  {
    forall x, y {:trigger rel(x.id, y.id)} :: x in p && y in q && x.name == y.name ==>
      HasName(p, x.name) && HasName(q, y.name) && (rel(x.id, y.id) <==> Agree(m[x.name], n[y.name]))
  }

  ghost predicate SamePlaces(rel: Pairing, p: seq<Member>, q: seq<Member>) {
    |p| == |q| && forall i :: 0 <= i < |p| ==> p[i].name == q[i].name && rel(p[i].id, q[i].id)
  }

  lemma AgreeingMembers(rel: Pairing, m: map<string, Json>, p: seq<Member>, n: map<string, Json>, q: seq<Member>)
    requires Holds(m, p) && Holds(n, q) && Relates(rel, m, p, n, q) && SortedNames(p) && SortedNames(q)
    requires Agree(Obj(m), Obj(n))
    ensures SamePlaces(rel, Said(p), Said(q))
  {
    ObjectsAgree(m, n);
    SaidIsSorted(p);
    SaidIsSorted(q);
    forall name
      ensures HasName(Said(p), name) <==> HasName(Said(q), name)
    {
      SaidNames(p, name);
      SaidNames(q, name);
      assert name !in DOCUMENTATION ==> KeyAgrees(m, n, name);
    }
    OrderedNamesAgree(Said(p), Said(q));
    forall i | 0 <= i < |Said(p)|
      ensures rel(Said(p)[i].id, Said(q)[i].id)
    {
      var x, y := Said(p)[i], Said(q)[i];
      assert x in p && y in q && x.name !in DOCUMENTATION;
      NamedIn(p, x);
      assert KeyAgrees(m, n, x.name);
    }
  }

  lemma NamedIn(p: seq<Member>, x: Member)
    requires x in p
    ensures HasName(p, x.name)
  {
    var i :| 0 <= i < |p| && p[i] == x;
  }

  lemma PlacedNames(rel: Pairing, p: seq<Member>, q: seq<Member>, name: string)
    requires SamePlaces(rel, p, q)
    ensures HasName(p, name) <==> HasName(q, name)
  {
    if HasName(p, name) {
      var i :| 0 <= i < |p| && p[i].name == name;
      assert q[i].name == name;
    }
    if HasName(q, name) {
      var i :| 0 <= i < |q| && q[i].name == name;
      assert p[i].name == name;
    }
  }

  lemma PlacedMembers(rel: Pairing, m: map<string, Json>, p: seq<Member>, n: map<string, Json>, q: seq<Member>)
    requires Holds(m, p) && Holds(n, q) && Relates(rel, m, p, n, q)
    requires SamePlaces(rel, Said(p), Said(q))
    ensures Agree(Obj(m), Obj(n))
  {
    ObjectsAgree(m, n);
    forall name | name !in DOCUMENTATION
      ensures KeyAgrees(m, n, name)
    {
      SaidNames(p, name);
      SaidNames(q, name);
      PlacedNames(rel, Said(p), Said(q), name);
      if HasName(Said(p), name) {
        var i :| 0 <= i < |Said(p)| && Said(p)[i].name == name;
        assert Said(p)[i] in p && Said(q)[i] in q && rel(Said(p)[i].id, Said(q)[i].id);
      }
    }
  }

  lemma SamePlacesIff(rel: Pairing, p: seq<Member>, q: seq<Member>)
    ensures SamePlaces(rel, p, q) <==> SameNames(PropertyMap(p), PropertyMap(q)) && Pairwise(rel, MemberIds(p), MemberIds(q))
  {
    if |p| == |q| {
      forall i | 0 <= i < |p|
        ensures rel(p[i].id, q[i].id) <==> rel(MemberIds(p)[i], MemberIds(q)[i])
      {
      }
    }
  }

  // ---- slot by slot

  ghost function DocIn(s: Scene, script: Script): Pairing {
    (c: Id, d: Id) =>
      && s.Known(c, d) && Writable(s.base, script) && Writable(s.cand, script)
      && Agree(Document(s.base, script, c), Document(s.cand, script, d))
  }

  lemma RefAgrees(s: Scene, script: Script, a: Id, b: Id)
    requires Written(s, script, a, b)
    ensures SlotAgrees(s, script, a, b, RefSlot) <==> s.base.nodes[a].ref == s.cand.nodes[b].ref
  {
  }

  lemma DocumentListsAgree(s: Scene, script: Script, a: Id, b: Id, xs: seq<Id>, ys: seq<Id>)
    requires Writable(s.base, script) && Writable(s.cand, script)
    requires forall i {:trigger xs[i]} :: 0 <= i < |xs| ==> a < xs[i] < s.base.size && xs[i] in s.base.nodes
    requires forall i {:trigger ys[i]} :: 0 <= i < |ys| ==> b < ys[i] < s.cand.size && ys[i] in s.cand.nodes
    ensures AllAgree(Documents(s.base, script, a, xs), Documents(s.cand, script, b, ys)) <==> Pairwise(DocIn(s, script), xs, ys)
  {
    var p, q := Documents(s.base, script, a, xs), Documents(s.cand, script, b, ys);
    if |xs| == |ys| {
      forall i | 0 <= i < |xs|
        ensures DocIn(s, script)(xs[i], ys[i]) <==> Agree(p[i], q[i])
      {
      }
    }
  }

  lemma VariantsAgree(s: Scene, script: Script, a: Id, b: Id, c: Combinator)
    requires Written(s, script, a, b)
    ensures SlotAgrees(s, script, a, b, VariantsSlot(c)) <==> CombinatorAgrees(DocIn(s, script), s.base.nodes[a], s.cand.nodes[b], c)
  {
    var v, w := VariantsOf(s.base.nodes[a], c), VariantsOf(s.cand.nodes[b], c);
    assert Faithful(s.base, s.base.nodes[a], script) && Faithful(s.cand, s.cand.nodes[b], script);
    PartsAreKnown(s.base, a);
    PartsAreKnown(s.cand, b);
    var xs, ys := Documents(s.base, script, a, VariantIds(v)), Documents(s.cand, script, b, VariantIds(w));
    DocumentListsAgree(s, script, a, b, VariantIds(v), VariantIds(w));
    if !v.NoVariants? && !w.NoVariants? {
      VariantTextsAgree(v, xs, w, ys);
      assert Part(s.base, script, a, VariantsSlot(c)) == VariantsText(v, xs);
      assert Part(s.cand, script, b, VariantsSlot(c)) == VariantsText(w, ys);
    }
  }

  lemma EnumAgrees(s: Scene, script: Script, a: Id, b: Id)
    requires Written(s, script, a, b)
    ensures SlotAgrees(s, script, a, b, EnumSlot) <==> SameEnum(PlainEnum(s.base.nodes[a].enum), PlainEnum(s.cand.nodes[b].enum))
  {
    var e, f := s.base.nodes[a].enum, s.cand.nodes[b].enum;
    assert Faithful(s.base, s.base.nodes[a], script) && Faithful(s.cand, s.cand.nodes[b], script);
    if !e.NoEnum? && !f.NoEnum? {
      EnumTextsAgree(e, f);
      assert Part(s.base, script, a, EnumSlot) == EnumText(e) && Part(s.cand, script, b, EnumSlot) == EnumText(f);
    }
  }

  lemma RequiredAgrees(s: Scene, script: Script, a: Id, b: Id)
    requires Written(s, script, a, b)
    ensures SlotAgrees(s, script, a, b, RequiredSlot) <==> s.base.nodes[a].required == s.cand.nodes[b].required
  {
    StringsAgree(s.base.nodes[a].required, s.cand.nodes[b].required);
  }

  lemma PropertyPart(g: Graph, script: Script, a: Id)
    requires Writable(g, script) && a in g.nodes && g.nodes[a].Schema? && g.nodes[a].properties.PropertyMap?
    ensures var p := g.nodes[a].properties.members;
      && DistinctNames(p)
      && (forall i {:trigger p[i]} :: 0 <= i < |p| ==> a < p[i].id < g.size && p[i].id in g.nodes)
      && Holds(Members(g, script, a, p), p)
      && Part(g, script, a, PropertiesSlot) == Obj(Members(g, script, a, p))
  {
    PartsAreKnown(g, a);
    assert g.nodes[a].properties.members == PropertyMembers(g.nodes[a].properties);
  }

  lemma PropertyMapsAgree(s: Scene, script: Script, a: Id, b: Id)
    requires Written(s, script, a, b) && s.base.nodes[a].properties.PropertyMap? && s.cand.nodes[b].properties.PropertyMap?
    ensures Agree(Part(s.base, script, a, PropertiesSlot), Part(s.cand, script, b, PropertiesSlot)) <==>
      SamePlaces(DocIn(s, script), Said(s.base.nodes[a].properties.members), Said(s.cand.nodes[b].properties.members))
  {
    var p, q := s.base.nodes[a].properties.members, s.cand.nodes[b].properties.members;
    assert Faithful(s.base, s.base.nodes[a], script) && Faithful(s.cand, s.cand.nodes[b], script);
    PropertyPart(s.base, script, a);
    PropertyPart(s.cand, script, b);
    var m, n := Members(s.base, script, a, p), Members(s.cand, script, b, q);
    MembersRelate(s, script, a, b, p, q);
    if Agree(Obj(m), Obj(n)) {
      AgreeingMembers(DocIn(s, script), m, p, n, q);
    }
    if SamePlaces(DocIn(s, script), Said(p), Said(q)) {
      PlacedMembers(DocIn(s, script), m, p, n, q);
    }
  }

  lemma MembersRelate(s: Scene, script: Script, a: Id, b: Id, p: seq<Member>, q: seq<Member>)
    requires Writable(s.base, script) && Writable(s.cand, script) && DistinctNames(p) && DistinctNames(q)
    requires forall i {:trigger p[i]} :: 0 <= i < |p| ==> a < p[i].id < s.base.size && p[i].id in s.base.nodes
    requires forall i {:trigger q[i]} :: 0 <= i < |q| ==> b < q[i].id < s.cand.size && q[i].id in s.cand.nodes
    requires Holds(Members(s.base, script, a, p), p) && Holds(Members(s.cand, script, b, q), q)
    ensures Relates(DocIn(s, script), Members(s.base, script, a, p), p, Members(s.cand, script, b, q), q)
  {
    var m, n := Members(s.base, script, a, p), Members(s.cand, script, b, q);
    forall x, y | x in p && y in q && x.name == y.name
      ensures HasName(p, x.name) && HasName(q, y.name) && (DocIn(s, script)(x.id, y.id) <==> Agree(m[x.name], n[y.name]))
    {
      MemberRelates(s, script, a, b, p, q, x, y);
    }
  }

  lemma MemberRelates(s: Scene, script: Script, a: Id, b: Id, p: seq<Member>, q: seq<Member>, x: Member, y: Member)
    requires Writable(s.base, script) && Writable(s.cand, script) && DistinctNames(p) && DistinctNames(q) && x in p && y in q
    requires forall i {:trigger p[i]} :: 0 <= i < |p| ==> a < p[i].id < s.base.size && p[i].id in s.base.nodes
    requires forall i {:trigger q[i]} :: 0 <= i < |q| ==> b < q[i].id < s.cand.size && q[i].id in s.cand.nodes
    ensures HasName(p, x.name) && HasName(q, y.name)
    ensures x.name in Members(s.base, script, a, p) && y.name in Members(s.cand, script, b, q)
    ensures DocIn(s, script)(x.id, y.id) <==> Agree(Members(s.base, script, a, p)[x.name], Members(s.cand, script, b, q)[y.name])
  {
    NamedIn(p, x);
    NamedIn(q, y);
    MemberDocument(s.base, script, a, p, x);
    MemberDocument(s.cand, script, b, q, y);
  }

  lemma MemberDocument(g: Graph, script: Script, a: Id, p: seq<Member>, x: Member)
    requires Writable(g, script) && DistinctNames(p) && x in p
    requires forall i {:trigger p[i]} :: 0 <= i < |p| ==> a < p[i].id < g.size && p[i].id in g.nodes
    ensures x.id in g.nodes && x.name in Members(g, script, a, p)
    ensures Members(g, script, a, p)[x.name] == Document(g, script, x.id)
  {
    var i :| 0 <= i < |p| && p[i] == x;
  }

  lemma PropertiesAgree(s: Scene, script: Script, a: Id, b: Id)
    requires Written(s, script, a, b)
    ensures SlotAgrees(s, script, a, b, PropertiesSlot) <==>
      var x, y := PlainProperties(s.base.nodes[a].properties), PlainProperties(s.cand.nodes[b].properties);
      SameNames(x, y) && Pairwise(DocIn(s, script), MemberIds(PropertyMembers(x)), MemberIds(PropertyMembers(y)))
  {
    var x, y := s.base.nodes[a].properties, s.cand.nodes[b].properties;
    assert Faithful(s.base, s.base.nodes[a], script) && Faithful(s.cand, s.cand.nodes[b], script);
    if x.PropertyMap? && y.PropertyMap? {
      PropertyMapsAgree(s, script, a, b);
      SamePlacesIff(DocIn(s, script), Said(x.members), Said(y.members));
    } else if !x.NoProperties? && !y.NoProperties? {
      PropertyKindsAgree(s, script, a, b);
    }
  }

  lemma PropertyKindsAgree(s: Scene, script: Script, a: Id, b: Id)
    requires Written(s, script, a, b)
    requires !s.base.nodes[a].properties.NoProperties? && !s.cand.nodes[b].properties.NoProperties?
    requires s.base.nodes[a].properties.NotAPropertyMap? || s.cand.nodes[b].properties.NotAPropertyMap?
    ensures var x, y := s.base.nodes[a].properties, s.cand.nodes[b].properties;
      Agree(Part(s.base, script, a, PropertiesSlot), Part(s.cand, script, b, PropertiesSlot)) <==>
      x.NotAPropertyMap? && y.NotAPropertyMap? && PyEq(Plain(x.value), Plain(y.value))
  {
    assert Faithful(s.base, s.base.nodes[a], script) && Faithful(s.cand, s.cand.nodes[b], script);
    var x, y := Part(s.base, script, a, PropertiesSlot), Part(s.cand, script, b, PropertiesSlot);
    if Agree(x, y) {
      AgreeKinds(x, y);
    }
  }

  function AdditionalText(x: Additional, typed: Json): Json {
    if x.Flag? then Bool(x.allowed) else typed
  }

  /** Flags are no objects. */
  lemma AdditionalTextsAgree(x: Additional, p: Json, y: Additional, q: Json)
    requires !x.Unstated? && !y.Unstated? && (x.Typed? ==> p.Obj?) && (y.Typed? ==> q.Obj?)
    ensures Agree(AdditionalText(x, p), AdditionalText(y, q)) <==>
      x.Typed? == y.Typed? && (x.Typed? ==> Agree(p, q)) && (x.Flag? ==> x == y)
  {
    if x.Flag? && y.Flag? {
      FlagsAgree(x.allowed, y.allowed);
    }
    if Agree(AdditionalText(x, p), AdditionalText(y, q)) {
      AgreeKinds(AdditionalText(x, p), AdditionalText(y, q));
    }
  }

  /** The document under `additionalProperties`, if there is one. */
  ghost function TypedDocument(g: Graph, script: Script, x: Additional): (r: Json)
    requires Writable(g, script) && (x.Typed? ==> x.id in g.nodes && g.nodes[x.id].Schema?)
    ensures x.Typed? ==> r.Obj?
  {
    if x.Typed? then Document(g, script, x.id) else Null
  }

  lemma AdditionalPart(g: Graph, script: Script, a: Id)
    requires Writable(g, script) && a in g.nodes && g.nodes[a].Schema? && !g.nodes[a].additional.Unstated?
    ensures var x := g.nodes[a].additional;
      && (x.Typed? ==> x.id in g.nodes && g.nodes[x.id].Schema?)
      && Part(g, script, a, AdditionalSlot) == AdditionalText(x, TypedDocument(g, script, x))
  {
    assert Faithful(g, g.nodes[a], script);
  }

  lemma AdditionalAgrees(s: Scene, script: Script, a: Id, b: Id)
    requires Written(s, script, a, b)
    ensures SlotAgrees(s, script, a, b, AdditionalSlot) <==>
      var o, n := s.base.nodes[a], s.cand.nodes[b];
      && (o.additional == n.additional || (o.additional.Typed? && n.additional.Typed?))
      && Pairwise(DocIn(s, script), AdditionalIds(o), AdditionalIds(n))
  {
    var x, y := s.base.nodes[a].additional, s.cand.nodes[b].additional;
    if !x.Unstated? && !y.Unstated? {
      AdditionalPart(s.base, script, a);
      AdditionalPart(s.cand, script, b);
      AdditionalTextsAgree(x, TypedDocument(s.base, script, x), y, TypedDocument(s.cand, script, y));
      if x.Typed? && y.Typed? {
        OnePair(DocIn(s, script), x.id, y.id);
      }
    }
  }

  lemma OnePair(rel: Pairing, c: Id, d: Id)
    ensures Pairwise(rel, [c], [d]) <==> rel(c, d)
  {
    assert [c][0] == c && [d][0] == d;
  }

  lemma ItemsAgree(s: Scene, script: Script, a: Id, b: Id)
    requires Written(s, script, a, b)
    ensures SlotAgrees(s, script, a, b, ItemsSlot) <==>
      var o, n := s.base.nodes[a], s.cand.nodes[b];
      o.items.Some? == n.items.Some? && Pairwise(DocIn(s, script), ItemIds(o), ItemIds(n))
  {
    var o, n := s.base.nodes[a], s.cand.nodes[b];
    PartsAreKnown(s.base, a);
    PartsAreKnown(s.cand, b);
    if o.items.Some? && n.items.Some? {
      OnePair(DocIn(s, script), o.items.value, n.items.value);
    }
  }

  /** Both say the same of this keyword, or both nothing. */
  ghost predicate WordKept(k: map<Key, Json>, l: map<Key, Json>, key: Key) {
    (key in k <==> key in l) && (key in k ==> Agree(k[key], l[key]))
  }

  lemma WordAgrees(s: Scene, script: Script, a: Id, b: Id, key: Key)
    requires Written(s, script, a, b)
    ensures SlotAgrees(s, script, a, b, Word(key)) <==> WordKept(s.base.nodes[a].keywords, s.cand.nodes[b].keywords, key)
  {
  }

  /** Two maps of keywords agree when they do at every keyword. */
  lemma KeywordsAgree(k: map<Key, Json>, l: map<Key, Json>, words: set<Key>)
    requires k.Keys <= words && l.Keys <= words
    ensures SameKeywords(PlainKeywords(k), PlainKeywords(l)) <==> forall key :: key in words ==> WordKept(k, l, key)
  {
    var p, q := PlainKeywords(k), PlainKeywords(l);
    if SameKeywords(p, q) {
      forall key | key in words
        ensures WordKept(k, l, key)
      {
        assert key in p.Keys <==> key in q.Keys;
        assert key in k ==> PyEq(p[key], q[key]);
      }
    }
    if forall key :: key in words ==> WordKept(k, l, key) {
      forall key | key in words
        ensures key in p.Keys <==> key in q.Keys
        ensures key in p ==> PyEq(p[key], q[key])
      {
        assert WordKept(k, l, key);
      }
    }
  }

  lemma WordsAgree(s: Scene, script: Script, a: Id, b: Id)
    requires Written(s, script, a, b)
    ensures (forall key :: key in script.words ==> SlotAgrees(s, script, a, b, Word(key))) <==>
      SameKeywords(PlainKeywords(s.base.nodes[a].keywords), PlainKeywords(s.cand.nodes[b].keywords))
  {
    var k, l := s.base.nodes[a].keywords, s.cand.nodes[b].keywords;
    assert k.Keys <= script.words && l.Keys <= script.words by {
      assert Faithful(s.base, s.base.nodes[a], script) && Faithful(s.cand, s.cand.nodes[b], script);
    }
    KeywordsAgree(k, l, script.words);
    forall key | key in script.words
      ensures SlotAgrees(s, script, a, b, Word(key)) <==> WordKept(k, l, key)
    {
      WordAgrees(s, script, a, b, key);
    }
  }

  // ---- the whole comparison

  ghost predicate CombinatorAgrees(rel: Pairing, o: Node, n: Node, c: Combinator)
    requires o.Schema? && n.Schema?
  {
    && SameVariants(PlainVariants(VariantsOf(o, c)), PlainVariants(VariantsOf(n, c)))
    && Pairwise(rel, VariantIds(VariantsOf(o, c)), VariantIds(VariantsOf(n, c)))
  }

  /** What `Same` asks of two nodes, part by part. */
  ghost predicate PartsAgree(rel: Pairing, o: Node, n: Node)
    requires o.Schema? && n.Schema?
  {
    && o.ref == n.ref
    && (forall c :: CombinatorAgrees(rel, o, n, c))
    && SameEnum(PlainEnum(o.enum), PlainEnum(n.enum))
    && SameNames(PlainProperties(o.properties), PlainProperties(n.properties))
    && Pairwise(rel, MemberIds(PropertyMembers(PlainProperties(o.properties))),
                MemberIds(PropertyMembers(PlainProperties(n.properties))))
    && o.required == n.required
    && (o.additional == n.additional || (o.additional.Typed? && n.additional.Typed?))
    && Pairwise(rel, AdditionalIds(o), AdditionalIds(n))
    && o.items.Some? == n.items.Some? && Pairwise(rel, ItemIds(o), ItemIds(n))
    && SameKeywords(PlainKeywords(o.keywords), PlainKeywords(n.keywords))
  }

  lemma EverySlot(test: Slot -> bool, script: Script)
    ensures (forall slot :: script.Covers(slot) ==> test(slot)) <==>
      && test(RefSlot) && (forall c :: test(VariantsSlot(c))) && test(EnumSlot) && test(PropertiesSlot) && test(RequiredSlot)
      && test(AdditionalSlot) && test(ItemsSlot) && (forall key :: key in script.words ==> test(Word(key)))
  {
    assert script.Covers(RefSlot) && script.Covers(EnumSlot) && script.Covers(PropertiesSlot) && script.Covers(RequiredSlot);
    assert script.Covers(AdditionalSlot) && script.Covers(ItemsSlot);
    assert forall c: Combinator :: script.Covers(VariantsSlot(c));
    assert forall key :: key in script.words ==> script.Covers(Word(key));
  }

  lemma AllSlotsIff(s: Scene, script: Script, a: Id, b: Id, test: Slot -> bool)
    requires Written(s, script, a, b) && forall slot {:trigger test(slot)} :: test(slot) <==> SlotAgrees(s, script, a, b, slot)
    ensures AllSlotsAgree(s, script, a, b) <==>
      && test(RefSlot) && (forall c :: test(VariantsSlot(c))) && test(EnumSlot) && test(PropertiesSlot) && test(RequiredSlot)
      && test(AdditionalSlot) && test(ItemsSlot) && (forall key :: key in script.words ==> test(Word(key)))
  {
    EverySlot(test, script);
    if AllSlotsAgree(s, script, a, b) {
      forall slot | script.Covers(slot)
        ensures test(slot)
      {
        assert SlotAgrees(s, script, a, b, slot);
      }
    }
    if forall slot :: script.Covers(slot) ==> test(slot) {
      forall slot | script.Covers(slot)
        ensures SlotAgrees(s, script, a, b, slot)
      {
        assert test(slot);
      }
    }
  }

  ghost function Agreement(s: Scene, script: Script, a: Id, b: Id): Slot -> bool
    requires Written(s, script, a, b)
  {
    (slot: Slot) => Written(s, script, a, b) && SlotAgrees(s, script, a, b, slot)
  }

  lemma SlotsAgreeByPart(s: Scene, script: Script, a: Id, b: Id)
    requires Written(s, script, a, b)
    ensures AllSlotsAgree(s, script, a, b) <==> PartsAgree(DocIn(s, script), s.base.nodes[a], s.cand.nodes[b])
  {
    AllSlotsIff(s, script, a, b, Agreement(s, script, a, b));
    RefAgrees(s, script, a, b);
    forall c: Combinator
      ensures SlotAgrees(s, script, a, b, VariantsSlot(c)) <==>
        CombinatorAgrees(DocIn(s, script), s.base.nodes[a], s.cand.nodes[b], c)
    {
      VariantsAgree(s, script, a, b, c);
    }
    EnumAgrees(s, script, a, b);
    PropertiesAgree(s, script, a, b);
    RequiredAgrees(s, script, a, b);
    AdditionalAgrees(s, script, a, b);
    ItemsAgree(s, script, a, b);
    WordsAgree(s, script, a, b);
  }

  lemma EveryCombinator(rel: Pairing, o: Node, n: Node)
    requires o.Schema? && n.Schema?
    ensures (forall c :: CombinatorAgrees(rel, o, n, c)) <==>
      CombinatorAgrees(rel, o, n, OneOf) && CombinatorAgrees(rel, o, n, AnyOf) && CombinatorAgrees(rel, o, n, AllOf)
  {
  }

  lemma SemanticShell(o: Node, n: Node)
    requires o.Schema? && n.Schema?
    ensures SameShell(Semantic(o), Semantic(n)) <==>
      && o.ref == n.ref
      && SameVariants(PlainVariants(o.oneOf), PlainVariants(n.oneOf))
      && SameVariants(PlainVariants(o.anyOf), PlainVariants(n.anyOf))
      && SameVariants(PlainVariants(o.allOf), PlainVariants(n.allOf))
      && SameEnum(PlainEnum(o.enum), PlainEnum(n.enum))
      && SameNames(PlainProperties(o.properties), PlainProperties(n.properties))
      && o.required == n.required
      && (o.additional == n.additional || (o.additional.Typed? && n.additional.Typed?))
      && o.items.Some? == n.items.Some?
      && SameKeywords(PlainKeywords(o.keywords), PlainKeywords(n.keywords))
  {
  }

  lemma PartsAgreeIff(rel: Pairing, o: Node, n: Node)
    requires o.Schema? && n.Schema?
    ensures PartsAgree(rel, o, n) <==>
      SameShell(Semantic(o), Semantic(n)) && Pairwise(rel, Kids(Semantic(o)), Kids(Semantic(n)))
  {
    SemanticShell(o, n);
    EveryCombinator(rel, o, n);
    SemanticParts(o);
    SemanticParts(n);
    if SameShell(Semantic(o), Semantic(n)) {
      PairwiseKids(rel, Semantic(o), Semantic(n));
    }
  }

  lemma PairwiseAlso(rel: Pairing, sel: Pairing, xs: seq<Id>, ys: seq<Id>)
    requires forall i :: 0 <= i < |xs| && i < |ys| ==> (rel(xs[i], ys[i]) <==> sel(xs[i], ys[i]))
    ensures Pairwise(rel, xs, ys) <==> Pairwise(sel, xs, ys)
  {
  }

  lemma SchemasAgree(s: Scene, script: Script, a: Id, b: Id)
    requires Written(s, script, a, b)
    requires forall c, d {:trigger DocIn(s, script)(c, d)} :: a < c && s.Known(c, d) ==>
      (Same(s.base, c, s.cand, d) <==> DocIn(s, script)(c, d))
    ensures Same(s.base, a, s.cand, b) <==> Agree(Document(s.base, script, a), Document(s.cand, script, b))
  {
    var o, n := s.base.nodes[a], s.cand.nodes[b];
    DocumentsAgreeBySlot(s, script, a, b);
    SlotsAgreeByPart(s, script, a, b);
    PartsAgreeIff(DocIn(s, script), o, n);
    SameKids(s, a, b);
    var xs, ys := Kids(Semantic(o)), Kids(Semantic(n));
    SemanticKidsAreKnown(s.base, a);
    SemanticKidsAreKnown(s.cand, b);
    forall i | 0 <= i < |xs| && i < |ys|
      ensures SameIn(s)(xs[i], ys[i]) <==> DocIn(s, script)(xs[i], ys[i])
    {
      assert xs[i] in xs && ys[i] in ys;
    }
    PairwiseAlso(SameIn(s), DocIn(s, script), xs, ys);
  }

  /** Two positions are not told apart exactly when their documents are equal once `_semantic` has been applied. */
  lemma {:induction false} SameIff(s: Scene, script: Script, a: Id, b: Id)
    requires Writable(s.base, script) && Writable(s.cand, script) && s.Known(a, b)
    ensures Same(s.base, a, s.cand, b) <==> PyEq(Plain(Document(s.base, script, a)), Plain(Document(s.cand, script, b)))
    decreases s.base.size - a
  {
    var o, n := s.base.nodes[a], s.cand.nodes[b];
    if o.Schema? && n.Schema? {
      forall c, d | a < c && s.Known(c, d)
        ensures Same(s.base, c, s.cand, d) <==> DocIn(s, script)(c, d)
      {
        assert s.base.NodeValid(c);
        SameIff(s, script, c, d);
      }
      SchemasAgree(s, script, a, b);
    } else {
      assert Faithful(s.base, o, script) && Faithful(s.cand, n, script);
      ScalarsAgree(s, script, a, b);
    }
  }

  lemma ScalarsAgree(s: Scene, script: Script, a: Id, b: Id)
    requires Writable(s.base, script) && Writable(s.cand, script) && s.Known(a, b)
    requires s.base.nodes[a].Scalar? || s.cand.nodes[b].Scalar?
    requires s.base.nodes[a].Scalar? ==> !s.base.nodes[a].value.Obj?
    requires s.cand.nodes[b].Scalar? ==> !s.cand.nodes[b].value.Obj?
    ensures Same(s.base, a, s.cand, b) <==> Agree(Document(s.base, script, a), Document(s.cand, script, b))
  {
    var x, y := Document(s.base, script, a), Document(s.cand, script, b);
    SameKids(s, a, b);
    if Agree(x, y) {
      AgreeKinds(x, y);
    }
  }
}
