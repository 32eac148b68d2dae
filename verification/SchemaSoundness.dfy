module SchemaSoundness {
  /** "No breaking change" means inclusion of accepted values.

      A walk that reports nothing breaking leaves a set of pairs closed under its own steps.  Read as a
      simulation between the two schema graphs, that set carries every derivation of acceptance from one
      side to the other: requests from the base to the candidate, responses back. */

  import opened Common
  import opened Json
  import opened SchemaGraph
  import opened SchemaTraversal
  import opened SchemaWalk
  import opened SchemaAlike
  import opened SchemaMeaning
  import opened SchemaMirror
  import opened SchemaConditions

  // ---- the simulation

  /** A pair of positions whose resolved nodes the walk has compared. */
  ghost predicate Paired(s: Scene, links: set<Marker>, a: Id, b: Id) {
    s.Known(a, b) && (a, b) in links
  }

  ghost predicate SettledSteps(s: Scene, steps: seq<Step>, links: set<Marker>) {
    forall k {:trigger steps[k]} :: 0 <= k < |steps| ==>
      match steps[k]
      case Emit(change) => change.classification == Additive
      case Walk(pair, _) => Paired(s, links, pair.0, pair.1)
  }

  ghost predicate Explained(s: Scene, links: set<Marker>, a: Id, b: Id)
    requires s.Valid() && s.Known(a, b)
  {
    exists location :: SettledSteps(s, Steps(s, Resolve(s.base, a), Resolve(s.cand, b), location), links)
  }

  ghost predicate Simulation(s: Scene, links: set<Marker>)
    requires s.Valid()
  {
    forall m {:trigger m in links} :: m in links ==>
      s.Known(m.0, m.1) && (Unchanged(s.base, s.cand, m.0, m.1) || Explained(s, links, m.0, m.1))
  }

  /** The positions of a region whose resolved nodes have been marked. */
  ghost function Links(s: Scene, pairs: set<Marker>, seen: set<Marker>): set<Marker> {
    set m | m in pairs && s.Known(m.0, m.1) && (Resolve(s.base, m.0), Resolve(s.cand, m.1)) in seen
  }

  lemma SettledLinks(s: Scene, w: Walker, steps: seq<Step>, pairs: set<Marker>, seen: set<Marker>)
    requires s.Valid() && Drives(w, s) && Settled(w, steps, seen) && w.Closed(steps) && InRegion(steps, pairs)
    ensures SettledSteps(s, steps, Links(s, pairs, seen))
  {
    forall k | 0 <= k < |steps|
      ensures match steps[k]
              case Emit(change) => change.classification == Additive
              case Walk(pair, _) => Paired(s, Links(s, pairs, seen), pair.0, pair.1)
    {
      if steps[k].Walk? {
        var pair := steps[k].pair;
        assert pair in w.universe;
        assert w.head((pair.0, pair.1)) == (Resolve(s.base, pair.0), Resolve(s.cand, pair.1));
        assert w.head(pair) in seen;
      }
    }
  }

  /** A walk started with an empty `seen` set that reports nothing breaking leaves a simulation. */
  lemma WalkLeavesSimulation(
    s: Scene, check: Check, w: Walker, pairs: set<Marker>, a: Id, b: Id, location: Place, changes: seq<Change>)
    requires s.Valid() && Drives(w, s) && Suitable(s, check, pairs, a, b) && s.Known(a, b)
    requires NoBreaking(Visit(w, (a, b), location, Trace(changes, {})).changes)
    ensures Simulation(s, Links(s, pairs, Visit(w, (a, b), location, Trace(changes, {})).seen))
    ensures Paired(s, Links(s, pairs, Visit(w, (a, b), location, Trace(changes, {})).seen), a, b)
  {
    var seen := Visit(w, (a, b), location, Trace(changes, {})).seen;
    VisitSettles(w, (a, b), location, Trace(changes, {}));
    assert w.head((a, b)) == (Resolve(s.base, a), Resolve(s.cand, b));
    var links := Links(s, pairs, seen);
    forall m | m in links && !Unchanged(s.base, s.cand, m.0, m.1)
      ensures Explained(s, links, m.0, m.1)
    {
      var x, y := Resolve(s.base, m.0), Resolve(s.cand, m.1);
      assert Justified(w, (x, y), seen);
      assert m in pairs && Handled(s, check, pairs, m.0, m.1);
      LinkIsExplained(s, w, pairs, seen, m.0, m.1);
    }
  }

  lemma LinkIsExplained(s: Scene, w: Walker, pairs: set<Marker>, seen: set<Marker>, a: Id, b: Id)
    requires s.Valid() && Drives(w, s) && s.Known(a, b) && KeepsTo(s, pairs, a, b)
    requires Justified(w, (Resolve(s.base, a), Resolve(s.cand, b)), seen)
    ensures Explained(s, Links(s, pairs, seen), a, b)
  {
    var x, y := Resolve(s.base, a), Resolve(s.cand, b);
    var l :| Settled(w, w.plan((x, y), l), seen);
    assert w.plan((x, y), l) == Steps(s, x, y, l);
    StepsAreClosed(s, x, y, l);
    SettledLinks(s, w, Steps(s, x, y, l), pairs, seen);
  }

  /** The walk marks no pair outside a region that it does not leave. */
  lemma SeenIsExplored(s: Scene, w: Walker, pairs: set<Marker>, a: Id, b: Id, location: Place, changes: seq<Change>)
    requires s.Valid() && Drives(w, s) && Explores(s, pairs) && (a, b) in pairs && s.Known(a, b)
    ensures forall x :: x in Visit(w, (a, b), location, Trace(changes, {})).seen ==>
      exists m :: m in pairs && s.Known(m.0, m.1) && x == (Resolve(s.base, m.0), Resolve(s.cand, m.1))
  {
    assert Region(w, pairs) by {
      forall m | m in pairs
        ensures m in w.universe
      {
        assert s.Known(m.0, m.1);
      }
      forall m, l | m in pairs
        ensures InRegion(w.plan(w.head(m), l), pairs)
      {
        assert s.Known(m.0, m.1) && KeepsTo(s, pairs, m.0, m.1);
        assert w.head((m.0, m.1)) == (Resolve(s.base, m.0), Resolve(s.cand, m.1));
        assert w.plan((Resolve(s.base, m.0), Resolve(s.cand, m.1)), l) == Steps(s, Resolve(s.base, m.0), Resolve(s.cand, m.1), l);
      }
    }
    VisitStays(w, pairs, (a, b), location, Trace(changes, {}));
    forall x | x in Visit(w, (a, b), location, Trace(changes, {})).seen
      ensures exists m :: m in pairs && s.Known(m.0, m.1) && x == (Resolve(s.base, m.0), Resolve(s.cand, m.1))
    {
      var m :| m in pairs && w.head(m) == x;
      assert s.Known(m.0, m.1);
      assert w.head((m.0, m.1)) == (Resolve(s.base, m.0), Resolve(s.cand, m.1));
    }
  }

  lemma SettledParts(s: Scene, p: seq<Step>, q: seq<Step>, links: set<Marker>)
    requires SettledSteps(s, p + q, links)
    ensures SettledSteps(s, p, links) && SettledSteps(s, q, links)
  {
    forall k | 0 <= k < |p|
      ensures (p + q)[k] == p[k]
    {
    }
    forall k | 0 <= k < |q|
      ensures (p + q)[|p| + k] == q[k]
    {
    }
  }

  lemma SettledFirst(s: Scene, steps: seq<Step>, links: set<Marker>)
    requires SettledSteps(s, steps, links)
    ensures steps != [] && steps[0].Emit? ==> steps[0].change.classification == Additive
    ensures steps != [] && steps[0].Walk? ==> Paired(s, links, steps[0].pair.0, steps[0].pair.1)
  {
    if steps != [] {
      assert steps[0] == steps[0];
    }
  }

  // ---- acceptance crossing from the writer to the reader

  ghost predicate Crossed(s: Scene, c: Id, d: Id, v: Json, f: Acceptance, h: Acceptance) {
    f(WriterId(s, c, d), v) ==> h(ReaderId(s, c, d), v)
  }

  /** `f` at the writer implies `h` at the reader, for all linked positions. */
  ghost predicate Crosses(s: Scene, links: set<Marker>, f: Acceptance, h: Acceptance) {
    && (forall c, d, v {:trigger Crossed(s, c, d, v, f, h)} :: Paired(s, links, c, d) ==> Crossed(s, c, d, v, f, h))
    && (forall v {:trigger h(ReaderGraph(s).empty, v)} :: h(ReaderGraph(s).empty, v))
  }

  // ---- reading facts off the step lists

  ghost predicate PropertyCarried(s: Scene, o: Node, n: Node, p: Member, links: set<Marker>)
    requires o.Schema? && n.Schema?
  {
    match Find(PropertyMembers(n.properties), p.name)
    case None => false
    case Some(q) =>
      && Paired(s, links, p.id, q)
      && (p.name in n.required ==> p.name in o.required)
      && (p.name in o.required && s.direction == Response ==> p.name in n.required)
  }

  lemma OldPropertyFact(s: Scene, o: Node, n: Node, location: Place, p: Member, links: set<Marker>)
    requires o.Schema? && n.Schema?
    requires SettledSteps(s, OldProperty(s, o, n, location, p), links)
    ensures PropertyCarried(s, o, n, p, links)
  {
    var child := Property(location, p.name);
    match Find(PropertyMembers(n.properties), p.name)
    case None =>
      SettledFirst(s, OldProperty(s, o, n, location, p), links);
    case Some(q) =>
      var steps := Requiredness(s.direction, o, n, p.name, child);
      SettledParts(s, steps, [Walk((p.id, q), child)], links);
      SettledFirst(s, steps, links);
      SettledFirst(s, [Walk((p.id, q), child)], links);
  }

  lemma {:induction false} OldPropertySettled(
    s: Scene, o: Node, n: Node, location: Place, k: nat, i: nat, links: set<Marker>)
    requires o.Schema? && n.Schema? && i < k <= |PropertyMembers(o.properties)|
    requires SettledSteps(s, OldPropertySteps(s, o, n, location, k), links)
    ensures SettledSteps(s, OldProperty(s, o, n, location, PropertyMembers(o.properties)[i]), links)
    decreases k
  {
    var last := OldProperty(s, o, n, location, PropertyMembers(o.properties)[k - 1]);
    SettledParts(s, OldPropertySteps(s, o, n, location, k - 1), last, links);
    if i < k - 1 {
      OldPropertySettled(s, o, n, location, k - 1, i, links);
    }
  }

  lemma OldPropertyFactAt(
    s: Scene, o: Node, n: Node, location: Place, k: nat, i: nat, links: set<Marker>)
    requires o.Schema? && n.Schema? && i < k <= |PropertyMembers(o.properties)|
    requires SettledSteps(s, OldPropertySteps(s, o, n, location, k), links)
    ensures PropertyCarried(s, o, n, PropertyMembers(o.properties)[i], links)
  {
    OldPropertySettled(s, o, n, location, k, i, links);
    OldPropertyFact(s, o, n, location, PropertyMembers(o.properties)[i], links);
  }

  ghost predicate NewPropertyOptional(o: Node, n: Node, q: Member)
    requires o.Schema? && n.Schema?
  {
    Find(PropertyMembers(o.properties), q.name).Some? || q.name !in n.required
  }

  lemma {:induction false} NewPropertyFactAt(
    s: Scene, o: Node, n: Node, location: Place, k: nat, i: nat, links: set<Marker>)
    requires o.Schema? && n.Schema? && i < k <= |PropertyMembers(n.properties)|
    requires SettledSteps(s, NewPropertySteps(o, n, location, k), links)
    ensures NewPropertyOptional(o, n, PropertyMembers(n.properties)[i])
    decreases k
  {
    var q := PropertyMembers(n.properties)[k - 1];
    SettledParts(s, NewPropertySteps(o, n, location, k - 1), NewProperty(o, n, location, q), links);
    if i == k - 1 {
      SettledFirst(s, NewProperty(o, n, location, q), links);
    } else {
      NewPropertyFactAt(s, o, n, location, k - 1, i, links);
    }
  }

  ghost predicate KeyRelated(s: Scene, o: Node, n: Node, key: Key)
    requires o.Schema? && n.Schema?
  {
    || PyEq(Get(o.keywords, key), Get(n.keywords, key))
    || key in ANNOTATIONS
    || (s.direction == Request && Widened(key, Get(o.keywords, key), Get(n.keywords, key)))
  }

  lemma KeywordFact(s: Scene, o: Node, n: Node, location: Place, key: Key, links: set<Marker>)
    requires o.Schema? && n.Schema?
    requires SettledSteps(s, Keyword(s, o, n, location, key), links)
    ensures KeyRelated(s, o, n, key)
  {
    SettledFirst(s, Keyword(s, o, n, location, key), links);
  }

  lemma {:induction false} KeywordSettled(
    s: Scene, o: Node, n: Node, location: Place, k: nat, i: nat, links: set<Marker>)
    requires o.Schema? && n.Schema? && i < k <= KeyCount()
    requires SettledSteps(s, KeywordSteps(s, o, n, location, k), links)
    ensures SettledSteps(s, Keyword(s, o, n, location, CONSTRAINT_KEYS[i]), links)
    decreases k
  {
    var last := Keyword(s, o, n, location, CONSTRAINT_KEYS[k - 1]);
    SettledParts(s, KeywordSteps(s, o, n, location, k - 1), last, links);
    if i < k - 1 {
      KeywordSettled(s, o, n, location, k - 1, i, links);
    }
  }

  lemma KeywordFactAt(
    s: Scene, o: Node, n: Node, location: Place, k: nat, i: nat, links: set<Marker>)
    requires o.Schema? && n.Schema? && i < k <= KeyCount()
    requires SettledSteps(s, KeywordSteps(s, o, n, location, k), links)
    ensures KeyRelated(s, o, n, CONSTRAINT_KEYS[i])
  {
    KeywordSettled(s, o, n, location, k, i, links);
    KeywordFact(s, o, n, location, CONSTRAINT_KEYS[i], links);
  }

  lemma ConstraintKeysAreAll(key: Key)
    requires !key.Other? && !key.Type? && !key.Format? && !key.MinProperties? && !key.MaxProperties?
    ensures exists i :: 0 <= i < KeyCount() && CONSTRAINT_KEYS[i] == key
  {
    match key
    case Const => assert CONSTRAINT_KEYS[0] == key;
    case Default => assert CONSTRAINT_KEYS[1] == key;
    case ExclusiveMaximum => assert CONSTRAINT_KEYS[2] == key;
    case ExclusiveMinimum => assert CONSTRAINT_KEYS[3] == key;
    case MaxItems => assert CONSTRAINT_KEYS[4] == key;
    case MaxLength => assert CONSTRAINT_KEYS[5] == key;
    case Maximum => assert CONSTRAINT_KEYS[6] == key;
    case MinItems => assert CONSTRAINT_KEYS[7] == key;
    case MinLength => assert CONSTRAINT_KEYS[8] == key;
    case Minimum => assert CONSTRAINT_KEYS[9] == key;
    case MultipleOf => assert CONSTRAINT_KEYS[10] == key;
    case Pattern => assert CONSTRAINT_KEYS[11] == key;
    case ReadOnly => assert CONSTRAINT_KEYS[12] == key;
    case UniqueItems => assert CONSTRAINT_KEYS[13] == key;
    case WriteOnly => assert CONSTRAINT_KEYS[14] == key;
  }

  // ---- keywords and enumerations

  /** What the walk has compared is no stricter at the reader. */
  lemma RelatedIsKept(s: Scene, o: Node, n: Node, key: Key)
    requires o.Schema? && n.Schema? && Proper(o) && Proper(n) && LiteralsAgree(o, n)
    requires KeyRelated(s, o, n, key) && key in ReaderNode(s, o, n).keywords
    requires ReaderNode(s, o, n).keywords[key] == Null && key == Const ==> key in WriterNode(s, o, n).keywords
    requires !key.Other?
    ensures KeyKept(key, WriterNode(s, o, n), ReaderNode(s, o, n))
  {
    var x, y := WriterNode(s, o, n), ReaderNode(s, o, n);
    if key !in ANNOTATIONS {
      if PyEq(Get(o.keywords, key), Get(n.keywords, key)) {
        if y.keywords[key] == Null {
          assert key == Const;
        }
        assert key in x.keywords;
        assert o.keywords[key] == n.keywords[key];
      } else {
        assert key in LOWER_BOUNDS + UPPER_BOUNDS;
        assert n.keywords[key].Num?;
        assert key in o.keywords && o.keywords[key].Num?;
      }
    }
  }

  lemma KeywordsCross(check: Check, x: Node, y: Node, v: Json)
    requires x.Schema? && y.Schema? && KeysKept(x, y) && KeywordsAccept(check, x, v)
    ensures KeywordsAccept(check, y, v)
  {
    forall key | key in y.keywords
      ensures KeywordAccepts(check, key, y.keywords[key], v)
    {
      assert KeyKept(key, x, y);
      if key in x.keywords {
        assert KeywordAccepts(check, key, x.keywords[key], v);
      }
    }
  }

  /** Listed values that Python finds in a list are in it. */
  lemma ValuesKept(x: seq<Json>, y: seq<Json>)
    requires ValuesWithin(x, y)
    requires forall i, j :: 0 <= i < |x| && 0 <= j < |y| && PyEq(x[i], y[j]) ==> x[i] == y[j]
    ensures forall v :: v in x ==> v in y
  {
    forall v | v in x
      ensures v in y
    {
      var i :| 0 <= i < |x| && x[i] == v;
      assert InValues(x[i], y);
      var j :| 0 <= j < |y| && PyEq(x[i], y[j]);
    }
  }

  lemma EnumsKept(s: Scene, o: Node, n: Node, location: Place, links: set<Marker>)
    requires o.Schema? && n.Schema? && Proper(o) && Proper(n) && LiteralsAgree(o, n) && !DropsEnum(s, o, n)
    requires SettledSteps(s, CompareEnums(s.direction, o.enum, n.enum, location).steps, links)
    ensures EnumKept(WriterNode(s, o, n).enum, ReaderNode(s, o, n).enum)
  {
    SettledFirst(s, CompareEnums(s.direction, o.enum, n.enum, location).steps, links);
    if o.enum.EnumList? && n.enum.EnumList? {
      var x, y := o.enum.values, n.enum.values;
      if s.direction == Request {
        ValuesKept(x, y);
      } else {
        ValuesKept(y, x);
      }
    }
  }

  // ---- members and items

  /** What the object steps establish about one member name. */
  ghost predicate NameCarried(s: Scene, o: Node, n: Node, name: string, links: set<Marker>)
    requires o.Schema? && n.Schema?
  {
    match (Find(PropertyMembers(o.properties), name), Find(PropertyMembers(n.properties), name))
    case (Some(p), Some(q)) =>
      && Paired(s, links, p, q)
      && (name in n.required ==> name in o.required)
      && (name in o.required && s.direction == Response ==> name in n.required)
    case (Some(_), None) => false
    case (None, Some(_)) => name !in n.required
    case (None, None) => true
  }

  lemma ObjectFacts(s: Scene, a: Id, b: Id, location: Place, links: set<Marker>)
    requires s.Valid() && s.Known(a, b) && s.base.nodes[a].Schema? && s.cand.nodes[b].Schema?
    requires Proper(s.base.nodes[a]) && Proper(s.cand.nodes[b])
    requires SettledSteps(s, ObjectSteps(s, a, b, location), links)
    ensures forall name {:trigger NameCarried(s, s.base.nodes[a], s.cand.nodes[b], name, links)} ::
      NameCarried(s, s.base.nodes[a], s.cand.nodes[b], name, links)
    ensures s.direction == Request && s.base.nodes[a].additional != Flag(false) ==> s.cand.nodes[b].additional != Flag(false)
  {
    var o, n := s.base.nodes[a], s.cand.nodes[b];
    var p := OldPropertySteps(s, o, n, location, |PropertyMembers(o.properties)|);
    var q := NewPropertySteps(o, n, location, |PropertyMembers(n.properties)|);
    AdditionalIsKnown(s.base, a);
    AdditionalIsKnown(s.cand, b);
    var r := AdditionalSteps(s, o.additional, n.additional, location);
    SettledParts(s, p + q, r, links);
    SettledParts(s, p, q, links);
    SettledFirst(s, r, links);
    forall name
      ensures NameCarried(s, o, n, name, links)
    {
      match Find(PropertyMembers(o.properties), name)
      case Some(id) =>
        var k :| 0 <= k < |PropertyMembers(o.properties)| && PropertyMembers(o.properties)[k] == Member(name, id);
        OldPropertyFactAt(s, o, n, location, |PropertyMembers(o.properties)|, k, links);
      case None =>
        match Find(PropertyMembers(n.properties), name)
        case Some(id) =>
          var k :| 0 <= k < |PropertyMembers(n.properties)| && PropertyMembers(n.properties)[k] == Member(name, id);
          NewPropertyFactAt(s, o, n, location, |PropertyMembers(n.properties)|, k, links);
        case None =>
    }
  }

  lemma MemberCrosses(
    s: Scene, o: Node, n: Node, name: string, w: Json, links: set<Marker>, f: Acceptance, h: Acceptance)
    requires o.Schema? && n.Schema? && Crosses(s, links, f, h)
    requires NameCarried(s, o, n, name, links)
    requires s.direction == Request ==>
      RecordComparable(o, n) && (o.additional != Flag(false) ==> n.additional != Flag(false))
    requires MemberHolds(ReadingOf(s), WriterNode(s, o, n), name, w, f)
    ensures MemberHolds(ReadingOf(s), ReaderNode(s, o, n), name, w, h)
  {
    match (Find(PropertyMembers(o.properties), name), Find(PropertyMembers(n.properties), name))
    case (Some(p), Some(q)) =>
      assert Crossed(s, p, q, w, f, h);
    case _ =>
  }

  lemma RecordCrosses(
    s: Scene, a: Id, b: Id, location: Place, v: Json, links: set<Marker>, f: Acceptance, h: Acceptance)
    requires s.Valid() && s.Known(a, b) && s.base.nodes[a].Schema? && s.cand.nodes[b].Schema? && v.Obj?
    requires Proper(s.base.nodes[a]) && Proper(s.cand.nodes[b])
    requires PlainComparable(s, s.base.nodes[a], s.cand.nodes[b]) && ObjectLike(s.base.nodes[a], s.cand.nodes[b])
    requires Crosses(s, links, f, h) && SettledSteps(s, ObjectSteps(s, a, b, location), links)
    requires MembersHold(ReadingOf(s), WriterNode(s, s.base.nodes[a], s.cand.nodes[b]), v, f)
    ensures MembersHold(ReadingOf(s), ReaderNode(s, s.base.nodes[a], s.cand.nodes[b]), v, h)
  {
    var o, n := s.base.nodes[a], s.cand.nodes[b];
    var x, y := WriterNode(s, o, n), ReaderNode(s, o, n);
    ObjectFacts(s, a, b, location, links);
    forall name | name in v.members
      ensures MemberHolds(ReadingOf(s), y, name, v.members[name], h)
    {
      assert NameCarried(s, o, n, name, links);
      assert MemberHolds(ReadingOf(s), x, name, v.members[name], f);
      MemberCrosses(s, o, n, name, v.members[name], links, f, h);
    }
    forall name | name in y.required
      ensures name in v.members
    {
      assert NameCarried(s, o, n, name, links);
      assert name in x.required;
    }
  }

  /** Members cross where the reader lists none and forbids nothing new. */
  lemma FreeMembersCross(direction: Direction, reading: Reading, x: Node, y: Node, v: Json, f: Acceptance, h: Acceptance)
    requires x.Schema? && y.Schema? && v.Obj?
    requires reading == if direction == Request then ClosedRecords else OpenRecords
    requires PropertyMembers(y.properties) == [] && AdditionalKept(direction, x, y)
    requires forall name :: name in y.required ==> name in x.required
    requires MembersHold(reading, x, v, f)
    ensures MembersHold(reading, y, v, h)
  {
    forall name | name in v.members
      ensures MemberHolds(reading, y, name, v.members[name], h)
    {
      assert MemberHolds(reading, x, name, v.members[name], f);
    }
  }

  // ---- combinators

  lemma SameCombinators(s: Scene, a: Id, b: Id)
    requires s.Valid() && s.Known(a, b) && s.base.nodes[a].Schema? && s.cand.nodes[b].Schema?
    requires Same(s.base, a, s.cand, b)
    ensures FirstCombinator(s.base.nodes[a]) == FirstCombinator(s.cand.nodes[b])
  {
    SameVariantLists(s, a, b, OneOf);
    SameVariantLists(s, a, b, AnyOf);
    SameVariantLists(s, a, b, AllOf);
  }

  lemma SameListsIff(s: Scene, xs: seq<Id>, ys: seq<Id>)
    requires s.Valid() && Pairwise(SameIn(s), xs, ys)
    ensures Listed(s.base, xs) && Listed(s.cand, ys) && SameLists(s, xs, ys)
  {
    forall i | 0 <= i < |xs|
      ensures s.Known(xs[i], ys[i]) && Same(s.base, xs[i], s.cand, ys[i])
    {
      assert SameIn(s)(xs[i], ys[i]);
    }
  }

  /** Two well-shaped combinators that are compared whole are different. */
  lemma WholeMeansDifferent(s: Scene, a: Id, b: Id)
    requires s.Valid() && s.Known(a, b) && s.base.nodes[a].Schema? && s.cand.nodes[b].Schema?
    requires Proper(s.base.nodes[a]) && Proper(s.cand.nodes[b])
    requires FirstCombinator(s.base.nodes[a]).Some? || FirstCombinator(s.cand.nodes[b]).Some?
    ensures !(PlanVariants(s, a, b) == Whole(true))
  {
    var o, n := s.base.nodes[a], s.cand.nodes[b];
    if Same(s.base, a, s.cand, b) {
      SameCombinators(s, a, b);
      SameVariantLists(s, a, b, FirstCombinator(o).value);
      SameListsIff(s, VariantIds(VariantsOf(o, FirstCombinator(o).value)), VariantIds(VariantsOf(n, FirstCombinator(o).value)));
    }
  }

  lemma IndexFactAt(s: Scene, xs: seq<Id>, ys: seq<Id>, c: Combinator, location: Place, i: nat, links: set<Marker>)
    requires i < |xs| == |ys| && SettledSteps(s, IndexSteps(xs, ys, c, location, |xs|), links)
    ensures Paired(s, links, xs[i], ys[i])
  {
    assert IndexSteps(xs, ys, c, location, |xs|)[i] == Walk((xs[i], ys[i]), Variant(location, c, i));
  }

  /** Every old variant is linked with the variant it was compared with. */
  lemma PlanPairs(s: Scene, plan: VariantPlan, location: Place, links: set<Marker>, i: nat)
    requires !plan.Whole? && PlanKnown(s, plan) && i < |plan.xs|
    requires SettledSteps(s, PlanSteps(plan, location), links)
    ensures Paired(s, links, plan.xs[i], if plan.Matched? then plan.zs[i] else plan.ys[i])
  {
    match plan
    case Matched(xs, ys, zs, c) =>
      SettledParts(s, IndexSteps(xs, zs, c, location, |xs|), Growth(xs, ys, location), links);
      IndexFactAt(s, xs, zs, c, location, i, links);
    case Indexed(xs, ys, c) =>
      IndexFactAt(s, xs, ys, c, location, i, links);
  }

  ghost predicate CombinatorHolds(c: Combinator, ids: seq<Id>, v: Json, below: Acceptance) {
    if c == AllOf then AllHold(ids, v, below) else SomeHold(ids, v, below)
  }

  /** The variants of a response, compared position by position. */
  lemma IndexedCrosses(
    s: Scene, xs: seq<Id>, ys: seq<Id>, c: Combinator, v: Json, links: set<Marker>, f: Acceptance, h: Acceptance)
    requires |xs| == |ys| && Crosses(s, links, f, h)
    requires forall i :: 0 <= i < |xs| ==> Paired(s, links, xs[i], ys[i])
    requires CombinatorHolds(c, if s.direction == Request then xs else ys, v, f)
    ensures CombinatorHolds(c, if s.direction == Request then ys else xs, v, h)
  {
    forall i | 0 <= i < |xs|
      ensures Paired(s, links, xs[i], ys[i]) && Crossed(s, xs[i], ys[i], v, f, h)
    {
    }
    var from, to := if s.direction == Request then xs else ys, if s.direction == Request then ys else xs;
    if c != AllOf {
      var i :| 0 <= i < |from| && f(from[i], v);
      assert Crossed(s, xs[i], ys[i], v, f, h);
      assert h(to[i], v);
    } else {
      forall i | 0 <= i < |to|
        ensures h(to[i], v)
      {
        assert f(from[i], v) && Crossed(s, xs[i], ys[i], v, f, h);
      }
    }
  }

  /** The variants of a request, each old one compared with its match. */
  lemma MatchedCrosses(
    s: Scene, xs: seq<Id>, ys: seq<Id>, zs: seq<Id>, c: Combinator, v: Json, links: set<Marker>,
    f: Acceptance, h: Acceptance)
    requires s.Valid() && s.direction == Request && Crosses(s, links, f, h)
    requires Listed(s.base, xs) && Listed(s.cand, ys) && AllMatched(s, xs, ys) && zs == Matches(s, xs, ys)
    requires forall i :: 0 <= i < |xs| ==> Paired(s, links, xs[i], zs[i])
    requires c == AllOf ==> forall j {:trigger ys[j]} :: 0 <= j < |ys| ==> IsMatch(s, xs, ys, j) || h(ys[j], v)
    requires CombinatorHolds(c, xs, v, f)
    ensures CombinatorHolds(c, ys, v, h)
  {
    if c != AllOf {
      var i :| 0 <= i < |xs| && f(xs[i], v);
      assert Crossed(s, xs[i], zs[i], v, f, h) && FirstMatch(s, xs[i], ys) < |ys|;
      assert h(ys[FirstMatch(s, xs[i], ys)], v);
    } else {
      forall j | 0 <= j < |ys|
        ensures h(ys[j], v)
      {
        if IsMatch(s, xs, ys, j) {
          var i :| 0 <= i < |xs| && FirstMatch(s, xs[i], ys) == j;
          assert f(xs[i], v) && Crossed(s, xs[i], zs[i], v, f, h) && zs[i] == ys[j];
        }
      }
    }
  }

  // ---- one pair of nodes: `f` is a level of acceptance at the writer, and validity at the reader

  ghost function Written(s: Scene, check: Check, n: nat): Acceptance {
    Level(check, ReadingOf(s), WriterGraph(s), n)
  }

  ghost function Understood(s: Scene, check: Check): Acceptance {
    AllValid(check, ReadingOf(s), ReaderGraph(s))
  }

  ghost predicate Sent(s: Scene, check: Check, a: Id, b: Id, v: Json, n: nat)
    requires s.Known(a, b)
  {
    NodeHolds(check, ReadingOf(s), WriterGraph(s), WriterNode(s, s.base.nodes[a], s.cand.nodes[b]), v, Written(s, check, n))
  }

  ghost predicate Taken(s: Scene, check: Check, a: Id, b: Id, v: Json)
    requires s.Known(a, b)
  {
    NodeHolds(check, ReadingOf(s), ReaderGraph(s), ReaderNode(s, s.base.nodes[a], s.cand.nodes[b]), v, Understood(s, check))
  }

  lemma SentIsValid(s: Scene, check: Check, a: Id, b: Id, v: Json, n: nat)
    requires s.Known(a, b) && Sent(s, check, a, b, v, n)
    ensures ValidAt(check, ReadingOf(s), WriterGraph(s), WriterId(s, a, b), v)
  {
    assert Accepts(check, ReadingOf(s), WriterGraph(s), WriterId(s, a, b), v, n + 1);
  }

  lemma TakenIffValid(s: Scene, check: Check, a: Id, b: Id, v: Json)
    requires s.Known(a, b)
    ensures Taken(s, check, a, b, v) <==> ValidAt(check, ReadingOf(s), ReaderGraph(s), ReaderId(s, a, b), v)
  {
    ValidUnfolds(check, ReadingOf(s), ReaderGraph(s), ReaderId(s, a, b), v);
  }

  /** What stands beside a combinator or a reference crosses. */
  lemma BesideCrosses(s: Scene, check: Check, x: Node, y: Node, v: Json, links: set<Marker>, f: Acceptance, h: Acceptance)
    requires x.Schema? && y.Schema? && BesideKept(s.direction, x, y) && Crosses(s, links, f, h)
    requires OwnHolds(check, ReadingOf(s), WriterGraph(s), x, v, f)
    ensures KeywordsAccept(check, y, v) && EnumAccepts(y.enum, v)
    ensures v.Obj? ==> MembersHold(ReadingOf(s), y, v, h)
    ensures v.Arr? ==> ItemsHold(ItemsOf(ReaderGraph(s), y), v, h)
  {
    KeywordsCross(check, x, y, v);
    if v.Obj? {
      FreeMembersCross(s.direction, ReadingOf(s), x, y, v, f, h);
    }
    if v.Arr? {
      assert ItemsOf(ReaderGraph(s), y) == ReaderGraph(s).empty;
    }
  }

  lemma OneHolds(n: Node, c: Combinator, v: Json, below: Acceptance)
    requires n.Schema? && Proper(n) && OneCombinator(n) && FirstCombinator(n) == Some(c)
    ensures VariantsHold(n, v, below) <==> CombinatorHolds(c, VariantIds(VariantsOf(n, c)), v, below)
  {
  }

  lemma FirstHolds(n: Node, c: Combinator, v: Json, below: Acceptance)
    requires n.Schema? && Proper(n) && FirstCombinator(n) == Some(c) && VariantsHold(n, v, below)
    ensures CombinatorHolds(c, VariantIds(VariantsOf(n, c)), v, below)
  {
  }

  lemma PlanCrosses(
    s: Scene, plan: VariantPlan, location: Place, v: Json, links: set<Marker>, f: Acceptance, h: Acceptance)
    requires s.Valid() && !plan.Whole? && PlanKnown(s, plan) && Crosses(s, links, f, h)
    requires plan.Matched? ==>
      && s.direction == Request && Listed(s.base, plan.xs) && Listed(s.cand, plan.ys)
      && AllMatched(s, plan.xs, plan.ys) && plan.zs == Matches(s, plan.xs, plan.ys)
      && (plan.c == AllOf ==>
            forall j {:trigger plan.ys[j]} :: 0 <= j < |plan.ys| ==> IsMatch(s, plan.xs, plan.ys, j) || h(plan.ys[j], v))
    requires SettledSteps(s, PlanSteps(plan, location), links)
    requires CombinatorHolds(plan.c, if s.direction == Request then plan.xs else plan.ys, v, f)
    ensures CombinatorHolds(plan.c, if s.direction == Request then plan.ys else plan.xs, v, h)
  {
    forall i | 0 <= i < |plan.xs|
      ensures Paired(s, links, plan.xs[i], if plan.Matched? then plan.zs[i] else plan.ys[i])
    {
      PlanPairs(s, plan, location, links, i);
    }
    if plan.Matched? {
      MatchedCrosses(s, plan.xs, plan.ys, plan.zs, plan.c, v, links, f, h);
    } else {
      IndexedCrosses(s, plan.xs, plan.ys, plan.c, v, links, f, h);
    }
  }

  lemma VariantsCross(
    s: Scene, check: Check, a: Id, b: Id, location: Place, v: Json, links: set<Marker>, f: Acceptance, h: Acceptance)
    requires s.Valid() && s.Known(a, b) && s.base.nodes[a].Schema? && s.cand.nodes[b].Schema?
    requires FirstCombinator(s.base.nodes[a]).Some? || FirstCombinator(s.cand.nodes[b]).Some?
    requires Proper(s.base.nodes[a]) && Proper(s.cand.nodes[b]) && CombinatorComparable(s, check, a, b)
    requires Crosses(s, links, f, h) && h == Understood(s, check)
    requires SettledSteps(s, PlanSteps(PlanVariants(s, a, b), location), links)
    requires VariantsHold(WriterNode(s, s.base.nodes[a], s.cand.nodes[b]), v, f)
    requires s.direction == Request ==> ValidAt(check, ClosedRecords, s.base, a, v)
    ensures VariantsHold(ReaderNode(s, s.base.nodes[a], s.cand.nodes[b]), v, h)
  {
    var o, n := s.base.nodes[a], s.cand.nodes[b];
    var plan := PlanVariants(s, a, b);
    WholeMeansDifferent(s, a, b);
    SettledFirst(s, PlanSteps(plan, location), links);
    FirstHolds(WriterNode(s, o, n), plan.c, v, f);
    PlanCrosses(s, plan, location, v, links, f, h);
    OneHolds(ReaderNode(s, o, n), plan.c, v, h);
  }

  lemma CombinatorNodeCrosses(
    s: Scene, check: Check, a: Id, b: Id, location: Place, v: Json, links: set<Marker>, n: nat)
    requires s.Valid() && s.Known(a, b) && s.base.nodes[a].Schema? && s.cand.nodes[b].Schema?
    requires FirstCombinator(s.base.nodes[a]).Some? || FirstCombinator(s.cand.nodes[b]).Some?
    requires Comparable(s, check, a, b) && Crosses(s, links, Written(s, check, n), Understood(s, check))
    requires SettledSteps(s, PlanSteps(PlanVariants(s, a, b), location), links)
    requires Sent(s, check, a, b, v, n)
    ensures Taken(s, check, a, b, v)
  {
    var x, y := WriterNode(s, s.base.nodes[a], s.cand.nodes[b]), ReaderNode(s, s.base.nodes[a], s.cand.nodes[b]);
    SentIsValid(s, check, a, b, v, n);
    BesideCrosses(s, check, x, y, v, links, Written(s, check, n), Understood(s, check));
    VariantsCross(s, check, a, b, location, v, links, Written(s, check, n), Understood(s, check));
  }

  /** The keywords that the shape steps leave behind. */
  lemma ShapeKeepsKeys(s: Scene, a: Id, b: Id, location: Place, links: set<Marker>)
    requires s.Valid() && s.Known(a, b) && s.base.nodes[a].Schema? && s.cand.nodes[b].Schema?
    requires Proper(s.base.nodes[a]) && Proper(s.cand.nodes[b]) && LiteralsAgree(s.base.nodes[a], s.cand.nodes[b])
    requires PlainComparable(s, s.base.nodes[a], s.cand.nodes[b])
    requires SettledSteps(s, ShapeSteps(s, a, b, location), links)
    ensures KeysKept(WriterNode(s, s.base.nodes[a], s.cand.nodes[b]), ReaderNode(s, s.base.nodes[a], s.cand.nodes[b]))
  {
    var o, n := s.base.nodes[a], s.cand.nodes[b];
    var x, y := WriterNode(s, o, n), ReaderNode(s, o, n);
    forall key | key in y.keywords
      ensures KeyKept(key, x, y)
    {
      if !Overlooked(o, n, key) {
        ComparedIsRelated(s, a, b, location, key, links);
        RelatedIsKept(s, o, n, key);
      }
    }
  }

  lemma ComparedIsRelated(s: Scene, a: Id, b: Id, location: Place, key: Key, links: set<Marker>)
    requires s.Valid() && s.Known(a, b) && s.base.nodes[a].Schema? && s.cand.nodes[b].Schema?
    requires !Overlooked(s.base.nodes[a], s.cand.nodes[b], key)
    requires SettledSteps(s, ShapeSteps(s, a, b, location), links)
    ensures KeyRelated(s, s.base.nodes[a], s.cand.nodes[b], key)
  {
    var o, n := s.base.nodes[a], s.cand.nodes[b];
    SettledFirst(s, ShapeSteps(s, a, b, location), links);
    if key != Type && key != Format {
      var items := if Get(o.keywords, Type) == Str("array") then [Walk((ItemsOf(s.base, o), ItemsOf(s.cand, n)), Items(location))] else [];
      SettledParts(s, items, KeywordSteps(s, o, n, location, KeyCount()), links);
      ConstraintKeysAreAll(key);
      var i :| 0 <= i < KeyCount() && CONSTRAINT_KEYS[i] == key;
      KeywordFactAt(s, o, n, location, KeyCount(), i, links);
    }
  }

  lemma ItemsCross(
    s: Scene, check: Check, a: Id, b: Id, location: Place, v: Json, links: set<Marker>, f: Acceptance, h: Acceptance)
    requires s.Valid() && s.Known(a, b) && s.base.nodes[a].Schema? && s.cand.nodes[b].Schema? && v.Arr?
    requires PlainComparable(s, s.base.nodes[a], s.cand.nodes[b]) && Crosses(s, links, f, h)
    requires SettledSteps(s, ShapeSteps(s, a, b, location), links)
    requires KeywordsAccept(check, ReaderNode(s, s.base.nodes[a], s.cand.nodes[b]), v)
    requires ItemsHold(ItemsOf(WriterGraph(s), WriterNode(s, s.base.nodes[a], s.cand.nodes[b])), v, f)
    ensures ItemsHold(ItemsOf(ReaderGraph(s), ReaderNode(s, s.base.nodes[a], s.cand.nodes[b])), v, h)
  {
    var o, n := s.base.nodes[a], s.cand.nodes[b];
    var y := ReaderNode(s, o, n);
    if y.items.Some? {
      assert Type in y.keywords && KeywordAccepts(check, Type, y.keywords[Type], v);
      ComparedIsRelated(s, a, b, location, Type, links);
      assert Get(y.keywords, Type) == Str("array");
      assert Get(o.keywords, Type) == Str("array");
      var items := [Walk((ItemsOf(s.base, o), ItemsOf(s.cand, n)), Items(location))];
      SettledFirst(s, ShapeSteps(s, a, b, location), links);
      SettledParts(s, items, KeywordSteps(s, o, n, location, KeyCount()), links);
      SettledFirst(s, items, links);
      forall i | 0 <= i < |v.items|
        ensures h(ItemsOf(ReaderGraph(s), y), v.items[i])
      {
        assert Crossed(s, ItemsOf(s.base, o), ItemsOf(s.cand, n), v.items[i], f, h);
      }
    } else {
      assert ItemsOf(ReaderGraph(s), y) == ReaderGraph(s).empty;
    }
  }

  lemma PlainMembersCross(
    s: Scene, a: Id, b: Id, location: Place, v: Json, links: set<Marker>, f: Acceptance, h: Acceptance)
    requires s.Valid() && s.Known(a, b) && s.base.nodes[a].Schema? && s.cand.nodes[b].Schema? && v.Obj?
    requires Proper(s.base.nodes[a]) && Proper(s.cand.nodes[b])
    requires PlainComparable(s, s.base.nodes[a], s.cand.nodes[b]) && Crosses(s, links, f, h)
    requires SettledSteps(s, ShapeSteps(s, a, b, location), links)
    requires MembersHold(ReadingOf(s), WriterNode(s, s.base.nodes[a], s.cand.nodes[b]), v, f)
    ensures MembersHold(ReadingOf(s), ReaderNode(s, s.base.nodes[a], s.cand.nodes[b]), v, h)
  {
    var o, n := s.base.nodes[a], s.cand.nodes[b];
    SettledFirst(s, ShapeSteps(s, a, b, location), links);
    if ObjectLike(o, n) {
      RecordCrosses(s, a, b, location, v, links, f, h);
    } else {
      FreeMembersCross(s.direction, ReadingOf(s), WriterNode(s, o, n), ReaderNode(s, o, n), v, f, h);
    }
  }

  /** What a settled step list says about two nodes without combinators. */
  lemma PlainSteps(s: Scene, a: Id, b: Id, location: Place, links: set<Marker>)
    requires s.Valid() && s.Known(a, b) && s.base.nodes[a].Schema? && s.cand.nodes[b].Schema?
    requires FirstCombinator(s.base.nodes[a]).None? && FirstCombinator(s.cand.nodes[b]).None?
    requires Proper(s.base.nodes[a]) && Proper(s.cand.nodes[b])
    requires !DropsEnum(s, s.base.nodes[a], s.cand.nodes[b])
    requires SettledSteps(s, Steps(s, a, b, location), links)
    ensures SettledSteps(s, CompareEnums(s.direction, s.base.nodes[a].enum, s.cand.nodes[b].enum, location).steps, links)
    ensures SettledSteps(s, ShapeSteps(s, a, b, location), links)
  {
    var verdict := CompareEnums(s.direction, s.base.nodes[a].enum, s.cand.nodes[b].enum, location);
    var rest := if verdict.stop then [] else ShapeSteps(s, a, b, location);
    SettledParts(s, verdict.steps, rest, links);
    SettledFirst(s, verdict.steps, links);
  }

  lemma PlainNodeCrosses(
    s: Scene, check: Check, a: Id, b: Id, location: Place, v: Json, links: set<Marker>, n: nat)
    requires s.Valid() && s.Known(a, b) && s.base.nodes[a].Schema? && s.cand.nodes[b].Schema?
    requires FirstCombinator(s.base.nodes[a]).None? && FirstCombinator(s.cand.nodes[b]).None?
    requires !DropsEnum(s, s.base.nodes[a], s.cand.nodes[b])
    requires Comparable(s, check, a, b) && Crosses(s, links, Written(s, check, n), Understood(s, check))
    requires SettledSteps(s, Steps(s, a, b, location), links)
    requires Sent(s, check, a, b, v, n)
    ensures Taken(s, check, a, b, v)
  {
    var f, h := Written(s, check, n), Understood(s, check);
    var x, y := WriterNode(s, s.base.nodes[a], s.cand.nodes[b]), ReaderNode(s, s.base.nodes[a], s.cand.nodes[b]);
    PlainSteps(s, a, b, location, links);
    EnumsKept(s, s.base.nodes[a], s.cand.nodes[b], location, links);
    ShapeKeepsKeys(s, a, b, location, links);
    KeywordsCross(check, x, y, v);
    if v.Obj? {
      PlainMembersCross(s, a, b, location, v, links, f, h);
    }
    if v.Arr? {
      ItemsCross(s, check, a, b, location, v, links, f, h);
    }
    assert VariantsHold(y, v, h);
  }

  /** Where a request enum is dropped, what it listed is still accepted, and nothing else was. */
  lemma DroppedEnumCrosses(s: Scene, check: Check, a: Id, b: Id, v: Json, n: nat)
    requires s.Valid() && s.Known(a, b) && s.base.nodes[a].Schema? && s.cand.nodes[b].Schema?
    requires DropsEnum(s, s.base.nodes[a], s.cand.nodes[b])
    requires ListedKept(s, check, a, b, s.base.nodes[a].enum.values) && Sent(s, check, a, b, v, n)
    ensures Taken(s, check, a, b, v)
  {
    var values := s.base.nodes[a].enum.values;
    SentIsValid(s, check, a, b, v, n);
    var i :| 0 <= i < |values| && values[i] == v;
    TakenIffValid(s, check, a, b, v);
  }

  lemma ScalarCrosses(s: Scene, check: Check, a: Id, b: Id, location: Place, v: Json, links: set<Marker>, n: nat)
    requires s.Valid() && s.Known(a, b) && (s.base.nodes[a].Scalar? || s.cand.nodes[b].Scalar?)
    requires Comparable(s, check, a, b) && SettledSteps(s, Steps(s, a, b, location), links)
    requires Sent(s, check, a, b, v, n)
    ensures Taken(s, check, a, b, v)
  {
    SettledFirst(s, Steps(s, a, b, location), links);
    assert SameShell(Semantic(s.base.nodes[a]), Semantic(s.cand.nodes[b]));
  }

  lemma NodeCrosses(s: Scene, check: Check, a: Id, b: Id, location: Place, v: Json, links: set<Marker>, n: nat)
    requires s.Valid() && s.Known(a, b)
    requires SettledSteps(s, Steps(s, a, b, location), links)
    requires Comparable(s, check, a, b) && Crosses(s, links, Written(s, check, n), Understood(s, check))
    requires Sent(s, check, a, b, v, n)
    ensures Taken(s, check, a, b, v)
  {
    var o, m := s.base.nodes[a], s.cand.nodes[b];
    if o.Scalar? || m.Scalar? {
      ScalarCrosses(s, check, a, b, location, v, links, n);
    } else if FirstCombinator(o).Some? || FirstCombinator(m).Some? {
      assert Steps(s, a, b, location) == PlanSteps(PlanVariants(s, a, b), location);
      CombinatorNodeCrosses(s, check, a, b, location, v, links, n);
    } else if DropsEnum(s, o, m) {
      DroppedEnumCrosses(s, check, a, b, v, n);
    } else {
      PlainNodeCrosses(s, check, a, b, location, v, links, n);
    }
  }

  // ---- positions, behind their references

  /** Acceptance at a position, carried to validity at the other side. */
  ghost predicate Carried(s: Scene, check: Check, a: Id, b: Id, v: Json, n: nat) {
    Crossed(s, a, b, v, Written(s, check, n), Understood(s, check))
  }

  ghost predicate AllCarried(s: Scene, check: Check, links: set<Marker>, n: nat) {
    forall a, b, v {:trigger Carried(s, check, a, b, v, n)} :: Paired(s, links, a, b) ==> Carried(s, check, a, b, v, n)
  }

  lemma CarriedCrosses(s: Scene, check: Check, links: set<Marker>, n: nat)
    requires s.Valid() && AllCarried(s, check, links, n)
    ensures Crosses(s, links, Written(s, check, n), Understood(s, check))
  {
    forall c, d, v | Paired(s, links, c, d)
      ensures Crossed(s, c, d, v, Written(s, check, n), Understood(s, check))
    {
      assert Carried(s, check, c, d, v, n);
    }
    forall v
      ensures Understood(s, check)(ReaderGraph(s).empty, v)
    {
      EmptyIsValid(check, ReadingOf(s), ReaderGraph(s), v);
    }
  }

  /** What a position accepts, its resolved node accepts, at a height no greater. */
  lemma SentBehind(s: Scene, check: Check, a: Id, b: Id, v: Json, n: nat) returns (m: nat)
    requires s.Known(a, b) && n > 0 && Written(s, check, n)(WriterId(s, a, b), v)
    ensures m < n && Sent(s, check, Resolve(s.base, a), Resolve(s.cand, b), v, m)
  {
    var g, c := WriterGraph(s), WriterId(s, a, b);
    assert Accepts(check, ReadingOf(s), g, c, v, n);
    if Target(g, g.nodes[c]).Some? {
      assert Level(check, ReadingOf(s), g, n - 1)(Target(g, g.nodes[c]).value, v);
      assert Accepts(check, ReadingOf(s), g, Target(g, g.nodes[c]).value, v, n - 1);
      m := n - 2;
    } else {
      m := n - 1;
    }
  }

  /** What is beside a reference of the reader is accepted as well. */
  lemma TakenBefore(s: Scene, check: Check, links: set<Marker>, a: Id, b: Id, v: Json, n: nat)
    requires s.Valid() && s.Known(a, b) && n > 0 && Written(s, check, n)(WriterId(s, a, b), v)
    requires PositionComparable(s, a, b) && Taken(s, check, Resolve(s.base, a), Resolve(s.cand, b), v)
    requires Crosses(s, links, Written(s, check, n - 1), Understood(s, check))
    ensures Taken(s, check, a, b, v)
  {
    var x, y := WriterNode(s, s.base.nodes[a], s.cand.nodes[b]), ReaderNode(s, s.base.nodes[a], s.cand.nodes[b]);
    TakenIffValid(s, check, Resolve(s.base, a), Resolve(s.cand, b), v);
    assert Accepts(check, ReadingOf(s), WriterGraph(s), WriterId(s, a, b), v, n);
    assert NodeHolds(check, ReadingOf(s), WriterGraph(s), x, v, Written(s, check, n - 1));
    if Target(ReaderGraph(s), y).Some? {
      if x.Scalar? {
        EmptyOwnHolds(check, s, v, links, Written(s, check, n - 1), Understood(s, check), y);
      } else {
        BesideCrosses(s, check, x, y, v, links, Written(s, check, n - 1), Understood(s, check));
      }
    }
  }

  lemma EmptyOwnHolds(check: Check, s: Scene, v: Json, links: set<Marker>, f: Acceptance, h: Acceptance, y: Node)
    requires y.Schema? && BesideKept(s.direction, EMPTY_SCHEMA, y) && Crosses(s, links, f, h)
    ensures KeywordsAccept(check, y, v) && EnumAccepts(y.enum, v)
    ensures v.Obj? ==> MembersHold(ReadingOf(s), y, v, h)
    ensures v.Arr? ==> ItemsHold(ItemsOf(ReaderGraph(s), y), v, h)
  {
    assert KeywordsAccept(check, EMPTY_SCHEMA, v);
    KeywordsCross(check, EMPTY_SCHEMA, y, v);
    if v.Obj? {
      assert MembersHold(ReadingOf(s), EMPTY_SCHEMA, v, f);
      FreeMembersCross(s.direction, ReadingOf(s), EMPTY_SCHEMA, y, v, f, h);
    }
    if v.Arr? {
      assert ItemsOf(ReaderGraph(s), y) == ReaderGraph(s).empty;
    }
  }

  ghost predicate AllConsidered(s: Scene, check: Check, links: set<Marker>)
    requires s.Valid()
  {
    forall m {:trigger m in links} :: m in links ==>
      && s.Known(m.0, m.1)
      && (Unchanged(s.base, s.cand, m.0, m.1)
          || (PositionComparable(s, m.0, m.1) && Comparable(s, check, Resolve(s.base, m.0), Resolve(s.cand, m.1))))
  }

  lemma LinkCarries(s: Scene, check: Check, links: set<Marker>, a: Id, b: Id, v: Json, m: nat)
    requires s.Valid() && s.Known(a, b) && Explained(s, links, a, b)
    requires Comparable(s, check, Resolve(s.base, a), Resolve(s.cand, b))
    requires Crosses(s, links, Written(s, check, m), Understood(s, check))
    requires Sent(s, check, Resolve(s.base, a), Resolve(s.cand, b), v, m)
    ensures Taken(s, check, Resolve(s.base, a), Resolve(s.cand, b), v)
  {
    var x, y := Resolve(s.base, a), Resolve(s.cand, b);
    var location :| SettledSteps(s, Steps(s, x, y, location), links);
    NodeCrosses(s, check, x, y, location, v, links, m);
  }

  lemma PositionCarries(s: Scene, check: Check, links: set<Marker>, a: Id, b: Id, v: Json, n: nat)
    requires s.Valid() && s.Known(a, b) && Explained(s, links, a, b) && PositionComparable(s, a, b)
    requires Comparable(s, check, Resolve(s.base, a), Resolve(s.cand, b))
    requires n > 0 && Written(s, check, n)(WriterId(s, a, b), v)
    requires forall m: nat :: m < n ==> AllCarried(s, check, links, m)
    ensures Taken(s, check, a, b, v)
  {
    var m := SentBehind(s, check, a, b, v, n);
    CarriedCrosses(s, check, links, m);
    LinkCarries(s, check, links, a, b, v, m);
    CarriedCrosses(s, check, links, n - 1);
    TakenBefore(s, check, links, a, b, v, n);
  }

  /** Where the documents reach the same, nothing needs to be compared. */
  lemma UnchangedCarries(s: Scene, check: Check, a: Id, b: Id, v: Json, n: nat)
    requires s.Known(a, b) && Unchanged(s.base, s.cand, a, b)
    ensures Carried(s, check, a, b, v, n)
  {
    if Written(s, check, n)(WriterId(s, a, b), v) {
      assert Accepts(check, ReadingOf(s), WriterGraph(s), WriterId(s, a, b), v, n);
      ReachDetermines(check, ReadingOf(s), s.base, s.cand, a, b, v);
    }
  }

  /** The simulation carries derivations of every height. */
  lemma {:induction false} SimulationCarries(s: Scene, check: Check, links: set<Marker>, n: nat)
    requires s.Valid() && Simulation(s, links) && AllConsidered(s, check, links)
    ensures AllCarried(s, check, links, n)
  {
    forall m: nat | m < n
      ensures AllCarried(s, check, links, m)
    {
      SimulationCarries(s, check, links, m);
    }
    forall a: Id, b: Id, v | Paired(s, links, a, b)
      ensures Carried(s, check, a, b, v, n)
    {
      assert (a, b) in links;
      if Unchanged(s.base, s.cand, a, b) {
        UnchangedCarries(s, check, a, b, v, n);
      } else if Written(s, check, n)(WriterId(s, a, b), v) {
        PositionCarries(s, check, links, a, b, v, n);
        TakenIffValid(s, check, a, b, v);
      }
    }
  }

  // ---- the results

  /** The walk from a pair, started with an empty `seen` set, reports nothing breaking, in a region where
      it overlooks nothing that matters. */
  ghost predicate Passes(
    s: Scene, check: Check, pairs: set<Marker>, a: Id, b: Id, location: Place, changes: seq<Change>)
    requires s.Valid() && s.Known(a, b)
  {
    WalkerDrives(s);
    && Suitable(s, check, pairs, a, b)
    && NoBreaking(Visit(WalkerOf(s), (a, b), location, Trace(changes, {})).changes)
  }

  lemma WrittenIsUnderstood(
    s: Scene, check: Check, pairs: set<Marker>, a: Id, b: Id, location: Place, changes: seq<Change>, v: Json)
    requires s.Valid() && s.Known(a, b) && Passes(s, check, pairs, a, b, location, changes)
    requires ValidAt(check, ReadingOf(s), WriterGraph(s), WriterId(s, a, b), v)
    ensures ValidAt(check, ReadingOf(s), ReaderGraph(s), ReaderId(s, a, b), v)
  {
    WalkerDrives(s);
    WalkLeavesSimulation(s, check, WalkerOf(s), pairs, a, b, location, changes);
    var links := Links(s, pairs, Visit(WalkerOf(s), (a, b), location, Trace(changes, {})).seen);
    var n: nat :| Accepts(check, ReadingOf(s), WriterGraph(s), WriterId(s, a, b), v, n);
    assert AllConsidered(s, check, links) by {
      forall m | m in links
        ensures m in pairs && Handled(s, check, pairs, m.0, m.1)
      {
      }
    }
    SimulationCarries(s, check, links, n);
    assert Carried(s, check, a, b, v, n);
    assert Written(s, check, n)(WriterId(s, a, b), v);
  }

  /** A request schema may only accept more: every value the base accepted from clients that send
      declared fields is still accepted. */
  lemma RequestSoundness(
    s: Scene, check: Check, pairs: set<Marker>, a: Id, b: Id, location: Place, changes: seq<Change>, v: Json)
    requires s.Valid() && s.Known(a, b) && s.direction == Request && Passes(s, check, pairs, a, b, location, changes)
    requires ValidAt(check, ClosedRecords, s.base, a, v)
    ensures ValidAt(check, ClosedRecords, s.cand, b, v)
  {
    WrittenIsUnderstood(s, check, pairs, a, b, location, changes, v);
  }

  /** A response schema may only promise more: every value the candidate can send is one the base
      described, for clients that ignore fields they do not know. */
  lemma ResponseSoundness(
    s: Scene, check: Check, pairs: set<Marker>, a: Id, b: Id, location: Place, changes: seq<Change>, v: Json)
    requires s.Valid() && s.Known(a, b) && s.direction == Response && Passes(s, check, pairs, a, b, location, changes)
    requires ValidAt(check, OpenRecords, s.cand, b, v)
    ensures ValidAt(check, OpenRecords, s.base, a, v)
  {
    WrittenIsUnderstood(s, check, pairs, a, b, location, changes, v);
  }
}
