/** The report of a contract comparison is the one its rules describe. */
module ContractReportProof {
  import opened Common
  import opened Json
  import opened SchemaGraph
  import opened SchemaTraversal
  import opened SchemaWalk
  import opened Contracts
  import opened ContractReport
  import opened ContractTravel

  // ---- finding a change in what a step list reports

  /** Whether a given change is among what a step list reports, as a value. */
  type Finder = seq<ContractStep> -> bool

  ghost predicate Spreads(test: Finder) {
    && !test([])
    && forall p, q {:trigger Joined(p, q)} :: test(p + q) <==> test(p) || test(q)
  }

  ghost function FinderOf(r: Review, c: Change): Finder
    requires r.Valid()
  {
    (steps: seq<ContractStep>) => r.Valid() && c in Changes(r, steps)
  }

  lemma FinderSpreads(r: Review, c: Change)
    requires r.Valid()
    ensures Spreads(FinderOf(r, c))
  {
    forall p, q
      ensures c in Changes(r, p + q) <==> c in Changes(r, p) || c in Changes(r, q)
    {
      ChangesConcat(r, p, q);
    }
  }

  /** What the finder says of one step. */
  ghost predicate Finds(test: Finder, r: Review, c: Change)
    requires r.Valid()
  {
    && Spreads(test)
    && (forall change {:trigger Note(change)} :: test([Note(change)]) <==> change == c)
    && (forall direction, a, b, at {:trigger Compare(direction, a, b, at)} ::
          test([Compare(direction, a, b, at)]) <==> c in WalkChanges(r, direction, a, b, at))
  }

  lemma FinderFinds(r: Review, c: Change)
    requires r.Valid()
    ensures Finds(FinderOf(r, c), r, c)
  {
    FinderSpreads(r, c);
    forall step: ContractStep
      ensures Changes(r, [step]) == StepChanges(r, step)
    {
      assert [step][..0] == [];
      assert Changes(r, [step]) == [] + StepChanges(r, step);
    }
  }

  lemma Both(test: Finder, p: seq<ContractStep>, q: seq<ContractStep>)
    requires Spreads(test)
    ensures test(p + q) <==> test(p) || test(q)
  {
    assert Joined(p, q);
  }

  /** A list built item by item. */
  ghost predicate Built<T(!new)>(whole: nat -> seq<ContractStep>, part: T -> seq<ContractStep>, xs: seq<T>) {
    whole(0) == [] && forall k: nat {:trigger xs[k]} :: k < |xs| ==> whole(k + 1) == whole(k) + part(xs[k])
  }

  lemma {:induction false} SomeBuilt<T(!new)>(
    test: Finder, whole: nat -> seq<ContractStep>, part: T -> seq<ContractStep>, xs: seq<T>, k: nat)
    requires Spreads(test) && Built(whole, part, xs) && k <= |xs|
    ensures test(whole(k)) <==> exists i :: 0 <= i < k && test(part(xs[i]))
    decreases k
  {
    if k > 0 {
      SomeBuilt(test, whole, part, xs, k - 1);
      assert whole(k) == whole(k - 1) + part(xs[k - 1]);
      Both(test, whole(k - 1), part(xs[k - 1]));
    }
  }

  lemma AnyBuilt<T(!new)>(test: Finder, whole: nat -> seq<ContractStep>, part: T -> seq<ContractStep>, xs: seq<T>)
    requires Spreads(test) && Built(whole, part, xs)
    ensures test(whole(|xs|)) <==> exists x :: x in xs && test(part(x))
  {
    SomeBuilt(test, whole, part, xs, |xs|);
    forall x | x in xs && test(part(x))
      ensures exists i :: 0 <= i < |xs| && test(part(xs[i]))
    {
      var i :| 0 <= i < |xs| && xs[i] == x;
      assert test(part(xs[i]));
    }
  }

  // ---- parameters

  lemma {:induction false} RestIs(ps: seq<Parameter>, position: string, name: string, p: Parameter)
    ensures p in WithoutParameter(ps, position, name) <==> p in ps && !(p.position == position && p.name == name)
  {
    if ps != [] {
      RestIs(ps[..|ps| - 1], position, name, p);
      assert ps == ps[..|ps| - 1] + [ps[|ps| - 1]];
    }
  }

  lemma InEffectStep(ps: seq<Parameter>, last: Parameter, p: Parameter)
    ensures InEffect(ps + [last], p) <==> p == last || (InEffect(ps, p) && !SamePlace(last, p))
  {
    var more := ps + [last];
    if p == last {
      assert more[|ps|] == p;
    }
    if InEffect(ps, p) && !SamePlace(last, p) {
      var i :| 0 <= i < |ps| && ps[i] == p && forall j :: i < j < |ps| ==> !SamePlace(ps[j], p);
      assert more[i] == p;
    }
    if InEffect(more, p) && p != last {
      var i :| 0 <= i < |more| && more[i] == p && forall j :: i < j < |more| ==> !SamePlace(more[j], p);
      assert ps[i] == p && !SamePlace(more[|ps|], p);
      forall j | i < j < |ps|
        ensures !SamePlace(ps[j], p)
      {
        assert more[j] == ps[j];
      }
    }
  }

  /** Merging keeps the parameters in effect. */
  lemma {:induction false} MergeIff(ps: seq<Parameter>, p: Parameter)
    ensures p in Merge(ps) <==> InEffect(ps, p)
  {
    if ps != [] {
      var front, last := ps[..|ps| - 1], ps[|ps| - 1];
      assert ps == front + [last];
      MergeIff(front, p);
      RestIs(Merge(front), last.position, last.name, p);
      InEffectStep(front, last, p);
    }
  }

  /** There is one at most at each place. */
  lemma InEffectOnce(ps: seq<Parameter>, p: Parameter, q: Parameter)
    requires InEffect(ps, p) && InEffect(ps, q) && SamePlace(p, q)
    ensures p == q
  {
    var i :| 0 <= i < |ps| && ps[i] == p && forall j :: i < j < |ps| ==> !SamePlace(ps[j], p);
    var k :| 0 <= k < |ps| && ps[k] == q && forall j :: k < j < |ps| ==> !SamePlace(ps[j], q);
    assert !(i < k) && !(k < i);
  }

  lemma FindInEffect(qs: seq<Parameter>, p: Parameter)
    ensures match FindParameter(Merge(qs), p.position, p.name)
      case None => forall q :: InEffect(qs, q) ==> !SamePlace(p, q)
      case Some(found) => InEffect(qs, found) && SamePlace(p, found)
                          && forall q :: InEffect(qs, q) && SamePlace(p, q) ==> q == found
  {
    forall q
      ensures q in Merge(qs) <==> InEffect(qs, q)
    {
      MergeIff(qs, q);
    }
    var found := FindParameter(Merge(qs), p.position, p.name);
    if found.Some? {
      forall q | InEffect(qs, q) && SamePlace(p, q)
        ensures q == found.value
      {
        InEffectOnce(qs, q, found.value);
      }
    }
  }

  lemma KeptParameterFound(test: Finder, r: Review, p: Parameter, q: Parameter, at: Place, c: Change)
    requires r.Valid() && Finds(test, r, c)
    requires at.ParameterAt?
    ensures test(RequiredFlags(p, q, at)
                 + (if PyEq(p.shape, q.shape) then [] else [Bad(ParameterSemantics, at)])
                 + [Compare(Request, At(r.base.graph, p.schema, r.base.graph.none), At(r.cand.graph, q.schema, r.cand.graph.none), at)])
            <==> KeptParameterRule(r, p, q, at, c)
  {
    var flags := RequiredFlags(p, q, at);
    var shapes := if PyEq(p.shape, q.shape) then [] else [Bad(ParameterSemantics, at)];
    var walk := [Compare(Request, At(r.base.graph, p.schema, r.base.graph.none), At(r.cand.graph, q.schema, r.cand.graph.none), at)];
    Both(test, flags + shapes, walk);
    Both(test, flags, shapes);
  }

  lemma OldParameterFound(test: Finder, r: Review, p: Parameter, qs: seq<Parameter>, place: Place, c: Change)
    requires r.Valid() && Finds(test, r, c)
    ensures test(OldParameter(r, p, Merge(qs), place)) <==> OldParameterRule(r, p, qs, place, c)
  {
    var at := ParameterAt(place, p.position, p.name);
    FindInEffect(qs, p);
    match FindParameter(Merge(qs), p.position, p.name)
    case None =>
    case Some(q) =>
      KeptParameterFound(test, r, p, q, at, c);
  }

  lemma NewParameterFound(test: Finder, r: Review, ps: seq<Parameter>, q: Parameter, place: Place, c: Change)
    requires r.Valid() && Finds(test, r, c)
    ensures test(NewParameter(Merge(ps), q, place)) <==> NewParameterRule(ps, q, place, c)
  {
    FindInEffect(ps, q);
  }

  ghost function OldParameterWhole(r: Review, earlier: seq<Parameter>, later: seq<Parameter>, place: Place): nat -> seq<ContractStep>
  {
    (k: nat) => if k <= |earlier| then OldParameters(r, earlier, later, place, k) else []
  }

  ghost function OldParameterPart(r: Review, earlier: seq<Parameter>, later: seq<Parameter>, place: Place): Parameter -> seq<ContractStep>
  {
    (x: Parameter) => OldParameter(r, x, later, place)
  }

  lemma OldParameterGrows(r: Review, earlier: seq<Parameter>, later: seq<Parameter>, place: Place, k: nat)
    requires k < |earlier|
    ensures OldParameterWhole(r, earlier, later, place)(k + 1) == OldParameterWhole(r, earlier, later, place)(k) + OldParameterPart(r, earlier, later, place)(earlier[k])
  {
  }

  lemma AnyOldParameter(test: Finder, r: Review, earlier: seq<Parameter>, later: seq<Parameter>, place: Place)
    requires Spreads(test)
    ensures test(OldParameters(r, earlier, later, place, |earlier|)) <==> exists x :: x in earlier && test(OldParameterPart(r, earlier, later, place)(x))
  {
    var whole, part := OldParameterWhole(r, earlier, later, place), OldParameterPart(r, earlier, later, place);
    forall k: nat {:trigger earlier[k]} | k < |earlier|
      ensures whole(k + 1) == whole(k) + part(earlier[k])
    {
      OldParameterGrows(r, earlier, later, place, k);
    }
    AnyBuilt(test, whole, part, earlier);
  }

  ghost function NewParameterWhole(earlier: seq<Parameter>, later: seq<Parameter>, place: Place): nat -> seq<ContractStep>
  {
    (k: nat) => if k <= |later| then NewParameters(earlier, later, place, k) else []
  }

  ghost function NewParameterPart(earlier: seq<Parameter>, later: seq<Parameter>, place: Place): Parameter -> seq<ContractStep>
  {
    (x: Parameter) => NewParameter(earlier, x, place)
  }

  lemma NewParameterGrows(earlier: seq<Parameter>, later: seq<Parameter>, place: Place, k: nat)
    requires k < |later|
    ensures NewParameterWhole(earlier, later, place)(k + 1) == NewParameterWhole(earlier, later, place)(k) + NewParameterPart(earlier, later, place)(later[k])
  {
  }

  lemma AnyNewParameter(test: Finder, earlier: seq<Parameter>, later: seq<Parameter>, place: Place)
    requires Spreads(test)
    ensures test(NewParameters(earlier, later, place, |later|)) <==> exists x :: x in later && test(NewParameterPart(earlier, later, place)(x))
  {
    var whole, part := NewParameterWhole(earlier, later, place), NewParameterPart(earlier, later, place);
    forall k: nat {:trigger later[k]} | k < |later|
      ensures whole(k + 1) == whole(k) + part(later[k])
    {
      NewParameterGrows(earlier, later, place, k);
    }
    AnyBuilt(test, whole, part, later);
  }

  lemma OldParametersFound(test: Finder, r: Review, ps: seq<Parameter>, qs: seq<Parameter>, place: Place, c: Change)
    requires r.Valid() && Finds(test, r, c)
    ensures test(OldParameters(r, Merge(ps), Merge(qs), place, |Merge(ps)|)) <==> OldParametersRule(r, ps, qs, place, c)
  {
    var earlier, later := Merge(ps), Merge(qs);
    AnyOldParameter(test, r, earlier, later, place);
    forall p
      ensures p in earlier && test(OldParameterPart(r, earlier, later, place)(p)) <==> InEffect(ps, p) && OldParameterRule(r, p, qs, place, c)
    {
      MergeIff(ps, p);
      OldParameterFound(test, r, p, qs, place, c);
    }
  }

  lemma NewParametersFound(test: Finder, r: Review, ps: seq<Parameter>, qs: seq<Parameter>, place: Place, c: Change)
    requires r.Valid() && Finds(test, r, c)
    ensures test(NewParameters(Merge(ps), Merge(qs), place, |Merge(qs)|)) <==> NewParametersRule(ps, qs, place, c)
  {
    var earlier, later := Merge(ps), Merge(qs);
    AnyNewParameter(test, earlier, later, place);
    forall q
      ensures q in later && test(NewParameterPart(earlier, later, place)(q)) <==> InEffect(qs, q) && NewParameterRule(ps, q, place, c)
    {
      MergeIff(qs, q);
      NewParameterFound(test, r, ps, q, place, c);
    }
  }

  // ---- lists looked up by a name

  lemma FirstHere<T(!new)>(xs: seq<T>, has: T -> bool)
    requires xs != [] && has(xs[0])
    ensures AnyAmong(xs, has) && forall x :: FirstAmong(xs, has, x) <==> x == xs[0]
  {
  }

  lemma FirstLater<T(!new)>(xs: seq<T>, has: T -> bool)
    requires xs != [] && !has(xs[0])
    ensures AnyAmong(xs, has) <==> AnyAmong(xs[1..], has)
    ensures forall x :: FirstAmong(xs, has, x) <==> FirstAmong(xs[1..], has, x)
  {
    var rest := xs[1..];
    if AnyAmong(xs, has) {
      var k :| 0 <= k < |xs| && has(xs[k]);
      assert rest[k - 1] == xs[k];
    }
    if AnyAmong(rest, has) {
      var k :| 0 <= k < |rest| && has(rest[k]);
      assert xs[k + 1] == rest[k];
    }
    forall x
      ensures FirstAmong(xs, has, x) <==> FirstAmong(rest, has, x)
    {
      FirstShifts(xs, has, x);
    }
  }

  lemma FirstShifts<T(!new)>(xs: seq<T>, has: T -> bool, x: T)
    requires xs != [] && !has(xs[0])
    ensures FirstAmong(xs, has, x) <==> FirstAmong(xs[1..], has, x)
  {
    var rest := xs[1..];
    if FirstAmong(xs, has, x) {
      var k :| 0 <= k < |xs| && xs[k] == x && has(x) && forall j :: 0 <= j < k ==> !has(xs[j]);
      assert rest[k - 1] == x;
      forall j | 0 <= j < k - 1
        ensures !has(rest[j])
      {
        assert rest[j] == xs[j + 1];
      }
    }
    if FirstAmong(rest, has, x) {
      var k :| 0 <= k < |rest| && rest[k] == x && has(x) && forall j :: 0 <= j < k ==> !has(rest[j]);
      assert xs[k + 1] == x;
      forall j | 0 <= j < k + 1
        ensures !has(xs[j])
      {
        assert j > 0 ==> xs[j] == rest[j - 1];
      }
    }
  }

  lemma {:induction false} FindMediumIff(media: seq<MediaType>, name: string)
    ensures match FindMedia(media, name)
      case None => !AnyAmong(media, IsMedium(name))
      case Some(found) => AnyAmong(media, IsMedium(name)) && forall m :: FirstAmong(media, IsMedium(name), m) <==> m == found
  {
    if media != [] {
      if media[0].name == name {
        FirstHere(media, IsMedium(name));
      } else {
        FirstLater(media, IsMedium(name));
        FindMediumIff(media[1..], name);
      }
    }
  }

  lemma {:induction false} FindResponseIff(entries: seq<ResponseEntry>, status: string)
    ensures match FindResponse(entries, status)
      case None => !AnyAmong(entries, IsResponse(status))
      case Some(found) => AnyAmong(entries, IsResponse(status)) && forall e :: FirstAmong(entries, IsResponse(status), e) <==> e == found
  {
    if entries != [] {
      if entries[0].status == status {
        FirstHere(entries, IsResponse(status));
      } else {
        FirstLater(entries, IsResponse(status));
        FindResponseIff(entries[1..], status);
      }
    }
  }

  lemma {:induction false} FindPathIff(paths: seq<Path>, path: string)
    ensures match FindPath(paths, path)
      case None => !AnyAmong(paths, IsPath(path))
      case Some(found) => AnyAmong(paths, IsPath(path)) && forall q :: FirstAmong(paths, IsPath(path), q) <==> q == Path(path, found)
  {
    if paths != [] {
      if paths[0].path == path {
        FirstHere(paths, IsPath(path));
      } else {
        FirstLater(paths, IsPath(path));
        FindPathIff(paths[1..], path);
      }
    }
  }

  lemma {:induction false} FindComponentIff(members: seq<Member>, name: string)
    ensures match Find(members, name)
      case None => !AnyAmong(members, IsComponent(name))
      case Some(found) =>
        AnyAmong(members, IsComponent(name)) && forall m :: FirstAmong(members, IsComponent(name), m) <==> m == Member(name, found)
  {
    if members != [] {
      if members[0].name == name {
        FirstHere(members, IsComponent(name));
      } else {
        FirstLater(members, IsComponent(name));
        FindComponentIff(members[1..], name);
      }
    }
  }

  // ---- content

  /** The carrier of the checker and the titles of the rules are about the same content. */
  ghost predicate Titled(carrier: Carrier, t: Titles) {
    && t.direction == carrier.Travel() && t.removal == carrier.Removal() && t.addition == carrier.Addition()
    && forall name :: t.at(name) == carrier.Location(name)
  }

  lemma OldMediumFound(test: Finder, r: Review, m: MediaType, later: seq<MediaType>, carrier: Carrier, t: Titles, c: Change)
    requires r.Valid() && Finds(test, r, c) && Titled(carrier, t)
    ensures test(OldMedium(r, m, later, carrier)) <==> OldMediumRule(r, m, later, t, c)
  {
    FindMediumIff(later, m.name);
    assert t.at(m.name) == carrier.Location(m.name);
  }

  ghost function OldMediumWhole(r: Review, earlier: seq<MediaType>, later: seq<MediaType>, carrier: Carrier): nat -> seq<ContractStep>
  {
    (k: nat) => if k <= |earlier| then OldMedia(r, earlier, later, carrier, k) else []
  }

  ghost function OldMediumPart(r: Review, earlier: seq<MediaType>, later: seq<MediaType>, carrier: Carrier): MediaType -> seq<ContractStep>
  {
    (x: MediaType) => OldMedium(r, x, later, carrier)
  }

  lemma OldMediumGrows(r: Review, earlier: seq<MediaType>, later: seq<MediaType>, carrier: Carrier, k: nat)
    requires k < |earlier|
    ensures OldMediumWhole(r, earlier, later, carrier)(k + 1) == OldMediumWhole(r, earlier, later, carrier)(k) + OldMediumPart(r, earlier, later, carrier)(earlier[k])
  {
  }

  lemma AnyOldMedium(test: Finder, r: Review, earlier: seq<MediaType>, later: seq<MediaType>, carrier: Carrier)
    requires Spreads(test)
    ensures test(OldMedia(r, earlier, later, carrier, |earlier|)) <==> exists x :: x in earlier && test(OldMediumPart(r, earlier, later, carrier)(x))
  {
    var whole, part := OldMediumWhole(r, earlier, later, carrier), OldMediumPart(r, earlier, later, carrier);
    forall k: nat {:trigger earlier[k]} | k < |earlier|
      ensures whole(k + 1) == whole(k) + part(earlier[k])
    {
      OldMediumGrows(r, earlier, later, carrier, k);
    }
    AnyBuilt(test, whole, part, earlier);
  }

  ghost function NewMediumWhole(earlier: seq<MediaType>, later: seq<MediaType>, carrier: Carrier): nat -> seq<ContractStep>
  {
    (k: nat) => if k <= |later| then NewMedia(earlier, later, carrier, k) else []
  }

  ghost function NewMediumPart(earlier: seq<MediaType>, later: seq<MediaType>, carrier: Carrier): MediaType -> seq<ContractStep>
  {
    (x: MediaType) => NewMedium(earlier, x, carrier)
  }

  lemma NewMediumGrows(earlier: seq<MediaType>, later: seq<MediaType>, carrier: Carrier, k: nat)
    requires k < |later|
    ensures NewMediumWhole(earlier, later, carrier)(k + 1) == NewMediumWhole(earlier, later, carrier)(k) + NewMediumPart(earlier, later, carrier)(later[k])
  {
  }

  lemma AnyNewMedium(test: Finder, earlier: seq<MediaType>, later: seq<MediaType>, carrier: Carrier)
    requires Spreads(test)
    ensures test(NewMedia(earlier, later, carrier, |later|)) <==> exists x :: x in later && test(NewMediumPart(earlier, later, carrier)(x))
  {
    var whole, part := NewMediumWhole(earlier, later, carrier), NewMediumPart(earlier, later, carrier);
    forall k: nat {:trigger later[k]} | k < |later|
      ensures whole(k + 1) == whole(k) + part(later[k])
    {
      NewMediumGrows(earlier, later, carrier, k);
    }
    AnyBuilt(test, whole, part, later);
  }

  lemma NewMediumFound(test: Finder, r: Review, earlier: seq<MediaType>, n: MediaType, carrier: Carrier, t: Titles, c: Change)
    requires r.Valid() && Finds(test, r, c) && Titled(carrier, t)
    ensures test(NewMedium(earlier, n, carrier)) <==> !AnyAmong(earlier, IsMedium(n.name)) && c == Change(Breaking, t.addition, t.at(n.name))
  {
    FindMediumIff(earlier, n.name);
    assert t.at(n.name) == carrier.Location(n.name);
  }

  lemma OldMediaFound(
    test: Finder, r: Review, earlier: seq<MediaType>, later: seq<MediaType>, carrier: Carrier, t: Titles, c: Change)
    requires r.Valid() && Finds(test, r, c) && Titled(carrier, t)
    ensures test(OldMedia(r, earlier, later, carrier, |earlier|)) <==> OldMediaRule(r, earlier, later, t, c)
  {
    AnyOldMedium(test, r, earlier, later, carrier);
    forall m
      ensures test(OldMediumPart(r, earlier, later, carrier)(m)) <==> OldMediumRule(r, m, later, t, c)
    {
      OldMediumFound(test, r, m, later, carrier, t, c);
    }
  }

  lemma NewMediaFound(
    test: Finder, r: Review, earlier: seq<MediaType>, later: seq<MediaType>, carrier: Carrier, t: Titles, c: Change)
    requires r.Valid() && Finds(test, r, c) && Titled(carrier, t)
    ensures test(NewMedia(earlier, later, carrier, |later|)) <==> NewMediaRule(earlier, later, t, c)
  {
    AnyNewMedium(test, earlier, later, carrier);
    forall n
      ensures test(NewMediumPart(earlier, later, carrier)(n)) <==>
        !AnyAmong(earlier, IsMedium(n.name)) && c == Change(Breaking, t.addition, t.at(n.name))
    {
      NewMediumFound(test, r, earlier, n, carrier, t, c);
    }
  }

  lemma MediaFound(
    test: Finder, r: Review, earlier: seq<MediaType>, later: seq<MediaType>, carrier: Carrier, t: Titles, c: Change)
    requires r.Valid() && Finds(test, r, c) && Titled(carrier, t)
    ensures test(ContentSteps(r, ContentMap(earlier), ContentMap(later), carrier)) <==> MediaRule(r, earlier, later, t, c)
  {
    OldMediaFound(test, r, earlier, later, carrier, t, c);
    NewMediaFound(test, r, earlier, later, carrier, t, c);
    Both(test, OldMedia(r, earlier, later, carrier, |earlier|), NewMedia(earlier, later, carrier, |later|));
  }

  // ---- bodies and responses

  lemma BodyFound(test: Finder, r: Review, x: Option<Body>, y: Option<Body>, place: Place, c: Change)
    requires r.Valid() && Finds(test, r, c)
    ensures test(BodySteps(r, x, y, place)) <==> BodyRule(r, x, y, place, c)
  {
    if x.Some? && y.Some? {
      var o, n, carrier := x.value, y.value, RequestCarrier(place);
      var flags := if o.required && !n.required then [Fine(RequestBodyRequirednessWidening, place)]
                   else if !o.required && n.required then [Bad(RequestBodyRequiredness, place)]
                   else [];
      Both(test, flags, ContentSteps(r, o.content, n.content, carrier));
      if o.content.ContentMap? && n.content.ContentMap? {
        assert Titled(carrier, BodyTitles(place));
        MediaFound(test, r, o.content.media, n.content.media, carrier, BodyTitles(place), c);
      }
    }
  }

  lemma KeptResponseFound(test: Finder, r: Review, e: ResponseEntry, f: ResponseEntry, place: Place, c: Change)
    requires r.Valid() && Finds(test, r, c)
    ensures test(ContentSteps(r, e.content, f.content, ResponseCarrier(place, e.status))) <==> KeptResponseRule(r, e, f, place, c)
  {
    var carrier := ResponseCarrier(place, e.status);
    if e.content.ContentMap? && f.content.ContentMap? {
      assert Titled(carrier, ResponseTitles(place, e.status));
      MediaFound(test, r, e.content.media, f.content.media, carrier, ResponseTitles(place, e.status), c);
    }
  }

  lemma OldResponseFound(test: Finder, r: Review, e: ResponseEntry, later: seq<ResponseEntry>, place: Place, c: Change)
    requires r.Valid() && Finds(test, r, c)
    ensures test(OldResponse(r, e, later, place)) <==> OldResponseRule(r, e, later, place, c)
  {
    FindResponseIff(later, e.status);
    match FindResponse(later, e.status)
    case None =>
    case Some(f) =>
      KeptResponseFound(test, r, e, f, place, c);
  }

  ghost function OldResponseWhole(r: Review, earlier: seq<ResponseEntry>, later: seq<ResponseEntry>, place: Place): nat -> seq<ContractStep>
  {
    (k: nat) => if k <= |earlier| then OldResponses(r, earlier, later, place, k) else []
  }

  ghost function OldResponsePart(r: Review, earlier: seq<ResponseEntry>, later: seq<ResponseEntry>, place: Place): ResponseEntry -> seq<ContractStep>
  {
    (x: ResponseEntry) => OldResponse(r, x, later, place)
  }

  lemma OldResponseGrows(r: Review, earlier: seq<ResponseEntry>, later: seq<ResponseEntry>, place: Place, k: nat)
    requires k < |earlier|
    ensures OldResponseWhole(r, earlier, later, place)(k + 1) == OldResponseWhole(r, earlier, later, place)(k) + OldResponsePart(r, earlier, later, place)(earlier[k])
  {
  }

  lemma AnyOldResponse(test: Finder, r: Review, earlier: seq<ResponseEntry>, later: seq<ResponseEntry>, place: Place)
    requires Spreads(test)
    ensures test(OldResponses(r, earlier, later, place, |earlier|)) <==> exists x :: x in earlier && test(OldResponsePart(r, earlier, later, place)(x))
  {
    var whole, part := OldResponseWhole(r, earlier, later, place), OldResponsePart(r, earlier, later, place);
    forall k: nat {:trigger earlier[k]} | k < |earlier|
      ensures whole(k + 1) == whole(k) + part(earlier[k])
    {
      OldResponseGrows(r, earlier, later, place, k);
    }
    AnyBuilt(test, whole, part, earlier);
  }

  ghost function NewResponseWhole(earlier: seq<ResponseEntry>, later: seq<ResponseEntry>, place: Place): nat -> seq<ContractStep>
  {
    (k: nat) => if k <= |later| then NewResponses(earlier, later, place, k) else []
  }

  ghost function NewResponsePart(earlier: seq<ResponseEntry>, later: seq<ResponseEntry>, place: Place): ResponseEntry -> seq<ContractStep>
  {
    (x: ResponseEntry) => NewResponse(earlier, x, place)
  }

  lemma NewResponseGrows(earlier: seq<ResponseEntry>, later: seq<ResponseEntry>, place: Place, k: nat)
    requires k < |later|
    ensures NewResponseWhole(earlier, later, place)(k + 1) == NewResponseWhole(earlier, later, place)(k) + NewResponsePart(earlier, later, place)(later[k])
  {
  }

  lemma AnyNewResponse(test: Finder, earlier: seq<ResponseEntry>, later: seq<ResponseEntry>, place: Place)
    requires Spreads(test)
    ensures test(NewResponses(earlier, later, place, |later|)) <==> exists x :: x in later && test(NewResponsePart(earlier, later, place)(x))
  {
    var whole, part := NewResponseWhole(earlier, later, place), NewResponsePart(earlier, later, place);
    forall k: nat {:trigger later[k]} | k < |later|
      ensures whole(k + 1) == whole(k) + part(later[k])
    {
      NewResponseGrows(earlier, later, place, k);
    }
    AnyBuilt(test, whole, part, later);
  }

  lemma OldResponsesFound(
    test: Finder, r: Review, earlier: seq<ResponseEntry>, later: seq<ResponseEntry>, place: Place, c: Change)
    requires r.Valid() && Finds(test, r, c)
    ensures test(OldResponses(r, earlier, later, place, |earlier|)) <==> OldResponsesRule(r, earlier, later, place, c)
  {
    AnyOldResponse(test, r, earlier, later, place);
    forall e
      ensures test(OldResponsePart(r, earlier, later, place)(e)) <==> OldResponseRule(r, e, later, place, c)
    {
      OldResponseFound(test, r, e, later, place, c);
    }
  }

  lemma NewResponsesFound(
    test: Finder, r: Review, earlier: seq<ResponseEntry>, later: seq<ResponseEntry>, place: Place, c: Change)
    requires r.Valid() && Finds(test, r, c)
    ensures test(NewResponses(earlier, later, place, |later|)) <==> NewResponsesRule(earlier, later, place, c)
  {
    AnyNewResponse(test, earlier, later, place);
    forall f
      ensures test(NewResponsePart(earlier, later, place)(f)) <==>
        !AnyAmong(earlier, IsResponse(f.status)) && c == Change(Breaking, ResponseAddition, ResponseAt(place, f.status))
    {
      FindResponseIff(earlier, f.status);
    }
  }

  lemma ResponsesFound(test: Finder, r: Review, x: Responses, y: Responses, place: Place, c: Change)
    requires r.Valid() && Finds(test, r, c)
    ensures test(ResponseSteps(r, x, y, place)) <==> ResponseRule(r, x, y, place, c)
  {
    if x.ResponseMap? && y.ResponseMap? {
      OldResponsesFound(test, r, x.entries, y.entries, place, c);
      NewResponsesFound(test, r, x.entries, y.entries, place, c);
      Both(test, OldResponses(r, x.entries, y.entries, place, |x.entries|), NewResponses(x.entries, y.entries, place, |y.entries|));
    }
  }

  // ---- operations and paths

  lemma OperationFound(
    test: Finder, r: Review, ps: seq<Parameter>, o: Operation, qs: seq<Parameter>, n: Operation, place: Place, c: Change)
    requires r.Valid() && Finds(test, r, c)
    ensures test(OperationSteps(r, ps, o, qs, n, place)) <==> OperationRule(r, ps, o, qs, n, place, c)
  {
    var rename := if PyEq(o.operationId, n.operationId) then [] else [Bad(OperationRename, place)];
    var parameters := ParameterSteps(r, Merge(ps + o.parameters), Merge(qs + n.parameters), place);
    var body, responses := BodySteps(r, o.body, n.body, place), ResponseSteps(r, o.responses, n.responses, place);
    Both(test, rename + parameters + body, responses);
    Both(test, rename + parameters, body);
    Both(test, rename, parameters);
    OldParametersFound(test, r, ps + o.parameters, qs + n.parameters, place, c);
    NewParametersFound(test, r, ps + o.parameters, qs + n.parameters, place, c);
    var earlier, later := Merge(ps + o.parameters), Merge(qs + n.parameters);
    Both(test, OldParameters(r, earlier, later, place, |earlier|), NewParameters(earlier, later, place, |later|));
    BodyFound(test, r, o.body, n.body, place, c);
    ResponsesFound(test, r, o.responses, n.responses, place, c);
  }

  lemma VerbIs(m: Method)
    ensures MethodName(m) == Verb(m)
  {
  }

  lemma OldMethodFound(test: Finder, r: Review, path: string, x: PathItem, y: PathItem, m: Method, c: Change)
    requires r.Valid() && Finds(test, r, c) && x.PathItem? && y.PathItem?
    ensures test(MethodSteps(r, path, x, y, m)) <==> m in x.operations && MethodRule(r, path, x, y, m, c)
  {
    VerbIs(m);
    if m in x.operations && m in y.operations && x.operations[m].AnOperation? && y.operations[m].AnOperation? {
      OperationFound(test, r, x.parameters, x.operations[m].operation, y.parameters, y.operations[m].operation,
                     Endpoint(MethodName(m), path), c);
    }
  }

  ghost function OldMethodWhole(r: Review, path: string, x: PathItem, y: PathItem): nat -> seq<ContractStep>
    requires x.PathItem? && y.PathItem?
  {
    (k: nat) => if x.PathItem? && y.PathItem? && k <= |METHODS| then OldMethods(r, path, x, y, k) else []
  }

  ghost function OldMethodPart(r: Review, path: string, x: PathItem, y: PathItem): Method -> seq<ContractStep>
    requires x.PathItem? && y.PathItem?
  {
    (m: Method) => if x.PathItem? && y.PathItem? then MethodSteps(r, path, x, y, m) else []
  }

  lemma OldMethodGrows(r: Review, path: string, x: PathItem, y: PathItem, k: nat)
    requires x.PathItem? && y.PathItem? && k < |METHODS|
    ensures OldMethodWhole(r, path, x, y)(k + 1) == OldMethodWhole(r, path, x, y)(k) + OldMethodPart(r, path, x, y)(METHODS[k])
  {
  }

  lemma AnyOldMethod(test: Finder, r: Review, path: string, x: PathItem, y: PathItem)
    requires x.PathItem? && y.PathItem? && Spreads(test)
    ensures test(OldMethods(r, path, x, y, |METHODS|)) <==> exists m :: m in METHODS && test(OldMethodPart(r, path, x, y)(m))
  {
    var whole, part := OldMethodWhole(r, path, x, y), OldMethodPart(r, path, x, y);
    forall k: nat {:trigger METHODS[k]} | k < |METHODS|
      ensures whole(k + 1) == whole(k) + part(METHODS[k])
    {
      OldMethodGrows(r, path, x, y, k);
    }
    AnyBuilt(test, whole, part, METHODS);
  }

  ghost predicate Added(path: string, known: set<Method>, y: PathItem, m: Method, c: Change)
    requires y.PathItem?
  {
    m in y.operations && m !in known && c == Change(Additive, OperationAddition, Endpoint(Verb(m), path))
  }

  lemma {:induction false} AnyNewMethod(
    test: Finder, r: Review, path: string, known: set<Method>, y: PathItem, k: nat, c: Change)
    requires r.Valid() && Finds(test, r, c) && y.PathItem? && k <= |METHODS|
    ensures test(NewMethods(path, known, y, k)) <==> exists m :: m in METHODS[..k] && Added(path, known, y, m, c)
    decreases k
  {
    if k > 0 {
      var m := METHODS[k - 1];
      var last :=
        if m in y.operations && m !in known then [Fine(OperationAddition, Endpoint(MethodName(m), path))] else [];
      AnyNewMethod(test, r, path, known, y, k - 1, c);
      VerbIs(m);
      assert test(last) <==> Added(path, known, y, m, c);
      assert NewMethods(path, known, y, k) == NewMethods(path, known, y, k - 1) + last;
      Both(test, NewMethods(path, known, y, k - 1), last);
      assert METHODS[..k] == METHODS[..k - 1] + [m];
      assert forall x :: x in METHODS[..k] <==> x in METHODS[..k - 1] || x == m;
    }
  }

  lemma KeptPathFound(test: Finder, r: Review, p: Path, item: PathItem, c: Change)
    requires r.Valid() && Finds(test, r, c) && p.item.PathItem? && item.PathItem?
    ensures test(OldMethods(r, p.path, p.item, item, |METHODS|) + NewMethods(p.path, p.item.operations.Keys, item, |METHODS|))
            <==> KeptPathRule(r, p, item, c)
  {
    var known := p.item.operations.Keys;
    Both(test, OldMethods(r, p.path, p.item, item, |METHODS|), NewMethods(p.path, known, item, |METHODS|));
    AnyOldMethod(test, r, p.path, p.item, item);
    AnyNewMethod(test, r, p.path, known, item, |METHODS|, c);
    forall m
      ensures m in METHODS && m in METHODS[..|METHODS|]
      ensures MethodRule(r, p.path, p.item, item, m, c) <==>
        test(OldMethodPart(r, p.path, p.item, item)(m)) || Added(p.path, known, item, m, c)
    {
      AllMethods(m);
      OldMethodFound(test, r, p.path, p.item, item, m, c);
    }
  }

  lemma OldPathFound(test: Finder, r: Review, p: Path, later: seq<Path>, c: Change)
    requires r.Valid() && Finds(test, r, c)
    ensures test(OldPath(r, p, later)) <==> OldPathRule(r, p, later, c)
  {
    FindPathIff(later, p.path);
    match FindPath(later, p.path)
    case None =>
    case Some(item) =>
      assert FirstAmong(later, IsPath(p.path), Path(p.path, item));
      if p.item.PathItem? && item.PathItem? {
        KeptPathFound(test, r, p, item, c);
      }
  }

  lemma NewPathFound(test: Finder, r: Review, earlier: seq<Path>, q: Path, c: Change)
    requires r.Valid() && Finds(test, r, c)
    ensures test(NewPath(earlier, q)) <==> NewPathRule(earlier, q, c)
  {
    FindPathIff(earlier, q.path);
    if q.item.PathItem? {
      AnyNewMethod(test, r, q.path, {}, q.item, |METHODS|, c);
      forall m
        ensures m in METHODS[..|METHODS|]
        ensures Added(q.path, {}, q.item, m, c) <==>
          m in q.item.operations && c == Change(Additive, OperationAddition, Endpoint(Verb(m), q.path))
      {
        AllMethods(m);
      }
    }
  }

  ghost function OldPathWhole(r: Review, earlier: seq<Path>, later: seq<Path>): nat -> seq<ContractStep>
  {
    (k: nat) => if k <= |earlier| then OldPaths(r, earlier, later, k) else []
  }

  ghost function OldPathPart(r: Review, earlier: seq<Path>, later: seq<Path>): Path -> seq<ContractStep>
  {
    (x: Path) => OldPath(r, x, later)
  }

  lemma OldPathGrows(r: Review, earlier: seq<Path>, later: seq<Path>, k: nat)
    requires k < |earlier|
    ensures OldPathWhole(r, earlier, later)(k + 1) == OldPathWhole(r, earlier, later)(k) + OldPathPart(r, earlier, later)(earlier[k])
  {
  }

  lemma AnyOldPath(test: Finder, r: Review, earlier: seq<Path>, later: seq<Path>)
    requires Spreads(test)
    ensures test(OldPaths(r, earlier, later, |earlier|)) <==> exists x :: x in earlier && test(OldPathPart(r, earlier, later)(x))
  {
    var whole, part := OldPathWhole(r, earlier, later), OldPathPart(r, earlier, later);
    forall k: nat {:trigger earlier[k]} | k < |earlier|
      ensures whole(k + 1) == whole(k) + part(earlier[k])
    {
      OldPathGrows(r, earlier, later, k);
    }
    AnyBuilt(test, whole, part, earlier);
  }

  ghost function NewPathWhole(earlier: seq<Path>, later: seq<Path>): nat -> seq<ContractStep>
  {
    (k: nat) => if k <= |later| then NewPaths(earlier, later, k) else []
  }

  ghost function NewPathPart(earlier: seq<Path>, later: seq<Path>): Path -> seq<ContractStep>
  {
    (x: Path) => NewPath(earlier, x)
  }

  lemma NewPathGrows(earlier: seq<Path>, later: seq<Path>, k: nat)
    requires k < |later|
    ensures NewPathWhole(earlier, later)(k + 1) == NewPathWhole(earlier, later)(k) + NewPathPart(earlier, later)(later[k])
  {
  }

  lemma AnyNewPath(test: Finder, earlier: seq<Path>, later: seq<Path>)
    requires Spreads(test)
    ensures test(NewPaths(earlier, later, |later|)) <==> exists x :: x in later && test(NewPathPart(earlier, later)(x))
  {
    var whole, part := NewPathWhole(earlier, later), NewPathPart(earlier, later);
    forall k: nat {:trigger later[k]} | k < |later|
      ensures whole(k + 1) == whole(k) + part(later[k])
    {
      NewPathGrows(earlier, later, k);
    }
    AnyBuilt(test, whole, part, later);
  }

  lemma PathsFound(test: Finder, r: Review, c: Change)
    requires r.Valid() && Finds(test, r, c) && r.base.paths.Some? && r.cand.paths.Some?
    ensures test(PathSteps(r)) <==> PathsRule(r, r.base.paths.value, r.cand.paths.value, c)
  {
    var earlier, later := r.base.paths.value, r.cand.paths.value;
    AnyOldPath(test, r, earlier, later);
    AnyNewPath(test, earlier, later);
    Both(test, OldPaths(r, earlier, later, |earlier|), NewPaths(earlier, later, |later|));
    forall p
      ensures test(OldPathPart(r, earlier, later)(p)) <==> OldPathRule(r, p, later, c)
    {
      OldPathFound(test, r, p, later, c);
    }
    forall q
      ensures test(NewPathPart(earlier, later)(q)) <==> NewPathRule(earlier, q, c)
    {
      NewPathFound(test, r, earlier, q, c);
    }
  }

  // ---- components

  lemma ComponentFound(test: Finder, r: Review, m: Member, c: Change)
    requires r.Valid() && Finds(test, r, c) && m in r.base.graph.schemas
    ensures test(ComponentStep(r, m)) <==> ComponentRule(r, m, c)
  {
    FindComponentIff(r.cand.graph.schemas, m.name);
    ModeIs(r.cand, m.name);
    match Find(r.cand.graph.schemas, m.name)
    case None =>
    case Some(b) =>
      assert FirstAmong(r.cand.graph.schemas, IsComponent(m.name), Member(m.name, b));
      assert Member(m.name, b) in r.cand.graph.schemas;
  }

  ghost function ComponentWhole(r: Review): nat -> seq<ContractStep>
    requires r.Valid()
  {
    (k: nat) => if r.Valid() && k <= |r.base.graph.schemas| then ComponentSteps(r, k) else []
  }

  ghost function ComponentPart(r: Review): Member -> seq<ContractStep>
    requires r.Valid()
  {
    (x: Member) => if r.Valid() then ComponentStep(r, x) else []
  }

  lemma ComponentGrows(r: Review, k: nat)
    requires r.Valid() && k < |r.base.graph.schemas|
    ensures ComponentWhole(r)(k + 1) == ComponentWhole(r)(k) + ComponentPart(r)(r.base.graph.schemas[k])
  {
  }

  lemma AnyComponent(test: Finder, r: Review)
    requires r.Valid() && Spreads(test)
    ensures test(ComponentSteps(r, |r.base.graph.schemas|)) <==> exists x :: x in r.base.graph.schemas && test(ComponentPart(r)(x))
  {
    var whole, part := ComponentWhole(r), ComponentPart(r);
    forall k: nat {:trigger r.base.graph.schemas[k]} | k < |r.base.graph.schemas|
      ensures whole(k + 1) == whole(k) + part(r.base.graph.schemas[k])
    {
      ComponentGrows(r, k);
    }
    AnyBuilt(test, whole, part, r.base.graph.schemas);
  }

  lemma ComponentsFound(test: Finder, r: Review, c: Change)
    requires r.Valid() && Finds(test, r, c)
    ensures test(ComponentSteps(r, |r.base.graph.schemas|)) <==> exists m :: m in r.base.graph.schemas && ComponentRule(r, m, c)
  {
    var members := r.base.graph.schemas;
    AnyComponent(test, r);
    forall m | m in members
      ensures test(ComponentPart(r)(m)) <==> ComponentRule(r, m, c)
    {
      ComponentFound(test, r, m, c);
    }
  }

  // ---- the whole report

  lemma MetadataFound(test: Finder, r: Review, c: Change)
    requires r.Valid() && Finds(test, r, c) && r.was.major.Some? && r.was.revision.Some?
    ensures test(MetadataSteps(r)) <==> MetadataRule(r, c)
  {
  }

  lemma AllFound(r: Review, c: Change)
    requires r.Valid() && Comparable(r)
    ensures c in Changes(r, AllSteps(r)) <==> ContractRule(r, c)
  {
    var test := FinderOf(r, c);
    FinderFinds(r, c);
    MetadataFound(test, r, c);
    PathsFound(test, r, c);
    ComponentsFound(test, r, c);
    Both(test, MetadataSteps(r) + PathSteps(r), ComponentSteps(r, |r.base.graph.schemas|));
    Both(test, MetadataSteps(r), PathSteps(r));
  }

  lemma {:induction false} CountIff(changes: seq<Change>, kind: Classification)
    ensures Count(changes, kind) > 0 <==> exists c :: c in changes && c.classification == kind
  {
    if changes != [] {
      CountIff(changes[..|changes| - 1], kind);
      assert changes == changes[..|changes| - 1] + [changes[|changes| - 1]];
    }
  }

  lemma FinalFound(r: Review, c: Change)
    requires r.Valid() && Comparable(r)
    ensures var changes := Changes(r, AllSteps(r));
      c in changes + RevisionStep(r, changes) <==> FinalRule(r, c)
  {
    var changes := Changes(r, AllSteps(r));
    AllFound(r, c);
    if changes != [] {
      AllFound(r, changes[0]);
    }
    forall d | ContractRule(r, d)
      ensures d in changes
    {
      AllFound(r, d);
    }
  }

  /** What a contract comparison reports: it is blocked exactly when the contracts cannot be compared; otherwise its
      changes are those the rules give, and it fails exactly when one of them is breaking. */
  lemma ReportIff(r: Review)
    requires r.Valid()
    ensures ReportOf(r).result == BLOCKED <==> !Comparable(r)
    ensures Comparable(r) ==> forall c :: c in ReportOf(r).changes <==> FinalRule(r, c)
    ensures Comparable(r) ==> (ReportOf(r).result == FAIL <==> exists c :: FinalRule(r, c) && c.classification == Breaking)
  {
    if Comparable(r) {
      var changes := Changes(r, AllSteps(r));
      assert ReportOf(r).changes == changes + RevisionStep(r, changes);
      forall c
        ensures c in ReportOf(r).changes <==> FinalRule(r, c)
      {
        FinalFound(r, c);
      }
      CountIff(ReportOf(r).changes, Breaking);
    }
  }

  /** A comparison that could not be made reports at most what is wrong with the metadata, and with the paths when
      these could be compared. */
  lemma BlockedReport(r: Review, c: Change)
    requires r.Valid() && !Comparable(r)
    ensures c in ReportOf(r).changes <==>
      && r.was.major.Some? && r.was.revision.Some?
      && (MetadataRule(r, c)
          || (r.base.paths.Some? && r.cand.paths.Some? && PathsRule(r, r.base.paths.value, r.cand.paths.value, c)))
  {
    if r.was.major.Some? && r.was.revision.Some? {
      var test := FinderOf(r, c);
      FinderFinds(r, c);
      MetadataFound(test, r, c);
      if r.base.paths.Some? && r.cand.paths.Some? {
        PathsFound(test, r, c);
        Both(test, MetadataSteps(r), PathSteps(r));
      }
    }
  }
}
