/** Which way a component travels: where request bodies and responses mention it. */
module ContractTravel {
  import opened Common
  import opened SchemaGraph
  import opened SchemaWalk
  import opened Contracts
  import opened ContractReport

  lemma {:induction false} LastSegmentSplits(ref: string) returns (front: string)
    ensures '/' !in LastSegment(ref)
    ensures ref == LastSegment(ref) || ref == front + "/" + LastSegment(ref)
  {
    front := "";
    if ref != "" {
      var rest, last := ref[..|ref| - 1], ref[|ref| - 1];
      assert ref == rest + [last];
      if last == '/' {
        front := rest;
      } else {
        front := LastSegmentSplits(rest);
        assert front + "/" + LastSegment(rest) + [last] == front + "/" + (LastSegment(rest) + [last]);
      }
    }
  }

  lemma {:induction false} LastSegmentIs(front: string, name: string)
    requires '/' !in name
    ensures LastSegment(front + "/" + name) == name
  {
    var ref := front + "/" + name;
    if name == "" {
      assert ref[|ref| - 1] == '/';
    } else {
      var rest := name[..|name| - 1];
      assert ref[|ref| - 1] == name[|name| - 1] && ref[..|ref| - 1] == front + "/" + rest;
      LastSegmentIs(front, rest);
      assert name == rest + [name[|name| - 1]];
    }
  }

  /** The reference of this schema is to a component with this name. */
  ghost predicate RefersTo(n: Node, name: string) {
    exists ref, front ::
      n.Schema? && n.ref == Some(ref) && "#/components/schemas/" <= ref && ref == front + "/" + name && '/' !in name
  }

  lemma RefNameIff(n: Node, name: string)
    ensures name in RefName(n) <==> RefersTo(n, name)
  {
    if n.Schema? && n.ref.Some? {
      var ref := n.ref.value;
      if "#/components/schemas/" <= ref {
        var front := LastSegmentSplits(ref);
        assert ref[1] == "#/components/schemas/"[1] == '/';
        assert '/' in ref;
        assert ref == front + "/" + LastSegment(ref);
      }
      forall front | ref == front + "/" + name && '/' !in name
        ensures LastSegment(ref) == name
      {
        LastSegmentIs(front, name);
      }
    }
  }

  lemma BelowItself(g: Graph, a: Id)
    requires a in g.nodes
    ensures Below(g, a, a)
  {
    assert Descent(g, [a]) && [a][0] == a;
  }

  lemma BelowKid(g: Graph, a: Id, c: Id, d: Id)
    requires a in g.nodes && c in Kids(g.nodes[a]) && Below(g, c, d)
    ensures Below(g, a, d)
  {
    var chain :| Descent(g, chain) && chain[0] == c && chain[|chain| - 1] == d;
    var more := [a] + chain;
    assert Descent(g, more) && more[0] == a && more[|more| - 1] == d;
  }

  lemma BelowStarts(g: Graph, a: Id, d: Id) returns (c: Id)
    requires Below(g, a, d) && d != a
    ensures a in g.nodes && c in Kids(g.nodes[a]) && Below(g, c, d)
  {
    var chain :| Descent(g, chain) && chain[0] == a && chain[|chain| - 1] == d;
    c := chain[1];
    var rest := chain[1..];
    forall i | 0 <= i < |rest| - 1
      ensures rest[i + 1] in Kids(g.nodes[rest[i]])
    {
      assert rest[i] == chain[i + 1] && rest[i + 1] == chain[i + 2];
    }
    assert Descent(g, rest) && rest[0] == c && rest[|rest| - 1] == d;
  }

  /** Somewhere at or below `a` a reference is to the component. */
  ghost predicate RefersBelow(g: Graph, a: Id, name: string) {
    exists d :: Below(g, a, d) && d in g.nodes && RefersTo(g.nodes[d], name)
  }

  /** The components named below a position, as a value. */
  ghost function NamesBelow(g: Graph): Id -> set<string>
    requires g.Valid()
  {
    (c: Id) => if g.Valid() && c in g.nodes then Refs(g, c) else {}
  }

  lemma RefsAre(g: Graph, a: Id, name: string)
    requires g.Valid() && a in g.nodes
    ensures var kids := Kids(g.nodes[a]);
      && (forall i :: 0 <= i < |kids| ==> a < kids[i] < g.size && kids[i] in g.nodes)
      && (name in NamesBelow(g)(a) <==>
            name in RefName(g.nodes[a]) || exists i :: 0 <= i < |kids| && name in NamesBelow(g)(kids[i]))
  {
    var kids := Kids(g.nodes[a]);
    g.KidsAreKnown(a);
    forall i | 0 <= i < |kids|
      ensures a < kids[i] < g.size && kids[i] in g.nodes
    {
      assert kids[i] in kids;
    }
  }

  lemma {:induction false} RefsIff(g: Graph, a: Id, name: string)
    requires g.Valid() && a in g.nodes
    ensures name in NamesBelow(g)(a) <==> RefersBelow(g, a, name)
    decreases g.size - a
  {
    var kids := Kids(g.nodes[a]);
    RefsAre(g, a, name);
    RefNameIff(g.nodes[a], name);
    forall i | 0 <= i < |kids|
      ensures name in NamesBelow(g)(kids[i]) <==> RefersBelow(g, kids[i], name)
    {
      RefsIff(g, kids[i], name);
    }
    RefersBelowIff(g, a, name);
  }

  lemma RefersBelowIff(g: Graph, a: Id, name: string)
    requires a in g.nodes
    ensures RefersBelow(g, a, name) <==>
      RefersTo(g.nodes[a], name) || exists i :: 0 <= i < |Kids(g.nodes[a])| && RefersBelow(g, Kids(g.nodes[a])[i], name)
  {
    var kids := Kids(g.nodes[a]);
    BelowItself(g, a);
    if RefersBelow(g, a, name) && !RefersTo(g.nodes[a], name) {
      var d :| Below(g, a, d) && d in g.nodes && RefersTo(g.nodes[d], name);
      var c := BelowStarts(g, a, d);
      var i :| 0 <= i < |kids| && kids[i] == c;
      assert RefersBelow(g, kids[i], name);
    }
    forall i | 0 <= i < |kids| && RefersBelow(g, kids[i], name)
      ensures RefersBelow(g, a, name)
    {
      var d :| Below(g, kids[i], d) && d in g.nodes && RefersTo(g.nodes[d], name);
      BelowKid(g, a, kids[i], d);
    }
  }

  lemma MentionsIff(g: Graph, a: Id, name: string)
    requires g.Valid() && a in g.nodes
    ensures name in Refs(g, a) <==> Mentions(g, a, name)
  {
    RefsIff(g, a, name);
    if RefersBelow(g, a, name) {
      var d :| Below(g, a, d) && d in g.nodes && RefersTo(g.nodes[d], name);
      var ref, front :|
        g.nodes[d].Schema? && g.nodes[d].ref == Some(ref) && "#/components/schemas/" <= ref && ref == front + "/" + name && '/' !in name;
      assert Mentions(g, a, name);
    }
    if Mentions(g, a, name) {
      var d, ref, front :|
        && Below(g, a, d) && d in g.nodes && g.nodes[d].Schema? && g.nodes[d].ref == Some(ref)
        && "#/components/schemas/" <= ref && ref == front + "/" + name && '/' !in name;
      assert RefersTo(g.nodes[d], name);
    }
  }

  lemma ContentMentionsIff(g: Graph, content: Content, name: string)
    requires g.Valid()
    ensures name in RefsOfContent(g, content) <==> ContentMentions(g, content, name)
  {
    if content.ContentMap? {
      forall m | m in content.media
        ensures name in Refs(g, At(g, m.schema, g.empty)) <==> Mentions(g, SchemaOr(g, m.schema, g.empty), name)
      {
        MentionsIff(g, At(g, m.schema, g.empty), name);
      }
    }
  }

  lemma SentInBody(c: Contract, name: string)
    requires c.graph.Valid()
    ensures SentIn(c, name, Request) <==> exists o :: Offers(c, o) && BodyMentions(c, o, name)
  {
    forall o: Operation | o.body.Some?
      ensures name in RefsOfContent(c.graph, o.body.value.content) <==> BodyMentions(c, o, name)
    {
      ContentMentionsIff(c.graph, o.body.value.content, name);
    }
    if SentIn(c, name, Request) {
      var p, m :|
        && p in c.paths.value && m in METHODS && p.item.PathItem? && m in p.item.operations && p.item.operations[m].AnOperation?
        && var body := p.item.operations[m].operation.body;
           body.Some? && name in RefsOfContent(c.graph, body.value.content);
      var o := p.item.operations[m].operation;
      assert Offers(c, o) && BodyMentions(c, o, name);
    }
    forall o | Offers(c, o) && BodyMentions(c, o, name)
      ensures SentIn(c, name, Request)
    {
      var p, m :| p in c.paths.value && p.item.PathItem? && m in p.item.operations && p.item.operations[m] == AnOperation(o);
      AllMethods(m);
      assert m in METHODS;
    }
  }

  lemma ResponsesMentionIff(c: Contract, o: Operation, name: string)
    requires c.graph.Valid()
    ensures ResponsesMention(c, o, name) <==>
      o.responses.ResponseMap?
      && exists r | r in o.responses.entries :: name in r.elsewhere || name in RefsOfContent(c.graph, r.content)
  {
    forall e: ResponseEntry
      ensures name in RefsOfContent(c.graph, e.content) <==> ContentMentions(c.graph, e.content, name)
    {
      ContentMentionsIff(c.graph, e.content, name);
    }
  }

  lemma SentInResponse(c: Contract, name: string)
    requires c.graph.Valid()
    ensures SentIn(c, name, Response) <==> exists o :: Offers(c, o) && ResponsesMention(c, o, name)
  {
    if SentIn(c, name, Response) {
      var p, m :|
        && p in c.paths.value && m in METHODS && p.item.PathItem? && m in p.item.operations && p.item.operations[m].AnOperation?
        && var responses := p.item.operations[m].operation.responses;
           responses.ResponseMap?
           && exists r | r in responses.entries :: name in r.elsewhere || name in RefsOfContent(c.graph, r.content);
      var o := p.item.operations[m].operation;
      ResponsesMentionIff(c, o, name);
      assert Offers(c, o) && ResponsesMention(c, o, name);
    }
    forall o | Offers(c, o) && ResponsesMention(c, o, name)
      ensures SentIn(c, name, Response)
    {
      var p, m :| p in c.paths.value && p.item.PathItem? && m in p.item.operations && p.item.operations[m] == AnOperation(o);
      AllMethods(m);
      ResponsesMentionIff(c, o, name);
      assert m in METHODS;
    }
  }

  /** The direction of a component is the one its occurrences give. */
  lemma ModeIs(c: Contract, name: string)
    requires c.graph.Valid()
    ensures ModeOf(c, name) == if SentByClients(c, name) then Request else Response
  {
    SentInBody(c, name);
    SentInResponse(c, name);
  }

  lemma AllMethods(m: Method)
    ensures m in METHODS[..|METHODS|]
  {
    assert METHODS[..|METHODS|] == METHODS;
    match m
    case DeleteMethod => assert METHODS[0] == m;
    case GetMethod => assert METHODS[1] == m;
    case PatchMethod => assert METHODS[2] == m;
    case PostMethod => assert METHODS[3] == m;
    case PutMethod => assert METHODS[4] == m;
  }
}
