module SchemaTour {
  /** What a traversal says, stop by stop.

      A traversal visits each pair once, in some order; which pairs, at which places, and what is reported
      can be said without running it: each stop but the first is asked for by an earlier one, whatever a
      stop asks for is visited, and the changes are the ones reported at the stops. */

  import opened SchemaGraph
  import opened SchemaTraversal

  datatype Stop = Stop(at: Marker, place: Place)

  /** Among these steps is a comparison that leads to this stop. */
  ghost predicate Asks(w: Walker, steps: seq<Step>, stop: Stop) {
    exists pair :: Walk(pair, stop.place) in steps && w.head(pair) == stop.at
  }

  ghost function PlanAt(w: Walker, stop: Stop): seq<Step> {
    w.plan(stop.at, stop.place)
  }

  ghost predicate AskedEarlier(w: Walker, stops: seq<Stop>, i: nat)
    requires i < |stops|
  {
    exists j :: 0 <= j < i && Asks(w, PlanAt(w, stops[j]), stops[i])
  }

  /** Each stop is asked for by the steps given or by an earlier stop. */
  ghost predicate Linked(w: Walker, steps: seq<Step>, stops: seq<Stop>) {
    forall i :: 0 <= i < |stops| ==> Asks(w, steps, stops[i]) || AskedEarlier(w, stops, i)
  }

  ghost predicate Reports(w: Walker, stops: seq<Stop>, change: Change) {
    exists i :: 0 <= i < |stops| && Emit(change) in PlanAt(w, stops[i])
  }

  /** All pairs that the steps compare have been seen. */
  ghost predicate Followed(w: Walker, steps: seq<Step>, seen: set<Marker>) {
    forall k {:trigger steps[k]} :: 0 <= k < |steps| && steps[k].Walk? ==> w.head(steps[k].pair) in seen
  }

  ghost predicate Sees(stops: seq<Stop>, x: Marker) {
    exists i :: 0 <= i < |stops| && stops[i].at == x
  }

  ghost predicate Once(stops: seq<Stop>, before: set<Marker>) {
    && (forall i :: 0 <= i < |stops| ==> stops[i].at !in before)
    && (forall i, j :: 0 <= i < j < |stops| ==> stops[i].at != stops[j].at)
  }

  /** What the trace `t` has become after the stops, `steps` being done on the way. */
  ghost predicate Leads(w: Walker, steps: seq<Step>, t: Trace, stops: seq<Stop>, r: Trace) {
    && Once(stops, t.seen) && Linked(w, steps, stops)
    && t.seen <= r.seen
    && (forall x :: x in r.seen <==> x in t.seen || Sees(stops, x))
    && (forall c :: c in r.changes <==> c in t.changes || Emit(c) in steps || Reports(w, stops, c))
    && (forall i :: 0 <= i < |stops| ==> Followed(w, PlanAt(w, stops[i]), r.seen))
    && Followed(w, steps, r.seen)
  }

  lemma {:induction false} VisitLeads(w: Walker, m: Marker, place: Place, t: Trace) returns (stops: seq<Stop>)
    requires w.Valid() && m in w.universe
    ensures Leads(w, [Walk(m, place)], t, stops, Visit(w, m, place, t))
    ensures w.head(m) !in t.seen ==> stops != [] && stops[0] == Stop(w.head(m), place)
    ensures w.head(m) !in t.seen ==> forall i :: 0 < i < |stops| ==> AskedEarlier(w, stops, i)
    decreases w.universe - t.seen, 0
  {
    var x := w.head(m);
    if x in t.seen {
      stops := [];
    } else {
      var u := Trace(t.changes, t.seen + {x});
      var rest := RunLeads(w, w.plan(x, place), u);
      stops := [Stop(x, place)] + rest;
      FirstStop(w, m, place, t, rest, Run(w, w.plan(x, place), u));
    }
  }

  lemma FirstStop(w: Walker, m: Marker, place: Place, t: Trace, rest: seq<Stop>, r: Trace)
    requires w.head(m) !in t.seen
    requires Leads(w, w.plan(w.head(m), place), Trace(t.changes, t.seen + {w.head(m)}), rest, r)
    ensures var stops := [Stop(w.head(m), place)] + rest;
      Leads(w, [Walk(m, place)], t, stops, r) && forall i :: 0 < i < |stops| ==> AskedEarlier(w, stops, i)
  {
    var first := Stop(w.head(m), place);
    var stops := [first] + rest;
    var steps := w.plan(w.head(m), place);
    assert Asks(w, [Walk(m, place)], stops[0]) by {
      assert Walk(m, place) in [Walk(m, place)];
    }
    LaterStops(w, steps, first, rest);
    forall x
      ensures Sees(stops, x) <==> x == first.at || Sees(rest, x)
    {
      SeesMore([first], rest, x);
      SeesOne(first, x);
    }
    forall c
      ensures Reports(w, stops, c) <==> Emit(c) in steps || Reports(w, rest, c)
    {
      ReportsMore(w, [first], rest, c);
      ReportsOne(w, first, c);
    }
    forall i | 0 <= i < |stops|
      ensures Followed(w, PlanAt(w, stops[i]), r.seen)
    {
      assert i > 0 ==> stops[i] == rest[i - 1];
    }
    assert Sees(stops, first.at);
  }

  lemma LaterStops(w: Walker, steps: seq<Step>, first: Stop, rest: seq<Stop>)
    requires Linked(w, steps, rest) && PlanAt(w, first) == steps
    ensures forall i :: 0 < i < |[first] + rest| ==> AskedEarlier(w, [first] + rest, i)
  {
    var stops := [first] + rest;
    forall i | 0 < i < |stops|
      ensures AskedEarlier(w, stops, i)
    {
      if Asks(w, steps, rest[i - 1]) {
        assert Asks(w, PlanAt(w, stops[0]), stops[i]);
      } else {
        var j :| 0 <= j < i - 1 && Asks(w, PlanAt(w, rest[j]), rest[i - 1]);
        assert Asks(w, PlanAt(w, stops[j + 1]), stops[i]);
      }
    }
  }

  lemma SeesOne(stop: Stop, x: Marker)
    ensures Sees([stop], x) <==> stop.at == x
  {
    assert [stop][0] == stop;
  }

  lemma ReportsOne(w: Walker, stop: Stop, c: Change)
    ensures Reports(w, [stop], c) <==> Emit(c) in PlanAt(w, stop)
  {
    assert [stop][0] == stop;
  }

  lemma SeesMore(p: seq<Stop>, q: seq<Stop>, x: Marker)
    ensures Sees(p + q, x) <==> Sees(p, x) || Sees(q, x)
  {
    if Sees(p, x) {
      var i :| 0 <= i < |p| && p[i].at == x;
      assert (p + q)[i].at == x;
    }
    if Sees(q, x) {
      var i :| 0 <= i < |q| && q[i].at == x;
      assert (p + q)[|p| + i].at == x;
    }
  }

  lemma ReportsMore(w: Walker, p: seq<Stop>, q: seq<Stop>, c: Change)
    ensures Reports(w, p + q, c) <==> Reports(w, p, c) || Reports(w, q, c)
  {
    if Reports(w, p, c) {
      var i :| 0 <= i < |p| && Emit(c) in PlanAt(w, p[i]);
      assert Emit(c) in PlanAt(w, (p + q)[i]);
    }
    if Reports(w, q, c) {
      var i :| 0 <= i < |q| && Emit(c) in PlanAt(w, q[i]);
      assert Emit(c) in PlanAt(w, (p + q)[|p| + i]);
    }
  }

  lemma LinkedMore(w: Walker, front: seq<Step>, last: seq<Step>, p: seq<Stop>, q: seq<Stop>)
    requires Linked(w, front, p) && Linked(w, last, q)
    ensures Linked(w, front + last, p + q)
  {
    var steps, stops := front + last, p + q;
    forall i | 0 <= i < |stops|
      ensures Asks(w, steps, stops[i]) || AskedEarlier(w, stops, i)
    {
      if i < |p| {
        if Asks(w, front, p[i]) {
          var pair :| Walk(pair, p[i].place) in front && w.head(pair) == p[i].at;
          assert Walk(pair, stops[i].place) in steps;
        } else {
          var j :| 0 <= j < i && Asks(w, PlanAt(w, p[j]), p[i]);
          assert Asks(w, PlanAt(w, stops[j]), stops[i]);
        }
      } else {
        var k := i - |p|;
        if Asks(w, last, q[k]) {
          var pair :| Walk(pair, q[k].place) in last && w.head(pair) == q[k].at;
          assert Walk(pair, stops[i].place) in steps;
        } else {
          var j :| 0 <= j < k && Asks(w, PlanAt(w, q[j]), q[k]);
          assert Asks(w, PlanAt(w, stops[|p| + j]), stops[i]);
        }
      }
    }
  }

  lemma FollowedGrows(w: Walker, steps: seq<Step>, seen: set<Marker>, more: set<Marker>)
    requires Followed(w, steps, seen) && seen <= more
    ensures Followed(w, steps, more)
  {
  }

  /** Doing `last` after `front`. */
  lemma LeadsOn(w: Walker, front: seq<Step>, last: seq<Step>, t: Trace, p: seq<Stop>, u: Trace, q: seq<Stop>, r: Trace)
    requires Leads(w, front, t, p, u) && Leads(w, last, u, q, r)
    ensures Leads(w, front + last, t, p + q, r)
  {
    var stops := p + q;
    LinkedMore(w, front, last, p, q);
    forall x
      ensures Sees(stops, x) <==> Sees(p, x) || Sees(q, x)
    {
      SeesMore(p, q, x);
    }
    forall c
      ensures Reports(w, stops, c) <==> Reports(w, p, c) || Reports(w, q, c)
    {
      ReportsMore(w, p, q, c);
    }
    OnceMore(p, q, t.seen, u.seen);
    forall i | 0 <= i < |stops|
      ensures Followed(w, PlanAt(w, stops[i]), r.seen)
    {
      if i < |p| {
        FollowedGrows(w, PlanAt(w, p[i]), u.seen, r.seen);
      } else {
        assert stops[i] == q[i - |p|];
      }
    }
    FollowedGrows(w, front, u.seen, r.seen);
  }

  lemma OnceMore(p: seq<Stop>, q: seq<Stop>, before: set<Marker>, between: set<Marker>)
    requires Once(p, before) && Once(q, between) && before <= between
    requires forall x :: Sees(p, x) ==> x in between
    ensures Once(p + q, before)
  {
    var stops := p + q;
    forall i, j | 0 <= i < j < |stops|
      ensures stops[i].at != stops[j].at
    {
      if i < |p| <= j {
        assert Sees(p, p[i].at);
        assert stops[j] == q[j - |p|];
      } else if |p| <= i {
        assert stops[i] == q[i - |p|] && stops[j] == q[j - |p|];
      }
    }
  }

  lemma EmitLeads(w: Walker, change: Change, u: Trace)
    ensures Leads(w, [Emit(change)], u, [], Trace(u.changes + [change], u.seen))
  {
    forall c
      ensures Emit(c) in [Emit(change)] <==> c == change
    {
    }
  }

  lemma {:induction false} RunLeads(w: Walker, steps: seq<Step>, t: Trace) returns (stops: seq<Stop>)
    requires w.Valid() && w.Closed(steps)
    ensures Leads(w, steps, t, stops, Run(w, steps, t))
    decreases w.universe - t.seen, |steps| + 1
  {
    stops := [];
    if steps != [] {
      var front, last := steps[..|steps| - 1], steps[|steps| - 1];
      assert steps == front + [last];
      var p := RunLeads(w, front, t);
      var u := Run(w, front, t);
      var q := [];
      match last {
        case Emit(change) =>
          EmitLeads(w, change, u);
        case Walk(pair, place) =>
          q := VisitLeads(w, pair, place, u);
      }
      LeadsOn(w, front, [last], t, p, u, q, Run(w, steps, t));
      stops := p + q;
    }
  }

  // ---- a traversal from the start

  /** Every stop but the first is asked for by an earlier one, no pair is visited twice, and whatever a stop
      asks for is visited. */
  ghost predicate Tour(w: Walker, root: Stop, stops: seq<Stop>) {
    && stops != [] && stops[0] == root
    && (forall i :: 0 < i < |stops| ==> AskedEarlier(w, stops, i))
    && (forall i, j :: 0 <= i < j < |stops| ==> stops[i].at != stops[j].at)
    && (forall i, pair, l :: 0 <= i < |stops| && Walk(pair, l) in PlanAt(w, stops[i]) ==> Sees(stops, w.head(pair)))
  }

  /** A traversal with nothing seen before is such a tour: it marks the pairs of the tour and its changes are
      those reported at the stops. */
  lemma VisitTours(w: Walker, m: Marker, place: Place) returns (stops: seq<Stop>)
    requires w.Valid() && m in w.universe
    ensures Tour(w, Stop(w.head(m), place), stops)
    ensures forall x :: x in Visit(w, m, place, Trace([], {})).seen <==> Sees(stops, x)
    ensures forall c :: c in Visit(w, m, place, Trace([], {})).changes <==> Reports(w, stops, c)
  {
    stops := VisitLeads(w, m, place, Trace([], {}));
    var r := Visit(w, m, place, Trace([], {}));
    forall i, pair, l | 0 <= i < |stops| && Walk(pair, l) in PlanAt(w, stops[i])
      ensures Sees(stops, w.head(pair))
    {
      var steps := PlanAt(w, stops[i]);
      assert Followed(w, steps, r.seen);
      var k :| 0 <= k < |steps| && steps[k] == Walk(pair, l);
      assert w.head(steps[k].pair) in r.seen;
    }
    forall c
      ensures Emit(c) !in [Walk(m, place)]
    {
    }
  }
}
