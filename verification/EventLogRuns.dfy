module EventLogRuns {
  /** When a run of the qualification harness goes through, what it stores, and what it writes to the log. */

  import opened Common
  import opened Json
  import opened EventLog
  import opened EventLogGuarantees

  // ---- the state file

  /** The state approves nothing, has one of the two decisions, and is safe to store. */
  ghost predicate Admissible(t: Tools, state: State) {
    && "production_ready" in state && state["production_ready"] == Bool(false)
    && "approved_by" !in state && "approved_at" !in state
    && "decision" in state
    && (state["decision"] == Str("QUALIFICATION_INCOMPLETE") || state["decision"] == Str("READY_FOR_OPERATOR_APPROVAL"))
    && t.safe(state)
  }

  ghost predicate DiffersAt(a: State, b: State, key: string) {
    (key in a) != (key in b) || (key in a && !PyEq(a[key], b[key]))
  }

  /** The states differ in more than the time of their last update. */
  ghost predicate Moved(a: State, b: State) {
    exists key :: key != "updated_at" && DiffersAt(a, b, key)
  }

  lemma MovedIff(a: State, b: State)
    ensures Moved(a, b) <==> !SameFindings(a, b)
  {
    var x, y := a - {UPDATED_AT}, b - {UPDATED_AT};
    if SameFindings(a, b) {
      var p, q := PyForm(Obj(x)).members, PyForm(Obj(y)).members;
      assert p == q;
      forall key | key != "updated_at"
        ensures !DiffersAt(a, b, key)
      {
        assert key in x <==> key in p;
        assert key in y <==> key in q;
        if key in a {
          assert p[key] == PyForm(x[key]) && q[key] == PyForm(y[key]);
        }
      }
    }
    if !Moved(a, b) {
      var p, q := PyForm(Obj(x)).members, PyForm(Obj(y)).members;
      forall key
        ensures key in p <==> key in q
        ensures key in p ==> p[key] == q[key]
      {
        assert key != "updated_at" ==> !DiffersAt(a, b, key);
      }
      assert p == q;
    }
  }

  /** The run goes on to the log: the stored state is admissible, and so is the new one if it is to be stored. */
  ghost predicate GoesOn(t: Tools, s: Store, a: Attempt) {
    && Admissible(t, s.state)
    && (Moved(a.evaluated, s.state) ==> Admissible(t, a.evaluated["updated_at" := Str(a.now)]))
  }

  lemma AdmissibleIff(t: Tools, state: State)
    ensures Admissible(t, state) <==> Unapproved(state) && t.safe(state)
  {
  }

  lemma StampKeepsUnapproved(state: State, now: string)
    ensures Unapproved(state[UPDATED_AT := Str(now)]) <==> Unapproved(state)
  {
    assert UPDATED_AT[0] == 'u' && PRODUCTION_READY[0] == 'p' && APPROVED_BY[0] == 'a' && APPROVED_AT[0] == 'a' && DECISION[0] == 'd';
  }

  /** What one run does: it is refused without effect, or it stores the new state exactly when that has moved, and
      logs what is found in the state then stored. */
  lemma RunIff(t: Tools, s: Store, a: Attempt)
    ensures var r := Run(t, s, a.evaluated, a.now, a.findings);
      if GoesOn(t, s, a) then
        && r.0.state == (if Moved(a.evaluated, s.state) then a.evaluated["updated_at" := Str(a.now)] else s.state)
        && r.0.log == LogFindings(t, s.log, a.findings(r.0.state)).log
        && (r.1 <==> LogFindings(t, s.log, a.findings(r.0.state)).Going?)
      else r == (s, false)
  {
    MovedIff(a.evaluated, s.state);
    AdmissibleIff(t, s.state);
    AdmissibleIff(t, a.evaluated["updated_at" := Str(a.now)]);
    StampKeepsUnapproved(a.evaluated, a.now);
  }

  // ---- what is written to the log

  /** The findings of a run in the order in which they are logged. */
  ghost function InOrder(f: Findings): seq<Observation> {
    f.observations
    + (if f.operations.Some? then [Observation(OperationsObservation, f.operations.value)] else [])
    + [Observation(PhaseEvaluation, f.evaluation)]
  }

  /** The line is the event of this finding: of its type, at the time of its number, with its fields and its
      fingerprint. */
  ghost predicate Records(t: Tools, line: Line, o: Observation) {
    && line.Entry? && line.event.body.eventType == o.eventType && line.event.body.at == t.clock(line.event.body.sequence)
    && line.event.body.fields == o.fields["fingerprint" := Str(t.fingerprint(o.fields))]
  }

  /** The lines are those of the findings numbered by `picks`, in order. */
  ghost predicate Picked(t: Tools, lines: seq<Line>, all: seq<Observation>, picks: seq<nat>) {
    && |picks| == |lines|
    && (forall k :: 0 <= k < |picks| ==> picks[k] < |all| && Records(t, lines[k], all[picks[k]]))
    && (forall k, l :: 0 <= k < l < |picks| ==> picks[k] < picks[l])
  }

  ghost predicate Written(t: Tools, start: seq<Line>, log: seq<Line>, all: seq<Observation>) {
    start <= log && exists picks: seq<nat> :: Picked(t, log[|start|..], all, picks)
  }

  lemma WrittenNothing(t: Tools, log: seq<Line>, all: seq<Observation>)
    ensures Written(t, log, log, all)
  {
    assert Picked(t, log[|log|..], all, []);
  }

  lemma WrittenMore(t: Tools, start: seq<Line>, log: seq<Line>, all: seq<Observation>, o: Observation)
    requires Written(t, start, log, all)
    ensures Written(t, start, log, all + [o])
    ensures forall line :: Records(t, line, o) ==> Written(t, start, log + [line], all + [o])
  {
    var picks: seq<nat> :| Picked(t, log[|start|..], all, picks);
    assert Picked(t, log[|start|..], all + [o], picks);
    forall line | Records(t, line, o)
      ensures Written(t, start, log + [line], all + [o])
    {
      var more := picks + [|all|];
      assert (log + [line])[|start|..] == log[|start|..] + [line];
      assert Picked(t, (log + [line])[|start|..], all + [o], more);
      assert start <= log + [line];
    }
  }

  /** One observation adds nothing or its event. */
  lemma ObserveWrites(t: Tools, p: Progress, o: Observation, remember: bool)
    ensures var r := Observe(t, p, o.eventType, o.fields, remember);
      r.log == p.log || (|r.log| == |p.log| + 1 && r.log == p.log + [r.log[|p.log|]] && Records(t, r.log[|p.log|], o))
  {
  }

  lemma ObserveKeepsWritten(t: Tools, start: seq<Line>, p: Progress, all: seq<Observation>, o: Observation, remember: bool)
    requires Written(t, start, p.log, all)
    ensures Written(t, start, Observe(t, p, o.eventType, o.fields, remember).log, all + [o])
  {
    ObserveWrites(t, p, o, remember);
    WrittenMore(t, start, p.log, all, o);
  }

  lemma {:induction false} EachIsWritten(t: Tools, start: seq<Line>, p: Progress, observations: seq<Observation>, k: nat)
    requires p.log == start && k <= |observations|
    ensures Written(t, start, ObserveEach(t, p, observations, k).log, observations[..k])
    decreases k
  {
    if k == 0 {
      WrittenNothing(t, start, []);
    } else {
      EachIsWritten(t, start, p, observations, k - 1);
      ObserveKeepsWritten(t, start, ObserveEach(t, p, observations, k - 1), observations[..k - 1], observations[k - 1], true);
      assert observations[..k] == observations[..k - 1] + [observations[k - 1]];
    }
  }

  /** What a run adds to the log are events of its findings, each at most once and in their order. */
  lemma FindingsAreWritten(t: Tools, log: seq<Line>, f: Findings)
    ensures Written(t, log, LogFindings(t, log, f).log, InOrder(f))
  {
    match Seen(log, |log|)
    case None =>
      WrittenNothing(t, log, InOrder(f));
    case Some(seen) =>
      var p := Going(log, seen);
      EachIsWritten(t, log, p, f.observations, |f.observations|);
      assert f.observations[..|f.observations|] == f.observations;
      var observed := ObserveEach(t, p, f.observations, |f.observations|);
      var evaluation := Observation(PhaseEvaluation, f.evaluation);
      if f.operations.Some? {
        var drills := Observation(OperationsObservation, f.operations.value);
        ObserveKeepsWritten(t, log, observed, f.observations, drills, false);
        var operated := Observe(t, observed, OperationsObservation, f.operations.value, false);
        ObserveKeepsWritten(t, log, operated, f.observations + [drills], evaluation, false);
      } else {
        ObserveKeepsWritten(t, log, observed, f.observations, evaluation, false);
        assert f.observations + [] == f.observations;
      }
  }

  lemma {:induction false} ZerosAre(n: nat)
    ensures |Zeros(n)| == n && forall i :: 0 <= i < n ==> Zeros(n)[i] == '0'
  {
    if n > 0 {
      ZerosAre(n - 1);
    }
  }

  /** The first event follows sixty-four zeros, every other one the hash of the event before it. */
  lemma NextFollows(t: Tools, log: seq<Line>, eventType: EventType, fields: Fields)
    requires NextEvent(t, log, eventType, fields).Some?
    ensures var body := NextEvent(t, log, eventType, fields).value.body;
      if log == [] then
        body.sequence == 1 && |body.previousHash| == 64 && forall i :: 0 <= i < 64 ==> body.previousHash[i] == '0'
      else
        && log[|log| - 1].Entry?
        && body.sequence == log[|log| - 1].event.body.sequence + 1
        && body.previousHash == log[|log| - 1].event.eventHash
    ensures NextEvent(t, log, eventType, fields).value.eventHash == t.hash(NextEvent(t, log, eventType, fields).value.body)
  {
    ZerosAre(64);
  }

  // ---- runs in which nothing is unsafe

  ghost predicate NothingUnsafe(t: Tools) {
    (forall fields :: t.safe(fields)) && (forall event :: t.safeEvent(event))
  }

  lemma SafeObserveGoes(t: Tools, p: Progress, eventType: EventType, fields: Fields, remember: bool)
    requires NothingUnsafe(t) && p.Going? && Chain(t, p.log)
    ensures var r := Observe(t, p, eventType, fields, remember);
      r.Going? && Chain(t, r.log)
  {
    AppendKeepsChain(t, p.log, eventType, fields[FINGERPRINT := Str(t.fingerprint(fields))]);
  }

  lemma {:induction false} SafeEachGoes(t: Tools, p: Progress, observations: seq<Observation>, k: nat)
    requires NothingUnsafe(t) && p.Going? && Chain(t, p.log) && k <= |observations|
    ensures var r := ObserveEach(t, p, observations, k);
      r.Going? && Chain(t, r.log)
    decreases k
  {
    if k > 0 {
      SafeEachGoes(t, p, observations, k - 1);
      SafeObserveGoes(t, ObserveEach(t, p, observations, k - 1), observations[k - 1].eventType, observations[k - 1].fields, true);
    }
  }

  /** On a chain, when nothing is unsafe, a run goes through exactly when the states allow it, and then every finding
      is in the log. */
  lemma SafeRunIff(t: Tools, s: Store, a: Attempt)
    requires Chain(t, s.log) && NothingUnsafe(t)
    ensures var r := Run(t, s, a.evaluated, a.now, a.findings);
      && (r.1 <==> GoesOn(t, s, a))
      && (r.1 ==> AllLogged(t, r.0.log, a.findings(r.0.state)))
  {
    RunIff(t, s, a);
    if GoesOn(t, s, a) {
      var f := a.findings(Run(t, s, a.evaluated, a.now, a.findings).0.state);
      ChainIsSeen(t, s.log, |s.log|);
      var seen := Seen(s.log, |s.log|).value;
      SafeEachGoes(t, Going(s.log, seen), f.observations, |f.observations|);
      var observed := ObserveEach(t, Going(s.log, seen), f.observations, |f.observations|);
      if f.operations.Some? {
        SafeObserveGoes(t, observed, OperationsObservation, f.operations.value, false);
        SafeObserveGoes(t, Observe(t, observed, OperationsObservation, f.operations.value, false), PhaseEvaluation, f.evaluation, false);
      } else {
        SafeObserveGoes(t, observed, PhaseEvaluation, f.evaluation, false);
      }
      LogFindingsKeeps(t, s.log, f);
    }
  }
}
