module EventLog {
  /** The qualification run store: an append-only, hash-chained event log, and a state file that never
      approves production. */

  import opened Common
  import opened Json

  type Fields = map<string, Json>

  datatype EventType =
    | RunCreated | LifecycleObservation | IdentityObservation
    | PhaseEvidenceObservation | OperationsObservation | PhaseEvaluation | ReferenceDigestAdded

  /** What an event's hash covers. */
  datatype Body = Body(sequence: int, at: string, eventType: EventType, fields: Fields, previousHash: string)

  datatype Event = Event(body: Body, eventHash: string)

  /** A line of the event file; `Garbage` is one that is not an event. */
  datatype Line = Entry(event: Event) | Garbage(text: string)

  /** SHA-256 over canonical JSON, of an event body and of an observation; the safety check, of fields and of
      a whole event; the clock. */
  datatype Tools = Tools(
    hash: Body -> string, fingerprint: Fields -> string,
    safe: Fields -> bool, safeEvent: Event -> bool, clock: int -> string)

  function Zeros(n: nat): string {
    if n == 0 then "" else Zeros(n - 1) + ['0']
  }

  /** `'0' * 64` */
  const ZERO_HASH := Zeros(64)

  const FINGERPRINT := "fingerprint"

  // ---- appending

  function Next(t: Tools, previousHash: string, sequence: int, eventType: EventType, fields: Fields): Event {
    var body := Body(sequence, t.clock(sequence), eventType, fields, previousHash);
    Event(body, t.hash(body))
  }

  /** The event that would be appended; None when the last line is no event. */
  function NextEvent(t: Tools, log: seq<Line>, eventType: EventType, fields: Fields): Option<Event> {
    if log == [] then Some(Next(t, ZERO_HASH, 1, eventType, fields))
    else
      match log[|log| - 1]
      case Garbage(_) => None
      case Entry(last) => Some(Next(t, last.eventHash, last.body.sequence + 1, eventType, fields))
  }

  /** `append_event` */
  function Append(t: Tools, log: seq<Line>, eventType: EventType, fields: Fields): Result<seq<Line>> {
    if !t.safe(fields) then Err("Unsafe evidence.")
    else
      match NextEvent(t, log, eventType, fields)
      case None => Err("Qualification event history is invalid.")
      case Some(event) => if t.safeEvent(event) then Ok(log + [Entry(event)]) else Err("Unsafe evidence.")
  }

  // ---- fingerprints

  function FingerprintOf(fields: Fields): Option<string> {
    if FINGERPRINT in fields && fields[FINGERPRINT].Str? then Some(fields[FINGERPRINT].s) else None
  }

  /** `event_fingerprints` over the first `k` lines; None when one is not an event. */
  function Seen(log: seq<Line>, k: nat): Option<set<string>>
    requires k <= |log|
  {
    if k == 0 then Some({})
    else
      match Seen(log, k - 1)
      case None => None
      case Some(seen) =>
        match log[k - 1]
        case Garbage(_) => None
        case Entry(e) =>
          match FingerprintOf(e.body.fields)
          case None => Some(seen)
          case Some(f) => Some(seen + {f})
  }

  // ---- observing

  /** The log and the fingerprints seen so far; `Raised` when an append failed. */
  datatype Progress = Going(log: seq<Line>, seen: set<string>) | Raised(log: seq<Line>)

  /** Log an observation unless its fingerprint has been seen; `remember` says whether it is added to those. */
  function Observe(t: Tools, p: Progress, eventType: EventType, observation: Fields, remember: bool): Progress {
    match p
    case Raised(_) => p
    case Going(log, seen) =>
      var f := t.fingerprint(observation);
      if f in seen then p
      else
        match Append(t, log, eventType, observation[FINGERPRINT := Str(f)])
        case Err(_) => Raised(log)
        case Ok(more) => Going(more, if remember then seen + {f} else seen)
  }

  datatype Observation = Observation(eventType: EventType, fields: Fields)

  function ObserveEach(t: Tools, p: Progress, observations: seq<Observation>, k: nat): Progress
    requires k <= |observations|
  {
    if k == 0 then p
    else Observe(t, ObserveEach(t, p, observations, k - 1), observations[k - 1].eventType, observations[k - 1].fields, true)
  }

  /** What one run has to say: identity probes and phase evidence, the drills when their record is valid, and
      the evaluation itself. */
  datatype Findings = Findings(observations: seq<Observation>, operations: Option<Fields>, evaluation: Fields)

  /** The event part of `run`. */
  function LogFindings(t: Tools, log: seq<Line>, f: Findings): Progress {
    match Seen(log, |log|)
    case None => Raised(log)
    case Some(seen) =>
      var observed := ObserveEach(t, Going(log, seen), f.observations, |f.observations|);
      var operated := if f.operations.Some? then Observe(t, observed, OperationsObservation, f.operations.value, false) else observed;
      Observe(t, operated, PhaseEvaluation, f.evaluation, false)
  }

  // ---- the state file

  type State = map<string, Json>

  const UPDATED_AT := "updated_at"
  const PRODUCTION_READY := "production_ready"
  const APPROVED_BY := "approved_by"
  const APPROVED_AT := "approved_at"
  const DECISION := "decision"

  /** `_assert_unapproved` does not raise. */
  predicate Unapproved(state: State) {
    && PRODUCTION_READY in state && state[PRODUCTION_READY] == Bool(false)
    && APPROVED_BY !in state && APPROVED_AT !in state
    && DECISION in state
    && (state[DECISION] == Str("QUALIFICATION_INCOMPLETE") || state[DECISION] == Str("READY_FOR_OPERATOR_APPROVAL"))
  }

  /** Equal but for the time of the last update. */
  predicate SameFindings(a: State, b: State) {
    PyEq(Obj(a - {UPDATED_AT}), Obj(b - {UPDATED_AT}))
  }

  datatype Store = Store(log: seq<Line>, state: State)

  /** `run` on an evaluated state; `findings` reads the observations off the state in use.  The flag says
      whether it ended without raising. */
  function Run(t: Tools, s: Store, evaluated: State, now: string, findings: State -> Findings): (Store, bool) {
    if !Unapproved(s.state) || !t.safe(s.state) then (s, false)
    else if SameFindings(evaluated, s.state) then Report(t, s, findings(s.state))
    else if !Unapproved(evaluated) || !t.safe(evaluated[UPDATED_AT := Str(now)]) then (s, false)
    else
      var saved := evaluated[UPDATED_AT := Str(now)];
      Report(t, s.(state := saved), findings(saved))
  }

  function Report(t: Tools, s: Store, f: Findings): (Store, bool) {
    match LogFindings(t, s.log, f)
    case Going(log, _) => (s.(log := log), true)
    case Raised(log) => (s.(log := log), false)
  }

  // ---- the store

  class RunStore {
    const t: Tools
    var lines: seq<Line>
    var state: State

    function Contents(): Store
      reads this
    {
      Store(lines, state)
    }

    constructor (t: Tools, state: State)
      ensures this.t == t && Contents() == Store([], state)
    {
      this.t, this.state := t, state;
      lines := [];
    }

    /** `append_event` */
    method AppendEvent(eventType: EventType, fields: Fields) returns (ok: bool)
      modifies this`lines
      ensures ok <==> Append(t, old(lines), eventType, fields).Ok?
      ensures lines == if ok then Append(t, old(lines), eventType, fields).value else old(lines)
    {
      if !t.safe(fields) {
        return false;
      }
      var next := LinkAfterLast(eventType, fields);
      if next.None? || !t.safeEvent(next.value) {
        return false;
      }
      lines := lines + [Entry(next.value)];
      ok := true;
    }

    /** Read the last line for its hash and number, and build the event that follows it. */
    method LinkAfterLast(eventType: EventType, fields: Fields) returns (next: Option<Event>)
      ensures next == NextEvent(t, lines, eventType, fields)
    {
      var priorHash, sequence := ZERO_HASH, 1;
      if lines != [] {
        var last := lines[|lines| - 1];
        if last.Garbage? {
          return None;
        }
        priorHash, sequence := last.event.eventHash, last.event.body.sequence + 1;
      }
      next := Some(Next(t, priorHash, sequence, eventType, fields));
    }

    /** `event_fingerprints` */
    method EventFingerprints() returns (seen: Option<set<string>>)
      ensures seen == Seen(lines, |lines|)
    {
      var found := {};
      for i := 0 to |lines|
        invariant Seen(lines, i) == Some(found)
      {
        if lines[i].Garbage? {
          SeenFails(lines, i + 1);
          return None;
        }
        var f := FingerprintOf(lines[i].event.body.fields);
        if f.Some? {
          found := found + {f.value};
        }
      }
      seen := Some(found);
    }

    method LogOnce(eventType: EventType, observation: Fields, seen: set<string>, remember: bool) returns (ok: bool, now: set<string>)
      modifies this`lines
      ensures Observe(t, Going(old(lines), seen), eventType, observation, remember) == if ok then Going(lines, now) else Raised(lines)
    {
      var f := t.fingerprint(observation);
      ok, now := true, seen;
      if f !in seen {
        ok := AppendEvent(eventType, observation[FINGERPRINT := Str(f)]);
        if ok && remember {
          now := now + {f};
        }
      }
    }

    method LogEach(observations: seq<Observation>, seen: set<string>) returns (ok: bool, now: set<string>)
      modifies this`lines
      ensures ObserveEach(t, Going(old(lines), seen), observations, |observations|) == if ok then Going(lines, now) else Raised(lines)
    {
      ghost var start := Going(lines, seen);
      now := seen;
      for i := 0 to |observations|
        invariant ObserveEach(t, start, observations, i) == Going(lines, now)
      {
        ok, now := LogOnce(observations[i].eventType, observations[i].fields, now, true);
        if !ok {
          RaisedStays(t, start, observations, i + 1);
          return;
        }
      }
      ok := true;
    }

    method LogAll(f: Findings) returns (ok: bool)
      modifies this`lines
      ensures LogFindings(t, old(lines), f).log == lines && LogFindings(t, old(lines), f).Going? == ok
    {
      var seen := EventFingerprints();
      if seen.None? {
        return false;
      }
      var now;
      ok, now := LogEach(f.observations, seen.value);
      if ok && f.operations.Some? {
        ok, now := LogOnce(OperationsObservation, f.operations.value, now, false);
      }
      if ok {
        ok, now := LogOnce(PhaseEvaluation, f.evaluation, now, false);
      }
    }

    method SaveState(evaluated: State, now: string) returns (ok: bool)
      modifies this`state
      ensures ok == (Unapproved(evaluated) && t.safe(evaluated[UPDATED_AT := Str(now)]))
      ensures state == if ok then evaluated[UPDATED_AT := Str(now)] else old(state)
    {
      ok := Unapproved(evaluated) && t.safe(evaluated[UPDATED_AT := Str(now)]);
      if ok {
        state := evaluated[UPDATED_AT := Str(now)];
      }
    }

    /** `run` */
    method RunOnce(evaluated: State, now: string, findings: State -> Findings) returns (ok: bool)
      modifies this
      ensures (Contents(), ok) == Run(t, old(Contents()), evaluated, now, findings)
    {
      if !Unapproved(state) || !t.safe(state) {
        return false;
      }
      if !SameFindings(evaluated, state) {
        ok := SaveState(evaluated, now);
        if !ok {
          return;
        }
      }
      ok := LogAll(findings(state));
    }
  }

  lemma {:induction false} SeenFails(log: seq<Line>, k: nat)
    requires k <= |log| && Seen(log, k).None?
    ensures Seen(log, |log|).None?
    decreases |log| - k
  {
    if k < |log| {
      SeenFails(log, k + 1);
    }
  }

  lemma {:induction false} RaisedStays(t: Tools, p: Progress, observations: seq<Observation>, k: nat)
    requires k <= |observations| && ObserveEach(t, p, observations, k).Raised?
    ensures ObserveEach(t, p, observations, |observations|) == ObserveEach(t, p, observations, k)
    decreases |observations| - k
  {
    if k < |observations| {
      RaisedStays(t, p, observations, k + 1);
    }
  }
}
