module EventLogGuarantees {
  /** The event log stays a hash chain without repeated observations, and determines its history. */

  import opened Common
  import opened Json
  import opened EventLog

  // ---- the chain

  function HashBefore(log: seq<Line>, i: nat): string
    requires i <= |log|
  {
    if i == 0 then ZERO_HASH else if log[i - 1].Entry? then log[i - 1].event.eventHash else ""
  }

  ghost predicate Linked(t: Tools, log: seq<Line>, i: nat)
    requires i < |log|
  {
    && log[i].Entry?
    && log[i].event.body.sequence == i + 1
    && log[i].event.body.previousHash == HashBefore(log, i)
    && log[i].event.eventHash == t.hash(log[i].event.body)
  }

  /** Sequence numbers count from 1, and every event names the hash of the one before it. */
  ghost predicate Chain(t: Tools, log: seq<Line>) {
    forall i {:trigger Linked(t, log, i)} :: 0 <= i < |log| ==> Linked(t, log, i)
  }

  lemma LinkedInLonger(t: Tools, log: seq<Line>, more: seq<Line>, i: nat)
    requires i < |log| && log <= more
    ensures Linked(t, log, i) <==> Linked(t, more, i)
  {
    assert more[..|log|] == log;
    assert log[i] == more[i] && (i > 0 ==> log[i - 1] == more[i - 1]);
  }

  /** Appending to a chain fails only for unsafe fields or an unsafe event; it adds that event and alters
      none. */
  lemma AppendKeepsChain(t: Tools, log: seq<Line>, eventType: EventType, fields: Fields)
    requires Chain(t, log)
    ensures NextEvent(t, log, eventType, fields).Some?
    ensures Append(t, log, eventType, fields).Ok? <==>
      t.safe(fields) && t.safeEvent(NextEvent(t, log, eventType, fields).value)
    ensures Append(t, log, eventType, fields).Ok? ==>
      var more := Append(t, log, eventType, fields).value;
      && Chain(t, more) && |more| == |log| + 1 && log <= more
      && more[|log|].Entry? && more[|log|].event.body.fields == fields && more[|log|].event.body.eventType == eventType
  {
    if log != [] {
      assert Linked(t, log, |log| - 1);
    }
    if Append(t, log, eventType, fields).Ok? {
      var more := Append(t, log, eventType, fields).value;
      assert more[..|log|] == log;
      assert Linked(t, more, |log|);
      forall i {:trigger Linked(t, more, i)} | 0 <= i < |more|
        ensures Linked(t, more, i)
      {
        if i < |log| {
          LinkedInLonger(t, log, more, i);
        }
      }
    }
  }

  ghost predicate Injective(hash: Body -> string) {
    forall a: Body, b: Body {:trigger hash(a), hash(b)} :: hash(a) == hash(b) ==> a == b
  }

  lemma ChainPrefix(t: Tools, log: seq<Line>, n: nat)
    requires Chain(t, log) && n <= |log|
    ensures Chain(t, log[..n])
  {
    assert log[..n] <= log;
    forall i {:trigger Linked(t, log[..n], i)} | 0 <= i < n
      ensures Linked(t, log[..n], i)
    {
      assert Linked(t, log, i);
      LinkedInLonger(t, log[..n], log, i);
    }
  }

  /** Two chains whose last events have the same hash are the same chain: no earlier event can be altered,
      dropped, added or reordered without changing the last hash. */
  lemma {:induction false} LastHashDetermines(t: Tools, a: seq<Line>, b: seq<Line>)
    requires Chain(t, a) && Chain(t, b) && Injective(t.hash) && a != [] && b != []
    requires HashBefore(a, |a|) == HashBefore(b, |b|)
    ensures a == b
    decreases |a|
  {
    assert Linked(t, a, |a| - 1) && Linked(t, b, |b| - 1);
    var x, y := a[|a| - 1].event, b[|b| - 1].event;
    assert t.hash(x.body) == t.hash(y.body);
    assert x == y && |a| == |b|;
    if |a| > 1 {
      ChainPrefix(t, a, |a| - 1);
      ChainPrefix(t, b, |b| - 1);
      LastHashDetermines(t, a[..|a| - 1], b[..|b| - 1]);
    }
    assert a == a[..|a| - 1] + [Entry(x)] && b == b[..|b| - 1] + [Entry(y)];
  }

  // ---- fingerprints

  function PrintAt(log: seq<Line>, i: nat): Option<string>
    requires i < |log|
  {
    if log[i].Entry? then FingerprintOf(log[i].event.body.fields) else None
  }

  /** No event from the one numbered `n` on repeats a fingerprint logged before it. */
  ghost predicate Fresh(log: seq<Line>, n: nat) {
    forall i, j {:trigger PrintAt(log, i), PrintAt(log, j)} ::
      0 <= i < j < |log| && n <= j && PrintAt(log, i).Some? ==> PrintAt(log, i) != PrintAt(log, j)
  }

  ghost predicate Logged(log: seq<Line>, f: string) {
    exists i :: 0 <= i < |log| && PrintAt(log, i) == Some(f)
  }

  lemma {:induction false} SeenIsLogged(log: seq<Line>, k: nat, f: string)
    requires k <= |log| && Seen(log, k).Some?
    ensures f in Seen(log, k).value <==> exists i :: 0 <= i < k && PrintAt(log, i) == Some(f)
    decreases k
  {
    if k > 0 {
      SeenIsLogged(log, k - 1, f);
      assert PrintAt(log, k - 1) == Some(f) || PrintAt(log, k - 1) != Some(f);
    }
  }

  lemma {:induction false} ChainIsSeen(t: Tools, log: seq<Line>, k: nat)
    requires Chain(t, log) && k <= |log|
    ensures Seen(log, k).Some?
    decreases k
  {
    if k > 0 {
      ChainIsSeen(t, log, k - 1);
      assert Linked(t, log, k - 1);
    }
  }

  /** A chain that continues `start` and has at least the fingerprints in `seen`. */
  ghost predicate Grown(t: Tools, start: seq<Line>, log: seq<Line>, seen: set<string>) {
    && Chain(t, log) && start <= log
    && forall f :: f in seen ==> Logged(log, f)
  }

  lemma LogGrows(log: seq<Line>, more: seq<Line>, f: string)
    requires log <= more && |more| == |log| + 1 && PrintAt(more, |log|) == Some(f)
    ensures forall g :: Logged(more, g) <==> Logged(log, g) || g == f
    ensures !Logged(log, f) ==> Fresh(more, |log|)
  {
    assert forall i :: 0 <= i < |log| ==> PrintAt(more, i) == PrintAt(log, i);
    forall g
      ensures Logged(more, g) <==> Logged(log, g) || g == f
    {
      if Logged(log, g) {
        var i :| 0 <= i < |log| && PrintAt(log, i) == Some(g);
        assert PrintAt(more, i) == Some(g);
      }
      if g == f {
        assert PrintAt(more, |log|) == Some(g);
      }
    }
  }

  /** Logging an observation adds at most one event, and none for a fingerprint that was seen. */
  lemma ObserveLogs(t: Tools, log: seq<Line>, seen: set<string>, eventType: EventType, observation: Fields, remember: bool)
    requires Grown(t, log, log, seen)
    ensures match Observe(t, Going(log, seen), eventType, observation, remember)
      case Raised(more) => more == log
      case Going(more, now) =>
        && Grown(t, log, more, now) && Logged(more, t.fingerprint(observation)) && |more| <= |log| + 1
        && (forall g :: Logged(more, g) <==> Logged(log, g) || g == t.fingerprint(observation))
        && seen <= now && (remember ==> t.fingerprint(observation) in now) && now <= seen + {t.fingerprint(observation)}
        && ((Logged(log, t.fingerprint(observation)) ==> t.fingerprint(observation) in seen) ==> Fresh(more, |log|))
  {
    var f := t.fingerprint(observation);
    var fields := observation[FINGERPRINT := Str(f)];
    AppendKeepsChain(t, log, eventType, fields);
    if f !in seen && Append(t, log, eventType, fields).Ok? {
      var more := Append(t, log, eventType, fields).value;
      assert PrintAt(more, |log|) == Some(f);
      LogGrows(log, more, f);
    }
  }

  lemma FreshTogether(start: seq<Line>, log: seq<Line>, more: seq<Line>)
    requires start <= log <= more && Fresh(log, |start|) && Fresh(more, |log|)
    ensures Fresh(more, |start|)
  {
    assert forall i :: 0 <= i < |log| ==> PrintAt(more, i) == PrintAt(log, i);
    forall i, j {:trigger PrintAt(more, i), PrintAt(more, j)} |
      0 <= i < j < |more| && |start| <= j && PrintAt(more, i).Some?
      ensures PrintAt(more, i) != PrintAt(more, j)
    {
      if j < |log| {
        assert PrintAt(log, i) != PrintAt(log, j);
      }
    }
  }

  /** Nothing but what has been seen is logged. */
  ghost predicate Exact(log: seq<Line>, seen: set<string>) {
    forall f :: Logged(log, f) <==> f in seen
  }

  /** A log grown from `start` whose seen fingerprints are exactly the logged ones, or one that stopped. */
  ghost predicate Kept(t: Tools, start: seq<Line>, p: Progress) {
    match p
    case Raised(log) => Chain(t, log) && Fresh(log, |start|) && start <= log
    case Going(log, seen) => Grown(t, start, log, seen) && Fresh(log, |start|) && Exact(log, seen)
  }

  lemma ObserveStaysKept(t: Tools, start: seq<Line>, p: Progress, o: Observation)
    requires Kept(t, start, p)
    ensures var q := Observe(t, p, o.eventType, o.fields, true);
      && Kept(t, start, q)
      && (q.Going? ==> p.Going? && forall g :: Logged(q.log, g) <==> Logged(p.log, g) || g == t.fingerprint(o.fields))
  {
    if p.Going? {
      ObserveLogs(t, p.log, p.seen, o.eventType, o.fields, true);
      var q := Observe(t, p, o.eventType, o.fields, true);
      if q.Going? {
        FreshTogether(start, p.log, q.log);
      }
    }
  }

  /** The fingerprint is one of the first `k` observations'. */
  predicate Among(t: Tools, observations: seq<Observation>, k: nat, g: string)
    requires k <= |observations|
  {
    exists i | 0 <= i < k :: t.fingerprint(observations[i].fields) == g
  }

  lemma {:induction false} ObserveEachKeeps(t: Tools, start: seq<Line>, seen: set<string>, observations: seq<Observation>, k: nat)
    requires Kept(t, start, Going(start, seen)) && k <= |observations|
    ensures var r := ObserveEach(t, Going(start, seen), observations, k);
      && Kept(t, start, r)
      && (r.Going? ==> forall g :: Logged(r.log, g) <==> Logged(start, g) || Among(t, observations, k, g))
    decreases k
  {
    if k > 0 {
      ObserveEachKeeps(t, start, seen, observations, k - 1);
      ObserveStaysKept(t, start, ObserveEach(t, Going(start, seen), observations, k - 1), observations[k - 1]);
      forall g
        ensures Among(t, observations, k, g) <==> Among(t, observations, k - 1, g) || g == t.fingerprint(observations[k - 1].fields)
      {
      }
    }
  }

  /** The drills and the evaluation have different fingerprints; they are records with different keys. */
  ghost predicate TellsApart(t: Tools, f: Findings) {
    f.operations.Some? ==> t.fingerprint(f.operations.value) != t.fingerprint(f.evaluation)
  }

  lemma ChainIsExact(t: Tools, log: seq<Line>)
    requires Chain(t, log)
    ensures Seen(log, |log|).Some? && Exact(log, Seen(log, |log|).value)
    ensures Kept(t, log, Going(log, Seen(log, |log|).value))
  {
    ChainIsSeen(t, log, |log|);
    var seen := Seen(log, |log|).value;
    forall g: string
      ensures Logged(log, g) <==> g in seen
    {
      SeenIsLogged(log, |log|, g);
    }
  }

  /** One run keeps the chain, alters no earlier event, and logs no fingerprint that the log has or that it
      has just logged, whatever repeats the log held before and also when an append raises; when none does,
      every finding is in the log. */
  lemma LogFindingsKeeps(t: Tools, log: seq<Line>, f: Findings)
    requires Chain(t, log)
    ensures var r := LogFindings(t, log, f);
      && Chain(t, r.log) && log <= r.log
      && (TellsApart(t, f) ==> Fresh(r.log, |log|))
      && (r.Going? ==> AllLogged(t, r.log, f))
  {
    ChainIsExact(t, log);
    var seen := Seen(log, |log|).value;
    ObserveEachKeeps(t, log, seen, f.observations, |f.observations|);
    var observed := ObserveEach(t, Going(log, seen), f.observations, |f.observations|);
    if observed.Going? {
      forall i | 0 <= i < |f.observations|
        ensures Logged(observed.log, t.fingerprint(f.observations[i].fields))
      {
        assert Among(t, f.observations, |f.observations|, t.fingerprint(f.observations[i].fields));
      }
      LastFindingsKeep(t, log, observed.log, observed.seen, f);
    }
  }

  ghost predicate AllLogged(t: Tools, log: seq<Line>, f: Findings) {
    && (forall i :: 0 <= i < |f.observations| ==> Logged(log, t.fingerprint(f.observations[i].fields)))
    && (f.operations.Some? ==> Logged(log, t.fingerprint(f.operations.value)))
    && Logged(log, t.fingerprint(f.evaluation))
  }

  lemma LastFindingsKeep(t: Tools, start: seq<Line>, log: seq<Line>, seen: set<string>, f: Findings)
    requires Grown(t, start, log, seen) && Fresh(log, |start|) && Exact(log, seen)
    requires forall i :: 0 <= i < |f.observations| ==> Logged(log, t.fingerprint(f.observations[i].fields))
    ensures var operated := if f.operations.Some? then Observe(t, Going(log, seen), OperationsObservation, f.operations.value, false) else Going(log, seen);
      var r := Observe(t, operated, PhaseEvaluation, f.evaluation, false);
      && Chain(t, r.log) && start <= r.log
      && (TellsApart(t, f) ==> Fresh(r.log, |start|))
      && (r.Going? ==> AllLogged(t, r.log, f))
  {
    var operated := if f.operations.Some? then Observe(t, Going(log, seen), OperationsObservation, f.operations.value, false) else Going(log, seen);
    if f.operations.Some? {
      ObserveLogs(t, log, seen, OperationsObservation, f.operations.value, false);
    }
    if operated.Going? {
      if f.operations.Some? {
        FreshTogether(start, log, operated.log);
      }
      EvaluationKeeps(t, start, operated.log, operated.seen, f.evaluation);
    }
  }

  lemma EvaluationKeeps(t: Tools, start: seq<Line>, log: seq<Line>, seen: set<string>, evaluation: Fields)
    requires Grown(t, start, log, seen) && Fresh(log, |start|)
    ensures var r := Observe(t, Going(log, seen), PhaseEvaluation, evaluation, false);
      && Chain(t, r.log) && start <= r.log
      && ((Logged(log, t.fingerprint(evaluation)) ==> t.fingerprint(evaluation) in seen) ==> Fresh(r.log, |start|))
      && (r.Going? ==> Logged(r.log, t.fingerprint(evaluation)))
      && (r.Going? ==> forall g :: Logged(log, g) ==> Logged(r.log, g))
  {
    ObserveLogs(t, log, seen, PhaseEvaluation, evaluation, false);
    var r := Observe(t, Going(log, seen), PhaseEvaluation, evaluation, false);
    if r.Going? && Fresh(r.log, |log|) {
      FreshTogether(start, log, r.log);
    }
  }

  // ---- running again

  lemma {:induction false} NothingToObserve(t: Tools, p: Progress, observations: seq<Observation>, k: nat)
    requires p.Going? && k <= |observations|
    requires forall i :: 0 <= i < |observations| ==> t.fingerprint(observations[i].fields) in p.seen
    ensures ObserveEach(t, p, observations, k) == p
    decreases k
  {
    if k > 0 {
      NothingToObserve(t, p, observations, k - 1);
    }
  }

  /** A log that has every finding is left as it is. */
  lemma RelogIsIdle(t: Tools, log: seq<Line>, f: Findings)
    requires Chain(t, log) && AllLogged(t, log, f)
    ensures LogFindings(t, log, f).Going? && LogFindings(t, log, f).log == log
  {
    ChainIsExact(t, log);
    var seen := Seen(log, |log|).value;
    NothingToObserve(t, Going(log, seen), f.observations, |f.observations|);
  }

  // ---- whole runs

  /** One run of the harness: the state it evaluated, the time, and the observations it reads off a state. */
  datatype Attempt = Attempt(evaluated: State, now: string, findings: State -> Findings)

  /** What happens to a store: a run, or a reference whose digest is added to the log without asking whether
      it is there already. */
  datatype Happening = Ran(attempt: Attempt) | Referred(reference: Fields)

  ghost predicate Sound(t: Tools, s: Store) {
    Chain(t, s.log) && Unapproved(s.state)
  }

  function Happen(t: Tools, s: Store, h: Happening): Store {
    match h
    case Ran(a) => Run(t, s, a.evaluated, a.now, a.findings).0
    case Referred(reference) =>
      match Append(t, s.log, ReferenceDigestAdded, reference[FINGERPRINT := Str(t.fingerprint(reference))])
      case Ok(log) => s.(log := log)
      case Err(_) => s
  }

  function HappenAll(t: Tools, s: Store, history: seq<Happening>): Store {
    if history == [] then s
    else Happen(t, HappenAll(t, s, history[..|history| - 1]), history[|history| - 1])
  }

  /** Only references repeat a fingerprint. */
  ghost predicate RepeatsAreReferences(log: seq<Line>) {
    forall i, j {:trigger PrintAt(log, i), PrintAt(log, j)} ::
      0 <= i < j < |log| && PrintAt(log, i).Some? && PrintAt(log, i) == PrintAt(log, j) ==>
        log[j].Entry? && log[j].event.body.eventType == ReferenceDigestAdded
  }

  ghost predicate TellingApart(t: Tools, h: Happening) {
    h.Ran? ==> forall state: State :: TellsApart(t, h.attempt.findings(state))
  }

  lemma RunKeeps(t: Tools, s: Store, a: Attempt)
    requires Sound(t, s)
    ensures var r := Run(t, s, a.evaluated, a.now, a.findings).0;
      && Sound(t, r) && s.log <= r.log
      && (TellsApart(t, a.findings(r.state)) ==> Fresh(r.log, |s.log|))
  {
    if t.safe(s.state) {
      if SameFindings(a.evaluated, s.state) {
        LogFindingsKeeps(t, s.log, a.findings(s.state));
      } else {
        LogFindingsKeeps(t, s.log, a.findings(a.evaluated[UPDATED_AT := Str(a.now)]));
      }
    }
  }

  lemma FreshKeepsRepeats(log: seq<Line>, more: seq<Line>)
    requires log <= more && RepeatsAreReferences(log) && Fresh(more, |log|)
    ensures RepeatsAreReferences(more)
  {
    assert forall i :: 0 <= i < |log| ==> PrintAt(more, i) == PrintAt(log, i) && more[i] == log[i];
    forall i, j {:trigger PrintAt(more, i), PrintAt(more, j)} |
      0 <= i < j < |more| && PrintAt(more, i).Some? && PrintAt(more, i) == PrintAt(more, j)
      ensures more[j].Entry? && more[j].event.body.eventType == ReferenceDigestAdded
    {
      assert j < |log|;
      assert PrintAt(log, i) == PrintAt(log, j);
    }
  }

  lemma HappenKeeps(t: Tools, s: Store, h: Happening)
    requires Sound(t, s) && RepeatsAreReferences(s.log) && TellingApart(t, h)
    ensures var r := Happen(t, s, h);
      Sound(t, r) && RepeatsAreReferences(r.log) && s.log <= r.log
  {
    var r := Happen(t, s, h);
    match h
    case Ran(a) =>
      RunKeeps(t, s, a);
      FreshKeepsRepeats(s.log, r.log);
    case Referred(reference) =>
      AppendKeepsChain(t, s.log, ReferenceDigestAdded, reference[FINGERPRINT := Str(t.fingerprint(reference))]);
      assert forall i :: 0 <= i < |s.log| ==> PrintAt(r.log, i) == PrintAt(s.log, i) && r.log[i] == s.log[i];
  }

  /** Over any history of runs, finished or stopped by an append that raised, and added references, the log
      stays a chain, no event is ever altered, only a reference ever repeats a fingerprint, and the stored
      state never approves production. */
  lemma {:induction false} HistoryKeeps(t: Tools, s: Store, history: seq<Happening>)
    requires Sound(t, s) && RepeatsAreReferences(s.log)
    requires forall i :: 0 <= i < |history| ==> TellingApart(t, history[i])
    ensures Sound(t, HappenAll(t, s, history)) && RepeatsAreReferences(HappenAll(t, s, history).log)
    ensures s.log <= HappenAll(t, s, history).log
  {
    if history != [] {
      var front := history[..|history| - 1];
      HistoryKeeps(t, s, front);
      HappenKeeps(t, HappenAll(t, s, front), history[|history| - 1]);
    }
  }

  // ---- the records a run writes

  const DRILLS := "drills"
  const SOURCE_DIGEST := "source_digest"
  const PHASE_STATUSES := "phase_statuses"

  /** Drills are a record of drills; an evaluation has the source, the phases and the decision. */
  ghost predicate AsWritten(f: Findings) {
    && (f.operations.Some? ==> f.operations.value.Keys == {DRILLS})
    && f.evaluation.Keys == {SOURCE_DIGEST, PHASE_STATUSES, DECISION}
  }

  ghost predicate NoCollisions(t: Tools) {
    forall a: Fields, b: Fields {:trigger t.fingerprint(a), t.fingerprint(b)} :: t.fingerprint(a) == t.fingerprint(b) ==> a == b
  }

  lemma RecordsTellApart(t: Tools, f: Findings)
    requires NoCollisions(t) && AsWritten(f)
    ensures TellsApart(t, f)
  {
    if f.operations.Some? {
      assert DRILLS in f.operations.value && DRILLS !in f.evaluation by {
        assert DRILLS[0] == 'd' && SOURCE_DIGEST[0] == 's' && PHASE_STATUSES[0] == 'p' && DECISION[1] == 'e' && DRILLS[1] == 'r';
      }
    }
  }

  /** With the records the runs write, and fingerprints that do not collide: over any history the log stays a
      chain, no event is altered, only references repeat fingerprints, and production is never approved. */
  lemma WrittenHistoryKeeps(t: Tools, s: Store, history: seq<Happening>)
    requires NoCollisions(t) && Sound(t, s) && RepeatsAreReferences(s.log)
    requires forall i, state: State {:trigger history[i].attempt.findings(state)} ::
      0 <= i < |history| && history[i].Ran? ==> AsWritten(history[i].attempt.findings(state))
    ensures Sound(t, HappenAll(t, s, history)) && RepeatsAreReferences(HappenAll(t, s, history).log)
    ensures s.log <= HappenAll(t, s, history).log
  {
    forall i | 0 <= i < |history|
      ensures TellingApart(t, history[i])
    {
      if history[i].Ran? {
        forall state: State
          ensures TellsApart(t, history[i].attempt.findings(state))
        {
          RecordsTellApart(t, history[i].attempt.findings(state));
        }
      }
    }
    HistoryKeeps(t, s, history);
  }

  lemma UpdateIsIgnored(state: State, now: string)
    ensures SameFindings(state, state[UPDATED_AT := Str(now)])
  {
    assert state[UPDATED_AT := Str(now)] - {UPDATED_AT} == state - {UPDATED_AT};
  }

  /** After a run that finished, running again on the same evaluation changes nothing: no event is appended
      and the state file keeps its content, its time of update included. */
  lemma RerunIsIdle(t: Tools, s: Store, a: Attempt, later: string)
    requires Chain(t, s.log) && Run(t, s, a.evaluated, a.now, a.findings).1
    ensures var r := Run(t, s, a.evaluated, a.now, a.findings).0;
      Run(t, r, a.evaluated, later, a.findings) == (r, true)
  {
    var r := Run(t, s, a.evaluated, a.now, a.findings).0;
    UpdateIsIgnored(a.evaluated, a.now);
    LogFindingsKeeps(t, s.log, a.findings(r.state));
    RelogIsIdle(t, r.log, a.findings(r.state));
  }

  /** What the missing `seen.add` after the drills costs: a run logs a fingerprint that the log has, or that it
      has just logged, exactly when drills and evaluation share one that is neither in the log before nor
      among the other observations. */
  lemma RepeatsIff(t: Tools, log: seq<Line>, f: Findings)
    requires Chain(t, log) && LogFindings(t, log, f).Going?
    ensures var mark := t.fingerprint(f.evaluation);
      Fresh(LogFindings(t, log, f).log, |log|) <==>
        TellsApart(t, f) || Logged(log, mark) || Among(t, f.observations, |f.observations|, mark)
  {
    ChainIsExact(t, log);
    var seen := Seen(log, |log|).value;
    ObserveEachKeeps(t, log, seen, f.observations, |f.observations|);
    var observed := ObserveEach(t, Going(log, seen), f.observations, |f.observations|);
    if TellsApart(t, f) {
      LogFindingsKeeps(t, log, f);
    } else if t.fingerprint(f.evaluation) !in observed.seen {
      RepeatIsLogged(t, observed.log, observed.seen, f, |log|);
    }
  }

  /** Adding the same reference twice does repeat a fingerprint. */
  lemma ReferenceRepeats(t: Tools, s: Store, reference: Fields)
    requires Chain(t, s.log)
    requires var once := Happen(t, s, Referred(reference)); |Happen(t, once, Referred(reference)).log| == |s.log| + 2
    ensures !Fresh(Happen(t, Happen(t, s, Referred(reference)), Referred(reference)).log, |s.log|)
  {
    var fields := reference[FINGERPRINT := Str(t.fingerprint(reference))];
    var once := Happen(t, s, Referred(reference));
    AppendKeepsChain(t, s.log, ReferenceDigestAdded, fields);
    AppendKeepsChain(t, once.log, ReferenceDigestAdded, fields);
    var twice := Happen(t, once, Referred(reference));
    assert PrintAt(twice.log, |s.log|) == Some(t.fingerprint(reference)) == PrintAt(twice.log, |s.log| + 1);
  }

  lemma RepeatIsLogged(t: Tools, log: seq<Line>, seen: set<string>, f: Findings, n: nat)
    requires Chain(t, log) && !TellsApart(t, f) && t.fingerprint(f.evaluation) !in seen && n <= |log|
    requires Observe(t, Observe(t, Going(log, seen), OperationsObservation, f.operations.value, false), PhaseEvaluation, f.evaluation, false).Going?
    ensures !Fresh(
      Observe(t, Observe(t, Going(log, seen), OperationsObservation, f.operations.value, false), PhaseEvaluation, f.evaluation, false).log, n)
  {
    var mark := t.fingerprint(f.evaluation);
    var drills, evaluation := f.operations.value[FINGERPRINT := Str(mark)], f.evaluation[FINGERPRINT := Str(mark)];
    AppendKeepsChain(t, log, OperationsObservation, drills);
    var more := Append(t, log, OperationsObservation, drills).value;
    AppendKeepsChain(t, more, PhaseEvaluation, evaluation);
    var twice := Append(t, more, PhaseEvaluation, evaluation).value;
    assert PrintAt(twice, |log|) == Some(mark) && PrintAt(twice, |log| + 1) == Some(mark);
  }
}
