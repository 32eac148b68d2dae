module Traveler {
  /** The process steps of a traveler, worked through in order. */

  import opened Common

  datatype Status = Queued | Running | Complete | Hold

  datatype Step = Step(id: string, name: string, equipment: string, status: Status, duration: string)

  predicate Follows(from: Status, to: Status) {
    match from
    case Queued => to == Running
    case Running => to == Complete || to == Hold
    case Complete => false
    case Hold => to == Running
  }

  /** `steps.findIndex(s => s.id === id)`, `|steps|` when there is none. */
  function IndexOf(steps: seq<Step>, id: string): (n: nat)
    ensures n <= |steps|
    ensures n < |steps| ==> steps[n].id == id
    ensures forall i :: 0 <= i < n ==> steps[i].id != id
  {
    if steps == [] || steps[0].id == id then 0 else 1 + IndexOf(steps[1..], id)
  }

  predicate AllComplete(steps: seq<Step>, k: nat)
    requires k <= |steps|
  {
    forall i | 0 <= i < k :: steps[i].status == Complete
  }

  function WithStatus(steps: seq<Step>, id: string, status: Status): seq<Step> {
    seq(|steps|, i requires 0 <= i < |steps| => if steps[i].id == id then steps[i].(status := status) else steps[i])
  }

  /** `transitionStep` */
  function Transition(steps: seq<Step>, id: string, status: Status): Result<seq<Step>> {
    var index := IndexOf(steps, id);
    if index == |steps| then Err("Process step not found.")
    else if !Follows(steps[index].status, status) then Err("Transition is not allowed.")
    else if status == Running && !AllComplete(steps, index) then Err("Complete prerequisite steps first.")
    else Ok(WithStatus(steps, id, status))
  }

  // ---- reachable states

  predicate DistinctIds(steps: seq<Step>) {
    forall i, j | 0 <= i < j < |steps| :: steps[i].id != steps[j].id
  }

  predicate AllQueued(steps: seq<Step>) {
    forall i | 0 <= i < |steps| :: steps[i].status == Queued
  }

  /** A complete prefix, at most one step running or on hold, and a queued rest. */
  predicate Shaped(steps: seq<Step>, k: nat) {
    && k <= |steps|
    && AllComplete(steps, k)
    && (k < |steps| ==> steps[k].status != Complete)
    && (forall i | k < i < |steps| :: steps[i].status == Queued)
  }

  /** An attempt on a step; a refused one changes nothing. */
  datatype Attempt = Attempt(id: string, status: Status)

  function Try(steps: seq<Step>, a: Attempt): seq<Step> {
    match Transition(steps, a.id, a.status)
    case Ok(next) => next
    case Err(_) => steps
  }

  function TryAll(steps: seq<Step>, attempts: seq<Attempt>): seq<Step> {
    if attempts == [] then steps
    else Try(TryAll(steps, attempts[..|attempts| - 1]), attempts[|attempts| - 1])
  }

  /** The number of steps that are complete from the front. */
  function Frontier(steps: seq<Step>): (k: nat)
    ensures k <= |steps|
  {
    if steps == [] || steps[0].status != Complete then 0 else 1 + Frontier(steps[1..])
  }

  lemma {:induction false} FrontierIs(steps: seq<Step>, k: nat)
    requires Shaped(steps, k)
    ensures Frontier(steps) == k
    decreases |steps|
  {
    if steps != [] && steps[0].status == Complete {
      FrontierIs(steps[1..], k - 1);
    }
  }

  lemma MoverIsFrontier(steps: seq<Step>, k: nat, id: string, status: Status)
    requires DistinctIds(steps) && Shaped(steps, k)
    ensures Transition(steps, id, status).Ok? <==> k < |steps| && steps[k].id == id && Follows(steps[k].status, status)
    ensures Transition(steps, id, status).Ok? ==> IndexOf(steps, id) == k
  {
    var index := IndexOf(steps, id);
    if k < |steps| && steps[k].id == id {
      assert index == k;
    }
    if index < k {
      assert steps[index].status == Complete;
    } else if k < index < |steps| {
      assert steps[index].status == Queued && steps[k].status != Complete;
    }
  }

  lemma OneStepChanges(steps: seq<Step>, k: nat, status: Status)
    requires DistinctIds(steps) && k < |steps|
    ensures WithStatus(steps, steps[k].id, status) == steps[k := steps[k].(status := status)]
    ensures DistinctIds(WithStatus(steps, steps[k].id, status))
  {
    forall i | 0 <= i < |steps| && i != k
      ensures steps[i].id != steps[k].id
    {
      if i < k {
        assert steps[i].id != steps[k].id;
      } else {
        assert steps[k].id != steps[i].id;
      }
    }
    var next := WithStatus(steps, steps[k].id, status);
    forall i, j | 0 <= i < j < |next|
      ensures next[i].id != next[j].id
    {
      assert steps[i].id != steps[j].id;
    }
  }

  lemma AdvanceKeepsShape(steps: seq<Step>, k: nat, status: Status)
    requires Shaped(steps, k) && k < |steps| && Follows(steps[k].status, status)
    ensures Shaped(steps[k := steps[k].(status := status)], if status == Complete then k + 1 else k)
  {
  }

  /** In a shaped state the only step that can move is the first that is not complete, along the status
      table; it is then the only one that changes, and the state stays shaped. */
  lemma TransitionIff(steps: seq<Step>, id: string, status: Status)
    requires DistinctIds(steps) && Shaped(steps, Frontier(steps))
    ensures var k := Frontier(steps);
      && (Transition(steps, id, status).Ok? <==>
            && k < |steps| && steps[k].id == id
            && (steps[k].status, status) in {(Queued, Running), (Running, Complete), (Running, Hold), (Hold, Running)})
      && (Transition(steps, id, status).Ok? ==>
            var next := Transition(steps, id, status).value;
            && next == steps[k := steps[k].(status := status)]
            && DistinctIds(next)
            && Shaped(next, Frontier(next))
            && Frontier(next) == if status == Complete then k + 1 else k)
  {
    var k := Frontier(steps);
    MoverIsFrontier(steps, k, id, status);
    if Transition(steps, id, status).Ok? {
      OneStepChanges(steps, k, status);
      AdvanceKeepsShape(steps, k, status);
      FrontierIs(steps[k := steps[k].(status := status)], if status == Complete then k + 1 else k);
    }
  }

  ghost predicate Sound(steps: seq<Step>) {
    DistinctIds(steps) && Shaped(steps, Frontier(steps))
  }

  /** The later state has at least the completed steps of the earlier one, unchanged. */
  ghost predicate KeepsComplete(earlier: seq<Step>, later: seq<Step>) {
    && |later| == |earlier| && Frontier(earlier) <= Frontier(later)
    && later[..Frontier(earlier)] == earlier[..Frontier(earlier)]
  }

  lemma KeepsIsTransitive(a: seq<Step>, b: seq<Step>, c: seq<Step>)
    requires KeepsComplete(a, b) && KeepsComplete(b, c)
    ensures KeepsComplete(a, c)
  {
    assert c[..Frontier(a)] == c[..Frontier(b)][..Frontier(a)];
    assert b[..Frontier(a)] == b[..Frontier(b)][..Frontier(a)];
  }

  lemma TryKeeps(steps: seq<Step>, a: Attempt)
    requires Sound(steps)
    ensures Sound(Try(steps, a)) && KeepsComplete(steps, Try(steps, a))
  {
    TransitionIff(steps, a.id, a.status);
  }

  lemma {:induction false} QueuedIsShaped(steps: seq<Step>)
    requires AllQueued(steps)
    ensures Shaped(steps, 0) && Frontier(steps) == 0
  {
    FrontierIs(steps, 0);
  }

  /** From all-queued steps with distinct identifiers, every state any attempts lead to is a complete
      prefix, then at most one step running or on hold, then queued steps; the prefix only grows, and a
      completed step never changes again. */
  lemma {:induction false} ReachableIsShaped(steps: seq<Step>, attempts: seq<Attempt>, n: nat)
    requires DistinctIds(steps) && AllQueued(steps) && n <= |attempts|
    ensures Sound(TryAll(steps, attempts)) && |TryAll(steps, attempts)| == |steps|
    ensures KeepsComplete(TryAll(steps, attempts[..n]), TryAll(steps, attempts))
    decreases |attempts|
  {
    assert attempts[..|attempts|] == attempts;
    if attempts == [] {
      QueuedIsShaped(steps);
    } else {
      var front, last := attempts[..|attempts| - 1], attempts[|attempts| - 1];
      ReachableIsShaped(steps, front, if n < |attempts| then n else |front|);
      TryKeeps(TryAll(steps, front), last);
      if n < |attempts| {
        assert front[..n] == attempts[..n];
        KeepsIsTransitive(TryAll(steps, attempts[..n]), TryAll(steps, front), TryAll(steps, attempts));
      }
    }
  }
}
