module ScheduleGuarantees {
  /** What an empty error list says about a task schedule. */

  import opened Common
  import opened Numbers
  import opened ErrorLists
  import opened TaskSchedule

  // ---- a schedule in words

  predicate NamedTask(t: Task) {
    t.id != "" && exists i :: 0 <= i < |t.name| && t.name[i] as int !in JS_WHITE
  }

  /** Whole days from 0, at least one of them, ending by the horizon. */
  predicate Scheduled(t: Task, horizon: Number) {
    && IsInteger(t.start) && IsInteger(t.duration)
    && IntOf(t.start) >= 0 && IntOf(t.duration) >= 1
    && (match horizon
        case Fin(h) => t.start.x + t.duration.x <= h
        case NaN => true
        case Infinite(positive) => positive)
  }

  predicate InProgress(t: Task) {
    t.progress.Fin? && 0.0 <= t.progress.x <= 100.0
  }

  /** `d` ends before `t` starts. */
  predicate EndsBefore(d: Task, t: Task) {
    d.start.Fin? && d.duration.Fin? && t.start.Fin? && d.start.x + d.duration.x <= t.start.x
  }

  ghost predicate Prepared(tasks: seq<Task>, t: Task) {
    forall k :: 0 <= k < |t.dependencies| ==> EndsInTime(tasks, t, t.dependencies[k])
  }

  /** A task with this identifier ends before `t` starts. */
  ghost predicate EndsInTime(tasks: seq<Task>, t: Task, id: string) {
    exists d :: d in tasks && d.id == id && EndsBefore(d, t)
  }

  ghost predicate ValidTask(tasks: seq<Task>, t: Task, horizon: Number) {
    NamedTask(t) && Scheduled(t, horizon) && InProgress(t) && Prepared(tasks, t)
  }

  ghost predicate ValidSchedule(tasks: seq<Task>, horizon: Number) {
    && UniqueIds(tasks)
    && forall i :: 0 <= i < |tasks| ==> ValidTask(tasks, tasks[i], horizon)
  }

  // ---- no problems means valid

  lemma OwnProblemsIff(t: Task, horizon: Number)
    ensures OwnProblems(t, horizon) == [] <==> NamedTask(t) && Scheduled(t, horizon) && InProgress(t)
  {
  }

  lemma {:induction false} DependencyProblemsIff(byId: map<string, Task>, t: Task, k: nat)
    requires k <= |t.dependencies|
    ensures DependencyProblems(byId, t, k) == [] <==>
      forall i :: 0 <= i < k ==> t.dependencies[i] in byId && !Less(t.start, Add(byId[t.dependencies[i]].start, byId[t.dependencies[i]].duration))
    decreases k
  {
    if k > 0 {
      DependencyProblemsIff(byId, t, k - 1);
    }
  }

  lemma {:induction false} NoneGathered(problemsWith: Task -> seq<Problem>, before: seq<Problem>, tasks: seq<Task>, k: nat)
    requires k <= |tasks|
    ensures Gather(PerTask(problemsWith, tasks), before, k) == [] <==> before == [] && forall i :: 0 <= i < k ==> problemsWith(tasks[i]) == []
    decreases k
  {
    if k > 0 {
      NoneGathered(problemsWith, before, tasks, k - 1);
    }
  }

  ghost predicate AllScheduled(tasks: seq<Task>, horizon: Number) {
    forall i :: 0 <= i < |tasks| ==> Scheduled(tasks[i], horizon)
  }

  lemma DependenciesPrepare(tasks: seq<Task>, t: Task, horizon: Number)
    requires UniqueIds(tasks) && AllScheduled(tasks, horizon) && t in tasks
    ensures DependencyProblems(ById(tasks), t, |t.dependencies|) == [] <==> Prepared(tasks, t)
  {
    ByIdHolds(tasks);
    ByIdFinds(tasks);
    DependencyProblemsIff(ById(tasks), t, |t.dependencies|);
    forall k | 0 <= k < |t.dependencies|
      ensures (t.dependencies[k] in ById(tasks)
               && !Less(t.start, Add(ById(tasks)[t.dependencies[k]].start, ById(tasks)[t.dependencies[k]].duration)))
        <==> EndsInTime(tasks, t, t.dependencies[k])
    {
      DependencyIsPrepared(tasks, t, t.dependencies[k], horizon);
    }
  }

  lemma DependencyIsPrepared(tasks: seq<Task>, t: Task, id: string, horizon: Number)
    requires UniqueIds(tasks) && AllScheduled(tasks, horizon) && t in tasks
    ensures (id in ById(tasks) && !Less(t.start, Add(ById(tasks)[id].start, ById(tasks)[id].duration)))
      <==> EndsInTime(tasks, t, id)
  {
    ByIdHolds(tasks);
    ByIdFinds(tasks);
    var i :| 0 <= i < |tasks| && tasks[i] == t;
    assert Scheduled(tasks[i], horizon);
    if id in ById(tasks) {
      var d := ById(tasks)[id];
      var j :| 0 <= j < |tasks| && tasks[j] == d;
      assert Scheduled(tasks[j], horizon);
    }
    forall d | d in tasks && d.id == id
      ensures id in ById(tasks) && ById(tasks)[id] == d
    {
      var j :| 0 <= j < |tasks| && tasks[j] == d;
    }
  }

  lemma TaskIsValid(tasks: seq<Task>, t: Task, horizon: Number)
    ensures ProblemsWith(ById(tasks), horizon)(t) == [] ==> NamedTask(t) && Scheduled(t, horizon) && InProgress(t)
    ensures UniqueIds(tasks) && AllScheduled(tasks, horizon) && t in tasks ==>
      (ProblemsWith(ById(tasks), horizon)(t) == [] <==> ValidTask(tasks, t, horizon))
  {
    OwnProblemsIff(t, horizon);
    if UniqueIds(tasks) && AllScheduled(tasks, horizon) && t in tasks {
      DependenciesPrepare(tasks, t, horizon);
    }
  }

  lemma NoTaskProblems(tasks: seq<Task>, horizon: Number)
    ensures TaskProblems(tasks, horizon) == [] <==>
      |ById(tasks)| == |tasks| && forall i {:trigger tasks[i]} :: 0 <= i < |tasks| ==> ProblemsWith(ById(tasks), horizon)(tasks[i]) == []
  {
    NoneGathered(ProblemsWith(ById(tasks), horizon), if |ById(tasks)| != |tasks| then [DuplicateIds] else [], tasks, |tasks|);
  }

  lemma CheckedIffValid(tasks: seq<Task>, horizon: Number)
    ensures TaskProblems(tasks, horizon) == [] <==> ValidSchedule(tasks, horizon)
  {
    var problemsWith := ProblemsWith(ById(tasks), horizon);
    NoTaskProblems(tasks, horizon);
    UniqueByCount(tasks);
    if UniqueIds(tasks) {
      CountWhenUnique(tasks);
    }
    forall i | 0 <= i < |tasks|
      ensures problemsWith(tasks[i]) == [] ==> Scheduled(tasks[i], horizon)
      ensures UniqueIds(tasks) && AllScheduled(tasks, horizon) ==> (problemsWith(tasks[i]) == [] <==> ValidTask(tasks, tasks[i], horizon))
    {
      TaskIsValid(tasks, tasks[i], horizon);
    }
  }

  // ---- the cycle check is exact, and redundant in a schedule that passes the others

  predicate StartsEarlier(byId: map<string, Task>, a: string, b: string) {
    a in byId && b in byId && byId[a].start.Fin? && byId[b].start.Fin? && byId[a].start.x < byId[b].start.x
  }

  lemma PrerequisiteStartsEarlier(tasks: seq<Task>, horizon: Number, a: string, b: string)
    requires ValidSchedule(tasks, horizon) && DependsOn(ById(tasks), a, b)
    ensures StartsEarlier(ById(tasks), b, a)
  {
    ByIdHolds(tasks);
    ByIdFinds(tasks);
    var t := ById(tasks)[a];
    var i :| 0 <= i < |tasks| && tasks[i] == t;
    assert ValidTask(tasks, tasks[i], horizon);
    var k :| 0 <= k < |t.dependencies| && t.dependencies[k] == b;
    var d :| d in tasks && d.id == t.dependencies[k] && EndsBefore(d, t);
    var j :| 0 <= j < |tasks| && tasks[j] == d;
    assert ValidTask(tasks, tasks[j], horizon);
  }

  lemma {:induction false} WalkGoesBack(tasks: seq<Task>, horizon: Number, path: seq<string>, k: nat)
    requires ValidSchedule(tasks, horizon) && Walk(ById(tasks), path) && 0 < k < |path|
    ensures StartsEarlier(ById(tasks), path[k], path[0])
  {
    assert DependsOn(ById(tasks), path[k - 1], path[k]);
    PrerequisiteStartsEarlier(tasks, horizon, path[k - 1], path[k]);
    if k > 1 {
      WalkGoesBack(tasks, horizon, path, k - 1);
    }
  }

  /** When every other check passes there is no circular dependency. */
  lemma CycleIsRedundant(tasks: seq<Task>, horizon: Number)
    requires TaskProblems(tasks, horizon) == []
    ensures !HasCycle(ById(tasks))
  {
    CheckedIffValid(tasks, horizon);
    if HasCycle(ById(tasks)) {
      var path :| Cycle(ById(tasks), path);
      PrerequisiteStartsEarlier(tasks, horizon, path[|path| - 1], path[0]);
      if |path| > 1 {
        WalkGoesBack(tasks, horizon, path, |path| - 1);
      }
    }
  }

  ghost function Errors(tasks: seq<Task>, horizon: Number): seq<Problem> {
    Unique(TaskProblems(tasks, horizon) + if HasCycle(ById(tasks)) then [Circular] else [])
  }

  lemma UniqueIsEmpty(s: seq<Problem>)
    ensures Unique(s) == [] <==> s == []
  {
    if s != [] {
      assert s[0] in Unique(s);
    }
  }

  /** The error list is empty exactly when the schedule is valid. */
  lemma NoErrorsIffValid(tasks: seq<Task>, horizon: Number)
    ensures Errors(tasks, horizon) == [] <==> ValidSchedule(tasks, horizon)
  {
    UniqueIsEmpty(TaskProblems(tasks, horizon) + if HasCycle(ById(tasks)) then [Circular] else []);
    CheckedIffValid(tasks, horizon);
    if TaskProblems(tasks, horizon) == [] {
      CycleIsRedundant(tasks, horizon);
    }
  }

  lemma {:induction false} OthersAreNotCircular(byId: map<string, Task>, t: Task, k: nat)
    requires k <= |t.dependencies|
    ensures Circular !in DependencyProblems(byId, t, k)
    decreases k
  {
    if k > 0 {
      OthersAreNotCircular(byId, t, k - 1);
    }
  }

  lemma {:induction false} GatherLacks(problemsWith: Task -> seq<Problem>, before: seq<Problem>, tasks: seq<Task>, k: nat, p: Problem)
    requires k <= |tasks| && p !in before && forall t :: p !in problemsWith(t)
    ensures p !in Gather(PerTask(problemsWith, tasks), before, k)
    decreases k
  {
    if k > 0 {
      GatherLacks(problemsWith, before, tasks, k - 1, p);
    }
  }

  /** A circular dependency is reported exactly when some tasks depend on each other in a circle. */
  lemma CircularIff(tasks: seq<Task>, horizon: Number)
    ensures Circular in Errors(tasks, horizon) <==> HasCycle(ById(tasks))
  {
    var problemsWith := ProblemsWith(ById(tasks), horizon);
    forall t
      ensures Circular !in problemsWith(t)
    {
      OthersAreNotCircular(ById(tasks), t, |t.dependencies|);
    }
    GatherLacks(problemsWith, if |ById(tasks)| != |tasks| then [DuplicateIds] else [], tasks, |tasks|, Circular);
  }

  /** Any arrangement of a valid schedule by start date puts every prerequisite before what needs it. */
  lemma StartOrderIsTopological(tasks: seq<Task>, horizon: Number, sorted: seq<Task>, i: nat, j: nat)
    requires ValidSchedule(tasks, horizon) && multiset(sorted) == multiset(tasks)
    requires forall a, b :: 0 <= a < b < |sorted| && sorted[a].start.Fin? && sorted[b].start.Fin? ==> sorted[a].start.x <= sorted[b].start.x
    requires i < |sorted| && j < |sorted| && sorted[i].id in sorted[j].dependencies
    ensures i < j
  {
    ByIdFinds(tasks);
    assert sorted[i] in multiset(sorted) && sorted[j] in multiset(sorted);
    var a :| 0 <= a < |tasks| && tasks[a] == sorted[i];
    var b :| 0 <= b < |tasks| && tasks[b] == sorted[j];
    assert DependsOn(ById(tasks), sorted[j].id, sorted[i].id);
    PrerequisiteStartsEarlier(tasks, horizon, sorted[j].id, sorted[i].id);
  }

  // ---- moving a task

  /** `tasks.map(t => t.id === id ? {...t, start, duration} : t)` */
  function Moved(tasks: seq<Task>, id: string, start: Number, duration: Number): seq<Task> {
    seq(|tasks|, i requires 0 <= i < |tasks| => MovedTask(tasks[i], id, start, duration))
  }

  function MovedTask(t: Task, id: string, start: Number, duration: Number): Task {
    if t.id == id then t.(start := start, duration := duration) else t
  }

  predicate HasTask(tasks: seq<Task>, id: string) {
    exists i | 0 <= i < |tasks| :: tasks[i].id == id
  }

  /** `moveTask`: the moved schedule when it is valid, an error otherwise. */
  method MoveTask(tasks: seq<Task>, id: string, start: Number, duration: Number, horizon: Number) returns (r: Result<seq<Task>>)
    ensures r.Ok? <==> HasTask(tasks, id) && ValidSchedule(Moved(tasks, id, start, duration), horizon)
    ensures r.Ok? ==> r.value == Moved(tasks, id, start, duration)
  {
    if !HasTask(tasks, id) {
      return Err("Task not found.");
    }
    var next := Moved(tasks, id, start, duration);
    var errors := ValidateTasks(next, horizon);
    NoErrorsIffValid(next, horizon);
    r := if errors == [] then Ok(next) else Err("The moved schedule is invalid.");
  }

  /** The moved task fits: its dates are good, all it needs ends before it, and all that needs it starts
      after it. */
  ghost predicate Fits(tasks: seq<Task>, moved: Task, horizon: Number) {
    && Scheduled(moved, horizon)
    && (forall i :: 0 <= i < |tasks| && tasks[i].id in moved.dependencies ==> EndsBefore(tasks[i], moved))
    && (forall i :: 0 <= i < |tasks| && moved.id in tasks[i].dependencies ==> EndsBefore(moved, tasks[i]))
  }

  ghost predicate DependenciesExist(tasks: seq<Task>, t: Task) {
    forall k :: 0 <= k < |t.dependencies| ==> HasTask(tasks, t.dependencies[k])
  }

  ghost predicate AllEndBefore(tasks: seq<Task>, t: Task) {
    forall i :: 0 <= i < |tasks| && tasks[i].id in t.dependencies ==> EndsBefore(tasks[i], t)
  }

  lemma PreparedMeans(tasks: seq<Task>, t: Task)
    requires UniqueIds(tasks) && Prepared(tasks, t)
    ensures DependenciesExist(tasks, t) && AllEndBefore(tasks, t)
  {
    forall k | 0 <= k < |t.dependencies|
      ensures HasTask(tasks, t.dependencies[k])
    {
      var d :| d in tasks && d.id == t.dependencies[k] && EndsBefore(d, t);
      var i :| 0 <= i < |tasks| && tasks[i] == d;
    }
    forall i | 0 <= i < |tasks| && tasks[i].id in t.dependencies
      ensures EndsBefore(tasks[i], t)
    {
      var k :| 0 <= k < |t.dependencies| && t.dependencies[k] == tasks[i].id;
      var d :| d in tasks && d.id == t.dependencies[k] && EndsBefore(d, t);
      var j :| 0 <= j < |tasks| && tasks[j] == d;
      assert i == j;
    }
  }

  lemma PreparedWhen(tasks: seq<Task>, t: Task)
    requires DependenciesExist(tasks, t) && AllEndBefore(tasks, t)
    ensures Prepared(tasks, t)
  {
    forall k | 0 <= k < |t.dependencies|
      ensures EndsInTime(tasks, t, t.dependencies[k])
    {
      assert HasTask(tasks, t.dependencies[k]);
      var i :| 0 <= i < |tasks| && tasks[i].id == t.dependencies[k];
      var d := tasks[i];
      assert d in tasks && EndsBefore(d, t);
    }
  }

  /** A move within a valid schedule is accepted exactly when the moved task fits: only its own dates, its
      prerequisites and its dependents matter. */
  lemma MoveAcceptedIff(tasks: seq<Task>, m: nat, start: Number, duration: Number, horizon: Number)
    requires ValidSchedule(tasks, horizon) && m < |tasks|
    ensures var next := Moved(tasks, tasks[m].id, start, duration);
      && next == tasks[m := tasks[m].(start := start, duration := duration)]
      && (ValidSchedule(next, horizon) <==> Fits(tasks, next[m], horizon))
  {
    var next := Moved(tasks, tasks[m].id, start, duration);
    assert tasks[m].id !in tasks[m].dependencies by {
      ValidMeans(tasks, m, horizon);
    }
    if ValidSchedule(next, horizon) {
      forall i | 0 <= i < |next|
        ensures AllEndBefore(next, next[i]) && Scheduled(next[i], horizon)
      {
        ValidMeans(next, i, horizon);
      }
      FitsMeans(tasks, next, m, horizon);
    }
    if Fits(tasks, next[m], horizon) {
      forall i | 0 <= i < |tasks|
        ensures ValidTask(next, next[i], horizon)
      {
        ValidMeans(tasks, i, horizon);
        FittingTaskIsValid(tasks, next, m, i, horizon);
      }
    }
  }

  lemma ValidMeans(tasks: seq<Task>, i: nat, horizon: Number)
    requires ValidSchedule(tasks, horizon) && i < |tasks|
    ensures NamedTask(tasks[i]) && InProgress(tasks[i]) && Scheduled(tasks[i], horizon)
    ensures DependenciesExist(tasks, tasks[i]) && AllEndBefore(tasks, tasks[i])
    ensures tasks[i].id !in tasks[i].dependencies
  {
    assert ValidTask(tasks, tasks[i], horizon);
    PreparedMeans(tasks, tasks[i]);
  }

  ghost predicate SameBut(tasks: seq<Task>, next: seq<Task>, m: nat) {
    && |next| == |tasks| && m < |tasks|
    && (forall i :: 0 <= i < |tasks| && i != m ==> next[i] == tasks[i])
    && next[m] == tasks[m].(start := next[m].start, duration := next[m].duration)
    && tasks[m].id !in tasks[m].dependencies
  }

  lemma FitsMeans(tasks: seq<Task>, next: seq<Task>, m: nat, horizon: Number)
    requires SameBut(tasks, next, m)
    requires Scheduled(next[m], horizon) && forall i :: 0 <= i < |next| ==> AllEndBefore(next, next[i])
    ensures Fits(tasks, next[m], horizon)
  {
    forall i | 0 <= i < |tasks| && tasks[i].id in next[m].dependencies
      ensures EndsBefore(tasks[i], next[m])
    {
      assert AllEndBefore(next, next[m]);
      assert next[i] == tasks[i];
    }
    forall i | 0 <= i < |tasks| && next[m].id in tasks[i].dependencies
      ensures EndsBefore(next[m], tasks[i])
    {
      assert AllEndBefore(next, next[i]);
      assert next[i] == tasks[i];
    }
  }

  lemma FittingTaskIsValid(tasks: seq<Task>, next: seq<Task>, m: nat, i: nat, horizon: Number)
    requires SameBut(tasks, next, m) && i < |tasks| && Fits(tasks, next[m], horizon)
    requires NamedTask(tasks[i]) && InProgress(tasks[i]) && Scheduled(tasks[i], horizon)
    requires DependenciesExist(tasks, tasks[i]) && AllEndBefore(tasks, tasks[i])
    ensures ValidTask(next, next[i], horizon)
  {
    SameDependenciesExist(tasks, next, tasks[i], next[i]);
    forall j | 0 <= j < |next| && next[j].id in next[i].dependencies
      ensures EndsBefore(next[j], next[i])
    {
      assert tasks[j].id == next[j].id;
    }
    PreparedWhen(next, next[i]);
  }

  lemma SameDependenciesExist(tasks: seq<Task>, next: seq<Task>, t: Task, u: Task)
    requires |next| == |tasks| && u.dependencies == t.dependencies
    requires forall i :: 0 <= i < |tasks| ==> next[i].id == tasks[i].id
    ensures DependenciesExist(tasks, t) <==> DependenciesExist(next, u)
  {
    forall k | 0 <= k < |t.dependencies|
      ensures HasTask(tasks, t.dependencies[k]) <==> HasTask(next, u.dependencies[k])
    {
      if HasTask(tasks, t.dependencies[k]) {
        var i :| 0 <= i < |tasks| && tasks[i].id == t.dependencies[k];
        assert next[i].id == u.dependencies[k];
      }
      if HasTask(next, u.dependencies[k]) {
        var i :| 0 <= i < |next| && next[i].id == u.dependencies[k];
        assert tasks[i].id == t.dependencies[k];
      }
    }
  }
}
