module TaskSchedule {
  /** Validation of a task schedule: dates, prerequisites, and a depth-first search for circular dependencies. */

  import opened Common
  import opened Numbers
  import opened ErrorLists

  datatype Task = Task(id: string, name: string, start: Number, duration: Number, progress: Number, dependencies: seq<string>)

  datatype Problem =
    | DuplicateIds
    | Unnamed
    | BadDates(name: string)
    | BadProgress(name: string)
    | MissingDependency(name: string, id: string)
    | Overlaps(name: string, prerequisite: string)
    | Circular

  // ---- the tasks by identifier

  /** `new Map(tasks.map(t => [t.id, t]))`: the last task with an identifier wins. */
  function ById(tasks: seq<Task>): map<string, Task> {
    if tasks == [] then map[]
    else ById(tasks[..|tasks| - 1])[tasks[|tasks| - 1].id := tasks[|tasks| - 1]]
  }

  predicate UniqueIds(tasks: seq<Task>) {
    forall i, j | 0 <= i < j < |tasks| :: tasks[i].id != tasks[j].id
  }

  lemma {:induction false} ByIdHolds(tasks: seq<Task>)
    ensures forall i :: 0 <= i < |tasks| ==> tasks[i].id in ById(tasks)
    ensures forall id :: id in ById(tasks) ==> ById(tasks)[id] in tasks && ById(tasks)[id].id == id
  {
    if tasks != [] {
      ByIdHolds(tasks[..|tasks| - 1]);
    }
  }

  lemma {:induction false} ByIdFinds(tasks: seq<Task>)
    requires UniqueIds(tasks)
    ensures forall i :: 0 <= i < |tasks| ==> tasks[i].id in ById(tasks) && ById(tasks)[tasks[i].id] == tasks[i]
  {
    if tasks != [] {
      var front := tasks[..|tasks| - 1];
      ByIdFinds(front);
      forall i | 0 <= i < |tasks|
        ensures tasks[i].id in ById(tasks) && ById(tasks)[tasks[i].id] == tasks[i]
      {
        assert i < |front| ==> front[i] == tasks[i];
      }
    }
  }

  lemma {:induction false} CountWhenUnique(tasks: seq<Task>)
    requires UniqueIds(tasks)
    ensures |ById(tasks)| == |tasks|
  {
    if tasks != [] {
      var front, last := tasks[..|tasks| - 1], tasks[|tasks| - 1];
      CountWhenUnique(front);
      ByIdHolds(front);
      assert last.id !in ById(front);
      KeysCount(ById(front), ById(tasks), last.id);
    }
  }

  lemma KeysCount(m: map<string, Task>, n: map<string, Task>, id: string)
    requires n.Keys == m.Keys + {id}
    ensures |n| == if id in m then |m| else |m| + 1
  {
    assert |m| == |m.Keys| && |n| == |n.Keys|;
    if id in m {
      assert n.Keys == m.Keys;
    }
  }

  lemma {:induction false} UniqueByCount(tasks: seq<Task>)
    ensures |ById(tasks)| <= |tasks|
    ensures |ById(tasks)| == |tasks| ==> UniqueIds(tasks)
  {
    if tasks != [] {
      var front, last := tasks[..|tasks| - 1], tasks[|tasks| - 1];
      UniqueByCount(front);
      ByIdHolds(front);
      KeysCount(ById(front), ById(tasks), last.id);
      if |ById(tasks)| == |tasks| {
        forall i, j | 0 <= i < j < |tasks|
          ensures tasks[i].id != tasks[j].id
        {
          if j < |front| {
            assert front[i].id != front[j].id;
          } else {
            assert front[i].id in ById(front);
          }
        }
      }
    }
  }

  // ---- the checks on single tasks

  predicate Blank(s: string) {
    forall i | 0 <= i < |s| :: IsJsSpace(s[i])
  }

  predicate GoodDates(t: Task, horizon: Number) {
    IsInteger(t.start) && IsInteger(t.duration) && !Less(t.start, Of(0)) && !Less(t.duration, Of(1))
    && !Less(horizon, Add(t.start, t.duration))
  }

  predicate GoodProgress(t: Task) {
    IsFinite(t.progress) && !Less(t.progress, Of(0)) && !Less(Of(100), t.progress)
  }

  /** The problem with one dependency of `t`, if there is one. */
  function DependencyProblem(byId: map<string, Task>, t: Task, id: string): seq<Problem> {
    if id !in byId then [MissingDependency(t.name, id)]
    else if Less(t.start, Add(byId[id].start, byId[id].duration)) then [Overlaps(t.name, byId[id].name)]
    else []
  }

  function DependencyProblems(byId: map<string, Task>, t: Task, k: nat): seq<Problem>
    requires k <= |t.dependencies|
  {
    if k == 0 then [] else DependencyProblems(byId, t, k - 1) + DependencyProblem(byId, t, t.dependencies[k - 1])
  }

  function OwnProblems(t: Task, horizon: Number): seq<Problem> {
    (if t.id == "" || Blank(t.name) then [Unnamed] else [])
    + (if GoodDates(t, horizon) then [] else [BadDates(t.name)])
    + (if GoodProgress(t) then [] else [BadProgress(t.name)])
  }

  function ProblemsWith(byId: map<string, Task>, horizon: Number): Task -> seq<Problem> {
    (t: Task) => OwnProblems(t, horizon) + DependencyProblems(byId, t, |t.dependencies|)
  }

  /** What each task adds to an error list. */
  function PerTask(problemsWith: Task -> seq<Problem>, tasks: seq<Task>): nat -> seq<Problem> {
    (i: nat) => if i < |tasks| then problemsWith(tasks[i]) else []
  }

  /** The error list before the search for cycles. */
  function TaskProblems(tasks: seq<Task>, horizon: Number): seq<Problem> {
    Gather(PerTask(ProblemsWith(ById(tasks), horizon), tasks), if |ById(tasks)| != |tasks| then [DuplicateIds] else [], |tasks|)
  }

  /** `[...new Set(s)]` */
  function Unique(s: seq<Problem>): (u: seq<Problem>)
    ensures forall x :: x in u <==> x in s
    ensures forall i, j :: 0 <= i < j < |u| ==> u[i] != u[j]
  {
    if s == [] then []
    else
      var front, last := Unique(s[..|s| - 1]), s[|s| - 1];
      assert s == s[..|s| - 1] + [last];
      if last in front then front else front + [last]
  }

  // ---- the dependency relation

  predicate DependsOn(byId: map<string, Task>, a: string, b: string) {
    a in byId && b in byId[a].dependencies
  }

  /** A walk along dependencies. */
  ghost predicate Walk(byId: map<string, Task>, path: seq<string>) {
    forall i :: 0 <= i < |path| - 1 ==> DependsOn(byId, path[i], path[i + 1])
  }

  ghost predicate Cycle(byId: map<string, Task>, path: seq<string>) {
    path != [] && Walk(byId, path) && DependsOn(byId, path[|path| - 1], path[0])
  }

  ghost predicate HasCycle(byId: map<string, Task>) {
    exists path :: Cycle(byId, path)
  }

  /** Every dependency of a listed identifier is listed before it. */
  ghost predicate Ranked(byId: map<string, Task>, order: seq<string>) {
    forall i, b {:trigger DependsOn(byId, order[i], b)} ::
      0 <= i < |order| && DependsOn(byId, order[i], b) ==> b in order[..i]
  }

  lemma CycleGoesOn(byId: map<string, Task>, cycle: seq<string>, x: string) returns (next: string)
    requires Cycle(byId, cycle) && x in cycle
    ensures next in cycle && DependsOn(byId, x, next)
  {
    var k :| 0 <= k < |cycle| && cycle[k] == x;
    next := if k + 1 < |cycle| then cycle[k + 1] else cycle[0];
  }

  lemma {:induction false} RankedAvoidsCycle(byId: map<string, Task>, order: seq<string>, cycle: seq<string>, i: nat)
    requires Ranked(byId, order) && Cycle(byId, cycle) && i <= |order|
    ensures forall x :: x in order[..i] ==> x !in cycle
    decreases i
  {
    if i > 0 {
      RankedAvoidsCycle(byId, order, cycle, i - 1);
      assert order[..i] == order[..i - 1] + [order[i - 1]];
      if order[i - 1] in cycle {
        var next := CycleGoesOn(byId, cycle, order[i - 1]);
      }
    }
  }

  /** An order of all identifiers in which dependencies come first rules every cycle out. */
  lemma RankedHasNoCycle(byId: map<string, Task>, order: seq<string>)
    requires Ranked(byId, order) && forall id :: id in byId ==> id in order
    ensures !HasCycle(byId)
  {
    assert order[..|order|] == order;
    if HasCycle(byId) {
      var cycle :| Cycle(byId, cycle);
      var next := CycleGoesOn(byId, cycle, cycle[0]);
      RankedAvoidsCycle(byId, order, cycle, |order|);
    }
  }

  // ---- the depth-first search

  function Universe(byId: map<string, Task>): set<string> {
    byId.Keys + set a, b | a in byId && b in byId[a].dependencies :: b
  }

  class CycleSearch {
    const byId: map<string, Task>
    var visiting: set<string>
    var done: set<string>
    /** The identifiers being visited, outermost first, and those finished, in the order they finished. */
    ghost var path: seq<string>
    ghost var order: seq<string>

    ghost predicate Valid()
      reads this
    {
      && (forall x :: x in visiting <==> x in path)
      && Walk(byId, path)
      && (forall x :: x in done <==> x in order)
      && Ranked(byId, order)
      && visiting <= Universe(byId)
    }

    constructor (byId: map<string, Task>)
      ensures Valid() && this.byId == byId && path == [] && done == {}
    {
      this.byId := byId;
      visiting, done, path, order := {}, {}, [], [];
    }

    ghost function Unvisited(): nat
      reads this
    {
      |Universe(byId) - visiting|
    }

    /** `visit`: true exactly when a cycle can be reached; otherwise `id` and all it needs are done. */
    method Visit(id: string, ghost budget: nat) returns (found: bool)
      requires Valid() && id in Universe(byId) && Unvisited() <= budget
      requires path != [] ==> DependsOn(byId, path[|path| - 1], id)
      modifies this
      ensures found ==> HasCycle(byId)
      ensures !found ==> Valid() && path == old(path) && visiting == old(visiting) && old(done) <= done && id in done
      decreases budget, 2
    {
      if id in visiting {
        BackEdge(byId, path, id);
        found := true;
      } else if id in done {
        found := false;
      } else {
        found := VisitNew(id, budget);
      }
    }

    method VisitNew(id: string, ghost budget: nat) returns (found: bool)
      requires Valid() && id in Universe(byId) && id !in visiting && Unvisited() <= budget
      requires path != [] ==> DependsOn(byId, path[|path| - 1], id)
      modifies this
      ensures found ==> HasCycle(byId)
      ensures !found ==> Valid() && path == old(path) && visiting == old(visiting) && old(done) <= done && id in done
      decreases budget, 1
    {
      VisitingGrows(byId, visiting, id);
      Enter(id);
      var dependencies := if id in byId then byId[id].dependencies else [];
      found := VisitEach(id, dependencies, budget - 1);
      if !found {
        Leave(id);
      }
    }

    method VisitEach(id: string, dependencies: seq<string>, ghost budget: nat) returns (found: bool)
      requires Valid() && path != [] && path[|path| - 1] == id && Unvisited() <= budget
      requires dependencies == if id in byId then byId[id].dependencies else []
      modifies this
      ensures found ==> HasCycle(byId)
      ensures !found ==> Valid() && path == old(path) && visiting == old(visiting) && old(done) <= done
      ensures !found ==> forall k :: 0 <= k < |dependencies| ==> dependencies[k] in done
      decreases budget, 3
    {
      for i := 0 to |dependencies|
        invariant Valid() && path == old(path) && visiting == old(visiting) && old(done) <= done
        invariant forall k :: 0 <= k < i ==> dependencies[k] in done
      {
        assert DependsOn(byId, id, dependencies[i]);
        found := Visit(dependencies[i], budget);
        if found {
          return;
        }
      }
      found := false;
    }

    method Enter(id: string)
      requires Valid() && id in Universe(byId) && id !in visiting
      requires path != [] ==> DependsOn(byId, path[|path| - 1], id)
      modifies this`visiting, this`path
      ensures Valid() && path == old(path) + [id] && visiting == old(visiting) + {id}
    {
      WalkGrows(byId, path, id);
      visiting := visiting + {id};
      path := path + [id];
    }

    method Leave(id: string)
      requires Valid() && path != [] && path[|path| - 1] == id && id !in path[..|path| - 1]
      requires id in byId ==> forall k :: 0 <= k < |byId[id].dependencies| ==> byId[id].dependencies[k] in done
      modifies this
      ensures Valid() && path == old(path)[..|old(path)| - 1] && visiting == old(visiting) - {id} && done == old(done) + {id}
    {
      visiting := visiting - {id};
      path := path[..|path| - 1];
      done := done + {id};
      assert order == (order + [id])[..|order|];
      RankedGrows(byId, order, id);
      order := order + [id];
    }
  }

  lemma BackEdge(byId: map<string, Task>, path: seq<string>, id: string)
    requires Walk(byId, path) && id in path && DependsOn(byId, path[|path| - 1], id)
    ensures HasCycle(byId)
  {
    var k :| 0 <= k < |path| && path[k] == id;
    assert Cycle(byId, path[k..]);
  }

  lemma WalkGrows(byId: map<string, Task>, path: seq<string>, id: string)
    requires Walk(byId, path) && (path != [] ==> DependsOn(byId, path[|path| - 1], id))
    ensures Walk(byId, path + [id])
  {
  }

  lemma VisitingGrows(byId: map<string, Task>, visiting: set<string>, id: string)
    requires id in Universe(byId) && id !in visiting
    ensures |Universe(byId) - (visiting + {id})| < |Universe(byId) - visiting|
  {
    assert Universe(byId) - visiting == (Universe(byId) - (visiting + {id})) + {id};
  }

  lemma RankedGrows(byId: map<string, Task>, order: seq<string>, id: string)
    requires Ranked(byId, order)
    requires id in byId ==> forall k :: 0 <= k < |byId[id].dependencies| ==> byId[id].dependencies[k] in order
    ensures Ranked(byId, order + [id])
  {
    var more := order + [id];
    forall i, b {:trigger DependsOn(byId, more[i], b)} | 0 <= i < |more| && DependsOn(byId, more[i], b)
      ensures b in more[..i]
    {
      if i < |order| {
        assert more[..i] == order[..i];
        assert DependsOn(byId, order[i], b);
      } else {
        assert more[..i] == order;
      }
    }
  }

  /** The last loop of `validateTasks`: a cycle is found exactly when the dependency relation has one. */
  method FindCycle(tasks: seq<Task>) returns (found: bool)
    ensures found <==> HasCycle(ById(tasks))
  {
    var byId := ById(tasks);
    ByIdHolds(tasks);
    var search := new CycleSearch(byId);
    for i := 0 to |tasks|
      invariant search.Valid() && search.byId == byId && search.path == []
      invariant forall k :: 0 <= k < i ==> tasks[k].id in search.done
    {
      found := search.Visit(tasks[i].id, search.Unvisited());
      if found {
        return;
      }
    }
    forall id | id in byId
      ensures id in search.order
    {
      var i :| 0 <= i < |tasks| && tasks[i].id == id;
    }
    RankedHasNoCycle(byId, search.order);
    found := false;
  }

  // ---- the whole validation

  method CollectProblems(tasks: seq<Task>, horizon: Number) returns (problems: seq<Problem>)
    ensures problems == TaskProblems(tasks, horizon)
  {
    var byId := ById(tasks);
    problems := if |byId| != |tasks| then [DuplicateIds] else [];
    ghost var before, perTask := problems, PerTask(ProblemsWith(byId, horizon), tasks);
    for i := 0 to |tasks|
      invariant problems == Gather(perTask, before, i)
    {
      problems := CollectTask(byId, tasks[i], horizon, problems);
    }
  }

  method CollectTask(byId: map<string, Task>, t: Task, horizon: Number, before: seq<Problem>) returns (problems: seq<Problem>)
    ensures problems == before + ProblemsWith(byId, horizon)(t)
  {
    problems := CollectOwn(t, horizon, before);
    ghost var own := problems;
    for i := 0 to |t.dependencies|
      invariant problems == own + DependencyProblems(byId, t, i)
    {
      if t.dependencies[i] !in byId {
        problems := problems + [MissingDependency(t.name, t.dependencies[i])];
      } else {
        var d := byId[t.dependencies[i]];
        if Less(t.start, Add(d.start, d.duration)) {
          problems := problems + [Overlaps(t.name, d.name)];
        }
      }
    }
    assert problems == before + (OwnProblems(t, horizon) + DependencyProblems(byId, t, |t.dependencies|));
  }

  method CollectOwn(t: Task, horizon: Number, before: seq<Problem>) returns (problems: seq<Problem>)
    ensures problems == before + OwnProblems(t, horizon)
  {
    problems := before;
    if t.id == "" || Blank(t.name) {
      problems := problems + [Unnamed];
    }
    if !GoodDates(t, horizon) {
      problems := problems + [BadDates(t.name)];
    }
    if !GoodProgress(t) {
      problems := problems + [BadProgress(t.name)];
    }
  }

  method RemoveDuplicates(s: seq<Problem>) returns (u: seq<Problem>)
    ensures u == Unique(s)
  {
    u := [];
    for i := 0 to |s|
      invariant u == Unique(s[..i])
    {
      assert s[..i + 1][..i] == s[..i];
      if s[i] !in u {
        u := u + [s[i]];
      }
    }
    assert s[..|s|] == s;
  }

  /** `validateTasks` */
  method ValidateTasks(tasks: seq<Task>, horizon: Number) returns (errors: seq<Problem>)
    ensures errors == Unique(TaskProblems(tasks, horizon) + if HasCycle(ById(tasks)) then [Circular] else [])
  {
    var problems := CollectProblems(tasks, horizon);
    var circular := FindCycle(tasks);
    if circular {
      problems := problems + [Circular];
    }
    assert problems == TaskProblems(tasks, horizon) + if HasCycle(ById(tasks)) then [Circular] else [];
    errors := RemoveDuplicates(problems);
  }
}
