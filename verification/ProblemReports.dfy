module ProblemReports {
  /** Which problems the engineering validators report: each exactly when its reason is there. */

  import opened Common
  import opened Numbers
  import opened ErrorLists
  import TaskSchedule
  import ScheduleGuarantees
  import Rack
  import Floor
  import Carrier

  lemma {:induction false} GatherMember<P(!new)>(problemsAt: nat -> seq<P>, before: seq<P>, k: nat, p: P)
    ensures p in Gather(problemsAt, before, k) <==> p in before || exists i: nat :: i < k && p in problemsAt(i)
  {
    if k > 0 {
      GatherMember(problemsAt, before, k - 1, p);
    }
  }

  /** The same with a rule for what each item adds. */
  lemma GatherRule<P(!new)>(problemsAt: nat -> seq<P>, before: seq<P>, n: nat, p: P, rule: nat -> bool)
    requires forall i: nat :: i < n ==> (p in problemsAt(i) <==> rule(i))
    ensures p in Gather(problemsAt, before, n) <==> p in before || exists i: nat :: i < n && rule(i)
  {
    GatherMember(problemsAt, before, n, p);
  }

  /** At most `limit`, as JavaScript compares a number with it. */
  predicate UpTo(x: real, limit: Number) {
    match limit
    case Fin(n) => x <= n
    case NaN => true
    case Infinite(positive) => positive
  }

  // ---- task schedules

  /** The task that an identifier stands for: the last one that has it. */
  ghost predicate StandsFor(tasks: seq<TaskSchedule.Task>, id: string, d: TaskSchedule.Task) {
    exists i :: 0 <= i < |tasks| && tasks[i] == d && d.id == id && forall j :: i < j < |tasks| ==> tasks[j].id != id
  }

  ghost predicate EndsLate(d: TaskSchedule.Task, t: TaskSchedule.Task) {
    Less(t.start, Add(d.start, d.duration))
  }

  ghost predicate TaskRule(tasks: seq<TaskSchedule.Task>, t: TaskSchedule.Task, horizon: Number, p: TaskSchedule.Problem) {
    match p
    case Unnamed => !ScheduleGuarantees.NamedTask(t)
    case BadDates(name) => t.name == name && !ScheduleGuarantees.Scheduled(t, horizon)
    case BadProgress(name) => t.name == name && !ScheduleGuarantees.InProgress(t)
    case MissingDependency(name, id) => t.name == name && id in t.dependencies && forall d :: d in tasks ==> d.id != id
    case Overlaps(name, other) =>
      t.name == name && exists id, d :: id in t.dependencies && StandsFor(tasks, id, d) && d.name == other && EndsLate(d, t)
    case _ => false
  }

  ghost predicate ScheduleRule(tasks: seq<TaskSchedule.Task>, horizon: Number, p: TaskSchedule.Problem) {
    || (p.DuplicateIds? && !TaskSchedule.UniqueIds(tasks))
    || (p.Circular? && TaskSchedule.HasCycle(TaskSchedule.ById(tasks)))
    || (exists t :: t in tasks && TaskRule(tasks, t, horizon, p))
  }

  lemma {:induction false} ByIdIff(tasks: seq<TaskSchedule.Task>, id: string)
    ensures id in TaskSchedule.ById(tasks) <==> exists d :: d in tasks && d.id == id
    ensures id in TaskSchedule.ById(tasks) ==> forall d :: StandsFor(tasks, id, d) <==> d == TaskSchedule.ById(tasks)[id]
  {
    if tasks != [] {
      var front, last := tasks[..|tasks| - 1], tasks[|tasks| - 1];
      assert tasks == front + [last];
      ByIdIff(front, id);
      forall d
        ensures StandsFor(tasks, id, d) <==> (if last.id == id then d == last else StandsFor(front, id, d))
      {
        StandsForStep(front, last, id, d);
      }
      if last.id != id {
        forall d | d in tasks && d.id == id
          ensures d in front
        {
        }
      }
    }
  }

  lemma StandsForStep(front: seq<TaskSchedule.Task>, last: TaskSchedule.Task, id: string, d: TaskSchedule.Task)
    ensures StandsFor(front + [last], id, d) <==> if last.id == id then d == last else StandsFor(front, id, d)
  {
    var tasks := front + [last];
    if last.id == id && d == last {
      assert tasks[|front|] == d;
    }
    if last.id != id && StandsFor(front, id, d) {
      var i :| 0 <= i < |front| && front[i] == d && d.id == id && forall j :: i < j < |front| ==> front[j].id != id;
      assert tasks[i] == d;
    }
    if StandsFor(tasks, id, d) {
      var i :| 0 <= i < |tasks| && tasks[i] == d && d.id == id && forall j :: i < j < |tasks| ==> tasks[j].id != id;
      if last.id != id {
        assert front[i] == d;
        forall j | i < j < |front|
          ensures front[j].id != id
        {
          assert tasks[j] == front[j];
        }
      } else {
        assert tasks[|front|].id == id;
      }
    }
  }

  lemma DependencyRule(tasks: seq<TaskSchedule.Task>, t: TaskSchedule.Task, id: string, p: TaskSchedule.Problem)
    ensures p in TaskSchedule.DependencyProblem(TaskSchedule.ById(tasks), t, id) <==>
      match p
      case MissingDependency(name, missing) => t.name == name && missing == id && forall d :: d in tasks ==> d.id != id
      case Overlaps(name, other) => t.name == name && exists d :: StandsFor(tasks, id, d) && d.name == other && EndsLate(d, t)
      case _ => false
  {
    ByIdIff(tasks, id);
    forall d | StandsFor(tasks, id, d)
      ensures d in tasks && d.id == id
    {
    }
  }

  lemma {:induction false} DependencyMember(
    byId: map<string, TaskSchedule.Task>, t: TaskSchedule.Task, k: nat, p: TaskSchedule.Problem)
    requires k <= |t.dependencies|
    ensures p in TaskSchedule.DependencyProblems(byId, t, k) <==>
      exists i :: 0 <= i < k && p in TaskSchedule.DependencyProblem(byId, t, t.dependencies[i])
    decreases k
  {
    if k > 0 {
      DependencyMember(byId, t, k - 1, p);
    }
  }

  lemma OwnRule(tasks: seq<TaskSchedule.Task>, t: TaskSchedule.Task, horizon: Number, p: TaskSchedule.Problem)
    ensures p in TaskSchedule.OwnProblems(t, horizon) <==>
      (p.Unnamed? || p.BadDates? || p.BadProgress?) && TaskRule(tasks, t, horizon, p)
  {
  }

  lemma DependenciesRule(tasks: seq<TaskSchedule.Task>, t: TaskSchedule.Task, horizon: Number, p: TaskSchedule.Problem)
    ensures p in TaskSchedule.DependencyProblems(TaskSchedule.ById(tasks), t, |t.dependencies|) <==>
      (p.MissingDependency? || p.Overlaps?) && TaskRule(tasks, t, horizon, p)
  {
    DependencyMember(TaskSchedule.ById(tasks), t, |t.dependencies|, p);
    forall id
      ensures p in TaskSchedule.DependencyProblem(TaskSchedule.ById(tasks), t, id) <==>
        match p
        case MissingDependency(name, missing) => t.name == name && missing == id && forall d :: d in tasks ==> d.id != id
        case Overlaps(name, other) => t.name == name && exists d :: StandsFor(tasks, id, d) && d.name == other && EndsLate(d, t)
        case _ => false
    {
      DependencyRule(tasks, t, id, p);
    }
  }

  lemma PerTaskRule(tasks: seq<TaskSchedule.Task>, t: TaskSchedule.Task, horizon: Number, p: TaskSchedule.Problem)
    ensures p in TaskSchedule.ProblemsWith(TaskSchedule.ById(tasks), horizon)(t) <==> TaskRule(tasks, t, horizon, p)
  {
    OwnRule(tasks, t, horizon, p);
    DependenciesRule(tasks, t, horizon, p);
  }

  lemma DuplicatesIff(tasks: seq<TaskSchedule.Task>)
    ensures |TaskSchedule.ById(tasks)| != |tasks| <==> !TaskSchedule.UniqueIds(tasks)
  {
    TaskSchedule.UniqueByCount(tasks);
    if TaskSchedule.UniqueIds(tasks) {
      TaskSchedule.CountWhenUnique(tasks);
    }
  }

  /** Task `i` gives the problem. */
  ghost function RuleAt(tasks: seq<TaskSchedule.Task>, horizon: Number, p: TaskSchedule.Problem): nat -> bool {
    (i: nat) => i < |tasks| && TaskRule(tasks, tasks[i], horizon, p)
  }

  lemma RuleAtIff(tasks: seq<TaskSchedule.Task>, horizon: Number, p: TaskSchedule.Problem)
    ensures (exists i: nat :: i < |tasks| && RuleAt(tasks, horizon, p)(i)) <==> exists t :: t in tasks && TaskRule(tasks, t, horizon, p)
  {
    forall t | t in tasks && TaskRule(tasks, t, horizon, p)
      ensures exists i: nat :: i < |tasks| && RuleAt(tasks, horizon, p)(i)
    {
      var i :| 0 <= i < |tasks| && tasks[i] == t;
      assert RuleAt(tasks, horizon, p)(i);
    }
  }

  lemma TaskProblemsIff(tasks: seq<TaskSchedule.Task>, horizon: Number, p: TaskSchedule.Problem)
    ensures p in TaskSchedule.TaskProblems(tasks, horizon) <==>
      (p.DuplicateIds? && !TaskSchedule.UniqueIds(tasks)) || exists t :: t in tasks && TaskRule(tasks, t, horizon, p)
  {
    var byId := TaskSchedule.ById(tasks);
    var at := TaskSchedule.PerTask(TaskSchedule.ProblemsWith(byId, horizon), tasks);
    forall i: nat | i < |tasks|
      ensures p in at(i) <==> RuleAt(tasks, horizon, p)(i)
    {
      PerTaskRule(tasks, tasks[i], horizon, p);
    }
    GatherRule(at, if |byId| != |tasks| then [TaskSchedule.DuplicateIds] else [], |tasks|, p, RuleAt(tasks, horizon, p));
    DuplicatesIff(tasks);
    RuleAtIff(tasks, horizon, p);
  }

  /** What the schedule validator reports. */
  lemma ScheduleProblemsIff(tasks: seq<TaskSchedule.Task>, horizon: Number, p: TaskSchedule.Problem)
    ensures p in TaskSchedule.Unique(
                   TaskSchedule.TaskProblems(tasks, horizon)
                   + if TaskSchedule.HasCycle(TaskSchedule.ById(tasks)) then [TaskSchedule.Circular] else [])
            <==> ScheduleRule(tasks, horizon, p)
  {
    TaskProblemsIff(tasks, horizon, p);
  }

  // ---- racks

  /** Whole units from the first on, at least one, up to the capacity. */
  ghost predicate InRack(d: Rack.Device, capacity: Number) {
    && IsInteger(d.start) && IsInteger(d.units) && IntOf(d.start) >= 1 && IntOf(d.units) >= 1
    && UpTo(d.start.x + d.units.x - 1.0, capacity)
  }

  ghost predicate Occupies(d: Rack.Device, capacity: Number, u: int) {
    InRack(d, capacity) && IntOf(d.start) <= u < IntOf(d.start) + IntOf(d.units)
  }

  ghost predicate RackRule(devices: seq<Rack.Device>, capacity: Number, maxWatts: Number, p: Rack.Problem) {
    match p
    case InvalidCapacity => !(IsInteger(capacity) && 1 <= IntOf(capacity) <= 100)
    case DuplicateIds => !Rack.UniqueIds(devices)
    case OutsideRack(name) => exists d :: d in devices && d.name == name && !InRack(d, capacity)
    case InvalidPower(name) =>
      exists d :: d in devices && d.name == name && InRack(d, capacity) && !(d.watts.Fin? && d.watts.x >= 0.0)
    case Collision(u) =>
      exists i, j :: 0 <= i < j < |devices| && Occupies(devices[i], capacity, u) && Occupies(devices[j], capacity, u)
    case PowerExceeded => Less(maxWatts, Rack.Watts(devices, |devices|))
  }

  lemma InRackIff(d: Rack.Device, capacity: Number)
    ensures Rack.InRange(d, capacity) <==> InRack(d, capacity)
  {
  }

  lemma ClaimIff(d: Rack.Device, capacity: Number, u: int)
    ensures Rack.Holds(Rack.ClaimOf(d, capacity), u) <==> Occupies(d, capacity, u)
  {
    InRackIff(d, capacity);
  }

  lemma {:induction false} CollisionMember(occupied: set<int>, low: int, high: int, p: Rack.Problem)
    ensures p in Rack.Collisions(occupied, low, high) <==> p.Collision? && low <= p.u < high && p.u in occupied
    decreases high - low
  {
    if low < high {
      CollisionMember(occupied, low, high - 1, p);
    }
  }

  /** What device `i` adds to the list. */
  ghost predicate DeviceRule(devices: seq<Rack.Device>, capacity: Number, i: nat, p: Rack.Problem)
    requires i < |devices|
  {
    var d := devices[i];
    match p
    case OutsideRack(name) => d.name == name && !InRack(d, capacity)
    case InvalidPower(name) => d.name == name && InRack(d, capacity) && !(d.watts.Fin? && d.watts.x >= 0.0)
    case Collision(u) => Occupies(d, capacity, u) && exists j :: 0 <= j < i && Occupies(devices[j], capacity, u)
    case _ => false
  }

  lemma DeviceProblemsIff(devices: seq<Rack.Device>, capacity: Number, i: nat, p: Rack.Problem)
    requires i < |devices|
    ensures p in Rack.ProblemsAt(devices, capacity)(i) <==> DeviceRule(devices, capacity, i, p)
  {
    var claims := Rack.Claims(devices, capacity);
    var occupied := Rack.Taken(claims, i);
    InRackIff(devices[i], capacity);
    CollisionMember(occupied, claims[i].low, claims[i].high, p);
    if p.Collision? {
      Rack.TakenHolds(claims, i, p.u);
      forall j | 0 <= j <= i
        ensures Rack.Holds(claims[j], p.u) <==> Occupies(devices[j], capacity, p.u)
      {
        ClaimIff(devices[j], capacity, p.u);
      }
    }
  }

  lemma HeaderIff(devices: seq<Rack.Device>, capacity: Number, p: Rack.Problem)
    ensures p in Rack.HeaderProblems(devices, capacity) <==>
      match p
      case InvalidCapacity => !(IsInteger(capacity) && 1 <= IntOf(capacity) <= 100)
      case DuplicateIds => !Rack.UniqueIds(devices)
      case _ => false
  {
    Rack.IdsCount(devices);
  }

  /** Some device adds the problem. */
  ghost predicate SomeDevice(devices: seq<Rack.Device>, capacity: Number, p: Rack.Problem) {
    exists i: nat :: i < |devices| && DeviceRule(devices, capacity, i, p)
  }

  lemma SweptProblemsIff(devices: seq<Rack.Device>, capacity: Number, p: Rack.Problem)
    ensures p in Rack.Swept(devices, capacity) <==> p in Rack.HeaderProblems(devices, capacity) || SomeDevice(devices, capacity, p)
  {
    var at := Rack.ProblemsAt(devices, capacity);
    var rule := (i: nat) => i < |devices| && DeviceRule(devices, capacity, i, p);
    forall i: nat | i < |devices|
      ensures p in at(i) <==> rule(i)
    {
      DeviceProblemsIff(devices, capacity, i, p);
    }
    GatherRule(at, Rack.HeaderProblems(devices, capacity), |devices|, p, rule);
    if SomeDevice(devices, capacity, p) {
      var i: nat :| i < |devices| && DeviceRule(devices, capacity, i, p);
      assert rule(i);
    }
  }

  lemma SomeDeviceIff(devices: seq<Rack.Device>, capacity: Number, maxWatts: Number, p: Rack.Problem)
    requires p.OutsideRack? || p.InvalidPower? || p.Collision?
    ensures SomeDevice(devices, capacity, p) <==> RackRule(devices, capacity, maxWatts, p)
  {
    if RackRule(devices, capacity, maxWatts, p) {
      if p.Collision? {
        var i, j :| 0 <= i < j < |devices| && Occupies(devices[i], capacity, p.u) && Occupies(devices[j], capacity, p.u);
        assert DeviceRule(devices, capacity, j, p);
      } else if p.OutsideRack? {
        var d :| d in devices && d.name == p.name && !InRack(d, capacity);
        var i :| 0 <= i < |devices| && devices[i] == d;
        assert DeviceRule(devices, capacity, i, p);
      } else {
        var d :| d in devices && d.name == p.name && InRack(d, capacity) && !(d.watts.Fin? && d.watts.x >= 0.0);
        var i :| 0 <= i < |devices| && devices[i] == d;
        assert DeviceRule(devices, capacity, i, p);
      }
    }
  }

  /** What the rack validator reports. */
  lemma RackProblemsIff(devices: seq<Rack.Device>, capacity: Number, maxWatts: Number, p: Rack.Problem)
    ensures p in Rack.Problems(devices, capacity, maxWatts) <==> RackRule(devices, capacity, maxWatts, p)
  {
    SweptProblemsIff(devices, capacity, p);
    HeaderIff(devices, capacity, p);
    if p.OutsideRack? || p.InvalidPower? || p.Collision? {
      SomeDeviceIff(devices, capacity, maxWatts, p);
    }
  }

  // ---- floor plans

  ghost predicate FloorRule(assets: seq<Floor.Asset>, width: Number, height: Number, p: Floor.Problem) {
    match p
    case OutOfBounds(name) => exists a :: a in assets && a.name == name && !Floor.Within(a, width, height)
    case Overlaps(name, other) =>
      exists i, j :: 0 <= i < j < |assets| && assets[i].name == name && assets[j].name == other && Floor.Overlap(assets[i], assets[j])
  }

  lemma {:induction false} BoundsMember(assets: seq<Floor.Asset>, width: Number, height: Number, k: nat, p: Floor.Problem)
    requires k <= |assets|
    ensures p in Floor.BoundsProblems(assets, width, height, k) <==>
      p.OutOfBounds? && exists i :: 0 <= i < k && assets[i].name == p.name && !Floor.Within(assets[i], width, height)
    decreases k
  {
    if k > 0 {
      BoundsMember(assets, width, height, k - 1, p);
    }
  }

  lemma {:induction false} OverlapsMember(assets: seq<Floor.Asset>, i: nat, j: nat, p: Floor.Problem)
    requires i < j <= |assets|
    ensures p in Floor.OverlapsOf(assets, i, j) <==>
      && p.Overlaps? && assets[i].name == p.name
      && exists k :: i < k < j && assets[k].name == p.other && Floor.Overlap(assets[i], assets[k])
    decreases j
  {
    if j > i + 1 {
      OverlapsMember(assets, i, j - 1, p);
    }
  }

  ghost function LaterOverlaps(assets: seq<Floor.Asset>): nat -> seq<Floor.Problem> {
    (i: nat) => if i < |assets| then Floor.OverlapsOf(assets, i, |assets|) else []
  }

  ghost function FirstOverlaps(assets: seq<Floor.Asset>): nat -> seq<Floor.Problem> {
    (k: nat) => if k <= |assets| then Floor.OverlapProblems(assets, k) else []
  }

  lemma OverlapsGrow(assets: seq<Floor.Asset>, k: nat)
    requires k < |assets|
    ensures FirstOverlaps(assets)(k + 1) == FirstOverlaps(assets)(k) + LaterOverlaps(assets)(k)
  {
  }

  lemma OverlapsAreGathered(assets: seq<Floor.Asset>)
    ensures Floor.OverlapProblems(assets, |assets|) == Gather(LaterOverlaps(assets), [], |assets|)
  {
    var whole, part := FirstOverlaps(assets), LaterOverlaps(assets);
    forall k: nat {:trigger part(k)} | k < |assets|
      ensures whole(k + 1) == whole(k) + part(k)
    {
      OverlapsGrow(assets, k);
    }
    GatheredParts(whole, part, |assets|, |assets|);
  }

  lemma {:induction false} GatheredParts<P>(whole: nat -> seq<P>, part: nat -> seq<P>, n: nat, k: nat)
    requires whole(0) == [] && forall k: nat {:trigger part(k)} :: k < n ==> whole(k + 1) == whole(k) + part(k)
    requires k <= n
    ensures whole(k) == Gather(part, [], k)
    decreases k
  {
    if k > 0 {
      GatheredParts(whole, part, n, k - 1);
      assert whole(k) == whole(k - 1) + part(k - 1);
    }
  }

  lemma AllOverlapsMember(assets: seq<Floor.Asset>, p: Floor.Problem)
    ensures p in Floor.OverlapProblems(assets, |assets|) <==> exists i: nat :: i < |assets| && OverlapsLater(assets, i, p)
  {
    var rule := (i: nat) => i < |assets| && OverlapsLater(assets, i, p);
    OverlapsAreGathered(assets);
    forall i: nat | i < |assets|
      ensures p in LaterOverlaps(assets)(i) <==> rule(i)
    {
      OverlapsMember(assets, i, |assets|, p);
    }
    GatherRule(LaterOverlaps(assets), [], |assets|, p, rule);
    forall i: nat | i < |assets| && OverlapsLater(assets, i, p)
      ensures rule(i)
    {
    }
  }

  /** Rectangle `i` overlaps a later one, and `p` says so. */
  ghost predicate OverlapsLater(assets: seq<Floor.Asset>, i: nat, p: Floor.Problem)
    requires i < |assets|
  {
    && p.Overlaps? && assets[i].name == p.name
    && exists k :: i < k < |assets| && assets[k].name == p.other && Floor.Overlap(assets[i], assets[k])
  }

  lemma OverlapIff(a: Floor.Asset, b: Floor.Asset)
    requires Floor.Measured(a) && Floor.Measured(b)
    ensures Floor.Overlap(a, b) <==> !Floor.Disjoint(a, b)
  {
  }

  /** What the floor validator reports; for rectangles of finite, positive size overlapping is sharing interior
      points. */
  lemma FloorProblemsIff(assets: seq<Floor.Asset>, width: Number, height: Number, p: Floor.Problem)
    ensures p in Floor.Problems(assets, width, height) <==> FloorRule(assets, width, height, p)
  {
    BoundsMember(assets, width, height, |assets|, p);
    AllOverlapsMember(assets, p);
    if p.Overlaps? && FloorRule(assets, width, height, p) {
      var i, j :|
        0 <= i < j < |assets| && assets[i].name == p.name && assets[j].name == p.other && Floor.Overlap(assets[i], assets[j]);
      assert OverlapsLater(assets, i, p);
    }
  }

  // ---- carriers

  ghost predicate CarrierRule(slots: seq<Carrier.Slot>, capacity: Number, p: Carrier.Problem) {
    match p
    case OutsideCapacity =>
      exists s :: s in slots && !(IsInteger(s.slot) && 1 <= IntOf(s.slot) && UpTo(s.slot.x, capacity))
    case DuplicateSlot => exists i, j :: 0 <= i < j < |slots| && slots[i].slot == slots[j].slot
    case WaferTwice =>
      exists i, j :: 0 <= i < j < |slots| && slots[i].waferId == slots[j].waferId != None && slots[i].waferId != Some("")
    case EmptyHoldsWafer => exists s :: s in slots && s.status == Carrier.Empty && s.waferId != None
    case WaferMissing => exists s :: s in slots && s.status != Carrier.Empty && (s.waferId == None || s.waferId == Some(""))
  }

  lemma {:induction false} FlaggedMember<P(!new)>(flags: seq<(bool, P)>, p: P)
    ensures p in Flagged(flags) <==> exists i :: 0 <= i < |flags| && flags[i].0 && flags[i].1 == p
  {
    if flags != [] {
      FlaggedMember(flags[..|flags| - 1], p);
    }
  }

  /** What slot `i` adds to the list. */
  ghost predicate SlotRule(slots: seq<Carrier.Slot>, capacity: Number, i: nat, p: Carrier.Problem)
    requires i < |slots|
  {
    var s := slots[i];
    match p
    case OutsideCapacity => !(IsInteger(s.slot) && 1 <= IntOf(s.slot) && UpTo(s.slot.x, capacity))
    case DuplicateSlot => exists j :: 0 <= j < i && slots[j].slot == s.slot
    case WaferTwice => exists j :: 0 <= j < i && slots[j].waferId == s.waferId != None && s.waferId != Some("")
    case EmptyHoldsWafer => s.status == Carrier.Empty && s.waferId != None
    case WaferMissing => s.status != Carrier.Empty && (s.waferId == None || s.waferId == Some(""))
  }

  lemma SlotProblemsIff(slots: seq<Carrier.Slot>, capacity: Number, i: nat, p: Carrier.Problem)
    requires i < |slots|
    ensures p in Carrier.ProblemsAt(slots, capacity)(i) <==> SlotRule(slots, capacity, i, p)
  {
    var s := slots[i];
    var flags := Carrier.Flags(Carrier.Occupied(slots, i), Carrier.WaferIds(slots, i), s, capacity);
    FlaggedMember(flags, p);
    Carrier.OccupiedIff(slots, i, s.slot);
    if Carrier.Holds(s) {
      Carrier.WaferIdsIff(slots, i, s.waferId.value);
    }
    assert p in Carrier.SlotProblems(Carrier.Occupied(slots, i), Carrier.WaferIds(slots, i), s, capacity) <==>
      match p
      case OutsideCapacity => flags[0].0
      case DuplicateSlot => flags[1].0
      case WaferTwice => flags[2].0
      case EmptyHoldsWafer => flags[3].0
      case WaferMissing => flags[4].0;
  }

  ghost predicate SomeSlot(slots: seq<Carrier.Slot>, capacity: Number, p: Carrier.Problem) {
    exists i: nat :: i < |slots| && SlotRule(slots, capacity, i, p)
  }

  lemma SomeSlotIff(slots: seq<Carrier.Slot>, capacity: Number, p: Carrier.Problem)
    ensures SomeSlot(slots, capacity, p) <==> CarrierRule(slots, capacity, p)
  {
    if CarrierRule(slots, capacity, p) {
      match p
      case DuplicateSlot =>
        var i, j :| 0 <= i < j < |slots| && slots[i].slot == slots[j].slot;
        assert SlotRule(slots, capacity, j, p);
      case WaferTwice =>
        var i, j :| 0 <= i < j < |slots| && slots[i].waferId == slots[j].waferId != None && slots[i].waferId != Some("");
        assert SlotRule(slots, capacity, j, p);
      case OutsideCapacity =>
        var s :| s in slots && !(IsInteger(s.slot) && 1 <= IntOf(s.slot) && UpTo(s.slot.x, capacity));
        var i :| 0 <= i < |slots| && slots[i] == s;
        assert SlotRule(slots, capacity, i, p);
      case EmptyHoldsWafer =>
        var s :| s in slots && s.status == Carrier.Empty && s.waferId != None;
        var i :| 0 <= i < |slots| && slots[i] == s;
        assert SlotRule(slots, capacity, i, p);
      case WaferMissing =>
        var s :| s in slots && s.status != Carrier.Empty && (s.waferId == None || s.waferId == Some(""));
        var i :| 0 <= i < |slots| && slots[i] == s;
        assert SlotRule(slots, capacity, i, p);
    }
  }

  /** What the carrier validator reports. */
  lemma CarrierProblemsIff(slots: seq<Carrier.Slot>, capacity: Number, p: Carrier.Problem)
    ensures p in Carrier.Problems(slots, capacity) <==> CarrierRule(slots, capacity, p)
  {
    var at := Carrier.ProblemsAt(slots, capacity);
    var rule := (i: nat) => i < |slots| && SlotRule(slots, capacity, i, p);
    forall i: nat | i < |slots|
      ensures p in at(i) <==> rule(i)
    {
      SlotProblemsIff(slots, capacity, i, p);
    }
    GatherRule(at, [], |slots|, p, rule);
    SomeSlotIff(slots, capacity, p);
    if SomeSlot(slots, capacity, p) {
      var i: nat :| i < |slots| && SlotRule(slots, capacity, i, p);
      assert rule(i);
    }
  }
}
