module Rack {
  /** Placing devices in a rack: range, collisions and power. */

  import opened Common
  import opened ErrorLists
  import opened Numbers

  datatype Status = Healthy | Warning | Offline

  datatype Device = Device(id: string, name: string, start: Number, units: Number, watts: Number, status: Status)

  datatype Problem =
    | InvalidCapacity
    | DuplicateIds
    | OutsideRack(name: string)
    | InvalidPower(name: string)
    | Collision(u: int)
    | PowerExceeded

  // ---- the sweep

  predicate GoodCapacity(capacity: Number) {
    IsInteger(capacity) && !Less(capacity, Of(1)) && !Less(Of(100), capacity)
  }

  predicate InRange(d: Device, capacity: Number) {
    IsInteger(d.start) && IsInteger(d.units) && !Less(d.start, Of(1)) && !Less(d.units, Of(1))
    && !Less(capacity, Add(Add(d.start, d.units), Of(-1)))
  }

  predicate GoodPower(d: Device) {
    IsFinite(d.watts) && !Less(d.watts, Of(0))
  }

  function Ids(devices: seq<Device>): set<string> {
    set i | 0 <= i < |devices| :: devices[i].id
  }

  /** The rack units from `low` up to `high`. */
  datatype Claim = Claim(low: int, high: int)

  /** What a device takes; nothing when it is out of range. */
  function ClaimOf(d: Device, capacity: Number): Claim {
    if InRange(d, capacity) then Claim(IntOf(d.start), IntOf(d.start) + IntOf(d.units)) else Claim(0, 0)
  }

  function Claims(devices: seq<Device>, capacity: Number): (claims: seq<Claim>)
    ensures |claims| == |devices| && forall i :: 0 <= i < |devices| ==> claims[i] == ClaimOf(devices[i], capacity)
  {
    seq(|devices|, i requires 0 <= i < |devices| => ClaimOf(devices[i], capacity))
  }

  predicate Holds(c: Claim, u: int) {
    c.low <= u < c.high
  }

  function Span(c: Claim): set<int> {
    set u | c.low <= u < c.high && Holds(c, u)
  }

  /** The rack units the first `k` claims take. */
  function Taken(claims: seq<Claim>, k: nat): set<int>
    requires k <= |claims|
  {
    if k == 0 then {} else Taken(claims, k - 1) + Span(claims[k - 1])
  }

  /** Collisions of the units from `low` up to `high` with those taken. */
  function Collisions(occupied: set<int>, low: int, high: int): seq<Problem>
    decreases high - low
  {
    if high <= low then []
    else Collisions(occupied, low, high - 1) + if high - 1 in occupied then [Collision(high - 1)] else []
  }

  function DeviceProblems(occupied: set<int>, d: Device, capacity: Number): seq<Problem> {
    if !InRange(d, capacity) then [OutsideRack(d.name)]
    else
      (if GoodPower(d) then [] else [InvalidPower(d.name)])
      + Collisions(occupied, ClaimOf(d, capacity).low, ClaimOf(d, capacity).high)
  }

  /** The problems device `i` adds. */
  function ProblemsAt(devices: seq<Device>, capacity: Number): nat -> seq<Problem> {
    (i: nat) => if i < |devices| then DeviceProblems(Taken(Claims(devices, capacity), i), devices[i], capacity) else []
  }

  function HeaderProblems(devices: seq<Device>, capacity: Number): seq<Problem> {
    (if GoodCapacity(capacity) then [] else [InvalidCapacity]) + if |Ids(devices)| == |devices| then [] else [DuplicateIds]
  }

  /** The error list after the sweep. */
  function Swept(devices: seq<Device>, capacity: Number): seq<Problem> {
    Gather(ProblemsAt(devices, capacity), HeaderProblems(devices, capacity), |devices|)
  }

  /** `devices.reduce((n, d) => n + d.watts, 0)` over the first `k` */
  function Watts(devices: seq<Device>, k: nat): Number
    requires k <= |devices|
  {
    if k == 0 then Of(0) else Add(Watts(devices, k - 1), devices[k - 1].watts)
  }

  function Problems(devices: seq<Device>, capacity: Number, maxWatts: Number): seq<Problem> {
    Swept(devices, capacity) + if Less(maxWatts, Watts(devices, |devices|)) then [PowerExceeded] else []
  }

  method TakeUnits(occupied: set<int>, low: int, high: int, before: seq<Problem>) returns (taken: set<int>, problems: seq<Problem>)
    requires low <= high
    ensures taken == occupied + Span(Claim(low, high))
    ensures problems == before + Collisions(occupied, low, high)
  {
    taken, problems := occupied, before;
    for u := low to high
      invariant taken == occupied + Span(Claim(low, u))
      invariant problems == before + Collisions(occupied, low, u)
    {
      if u in taken {
        problems := problems + [Collision(u)];
      }
      taken := taken + {u};
    }
  }

  /** One iteration of the loop of `validateRack`. */
  method PlaceDevice(occupied: set<int>, d: Device, capacity: Number, before: seq<Problem>) returns (taken: set<int>, problems: seq<Problem>)
    ensures taken == occupied + Span(ClaimOf(d, capacity))
    ensures problems == before + DeviceProblems(occupied, d, capacity)
  {
    if !InRange(d, capacity) {
      return occupied, before + [OutsideRack(d.name)];
    }
    problems := before;
    if !GoodPower(d) {
      problems := problems + [InvalidPower(d.name)];
    }
    taken, problems := TakeUnits(occupied, IntOf(d.start), IntOf(d.start) + IntOf(d.units), problems);
  }

  method PlaceAt(devices: seq<Device>, i: nat, occupied: set<int>, capacity: Number, before: seq<Problem>)
    returns (taken: set<int>, problems: seq<Problem>)
    requires i < |devices| && occupied == Taken(Claims(devices, capacity), i)
    ensures taken == Taken(Claims(devices, capacity), i + 1)
    ensures problems == before + ProblemsAt(devices, capacity)(i)
  {
    taken, problems := PlaceDevice(occupied, devices[i], capacity, before);
  }

  method SweepDevices(devices: seq<Device>, capacity: Number, before: seq<Problem>) returns (errors: seq<Problem>)
    ensures errors == Gather(ProblemsAt(devices, capacity), before, |devices|)
  {
    errors := before;
    var occupied := {};
    ghost var problemsAt := ProblemsAt(devices, capacity);
    for i := 0 to |devices|
      invariant occupied == Taken(Claims(devices, capacity), i)
      invariant errors == Gather(problemsAt, before, i)
    {
      occupied, errors := PlaceAt(devices, i, occupied, capacity, errors);
    }
  }

  method SumWatts(devices: seq<Device>) returns (total: Number)
    ensures total == Watts(devices, |devices|)
  {
    total := Of(0);
    for i := 0 to |devices|
      invariant total == Watts(devices, i)
    {
      total := Add(total, devices[i].watts);
    }
  }

  method CheckHeader(devices: seq<Device>, capacity: Number) returns (errors: seq<Problem>)
    ensures errors == HeaderProblems(devices, capacity)
  {
    errors := if GoodCapacity(capacity) then [] else [InvalidCapacity];
    if |Ids(devices)| != |devices| {
      errors := errors + [DuplicateIds];
    }
  }

  /** `validateRack` */
  method ValidateRack(devices: seq<Device>, capacity: Number, maxWatts: Number) returns (errors: seq<Problem>)
    ensures errors == Problems(devices, capacity, maxWatts)
  {
    errors := CheckHeader(devices, capacity);
    errors := SweepDevices(devices, capacity, errors);
    var total := SumWatts(devices);
    if Less(maxWatts, total) {
      errors := errors + [PowerExceeded];
    }
  }

  // ---- a valid rack in words

  predicate Placed(d: Device, capacity: int) {
    && IsInteger(d.start) && IsInteger(d.units) && 1 <= IntOf(d.start) && 1 <= IntOf(d.units)
    && IntOf(d.start) + IntOf(d.units) - 1 <= capacity
    && d.watts.Fin? && d.watts.x >= 0.0
  }

  predicate Disjoint(a: Device, b: Device) {
    IsInteger(a.start) && IsInteger(a.units) && IsInteger(b.start) && IsInteger(b.units)
    && (IntOf(a.start) + IntOf(a.units) <= IntOf(b.start) || IntOf(b.start) + IntOf(b.units) <= IntOf(a.start))
  }

  predicate UniqueIds(devices: seq<Device>) {
    forall i, j | 0 <= i < j < |devices| :: devices[i].id != devices[j].id
  }

  ghost predicate AllPlaced(devices: seq<Device>, capacity: int, k: nat)
    requires k <= |devices|
  {
    && (forall i :: 0 <= i < k ==> Placed(devices[i], capacity))
    && (forall i, j :: 0 <= i < j < k ==> Disjoint(devices[i], devices[j]))
  }

  function TotalWatts(devices: seq<Device>, k: nat): real
    requires k <= |devices| && forall i :: 0 <= i < k ==> devices[i].watts.Fin?
  {
    if k == 0 then 0.0 else TotalWatts(devices, k - 1) + devices[k - 1].watts.x
  }

  predicate WithinBudget(total: real, maxWatts: Number) {
    match maxWatts
    case Fin(max) => total <= max
    case NaN => true
    case Infinite(positive) => positive
  }

  ghost predicate ValidRack(devices: seq<Device>, capacity: Number, maxWatts: Number) {
    && IsInteger(capacity) && 1 <= IntOf(capacity) <= 100
    && UniqueIds(devices)
    && AllPlaced(devices, IntOf(capacity), |devices|)
    && WithinBudget(TotalWatts(devices, |devices|), maxWatts)
  }

  // ---- no problems means valid

  lemma {:induction false} CollisionsIff(occupied: set<int>, low: int, high: int)
    ensures Collisions(occupied, low, high) == [] <==> forall u :: low <= u < high ==> u !in occupied
    decreases high - low
  {
    if low < high {
      CollisionsIff(occupied, low, high - 1);
    }
  }

  predicate Apart(a: Claim, b: Claim) {
    a.high <= b.low || b.high <= a.low
  }

  lemma {:induction false} TakenHolds(claims: seq<Claim>, k: nat, u: int)
    requires k <= |claims|
    ensures u in Taken(claims, k) <==> exists i :: 0 <= i < k && Holds(claims[i], u)
    decreases k
  {
    if k > 0 {
      TakenHolds(claims, k - 1, u);
    }
  }

  /** A claim keeps clear of the units taken exactly when it is apart from every claim before it. */
  lemma ClearIffApart(claims: seq<Claim>, k: nat)
    requires k < |claims| && forall i :: 0 <= i <= k ==> claims[i].low < claims[i].high
    ensures Collisions(Taken(claims, k), claims[k].low, claims[k].high) == [] <==> forall i :: 0 <= i < k ==> Apart(claims[i], claims[k])
  {
    var c := claims[k];
    CollisionsIff(Taken(claims, k), c.low, c.high);
    if forall u :: c.low <= u < c.high ==> u !in Taken(claims, k) {
      forall i | 0 <= i < k
        ensures Apart(claims[i], c)
      {
        TakenHolds(claims, k, claims[i].low);
        TakenHolds(claims, k, c.low);
        assert !Holds(claims[i], c.low);
        assert Holds(claims[i], claims[i].low);
      }
    }
    if forall i :: 0 <= i < k ==> Apart(claims[i], c) {
      forall u | c.low <= u < c.high
        ensures u !in Taken(claims, k)
      {
        TakenHolds(claims, k, u);
      }
    }
  }

  lemma PlacedIff(d: Device, capacity: Number)
    requires IsInteger(capacity)
    ensures Placed(d, IntOf(capacity)) <==> InRange(d, capacity) && GoodPower(d)
  {
  }

  lemma PlacedClaims(d: Device, capacity: Number)
    requires IsInteger(capacity) && Placed(d, IntOf(capacity))
    ensures ClaimOf(d, capacity) == Claim(IntOf(d.start), IntOf(d.start) + IntOf(d.units))
    ensures 1 <= ClaimOf(d, capacity).low < ClaimOf(d, capacity).high <= IntOf(capacity) + 1
  {
    PlacedIff(d, capacity);
  }

  /** Devices that are placed have proper claims, apart from each other just when the devices are disjoint. */
  lemma ClaimsOfPlaced(devices: seq<Device>, capacity: Number, k: nat)
    requires k <= |devices| && IsInteger(capacity) && forall i :: 0 <= i < k ==> Placed(devices[i], IntOf(capacity))
    ensures var claims := Claims(devices, capacity);
      && (forall i :: 0 <= i < k ==> 1 <= claims[i].low < claims[i].high <= IntOf(capacity) + 1)
      && (forall i, j :: 0 <= i < k && 0 <= j < k ==> (Apart(claims[i], claims[j]) <==> Disjoint(devices[i], devices[j])))
  {
    forall i | 0 <= i < k
      ensures ClaimOf(devices[i], capacity)
        == Claim(IntOf(devices[i].start), IntOf(devices[i].start) + IntOf(devices[i].units))
      ensures 1 <= ClaimOf(devices[i], capacity).low < ClaimOf(devices[i], capacity).high <= IntOf(capacity) + 1
    {
      PlacedClaims(devices[i], capacity);
    }
  }

  lemma SweptIff(devices: seq<Device>, capacity: Number)
    ensures Swept(devices, capacity) == [] <==>
      GoodCapacity(capacity) && |Ids(devices)| == |devices| && AllPlaced(devices, IntOf(capacity), |devices|)
  {
    if GoodCapacity(capacity) {
      var problemsAt := ProblemsAt(devices, capacity);
      var placed := (k: nat) => k <= |devices| && AllPlaced(devices, IntOf(capacity), k);
      forall k: nat {:trigger problemsAt(k)} | k < |devices|
        ensures (placed(k + 1) ==> placed(k)) && (placed(k) ==> (problemsAt(k) == [] <==> placed(k + 1)))
      {
        if placed(k) {
          SweptStep(devices, capacity, k);
        }
      }
      GatherIff(problemsAt, placed, HeaderProblems(devices, capacity), |devices|, |devices|);
    } else {
      GatherKeeps(ProblemsAt(devices, capacity), HeaderProblems(devices, capacity), |devices|);
    }
  }

  lemma SweptStep(devices: seq<Device>, capacity: Number, k: nat)
    requires k < |devices| && IsInteger(capacity) && AllPlaced(devices, IntOf(capacity), k)
    ensures DeviceProblems(Taken(Claims(devices, capacity), k), devices[k], capacity) == [] <==> AllPlaced(devices, IntOf(capacity), k + 1)
  {
    PlacedIff(devices[k], capacity);
    if Placed(devices[k], IntOf(capacity)) {
      ClaimsOfPlaced(devices, capacity, k + 1);
      ClearIffApart(Claims(devices, capacity), k);
    }
  }

  lemma {:induction false} WattsAreTotal(devices: seq<Device>, k: nat)
    requires k <= |devices| && forall i :: 0 <= i < k ==> devices[i].watts.Fin?
    ensures Watts(devices, k) == Fin(TotalWatts(devices, k))
    decreases k
  {
    if k > 0 {
      WattsAreTotal(devices, k - 1);
    }
  }

  lemma {:induction false} IdsCount(devices: seq<Device>)
    ensures |Ids(devices)| <= |devices|
    ensures |Ids(devices)| == |devices| <==> UniqueIds(devices)
  {
    if devices != [] {
      var front, last := devices[..|devices| - 1], devices[|devices| - 1];
      IdsCount(front);
      assert Ids(devices) == Ids(front) + {last.id} by {
        assert forall i :: 0 <= i < |front| ==> devices[i] == front[i];
      }
      IdsStep(devices, front, last);
    }
  }

  lemma IdsStep(devices: seq<Device>, front: seq<Device>, last: Device)
    requires devices == front + [last] && Ids(devices) == Ids(front) + {last.id}
    requires |Ids(front)| <= |front| && (|Ids(front)| == |front| <==> UniqueIds(front))
    ensures |Ids(devices)| <= |devices|
    ensures |Ids(devices)| == |devices| <==> UniqueIds(devices)
  {
    if last.id in Ids(front) {
      assert Ids(devices) == Ids(front);
      var i :| 0 <= i < |front| && front[i].id == last.id;
      assert devices[i].id == devices[|front|].id;
    } else {
      assert UniqueIds(front) <==> UniqueIds(devices) by {
        if UniqueIds(front) {
          forall i, j | 0 <= i < j < |devices|
            ensures devices[i].id != devices[j].id
          {
            assert devices[i] == front[i] && front[i].id in Ids(front);
          }
        }
        if UniqueIds(devices) {
          forall i, j | 0 <= i < j < |front|
            ensures front[i].id != front[j].id
          {
            assert devices[i].id != devices[j].id;
          }
        }
      }
    }
  }

  /** The error list is empty exactly when the rack is valid. */
  lemma NoProblemsIffValid(devices: seq<Device>, capacity: Number, maxWatts: Number)
    ensures Problems(devices, capacity, maxWatts) == [] <==> ValidRack(devices, capacity, maxWatts)
  {
    SweptIff(devices, capacity);
    IdsCount(devices);
    if Swept(devices, capacity) == [] || ValidRack(devices, capacity, maxWatts) {
      WattsAreTotal(devices, |devices|);
    }
  }

  // ---- counting

  function UnitCount(d: Device): int {
    if IsInteger(d.units) then IntOf(d.units) else 0
  }

  function TotalUnits(devices: seq<Device>, k: nat): int
    requires k <= |devices|
  {
    if k == 0 then 0 else TotalUnits(devices, k - 1) + UnitCount(devices[k - 1])
  }

  lemma SpanGrows(c: Claim, d: Claim)
    requires c.low == d.low <= c.high && d.high == c.high + 1
    ensures c.high !in Span(c) && Span(d) == Span(c) + {c.high}
  {
  }

  lemma {:induction false} SpanCount(low: int, n: nat)
    ensures |Span(Claim(low, low + n))| == n
  {
    if n > 0 {
      SpanCount(low, n - 1);
      var last := low + (n - 1);
      SpanGrows(Claim(low, last), Claim(low, low + n));
    }
  }

  function ClaimedUnits(claims: seq<Claim>, k: nat): int
    requires k <= |claims|
  {
    if k == 0 then 0 else ClaimedUnits(claims, k - 1) + (claims[k - 1].high - claims[k - 1].low)
  }

  lemma ClaimIsNew(claims: seq<Claim>, k: nat)
    requires k < |claims| && forall i :: 0 <= i < k ==> Apart(claims[i], claims[k])
    ensures Taken(claims, k) !! Span(claims[k])
  {
    forall u | u in Span(claims[k])
      ensures u !in Taken(claims, k)
    {
      TakenHolds(claims, k, u);
    }
  }

  lemma {:induction false} TakenCounts(claims: seq<Claim>, k: nat)
    requires k <= |claims| && forall i :: 0 <= i < k ==> claims[i].low < claims[i].high
    requires forall i, j :: 0 <= i < j < k ==> Apart(claims[i], claims[j])
    ensures |Taken(claims, k)| == ClaimedUnits(claims, k)
    decreases k
  {
    if k > 0 {
      TakenCounts(claims, k - 1);
      ClaimIsNew(claims, k - 1);
      ClaimCounts(claims[k - 1]);
      DisjointCount(Taken(claims, k - 1), Span(claims[k - 1]));
    }
  }

  lemma ClaimCounts(c: Claim)
    requires c.low < c.high
    ensures |Span(c)| == c.high - c.low
  {
    SpanCount(c.low, c.high - c.low);
    assert Claim(c.low, c.low + (c.high - c.low)) == c;
  }

  lemma {:induction false} ClaimedAreUnits(devices: seq<Device>, capacity: Number, k: nat)
    requires k <= |devices| && IsInteger(capacity) && forall i :: 0 <= i < k ==> Placed(devices[i], IntOf(capacity))
    ensures ClaimedUnits(Claims(devices, capacity), k) == TotalUnits(devices, k)
    decreases k
  {
    if k > 0 {
      ClaimedAreUnits(devices, capacity, k - 1);
      PlacedClaims(devices[k - 1], capacity);
    }
  }

  lemma DisjointCount(a: set<int>, b: set<int>)
    requires a !! b
    ensures |a + b| == |a| + |b|
  {
  }

  lemma SubsetCount(a: set<int>, b: set<int>)
    requires a <= b
    ensures |a| <= |b|
  {
    assert b == a + (b - a);
    DisjointCount(a, b - a);
  }

  /** The devices of a valid rack never need more units than it has. */
  lemma UnitsFit(devices: seq<Device>, capacity: Number, maxWatts: Number)
    requires ValidRack(devices, capacity, maxWatts)
    ensures TotalUnits(devices, |devices|) <= IntOf(capacity)
  {
    var claims, n := Claims(devices, capacity), |devices|;
    ClaimsOfPlaced(devices, capacity, n);
    TakenCounts(claims, n);
    ClaimedAreUnits(devices, capacity, n);
    forall u | u in Taken(claims, n)
      ensures 1 <= u < 1 + IntOf(capacity)
    {
      TakenHolds(claims, n, u);
    }
    SpanCount(1, IntOf(capacity));
    SubsetCount(Taken(claims, n), Span(Claim(1, 1 + IntOf(capacity))));
  }

  // ---- moving a device

  function Moved(devices: seq<Device>, id: string, start: Number): seq<Device> {
    seq(|devices|, i requires 0 <= i < |devices| => if devices[i].id == id then devices[i].(start := start) else devices[i])
  }

  predicate HasDevice(devices: seq<Device>, id: string) {
    exists i | 0 <= i < |devices| :: devices[i].id == id
  }

  /** `moveDevice` */
  method MoveDevice(devices: seq<Device>, id: string, start: Number, capacity: Number, maxWatts: Number) returns (r: Result<seq<Device>>)
    ensures r.Ok? <==> HasDevice(devices, id) && ValidRack(Moved(devices, id, start), capacity, maxWatts)
    ensures r.Ok? ==> r.value == Moved(devices, id, start)
  {
    if !HasDevice(devices, id) {
      return Err("Device not found.");
    }
    var next := Moved(devices, id, start);
    var errors := ValidateRack(next, capacity, maxWatts);
    NoProblemsIffValid(next, capacity, maxWatts);
    r := if errors == [] then Ok(next) else Err("The move is invalid.");
  }

  lemma {:induction false} MoveKeepsTotals(devices: seq<Device>, id: string, start: Number, k: nat)
    requires k <= |devices| && forall i :: 0 <= i < k ==> devices[i].watts.Fin?
    ensures TotalUnits(Moved(devices, id, start), k) == TotalUnits(devices, k)
    ensures TotalWatts(Moved(devices, id, start), k) == TotalWatts(devices, k)
    decreases k
  {
    if k > 0 {
      MoveKeepsTotals(devices, id, start, k - 1);
    }
  }

  /** In a valid rack a move is accepted exactly when the moved device is in range and clear of every
      other; the rack stays valid, with the same total units and watts. */
  lemma MoveAcceptedIff(devices: seq<Device>, m: nat, start: Number, capacity: Number, maxWatts: Number)
    requires ValidRack(devices, capacity, maxWatts) && m < |devices|
    ensures var next := Moved(devices, devices[m].id, start);
      && next == devices[m := devices[m].(start := start)]
      && TotalUnits(next, |next|) == TotalUnits(devices, |devices|)
      && TotalWatts(next, |next|) == TotalWatts(devices, |devices|)
      && (ValidRack(next, capacity, maxWatts) <==> Placed(next[m], IntOf(capacity)) && ClearOfOthers(devices, next[m], m))
  {
    var next := Moved(devices, devices[m].id, start);
    assert forall i :: 0 <= i < |devices| ==> next[i].id == devices[i].id;
    MoveKeepsTotals(devices, devices[m].id, start, |devices|);
    PlacedBut(devices, next, m, IntOf(capacity));
  }

  ghost predicate ClearOfOthers(devices: seq<Device>, d: Device, m: nat) {
    forall i :: 0 <= i < |devices| && i != m ==> Disjoint(devices[i], d)
  }

  lemma DisjointIsSymmetric(a: Device, b: Device)
    ensures Disjoint(a, b) == Disjoint(b, a)
  {
  }

  lemma PlacedBut(devices: seq<Device>, next: seq<Device>, m: nat, capacity: int)
    requires |next| == |devices| && m < |devices| && next == devices[m := next[m]] && AllPlaced(devices, capacity, |devices|)
    ensures AllPlaced(next, capacity, |next|) <==> Placed(next[m], capacity) && ClearOfOthers(devices, next[m], m)
  {
    forall i | 0 <= i < |devices|
      ensures Disjoint(devices[i], next[m]) == Disjoint(next[m], devices[i])
    {
      DisjointIsSymmetric(devices[i], next[m]);
    }
    if AllPlaced(next, capacity, |next|) {
      forall i | 0 <= i < |devices| && i != m
        ensures Disjoint(devices[i], next[m])
      {
        assert if i < m then Disjoint(next[i], next[m]) else Disjoint(next[m], next[i]);
      }
    }
    if Placed(next[m], capacity) && ClearOfOthers(devices, next[m], m) {
      forall i, j | 0 <= i < j < |next|
        ensures Disjoint(next[i], next[j])
      {
        assert Disjoint(devices[i], devices[j]);
      }
    }
  }
}
