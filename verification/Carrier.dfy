/** The slots of a wafer carrier, and moving a wafer between them. */
module Carrier {
  import opened Common
  import opened ErrorLists
  import opened Numbers

  datatype Status = Ready | Hold | Empty

  datatype Slot = Slot(slot: Number, waferId: Option<string>, status: Status)

  datatype Problem = OutsideCapacity | DuplicateSlot | WaferTwice | EmptyHoldsWafer | WaferMissing

  /** Whether `s.waferId` is truthy. */
  predicate Holds(s: Slot) {
    s.waferId.Some? && s.waferId.value != ""
  }

  // ---- validation

  predicate InCapacity(s: Slot, capacity: Number) {
    IsInteger(s.slot) && !Less(s.slot, Of(1)) && !Less(capacity, s.slot)
  }

  function SlotProblems(occupied: set<Number>, ids: set<string>, s: Slot, capacity: Number): seq<Problem> {
    Flagged(Flags(occupied, ids, s, capacity))
  }

  function Flags(occupied: set<Number>, ids: set<string>, s: Slot, capacity: Number): seq<(bool, Problem)> {
    [(!InCapacity(s, capacity), OutsideCapacity),
     (s.slot in occupied, DuplicateSlot),
     (Holds(s) && s.waferId.value in ids, WaferTwice),
     (s.status == Empty && s.waferId.Some?, EmptyHoldsWafer),
     (s.status != Empty && !Holds(s), WaferMissing)]
  }

  function Occupied(slots: seq<Slot>, k: nat): set<Number>
    requires k <= |slots|
  {
    if k == 0 then {} else Occupied(slots, k - 1) + {slots[k - 1].slot}
  }

  function WaferIds(slots: seq<Slot>, k: nat): set<string>
    requires k <= |slots|
  {
    if k == 0 then {} else WaferIds(slots, k - 1) + if Holds(slots[k - 1]) then {slots[k - 1].waferId.value} else {}
  }

  lemma {:induction false} OccupiedIff(slots: seq<Slot>, k: nat, n: Number)
    requires k <= |slots|
    ensures n in Occupied(slots, k) <==> exists i :: 0 <= i < k && slots[i].slot == n
    decreases k
  {
    if k > 0 {
      OccupiedIff(slots, k - 1, n);
    }
  }

  lemma {:induction false} WaferIdsIff(slots: seq<Slot>, k: nat, id: string)
    requires k <= |slots|
    ensures id in WaferIds(slots, k) <==> exists i :: 0 <= i < k && Holds(slots[i]) && slots[i].waferId.value == id
    decreases k
  {
    if k > 0 {
      WaferIdsIff(slots, k - 1, id);
    }
  }

  /** The problems slot `i` adds. */
  function ProblemsAt(slots: seq<Slot>, capacity: Number): nat -> seq<Problem> {
    (i: nat) => if i < |slots| then SlotProblems(Occupied(slots, i), WaferIds(slots, i), slots[i], capacity) else []
  }

  function Problems(slots: seq<Slot>, capacity: Number): seq<Problem> {
    Gather(ProblemsAt(slots, capacity), [], |slots|)
  }

  /** `validateCarrier` */
  method ValidateCarrier(slots: seq<Slot>, capacity: Number) returns (errors: seq<Problem>)
    ensures errors == Problems(slots, capacity)
  {
    errors := [];
    var occupied, ids := {}, {};
    ghost var problemsAt := ProblemsAt(slots, capacity);
    for i := 0 to |slots|
      invariant occupied == Occupied(slots, i) && ids == WaferIds(slots, i)
      invariant errors == Gather(problemsAt, [], i)
    {
      errors, occupied, ids := CheckAt(slots, i, occupied, ids, capacity, errors);
    }
  }

  /** One iteration of the loop of `validateCarrier`. */
  method CheckAt(slots: seq<Slot>, i: nat, occupied: set<Number>, ids: set<string>, capacity: Number, before: seq<Problem>)
    returns (errors: seq<Problem>, taken: set<Number>, known: set<string>)
    requires i < |slots| && occupied == Occupied(slots, i) && ids == WaferIds(slots, i)
    ensures errors == before + ProblemsAt(slots, capacity)(i)
    ensures taken == Occupied(slots, i + 1) && known == WaferIds(slots, i + 1)
  {
    errors := CheckSlot(occupied, ids, slots[i], capacity, before);
    taken := occupied + {slots[i].slot};
    known := if Holds(slots[i]) then ids + {slots[i].waferId.value} else ids;
  }

  method CheckSlot(occupied: set<Number>, ids: set<string>, s: Slot, capacity: Number, before: seq<Problem>) returns (errors: seq<Problem>)
    ensures errors == before + SlotProblems(occupied, ids, s, capacity)
  {
    ghost var flags := [];
    errors := before;
    errors, flags := Note(!InCapacity(s, capacity), OutsideCapacity, before, errors, flags);
    errors, flags := Note(s.slot in occupied, DuplicateSlot, before, errors, flags);
    errors, flags := Note(Holds(s) && s.waferId.value in ids, WaferTwice, before, errors, flags);
    errors, flags := Note(s.status == Empty && s.waferId.Some?, EmptyHoldsWafer, before, errors, flags);
    errors, flags := Note(s.status != Empty && !Holds(s), WaferMissing, before, errors, flags);
    assert flags == Flags(occupied, ids, s, capacity);
  }

  /** `if (condition) errors.push(problem)` */
  method Note(condition: bool, problem: Problem, ghost before: seq<Problem>, errors: seq<Problem>, ghost flags: seq<(bool, Problem)>)
    returns (more: seq<Problem>, ghost all: seq<(bool, Problem)>)
    requires errors == before + Flagged(flags)
    ensures all == flags + [(condition, problem)] && more == before + Flagged(all)
  {
    FlaggedSnoc(flags, condition, problem);
    all := flags + [(condition, problem)];
    more := if condition then errors + [problem] else errors;
  }

  predicate ValidSlot(s: Slot, capacity: Number) {
    InCapacity(s, capacity) && (if s.status == Empty then s.waferId.None? else Holds(s))
  }

  ghost predicate ValidCarrier(slots: seq<Slot>, capacity: Number, k: nat)
    requires k <= |slots|
  {
    && (forall i :: 0 <= i < k ==> ValidSlot(slots[i], capacity))
    && (forall i, j :: 0 <= i < j < k ==> slots[i].slot != slots[j].slot)
    && (forall i, j :: 0 <= i < j < k && Holds(slots[i]) && Holds(slots[j]) ==> slots[i].waferId != slots[j].waferId)
  }

  /** The error list is empty exactly when slots are in range and distinct, no wafer is in two of them, and
      a slot is empty just when it holds no wafer. */
  lemma NoProblemsIffValid(slots: seq<Slot>, capacity: Number)
    ensures Problems(slots, capacity) == [] <==> ValidCarrier(slots, capacity, |slots|)
  {
    var problemsAt, good := ProblemsAt(slots, capacity), (k: nat) => k <= |slots| && ValidCarrier(slots, capacity, k);
    forall k: nat {:trigger problemsAt(k)} | k < |slots|
      ensures (good(k + 1) ==> good(k)) && (good(k) ==> (problemsAt(k) == [] <==> good(k + 1)))
    {
      if good(k) {
        CarrierStep(slots, capacity, k);
      }
    }
    GatherIff(problemsAt, good, [], |slots|, |slots|);
  }

  lemma CarrierStep(slots: seq<Slot>, capacity: Number, k: nat)
    requires k < |slots| && ValidCarrier(slots, capacity, k)
    ensures SlotProblems(Occupied(slots, k), WaferIds(slots, k), slots[k], capacity) == [] <==> ValidCarrier(slots, capacity, k + 1)
  {
    SlotIsClear(slots, capacity, k);
  }

  lemma FlagsClear(occupied: set<Number>, ids: set<string>, s: Slot, capacity: Number)
    ensures SlotProblems(occupied, ids, s, capacity) == [] <==>
      ValidSlot(s, capacity) && s.slot !in occupied && !(Holds(s) && s.waferId.value in ids)
  {
    var flags := Flags(occupied, ids, s, capacity);
    FlaggedIff(flags);
    assert Flagged(flags) == [] <==> !flags[0].0 && !flags[1].0 && !flags[2].0 && !flags[3].0 && !flags[4].0;
  }

  lemma SlotIsClear(slots: seq<Slot>, capacity: Number, k: nat)
    requires k < |slots|
    ensures SlotProblems(Occupied(slots, k), WaferIds(slots, k), slots[k], capacity) == [] <==>
      && ValidSlot(slots[k], capacity)
      && (forall i :: 0 <= i < k ==> slots[i].slot != slots[k].slot)
      && (forall i :: 0 <= i < k && Holds(slots[i]) && Holds(slots[k]) ==> slots[i].waferId != slots[k].waferId)
  {
    FlagsClear(Occupied(slots, k), WaferIds(slots, k), slots[k], capacity);
    OccupiedIff(slots, k, slots[k].slot);
    if Holds(slots[k]) {
      WaferIdsIff(slots, k, slots[k].waferId.value);
    }
  }

  // ---- moving a wafer

  const CAPACITY: Number := Of(25)

  /** `slots.find(s => s.slot === n)`; NaN equals nothing. */
  function Find(slots: seq<Slot>, n: Number): (r: Option<nat>)
    ensures r.Some? ==> r.value < |slots| && slots[r.value].slot == n
    ensures r.None? && !n.NaN? ==> forall i :: 0 <= i < |slots| ==> slots[i].slot != n
  {
    if slots == [] then None
    else if slots[0].slot == n && !n.NaN? then Some(0)
    else
      match Find(slots[1..], n)
      case None => None
      case Some(i) => Some(i + 1)
  }

  function Moved(slots: seq<Slot>, from: Number, to: Number, origin: Slot): seq<Slot> {
    seq(|slots|, i requires 0 <= i < |slots| =>
      if slots[i].slot == from && !from.NaN? then Slot(from, None, Empty)
      else if slots[i].slot == to && !to.NaN? then origin.(slot := to)
      else slots[i])
  }

  /** The checks before the move. */
  function Source(slots: seq<Slot>, from: Number, to: Number): Result<Slot> {
    var origin, target := Find(slots, from), Find(slots, to);
    if origin.None? || !Holds(slots[origin.value]) then Err("Source slot is empty.")
    else if target.None? then Err("Target slot does not exist.")
    else if Holds(slots[target.value]) then Err("Target slot is occupied.")
    else Ok(slots[origin.value])
  }

  /** `reassignWafer` */
  method ReassignWafer(slots: seq<Slot>, from: Number, to: Number) returns (r: Result<seq<Slot>>)
    ensures r.Ok? <==> Source(slots, from, to).Ok? && ValidCarrier(Moved(slots, from, to, Source(slots, from, to).value), Of(25), |slots|)
    ensures r.Ok? ==> r.value == Moved(slots, from, to, Source(slots, from, to).value)
  {
    var origin := Source(slots, from, to);
    if origin.Err? {
      return Err(origin.reason);
    }
    var next := Moved(slots, from, to, origin.value);
    var errors := ValidateCarrier(next, CAPACITY);
    NoProblemsIffValid(next, CAPACITY);
    r := if errors == [] then Ok(next) else Err("The carrier is invalid.");
  }

  /** What the slots hold, in order. */
  function Contents(slots: seq<Slot>): seq<(Option<string>, Status)> {
    seq(|slots|, i requires 0 <= i < |slots| => (slots[i].waferId, slots[i].status))
  }

  predicate IsSlot(slots: seq<Slot>, i: nat, n: Number) {
    i < |slots| && slots[i].slot == n
  }

  lemma FindIs(slots: seq<Slot>, capacity: Number, i: nat)
    requires i < |slots| && ValidCarrier(slots, capacity, |slots|)
    ensures Find(slots, slots[i].slot) == Some(i)
  {
    assert ValidSlot(slots[i], capacity);
    var j := Find(slots, slots[i].slot);
    if j.Some? && j.value != i {
      DistinctSlots(slots, capacity, i, j.value);
    }
  }

  /** In a valid carrier a move swaps the contents of an occupied and an empty slot. */
  lemma MoveIsSwap(slots: seq<Slot>, a: nat, b: nat)
    requires a < |slots| && b < |slots| && ValidCarrier(slots, CAPACITY, |slots|)
    requires Holds(slots[a]) && !Holds(slots[b])
    ensures Moved(slots, slots[a].slot, slots[b].slot, slots[a])
      == slots[a := slots[b].(slot := slots[a].slot)][b := slots[a].(slot := slots[b].slot)]
  {
    assert ValidSlot(slots[a], CAPACITY) && ValidSlot(slots[b], CAPACITY);
    var next := Moved(slots, slots[a].slot, slots[b].slot, slots[a]);
    forall i | 0 <= i < |slots|
      ensures next[i] == slots[a := slots[b].(slot := slots[a].slot)][b := slots[a].(slot := slots[b].slot)][i]
    {
      if i != a && i != b {
        DistinctSlots(slots, CAPACITY, i, a);
        DistinctSlots(slots, CAPACITY, i, b);
      }
    }
  }

  lemma DistinctSlots(slots: seq<Slot>, capacity: Number, i: nat, j: nat)
    requires i < |slots| && j < |slots| && i != j && ValidCarrier(slots, capacity, |slots|)
    ensures slots[i].slot != slots[j].slot
    ensures Holds(slots[i]) && Holds(slots[j]) ==> slots[i].waferId != slots[j].waferId
  {
    if j < i {
      assert slots[j].slot != slots[i].slot;
    }
  }

  lemma SwapKeepsValid(slots: seq<Slot>, a: nat, b: nat)
    requires a < |slots| && b < |slots| && a != b && ValidCarrier(slots, CAPACITY, |slots|)
    ensures ValidCarrier(slots[a := slots[b].(slot := slots[a].slot)][b := slots[a].(slot := slots[b].slot)], CAPACITY, |slots|)
  {
    var next := slots[a := slots[b].(slot := slots[a].slot)][b := slots[a].(slot := slots[b].slot)];
    assert ValidSlot(slots[a], CAPACITY) && ValidSlot(slots[b], CAPACITY);
    forall i, j | 0 <= i < j < |next|
      ensures next[i].slot != next[j].slot
      ensures Holds(next[i]) && Holds(next[j]) ==> next[i].waferId != next[j].waferId
    {
      DistinctSlots(slots, CAPACITY, i, j);
      DistinctSlots(slots, CAPACITY, if i == a then b else if i == b then a else i, if j == a then b else if j == b then a else j);
    }
  }

  lemma SwappedContents(slots: seq<Slot>, a: nat, b: nat)
    requires a < |slots| && b < |slots|
    ensures Contents(slots[a := slots[b].(slot := slots[a].slot)][b := slots[a].(slot := slots[b].slot)])
      == Contents(slots)[a := Contents(slots)[b]][b := Contents(slots)[a]]
  {
  }

  lemma SwapKeepsContents<T>(s: seq<T>, a: nat, b: nat)
    requires a < |s| && b < |s|
    ensures multiset(s[a := s[b]][b := s[a]]) == multiset(s)
  {
  }

  lemma MoveKeepsContents(slots: seq<Slot>, a: nat, b: nat)
    requires a < |slots| && b < |slots| && ValidCarrier(slots, CAPACITY, |slots|) && Holds(slots[a]) && !Holds(slots[b])
    ensures var next := Moved(slots, slots[a].slot, slots[b].slot, slots[a]);
      && ValidCarrier(next, CAPACITY, |next|)
      && multiset(Contents(next)) == multiset(Contents(slots))
  {
    MoveIsSwap(slots, a, b);
    SwapKeepsValid(slots, a, b);
    SwapKeepsContents(Contents(slots), a, b);
    SwappedContents(slots, a, b);
  }

  lemma MoveBack(slots: seq<Slot>, a: nat, b: nat)
    requires a < |slots| && b < |slots| && ValidCarrier(slots, CAPACITY, |slots|) && Holds(slots[a]) && !Holds(slots[b])
    ensures var next := Moved(slots, slots[a].slot, slots[b].slot, slots[a]);
      && Source(next, slots[b].slot, slots[a].slot).Ok?
      && Moved(next, slots[b].slot, slots[a].slot, Source(next, slots[b].slot, slots[a].slot).value) == slots
  {
    var next := Moved(slots, slots[a].slot, slots[b].slot, slots[a]);
    MoveIsSwap(slots, a, b);
    SwapKeepsValid(slots, a, b);
    FindIs(next, CAPACITY, a);
    FindIs(next, CAPACITY, b);
    MoveIsSwap(next, b, a);
  }

  /** In a valid carrier every move that passes the checks is made: the carrier stays valid, nothing it
      holds is lost or duplicated, and moving the wafer back restores it. */
  lemma ReassignIsSwap(slots: seq<Slot>, from: Number, to: Number)
    requires ValidCarrier(slots, CAPACITY, |slots|) && Source(slots, from, to).Ok?
    ensures var next := Moved(slots, from, to, Source(slots, from, to).value);
      && ValidCarrier(next, CAPACITY, |next|)
      && multiset(Contents(next)) == multiset(Contents(slots))
      && Source(next, to, from).Ok?
      && Moved(next, to, from, Source(next, to, from).value) == slots
  {
    var a, b := Find(slots, from).value, Find(slots, to).value;
    MoveKeepsContents(slots, a, b);
    MoveBack(slots, a, b);
  }

  /** When the checks before the move pass: the source is a slot that holds a wafer, the target an empty one. */
  lemma SourceIff(slots: seq<Slot>, from: Number, to: Number)
    requires ValidCarrier(slots, CAPACITY, |slots|)
    ensures Source(slots, from, to).Ok? <==>
      && (exists a: nat :: IsSlot(slots, a, from) && Holds(slots[a]))
      && (exists b: nat :: IsSlot(slots, b, to) && slots[b].status == Empty)
  {
    forall i: nat | i < |slots|
      ensures Find(slots, slots[i].slot) == Some(i) && ValidSlot(slots[i], CAPACITY)
    {
      FindIs(slots, CAPACITY, i);
    }
    if Source(slots, from, to).Ok? {
      var a, b := Find(slots, from).value, Find(slots, to).value;
      assert IsSlot(slots, a, from) && IsSlot(slots, b, to);
      assert ValidSlot(slots[b], CAPACITY);
    }
  }
}
