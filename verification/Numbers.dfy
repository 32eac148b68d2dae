/** JavaScript numbers as the engineering models use them; rounding is not modelled. */
module Numbers {
  datatype Number = Fin(x: real) | NaN | Infinite(positive: bool)

  function Of(n: int): Number {
    Fin(n as real)
  }

  predicate IsFinite(a: Number) {
    a.Fin?
  }

  /** `Number.isInteger` */
  predicate IsInteger(a: Number) {
    a.Fin? && a.x == a.x.Floor as real
  }

  function IntOf(a: Number): (n: int)
    requires IsInteger(a)
    ensures a == Of(n)
  {
    a.x.Floor
  }

  function Add(a: Number, b: Number): Number {
    if a.Fin? && b.Fin? then Fin(a.x + b.x)
    else if a.NaN? || b.NaN? || (a.Infinite? && b.Infinite? && a.positive != b.positive) then NaN
    else if a.Infinite? then a
    else b
  }

  /** `a < b`, false when either is NaN. */
  predicate Less(a: Number, b: Number) {
    match (a, b)
    case (Fin(x), Fin(y)) => x < y
    case (Fin(_), Infinite(positive)) => positive
    case (Infinite(positive), Fin(_)) => !positive
    case (Infinite(p), Infinite(q)) => !p && q
    case _ => false
  }

  /** Addition of ECMAScript numbers, rounding apart. */
  lemma AddIs(a: Number, b: Number)
    ensures Add(a, b) == NaN <==> a == NaN || b == NaN || (a == Infinite(true) && b == Infinite(false)) || (a == Infinite(false) && b == Infinite(true))
    ensures forall p :: Add(a, b) == Infinite(p) <==>
      (a == Infinite(p) || b == Infinite(p)) && a != NaN && b != NaN && a != Infinite(!p) && b != Infinite(!p)
    ensures forall z :: Add(a, b) == Fin(z) <==> a.Fin? && b.Fin? && a.x + b.x == z
  {
  }

  /** Numbers are ordered between the infinities; NaN is not less than anything, and nothing is less than NaN. */
  lemma LessIs(a: Number, b: Number)
    ensures Less(a, b) <==>
      && a != NaN && b != NaN && a != b
      && (a == Infinite(false) || b == Infinite(true) || (a.Fin? && b.Fin? && a.x < b.x))
  {
  }
}
