module Packing {
  /** Weighted intervals on a line: if no point carries more than `limit`, no stretch carries more than its
      length times `limit`.  The product of reals is a parameter, known by its laws. */

  type Product = (real, real) -> real

  // ---- laws of the product

  ghost predicate AddsLeft(mul: Product, x: real, y: real, w: real) {
    mul(x + y, w) == mul(x, w) + mul(y, w)
  }

  ghost predicate AddsRight(mul: Product, w: real, x: real, y: real) {
    mul(w, x + y) == mul(w, x) + mul(w, y)
  }

  ghost predicate Grows(mul: Product, w: real, x: real, y: real) {
    w >= 0.0 && x <= y ==> mul(w, x) <= mul(w, y)
  }

  ghost predicate Zero(mul: Product, w: real) {
    mul(0.0, w) == 0.0 && mul(w, 0.0) == 0.0
  }

  ghost predicate IsProduct(mul: Product) {
    && (forall x: real, y: real, w: real :: AddsLeft(mul, x, y, w))
    && (forall w: real, x: real, y: real :: AddsRight(mul, w, x, y))
    && (forall w: real, x: real, y: real :: Grows(mul, w, x, y))
    && (forall w: real :: Zero(mul, w))
  }

  function Times(x: real, y: real): real {
    x * y
  }

  lemma TimesGrows(w: real, x: real, y: real)
    requires w >= 0.0 && x <= y
    ensures w * x <= w * y
  {
  }

  lemma TimesIsProduct()
    ensures IsProduct(Times)
  {
    forall w: real, x: real, y: real
      ensures Grows(Times, w, x, y)
    {
      if w >= 0.0 && x <= y {
        TimesGrows(w, x, y);
      }
    }
  }

  // ---- pieces

  datatype Piece = Piece(low: real, high: real, weight: real)

  function Min(a: real, b: real): real { if a < b then a else b }
  function Max(a: real, b: real): real { if a < b then b else a }

  /** The length of a piece between `a` and `b`. */
  function Clip(p: Piece, a: real, b: real): real {
    Max(0.0, Min(p.high, b) - Max(p.low, a))
  }

  /** What the first `k` pieces carry between `a` and `b`: the sum of length times weight. */
  function Carried(mul: Product, pieces: seq<Piece>, a: real, b: real, k: nat): real
    requires k <= |pieces|
  {
    if k == 0 then 0.0
    else Carried(mul, pieces, a, b, k - 1) + mul(Clip(pieces[k - 1], a, b), pieces[k - 1].weight)
  }

  predicate Spans(p: Piece, a: real, b: real) {
    p.low <= a && b <= p.high
  }

  /** The total weight of the first `k` pieces that cover the whole stretch. */
  function Load(pieces: seq<Piece>, a: real, b: real, k: nat): real
    requires k <= |pieces|
  {
    if k == 0 then 0.0 else Load(pieces, a, b, k - 1) + if Spans(pieces[k - 1], a, b) then pieces[k - 1].weight else 0.0
  }

  /** The ends of pieces that lie strictly between `a` and `b`. */
  function Inner(pieces: seq<Piece>, a: real, b: real): set<real> {
    (set i | 0 <= i < |pieces| && a < pieces[i].low < b :: pieces[i].low)
    + (set i | 0 <= i < |pieces| && a < pieces[i].high < b :: pieces[i].high)
  }

  ghost predicate Proper(pieces: seq<Piece>) {
    forall i :: 0 <= i < |pieces| ==> pieces[i].low <= pieces[i].high
  }

  /** Where no piece begins or ends, the weights add up to at most `limit`. */
  ghost predicate Bounded(pieces: seq<Piece>, limit: real) {
    forall a: real, b: real {:trigger Load(pieces, a, b, |pieces|)} ::
      a < b && Inner(pieces, a, b) == {} ==> Load(pieces, a, b, |pieces|) <= limit
  }

  lemma ClipSplits(p: Piece, a: real, b: real, c: real)
    requires p.low <= p.high && a <= b <= c
    ensures Clip(p, a, c) == Clip(p, a, b) + Clip(p, b, c)
  {
  }

  lemma {:induction false} CarriedSplits(mul: Product, pieces: seq<Piece>, a: real, b: real, c: real, k: nat)
    requires IsProduct(mul) && Proper(pieces) && a <= b <= c && k <= |pieces|
    ensures Carried(mul, pieces, a, c, k) == Carried(mul, pieces, a, b, k) + Carried(mul, pieces, b, c, k)
    decreases k
  {
    if k > 0 {
      CarriedSplits(mul, pieces, a, b, c, k - 1);
      var p := pieces[k - 1];
      ClipSplits(p, a, b, c);
      assert AddsLeft(mul, Clip(p, a, b), Clip(p, b, c), p.weight);
    }
  }

  lemma ClipOnStretch(pieces: seq<Piece>, a: real, b: real, i: nat)
    requires Proper(pieces) && a < b && Inner(pieces, a, b) == {} && i < |pieces|
    ensures Clip(pieces[i], a, b) == if Spans(pieces[i], a, b) then b - a else 0.0
  {
    assert pieces[i].low !in Inner(pieces, a, b) && pieces[i].high !in Inner(pieces, a, b);
  }

  lemma {:induction false} CarriedOnStretch(mul: Product, pieces: seq<Piece>, a: real, b: real, k: nat)
    requires IsProduct(mul) && Proper(pieces) && a < b && Inner(pieces, a, b) == {} && k <= |pieces|
    ensures Carried(mul, pieces, a, b, k) == mul(b - a, Load(pieces, a, b, k))
    decreases k
  {
    assert Zero(mul, b - a);
    if k > 0 {
      CarriedOnStretch(mul, pieces, a, b, k - 1);
      var p := pieces[k - 1];
      ClipOnStretch(pieces, a, b, k - 1);
      assert Zero(mul, p.weight);
      assert AddsRight(mul, b - a, Load(pieces, a, b, k - 1), if Spans(p, a, b) then p.weight else 0.0);
    }
  }

  lemma InnerShrinks(pieces: seq<Piece>, a: real, b: real, c: real)
    requires a < b < c && b in Inner(pieces, a, c)
    ensures |Inner(pieces, a, b)| < |Inner(pieces, a, c)| && |Inner(pieces, b, c)| < |Inner(pieces, a, c)|
  {
    FewerThan(Inner(pieces, a, b), Inner(pieces, a, c), b);
    FewerThan(Inner(pieces, b, c), Inner(pieces, a, c), b);
  }

  lemma FewerThan(s: set<real>, t: set<real>, x: real)
    requires s <= t && x in t && x !in s
    ensures |s| < |t|
  {
    assert t == s + (t - s);
    assert x in t - s;
  }

  /** A bounded load carries at most length times limit. */
  lemma {:induction false} BoundedCarries(mul: Product, pieces: seq<Piece>, limit: real, a: real, b: real)
    requires IsProduct(mul) && Proper(pieces) && Bounded(pieces, limit) && a < b
    ensures Carried(mul, pieces, a, b, |pieces|) <= mul(b - a, limit)
    decreases |Inner(pieces, a, b)|
  {
    if Inner(pieces, a, b) == {} {
      CarriedOnStretch(mul, pieces, a, b, |pieces|);
      assert Grows(mul, b - a, Load(pieces, a, b, |pieces|), limit);
    } else {
      var m :| m in Inner(pieces, a, b);
      InnerShrinks(pieces, a, m, b);
      CarriedSplits(mul, pieces, a, m, b, |pieces|);
      BoundedCarries(mul, pieces, limit, a, m);
      BoundedCarries(mul, pieces, limit, m, b);
      assert AddsLeft(mul, m - a, b - m, limit);
      assert (m - a) + (b - m) == b - a;
    }
  }

  /** Pieces of weight 0 or 1, of which no two of weight 1 overlap. */
  ghost predicate Exclusive(pieces: seq<Piece>) {
    && (forall i :: 0 <= i < |pieces| ==> pieces[i].weight == 0.0 || pieces[i].weight == 1.0)
    && (forall i, j :: 0 <= i < j < |pieces| && pieces[i].weight == 1.0 && pieces[j].weight == 1.0 ==>
          pieces[i].high <= pieces[j].low || pieces[j].high <= pieces[i].low)
  }

  lemma {:induction false} ExclusiveLoad(pieces: seq<Piece>, a: real, b: real, k: nat)
    requires Exclusive(pieces) && a < b && k <= |pieces|
    ensures Load(pieces, a, b, k) == 0.0
      || (Load(pieces, a, b, k) == 1.0 && exists i :: 0 <= i < k && Spans(pieces[i], a, b) && pieces[i].weight == 1.0)
    decreases k
  {
    if k > 0 {
      ExclusiveLoad(pieces, a, b, k - 1);
    }
  }

  /** Intervals that do not overlap are together no longer than any stretch that holds them. */
  lemma ExclusiveCarries(mul: Product, pieces: seq<Piece>, a: real, b: real)
    requires IsProduct(mul) && Proper(pieces) && Exclusive(pieces) && a < b
    ensures Carried(mul, pieces, a, b, |pieces|) <= mul(b - a, 1.0)
  {
    forall c: real, d: real {:trigger Load(pieces, c, d, |pieces|)} | c < d && Inner(pieces, c, d) == {}
      ensures Load(pieces, c, d, |pieces|) <= 1.0
    {
      ExclusiveLoad(pieces, c, d, |pieces|);
    }
    BoundedCarries(mul, pieces, 1.0, a, b);
  }
}
