module Floor {
  /** Rectangles on a floor plan: within bounds and not overlapping. */

  import opened Numbers
  import opened Packing

  datatype Status = Healthy | Warning | Offline

  datatype Asset = Asset(id: string, name: string, x: Number, y: Number, width: Number, height: Number, status: Status)

  datatype Problem = OutOfBounds(name: string) | Overlaps(name: string, other: string)

  predicate OutOf(a: Asset, width: Number, height: Number) {
    || !IsFinite(a.x) || !IsFinite(a.y) || !IsFinite(a.width) || !IsFinite(a.height)
    || Less(a.x, Of(0)) || Less(a.y, Of(0)) || !Less(Of(0), a.width) || !Less(Of(0), a.height)
    || Less(width, Add(a.x, a.width)) || Less(height, Add(a.y, a.height))
  }

  predicate Overlap(a: Asset, b: Asset) {
    && Less(a.x, Add(b.x, b.width)) && Less(b.x, Add(a.x, a.width))
    && Less(a.y, Add(b.y, b.height)) && Less(b.y, Add(a.y, a.height))
  }

  // ---- the error list

  function BoundsProblems(assets: seq<Asset>, width: Number, height: Number, k: nat): seq<Problem>
    requires k <= |assets|
  {
    if k == 0 then []
    else
      BoundsProblems(assets, width, height, k - 1)
      + if OutOf(assets[k - 1], width, height) then [OutOfBounds(assets[k - 1].name)] else []
  }

  /** Overlaps of asset `i` with those after it, before `j`. */
  function OverlapsOf(assets: seq<Asset>, i: nat, j: nat): seq<Problem>
    requires i < j <= |assets|
    decreases j
  {
    if j == i + 1 then []
    else
      OverlapsOf(assets, i, j - 1)
      + if Overlap(assets[i], assets[j - 1]) then [Overlaps(assets[i].name, assets[j - 1].name)] else []
  }

  function OverlapProblems(assets: seq<Asset>, k: nat): seq<Problem>
    requires k <= |assets|
  {
    if k == 0 then [] else OverlapProblems(assets, k - 1) + OverlapsOf(assets, k - 1, |assets|)
  }

  function Problems(assets: seq<Asset>, width: Number, height: Number): seq<Problem> {
    BoundsProblems(assets, width, height, |assets|) + OverlapProblems(assets, |assets|)
  }

  /** `validateFloor` */
  method ValidateFloor(assets: seq<Asset>, width: Number, height: Number) returns (errors: seq<Problem>)
    ensures errors == Problems(assets, width, height)
  {
    errors := [];
    for i := 0 to |assets|
      invariant errors == BoundsProblems(assets, width, height, i)
    {
      if OutOf(assets[i], width, height) {
        errors := errors + [OutOfBounds(assets[i].name)];
      }
    }
    ghost var bounds := errors;
    for i := 0 to |assets|
      invariant errors == bounds + OverlapProblems(assets, i)
    {
      errors := CompareWithLater(assets, i, errors);
    }
  }

  method CompareWithLater(assets: seq<Asset>, i: nat, before: seq<Problem>) returns (errors: seq<Problem>)
    requires i < |assets|
    ensures errors == before + OverlapsOf(assets, i, |assets|)
  {
    errors := before;
    for j := i + 1 to |assets|
      invariant errors == before + OverlapsOf(assets, i, j)
    {
      if Overlap(assets[i], assets[j]) {
        errors := errors + [Overlaps(assets[i].name, assets[j].name)];
      }
    }
  }

  // ---- a valid floor plan in words

  predicate Measured(a: Asset) {
    a.x.Fin? && a.y.Fin? && a.width.Fin? && a.height.Fin? && a.width.x > 0.0 && a.height.x > 0.0
  }

  predicate AtMost(x: real, limit: Number) {
    match limit
    case Fin(n) => x <= n
    case NaN => true
    case Infinite(positive) => positive
  }

  predicate Within(a: Asset, width: Number, height: Number) {
    && Measured(a) && 0.0 <= a.x.x && 0.0 <= a.y.x
    && AtMost(a.x.x + a.width.x, width) && AtMost(a.y.x + a.height.x, height)
  }

  /** The interiors have no point in common. */
  predicate Disjoint(a: Asset, b: Asset)
    requires Measured(a) && Measured(b)
  {
    || a.x.x + a.width.x <= b.x.x || b.x.x + b.width.x <= a.x.x
    || a.y.x + a.height.x <= b.y.x || b.y.x + b.height.x <= a.y.x
  }

  ghost predicate ValidFloor(assets: seq<Asset>, width: Number, height: Number) {
    && (forall i :: 0 <= i < |assets| ==> Within(assets[i], width, height))
    && (forall i, j :: 0 <= i < j < |assets| ==> Disjoint(assets[i], assets[j]))
  }

  /** Measured rectangles share an interior point exactly when they are not disjoint. */
  lemma SharedPointIff(a: Asset, b: Asset)
    requires Measured(a) && Measured(b)
    ensures !Disjoint(a, b) <==> exists px: real, py: real :: Contains(a, px, py) && Contains(b, px, py)
  {
    if !Disjoint(a, b) {
      var px := (Max(a.x.x, b.x.x) + Min(a.x.x + a.width.x, b.x.x + b.width.x)) / 2.0;
      var py := (Max(a.y.x, b.y.x) + Min(a.y.x + a.height.x, b.y.x + b.height.x)) / 2.0;
      assert Contains(a, px, py) && Contains(b, px, py);
    }
  }

  predicate Contains(a: Asset, px: real, py: real)
    requires Measured(a)
  {
    a.x.x < px < a.x.x + a.width.x && a.y.x < py < a.y.x + a.height.x
  }

  lemma {:induction false} BoundsIff(assets: seq<Asset>, width: Number, height: Number, k: nat)
    requires k <= |assets|
    ensures BoundsProblems(assets, width, height, k) == [] <==> forall i :: 0 <= i < k ==> Within(assets[i], width, height)
    decreases k
  {
    if k > 0 {
      BoundsIff(assets, width, height, k - 1);
    }
  }

  lemma {:induction false} OverlapsOfIff(assets: seq<Asset>, i: nat, j: nat)
    requires i < j <= |assets|
    ensures OverlapsOf(assets, i, j) == [] <==> forall m :: i < m < j ==> !Overlap(assets[i], assets[m])
    decreases j
  {
    if j > i + 1 {
      OverlapsOfIff(assets, i, j - 1);
    }
  }

  lemma {:induction false} OverlapsIff(assets: seq<Asset>, k: nat)
    requires k <= |assets|
    ensures OverlapProblems(assets, k) == [] <==> forall i, m :: 0 <= i < k && i < m < |assets| ==> !Overlap(assets[i], assets[m])
    decreases k
  {
    if k > 0 {
      OverlapsIff(assets, k - 1);
      OverlapsOfIff(assets, k - 1, |assets|);
      assert OverlapProblems(assets, k) == [] <==> OverlapProblems(assets, k - 1) == [] && OverlapsOf(assets, k - 1, |assets|) == [];
    }
  }

  /** The error list is empty exactly when every rectangle is within bounds and no two overlap. */
  lemma NoProblemsIffValid(assets: seq<Asset>, width: Number, height: Number)
    ensures Problems(assets, width, height) == [] <==> ValidFloor(assets, width, height)
  {
    BoundsIff(assets, width, height, |assets|);
    OverlapsIff(assets, |assets|);
    if forall i :: 0 <= i < |assets| ==> Within(assets[i], width, height) {
      forall i, j | 0 <= i < j < |assets|
        ensures Overlap(assets[i], assets[j]) <==> !Disjoint(assets[i], assets[j])
      {
        assert Within(assets[i], width, height) && Within(assets[j], width, height);
      }
    }
  }

  // ---- area

  datatype Rect = Rect(x: real, y: real, width: real, height: real)

  function Value(n: Number): real {
    if n.Fin? then n.x else 0.0
  }

  function Rects(assets: seq<Asset>): (rects: seq<Rect>)
    ensures |rects| == |assets|
  {
    seq(|assets|, i requires 0 <= i < |assets| =>
      Rect(Value(assets[i].x), Value(assets[i].y), Value(assets[i].width), Value(assets[i].height)))
  }

  /** The sum of width times height. */
  function Area(rects: seq<Rect>, k: nat): real
    requires k <= |rects|
  {
    if k == 0 then 0.0 else Area(rects, k - 1) + Times(rects[k - 1].width, rects[k - 1].height)
  }

  ghost predicate Inside(r: Rect, w: real, h: real) {
    0.0 <= r.x && 0.0 <= r.y && r.width > 0.0 && r.height > 0.0 && r.x + r.width <= w && r.y + r.height <= h
  }

  ghost predicate AreApart(r: Rect, q: Rect) {
    r.x + r.width <= q.x || q.x + q.width <= r.x || r.y + r.height <= q.y || q.y + q.height <= r.y
  }

  ghost predicate Packed(rects: seq<Rect>, w: real, h: real) {
    && (forall i :: 0 <= i < |rects| ==> Inside(rects[i], w, h))
    && (forall i, j :: 0 <= i < j < |rects| ==> AreApart(rects[i], rects[j]))
  }

  function Columns(rects: seq<Rect>): (pieces: seq<Piece>)
    ensures |pieces| == |rects|
  {
    seq(|rects|, i requires 0 <= i < |rects| => Piece(rects[i].x, rects[i].x + rects[i].width, rects[i].height))
  }

  /** The vertical extents of the rectangles, weighted by whether they cross the whole strip from `a` to `b`. */
  function Rows(rects: seq<Rect>, a: real, b: real): (pieces: seq<Piece>)
    ensures |pieces| == |rects|
  {
    seq(|rects|, i requires 0 <= i < |rects| =>
      Piece(rects[i].y, rects[i].y + rects[i].height, if rects[i].x <= a && b <= rects[i].x + rects[i].width then 1.0 else 0.0))
  }

  lemma ClipWhole(p: Piece, a: real, b: real)
    requires a <= p.low <= p.high <= b
    ensures Clip(p, a, b) == p.high - p.low
  {
  }

  lemma {:induction false} CarriedIsArea(rects: seq<Rect>, w: real, h: real, k: nat)
    requires k <= |rects| && Packed(rects, w, h)
    ensures Carried(Times, Columns(rects), 0.0, w, k) == Area(rects, k)
    decreases k
  {
    if k > 0 {
      CarriedIsArea(rects, w, h, k - 1);
      assert Inside(rects[k - 1], w, h);
      ClipWhole(Columns(rects)[k - 1], 0.0, w);
    }
  }

  lemma {:induction false} RowsCarryLoad(rects: seq<Rect>, w: real, h: real, a: real, b: real, k: nat)
    requires k <= |rects| && Packed(rects, w, h)
    ensures Carried(Times, Rows(rects, a, b), 0.0, h, k) == Load(Columns(rects), a, b, k)
    decreases k
  {
    if k > 0 {
      RowsCarryLoad(rects, w, h, a, b, k - 1);
      assert Inside(rects[k - 1], w, h);
      ClipWhole(Rows(rects, a, b)[k - 1], 0.0, h);
    }
  }

  /** In any vertical strip the rectangles that cross it fit on top of each other. */
  lemma StripFits(rects: seq<Rect>, w: real, h: real, a: real, b: real)
    requires Packed(rects, w, h) && h > 0.0 && a < b
    ensures Load(Columns(rects), a, b, |rects|) <= h
  {
    var rows := Rows(rects, a, b);
    forall i | 0 <= i < |rows|
      ensures rows[i].low <= rows[i].high
    {
      assert Inside(rects[i], w, h);
    }
    forall i, j | 0 <= i < j < |rows| && rows[i].weight == 1.0 && rows[j].weight == 1.0
      ensures rows[i].high <= rows[j].low || rows[j].high <= rows[i].low
    {
      assert AreApart(rects[i], rects[j]);
    }
    RowsCarryLoad(rects, w, h, a, b, |rects|);
    TimesIsProduct();
    ExclusiveCarries(Times, rows, 0.0, h);
  }

  lemma RectsFit(rects: seq<Rect>, w: real, h: real)
    requires Packed(rects, w, h) && rects != []
    ensures Area(rects, |rects|) <= Times(w, h)
  {
    var columns := Columns(rects);
    assert Inside(rects[0], w, h);
    forall i | 0 <= i < |columns|
      ensures columns[i].low <= columns[i].high
    {
      assert Inside(rects[i], w, h);
    }
    forall a: real, b: real {:trigger Load(columns, a, b, |columns|)} | a < b && Inner(columns, a, b) == {}
      ensures Load(columns, a, b, |columns|) <= h
    {
      StripFits(rects, w, h, a, b);
    }
    CarriedIsArea(rects, w, h, |rects|);
    TimesIsProduct();
    BoundedCarries(Times, columns, h, 0.0, w);
  }

  /** The rectangles of a valid floor plan together cover no more than the floor. */
  lemma AreasFit(assets: seq<Asset>, w: real, h: real)
    requires ValidFloor(assets, Fin(w), Fin(h)) && assets != []
    ensures Area(Rects(assets), |assets|) <= Times(w, h)
  {
    var rects := Rects(assets);
    forall i | 0 <= i < |rects|
      ensures Inside(rects[i], w, h)
    {
      assert Within(assets[i], Fin(w), Fin(h));
    }
    forall i, j | 0 <= i < j < |rects|
      ensures AreApart(rects[i], rects[j])
    {
      assert Within(assets[i], Fin(w), Fin(h)) && Within(assets[j], Fin(w), Fin(h));
      assert Disjoint(assets[i], assets[j]);
    }
    RectsFit(rects, w, h);
  }
}
