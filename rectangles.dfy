/** Axis-aligned boxes `(x0, y0, x1, y1)` that may be absent, and their arithmetic. */
module Rectangles {
  import opened Wrappers

  datatype Rect = Rect(x0: real, y0: real, x1: real, y1: real)

  type Box = Option<Rect>

  function Max(a: real, b: real): real { if a >= b then a else b }
  function Min(a: real, b: real): real { if a <= b then a else b }

  /** Intersection: absent if either side is absent, else the corner-wise max/min box. */
  function Intersect(u: Box, v: Box): (r: Box)
    ensures r.None? <==> u.None? || v.None?
    ensures r.Some? ==> r.value == Rect(Max(u.value.x0, v.value.x0), Max(u.value.y0, v.value.y0),
                                      Min(u.value.x1, v.value.x1), Min(u.value.y1, v.value.y1))
  {
    if u.None? || v.None? then None
    else Some(Rect(Max(u.value.x0, v.value.x0), Max(u.value.y0, v.value.y0),
                   Min(u.value.x1, v.value.x1), Min(u.value.y1, v.value.y1)))
  }

  /** Width, clamped at zero; zero for an absent box. */
  function Width(u: Box): (w: real)
    ensures w >= 0.0
    ensures u.Some? && u.value.x1 >= u.value.x0 ==> w == u.value.x1 - u.value.x0
    ensures u.None? || u.value.x1 <= u.value.x0 ==> w == 0.0
  {
    if u.None? then 0.0 else Max(0.0, u.value.x1 - u.value.x0)
  }

  /** Height, clamped at zero; zero for an absent box. */
  function Height(u: Box): (h: real)
    ensures h >= 0.0
    ensures u.Some? && u.value.y1 >= u.value.y0 ==> h == u.value.y1 - u.value.y0
    ensures u.None? || u.value.y1 <= u.value.y0 ==> h == 0.0
  {
    if u.None? then 0.0 else Max(0.0, u.value.y1 - u.value.y0)
  }

  /** Area: never negative, zero for an absent or inverted box. */
  function Area(u: Box): (a: real)
    ensures a >= 0.0
    ensures u.None? ==> a == 0.0
  {
    MulMono(0.0, 0.0, Width(u), Height(u));
    Width(u) * Height(u)
  }

  /** Do the boxes overlap with positive area? */
  predicate Overlaps(u: Box, v: Box)
  {
    Area(Intersect(u, v)) > 0.0
  }

  /** Intersection area over the larger of the two areas; Python divides by zero when both are zero. */
  function RelativeOverlap(u: Box, v: Box): (r: Result<real>)
    ensures r.Ok? <==> Max(Area(u), Area(v)) > 0.0
    ensures r.Err? ==> r.error == ZeroDivisionError
    ensures r.Ok? ==> 0.0 <= r.value <= 1.0
  {
    var m := Max(Area(u), Area(v));
    var i := Area(Intersect(u, v));
    IntersectAreaBounded(u, v);
    if m == 0.0 then Err(ZeroDivisionError) else Ok(i / m)
  }

  /** Shrink each side inward by `2t + 1`; an absent box stays absent. */
  function Erode(u: Box, tx: real, ty: real): (r: Box)
    ensures r.None? <==> u.None?
    ensures r.Some? ==> r.value == Rect(u.value.x0 + (2.0 * tx + 1.0), u.value.y0 + (2.0 * ty + 1.0),
                                      u.value.x1 - (2.0 * tx + 1.0), u.value.y1 - (2.0 * ty + 1.0))
  {
    if u.None? then u
    else
      var x := 2.0 * tx + 1.0;
      var y := 2.0 * ty + 1.0;
      Some(Rect(u.value.x0 + x, u.value.y0 + y, u.value.x1 - x, u.value.y1 - y))
  }

  // ---------------------------------------------------------------- properties

  lemma MulMono(a: real, b: real, c: real, d: real)
    requires 0.0 <= a <= c && 0.0 <= b <= d
    ensures a * b <= c * d
  {
    assert a * b <= c * b;
    assert c * b <= c * d;
  }

  /** The intersection is no larger than either box. */
  lemma IntersectAreaBounded(u: Box, v: Box)
    ensures Area(Intersect(u, v)) <= Area(u) && Area(Intersect(u, v)) <= Area(v)
  {
    if u.Some? && v.Some? {
      IntersectSides(u, v);
      AreaMono(Intersect(u, v), u);
      AreaMono(Intersect(u, v), v);
    }
  }

  lemma AreaMono(a: Box, b: Box)
    requires Width(a) <= Width(b) && Height(a) <= Height(b)
    ensures Area(a) <= Area(b)
  {
    MulMono(Width(a), Height(a), Width(b), Height(b));
  }

  lemma IntersectSides(u: Box, v: Box)
    requires u.Some? && v.Some?
    ensures Width(Intersect(u, v)) <= Width(u) && Width(Intersect(u, v)) <= Width(v)
    ensures Height(Intersect(u, v)) <= Height(u) && Height(Intersect(u, v)) <= Height(v)
  {
  }

  lemma IntersectSymmetric(u: Box, v: Box)
    ensures Intersect(u, v) == Intersect(v, u)
  {
  }

  lemma OverlapsSymmetric(u: Box, v: Box)
    ensures Overlaps(u, v) <==> Overlaps(v, u)
    ensures u.None? || v.None? ==> !Overlaps(u, v)
  {
    IntersectSymmetric(u, v);
  }

  lemma RelativeOverlapSymmetric(u: Box, v: Box)
    ensures RelativeOverlap(u, v) == RelativeOverlap(v, u)
  {
    IntersectSymmetric(u, v);
  }

  /** A box with positive area overlaps itself completely. */
  lemma {:induction false} RelativeOverlapSelf(u: Box)
    requires Area(u) > 0.0
    ensures RelativeOverlap(u, u) == Ok(1.0)
  {
    assert Intersect(u, u) == u;
    assert Area(Intersect(u, u)) / Area(u) == 1.0;
  }

  /** Overlapping boxes always have a defined relative overlap, and it is positive. */
  lemma OverlapsDefinesRatio(u: Box, v: Box)
    requires Overlaps(u, v)
    ensures RelativeOverlap(u, v).Ok? && RelativeOverlap(u, v).value > 0.0
  {
    IntersectAreaBounded(u, v);
  }

  /** Erosion with zero tolerances still moves every side in by one. */
  lemma ErodeZeroIsNotIdentity(r: Rect)
    ensures Erode(Some(r), 0.0, 0.0) == Some(Rect(r.x0 + 1.0, r.y0 + 1.0, r.x1 - 1.0, r.y1 - 1.0))
    ensures Erode(Some(r), 0.0, 0.0) != Some(r)
  {
  }

  /** Erosion by non-negative tolerances never grows the area; an over-eroded box has area zero. */
  lemma ErodeShrinks(u: Box, tx: real, ty: real)
    requires tx >= 0.0 && ty >= 0.0
    ensures Area(Erode(u, tx, ty)) <= Area(u)
    ensures u.Some? && u.value.x1 - u.value.x0 <= 2.0 * (2.0 * tx + 1.0) ==> Area(Erode(u, tx, ty)) == 0.0
    ensures u.Some? && u.value.y1 - u.value.y0 <= 2.0 * (2.0 * ty + 1.0) ==> Area(Erode(u, tx, ty)) == 0.0
  {
    if u.Some? {
      MulMono(Width(Erode(u, tx, ty)), Height(Erode(u, tx, ty)), Width(u), Height(u));
    }
  }

  /** Is `s` inside `b` corner by corner? */
  predicate Inside(s: Rect, b: Rect)
  {
    b.x0 <= s.x0 && b.y0 <= s.y0 && s.x1 <= b.x1 && s.y1 <= b.y1
  }

  lemma ProductEq(a: real, b: real, c: real, d: real)
    requires 0.0 <= a <= c && 0.0 <= b <= d && c > 0.0 && d > 0.0 && a * b == c * d
    ensures a == c && b == d
  {
    assert a * b <= a * d;
    assert a * d <= c * d;
    assert (c - a) * d == 0.0;
    assert a == c;
    assert a * (d - b) == 0.0;
  }

  /**
    For a box of positive area, "its intersection with `b` has its whole area" is the same
    as "it lies inside `b`".
   */
  lemma ContainedByArea(s: Rect, b: Rect)
    requires Area(Some(s)) > 0.0
    ensures Area(Intersect(Some(s), Some(b))) == Area(Some(s)) <==> Inside(s, b)
  {
    var i := Intersect(Some(s), Some(b));
    if Area(i) == Area(Some(s)) {
      assert Width(i) <= Width(Some(s)) && Height(i) <= Height(Some(s));
      ProductEq(Width(i), Height(i), Width(Some(s)), Height(Some(s)));
    }
  }

  // ------------------------------------------------ the pairwise overlap scan

  /** A table of relative overlaps, one row and one column per box. */
  type Table = seq<seq<Result<real>>>

  predicate Square(m: Table)
  {
    forall i :: 0 <= i < |m| ==> |m[i]| == |m|
  }

  /** The relative overlap of every ordered pair of boxes. */
  function OverlapTable(boxes: seq<Box>): (m: Table)
    ensures |m| == |boxes| && Square(m)
  {
    seq(|boxes|, i requires 0 <= i < |boxes| =>
      seq(|boxes|, j requires 0 <= j < |boxes| => RelativeOverlap(boxes[i], boxes[j])))
  }

  lemma TableEntry(boxes: seq<Box>, i: nat, j: nat)
    requires i < |boxes| && j < |boxes|
    ensures OverlapTable(boxes)[i][j] == RelativeOverlap(boxes[i], boxes[j])
  {
  }

  /**
    The outcome of scanning the pairs `(i, j)`, `i < j`, from `(i, j)` onwards in the order of
    the source's two nested loops: the first pair whose relative overlap is undefined raises,
    the first pair above `s` gives false, and running out of pairs gives true.
   */
  function Scan(m: Table, s: real, i: nat, j: nat): Result<bool>
    requires Square(m)
    decreases |m| - i, |m| - j
  {
    if i >= |m| then Ok(true)
    else if j >= |m| then Scan(m, s, i + 1, i + 2)
    else match m[i][j]
      case Err(e) => Err(e)
      case Ok(o) => if o > s then Ok(false) else Scan(m, s, i, j + 1)
  }

  /** The scan of `mostly_non_overlapping` over a list of boxes. */
  function PairScan(boxes: seq<Box>, s: real): Result<bool>
  {
    Scan(OverlapTable(boxes), s, 0, 1)
  }

  /** Every pair `i < j` of the table is defined and at most `s`. */
  predicate TableWithin(m: Table, s: real)
    requires Square(m)
  {
    forall p, q :: 0 <= p < q < |m| ==> m[p][q].Ok? && m[p][q].value <= s
  }

  /** Every pair `i < j` of the list has a defined relative overlap of at most `s`. */
  predicate AllPairsWithin(boxes: seq<Box>, s: real)
  {
    forall i, j :: 0 <= i < j < |boxes| ==>
      RelativeOverlap(boxes[i], boxes[j]).Ok? && RelativeOverlap(boxes[i], boxes[j]).value <= s
  }

  lemma {:induction false} ScanMeaning(m: Table, s: real, i: nat, j: nat)
    requires Square(m) && i < j
    ensures Scan(m, s, i, j) == Ok(true) <==>
            forall p, q :: 0 <= p < q < |m| && (p > i || (p == i && q >= j)) ==> m[p][q].Ok? && m[p][q].value <= s
    ensures Scan(m, s, i, j) == Ok(false) ==>
            exists p, q :: 0 <= p < q < |m| && (p > i || (p == i && q >= j)) && m[p][q].Ok? && m[p][q].value > s
    ensures (forall p, q :: 0 <= p < q < |m| ==> m[p][q].Ok?) ==> Scan(m, s, i, j).Ok?
    decreases |m| - i, |m| - j
  {
    if i >= |m| {
    } else if j >= |m| {
      ScanMeaning(m, s, i + 1, i + 2);
    } else {
      ScanMeaning(m, s, i, j + 1);
    }
  }

  /**
    The scan of the whole list gives true exactly when every pair is within the threshold, false
    only when some pair is above it, and never raises when every pair has a defined overlap.
   */
  lemma MostlyNonOverlappingMeaning(boxes: seq<Box>, s: real)
    ensures PairScan(boxes, s) == Ok(true) <==> AllPairsWithin(boxes, s)
    ensures PairScan(boxes, s) == Ok(false) ==>
            exists i, j :: 0 <= i < j < |boxes| && RelativeOverlap(boxes[i], boxes[j]).Ok? &&
                           RelativeOverlap(boxes[i], boxes[j]).value > s
    ensures (forall i, j :: 0 <= i < j < |boxes| ==> RelativeOverlap(boxes[i], boxes[j]).Ok?) ==>
            PairScan(boxes, s).Ok?
    ensures |boxes| <= 1 ==> PairScan(boxes, s) == Ok(true)
  {
    var m := OverlapTable(boxes);
    ScanMeaning(m, s, 0, 1);
    WithinTable(boxes, s);
    if PairScan(boxes, s) == Ok(false) {
      var p, q :| 0 <= p < q < |m| && m[p][q].Ok? && m[p][q].value > s;
      TableEntry(boxes, p, q);
    }
    if forall i, j :: 0 <= i < j < |boxes| ==> RelativeOverlap(boxes[i], boxes[j]).Ok? {
      forall p, q | 0 <= p < q < |m|
        ensures m[p][q].Ok?
      {
        TableEntry(boxes, p, q);
      }
    }
  }

  lemma WithinTable(boxes: seq<Box>, s: real)
    ensures AllPairsWithin(boxes, s) <==> TableWithin(OverlapTable(boxes), s)
  {
    var m := OverlapTable(boxes);
    forall p, q | 0 <= p < q < |m|
      ensures m[p][q] == RelativeOverlap(boxes[p], boxes[q])
    {
      TableEntry(boxes, p, q);
    }
  }

  /** `mostly_non_overlapping`: the nested scan with an early return at the first offending pair. */
  method MostlyNonOverlapping(boxes: seq<Box>, s: real) returns (r: Result<bool>)
    ensures r == PairScan(boxes, s)
  {
    ghost var m := OverlapTable(boxes);
    var i := 0;
    while i < |boxes|
      invariant 0 <= i <= |boxes|
      invariant Scan(m, s, 0, 1) == Scan(m, s, i, i + 1)
    {
      var j := i + 1;
      while j < |boxes|
        invariant i + 1 <= j <= |boxes|
        invariant Scan(m, s, 0, 1) == Scan(m, s, i, j)
      {
        var o := RelativeOverlap(boxes[i], boxes[j]);
        TableEntry(boxes, i, j);
        if o.Err? {
          return Err(o.error);
        }
        if o.value > s {
          return Ok(false);
        }
        j := j + 1;
      }
      i := i + 1;
    }
    return Ok(true);
  }
}
