/**
  The older rectangle helpers: the same formulas on boxes that are always present, and a
  pairwise scan that answers with the integers 1 and 0 instead of booleans.
 */
module LegacyRectangles {
  import opened Wrappers
  import R = Rectangles

  type Rect = R.Rect

  function Intersect(u: Rect, v: Rect): Rect
  {
    R.Rect(R.Max(u.x0, v.x0), R.Max(u.y0, v.y0), R.Min(u.x1, v.x1), R.Min(u.y1, v.y1))
  }

  function Width(u: Rect): real
  {
    R.Max(0.0, u.x1 - u.x0)
  }

  function Height(u: Rect): real
  {
    R.Max(0.0, u.y1 - u.y0)
  }

  function Area(u: Rect): (a: real)
    ensures a >= 0.0
  {
    R.Max(0.0, u.x1 - u.x0) * R.Max(0.0, u.y1 - u.y0)
  }

  predicate Overlaps(u: Rect, v: Rect)
  {
    Area(Intersect(u, v)) > 0.0
  }

  /** Divides by the larger area with no guard. */
  function RelativeOverlap(u: Rect, v: Rect): Result<real>
  {
    var m := R.Max(Area(u), Area(v));
    var i := Area(Intersect(u, v));
    if m == 0.0 then Err(ZeroDivisionError) else Ok(i / m)
  }

  function Erode(u: Rect, tx: real, ty: real): Rect
  {
    var x := 2.0 * tx + 1.0;
    var y := 2.0 * ty + 1.0;
    R.Rect(u.x0 + x, u.y0 + y, u.x1 - x, u.y1 - y)
  }

  /** Every box, as a present box of the newer helpers. */
  function Present(boxes: seq<Rect>): (r: seq<R.Box>)
    ensures |r| == |boxes| && forall i :: 0 <= i < |boxes| ==> r[i] == Some(boxes[i])
  {
    seq(|boxes|, i requires 0 <= i < |boxes| => Some(boxes[i]))
  }

  lemma AreaAgrees(u: Rect)
    ensures Area(u) == R.Area(Some(u))
  {
  }

  /** Each older helper computes what the newer one computes on the present box. */
  lemma {:induction false} AgreesWithOptionalVersion(u: Rect, v: Rect, tx: real, ty: real)
    ensures Some(Intersect(u, v)) == R.Intersect(Some(u), Some(v))
    ensures Width(u) == R.Width(Some(u)) && Height(u) == R.Height(Some(u))
    ensures Area(u) == R.Area(Some(u)) && Area(u) >= 0.0
    ensures Overlaps(u, v) <==> R.Overlaps(Some(u), Some(v))
    ensures RelativeOverlap(u, v) == R.RelativeOverlap(Some(u), Some(v))
    ensures RelativeOverlap(u, v).Ok? <==> R.Max(Area(u), Area(v)) > 0.0
    ensures Some(Erode(u, tx, ty)) == R.Erode(Some(u), tx, ty)
  {
    AreaAgrees(u);
    AreaAgrees(v);
    AreaAgrees(Intersect(u, v));
    assert Some(Intersect(u, v)) == R.Intersect(Some(u), Some(v));
  }

  /** The integer answer of the scan: 1 for "mostly non-overlapping", 0 otherwise. */
  function AsFlag(r: Result<bool>): Result<int>
  {
    match r
    case Ok(b) => Ok(if b then 1 else 0)
    case Err(e) => Err(e)
  }

  /** An entry of the overlap table of the present boxes is the older relative overlap. */
  lemma TableEntryAgrees(boxes: seq<Rect>, i: nat, j: nat)
    requires i < |boxes| && j < |boxes|
    ensures R.OverlapTable(Present(boxes))[i][j] == RelativeOverlap(boxes[i], boxes[j])
  {
    AgreesWithOptionalVersion(boxes[i], boxes[j], 0.0, 0.0);
    R.TableEntry(Present(boxes), i, j);
  }

  /** The flag is 1 exactly when every pair of boxes is within the threshold. */
  lemma FlagMeaning(boxes: seq<Rect>, s: real)
    ensures AsFlag(R.PairScan(Present(boxes), s)) == Ok(1) <==> R.AllPairsWithin(Present(boxes), s)
    ensures AsFlag(R.PairScan(Present(boxes), s)) == Ok(0) ==>
            exists i, j :: 0 <= i < j < |boxes| && RelativeOverlap(boxes[i], boxes[j]).Ok? &&
                           RelativeOverlap(boxes[i], boxes[j]).value > s
  {
    R.MostlyNonOverlappingMeaning(Present(boxes), s);
    if AsFlag(R.PairScan(Present(boxes), s)) == Ok(0) {
      var i, j :| 0 <= i < j < |boxes| && R.RelativeOverlap(Present(boxes)[i], Present(boxes)[j]).Ok? &&
                  R.RelativeOverlap(Present(boxes)[i], Present(boxes)[j]).value > s;
      AgreesWithOptionalVersion(boxes[i], boxes[j], 0.0, 0.0);
    }
  }

  /** `mostly_non_overlapping`: 0 at the first pair above the threshold, 1 when there is none. */
  method MostlyNonOverlapping(boxes: seq<Rect>, s: real) returns (r: Result<int>)
    ensures r == AsFlag(R.PairScan(Present(boxes), s))
  {
    var i := 0;
    ghost var bs := R.OverlapTable(Present(boxes));
    while i < |boxes|
      invariant 0 <= i <= |boxes|
      invariant R.Scan(bs, s, 0, 1) == R.Scan(bs, s, i, i + 1)
    {
      var j := i + 1;
      while j < |boxes|
        invariant i + 1 <= j <= |boxes|
        invariant R.Scan(bs, s, 0, 1) == R.Scan(bs, s, i, j)
      {
        var o := RelativeOverlap(boxes[i], boxes[j]);
        TableEntryAgrees(boxes, i, j);
        if o.Err? {
          return Err(o.error);
        }
        if o.value > s {
          return Ok(0);
        }
        j := j + 1;
      }
      i := i + 1;
    }
    return Ok(1);
  }
}
