/**
  Statistics about the geometric segmentation of a page: how the boxes of one segmentation
  are matched by the boxes of another.
 */
module EvalGeom {
  import opened Wrappers
  import opened Rectangles

  /** The counters of one comparison; all of them start at zero. */
  datatype Boxstats = Boxstats(multiple: nat, missing: nat, error: real, count: nat)

  const Zero := Boxstats(0, 0, 0.0, 0)

  /** `to_tuple`: `(multiple, missing, error, count)`. */
  function ToTuple(b: Boxstats): (int, int, real, int)
  {
    (b.multiple, b.missing, b.error, b.count)
  }

  /**
    `[relative_overlap(t, a) for a in actuals if overlaps(a, t)]`. Only overlapping boxes are
    compared, so no ratio divides by zero, and every ratio is positive and at most 1.
   */
  function Ratios(t: Box, actuals: seq<Box>): (r: seq<real>)
    ensures |r| <= |actuals|
    ensures forall i :: 0 <= i < |r| ==> 0.0 < r[i] <= 1.0
  {
    if actuals == [] then []
    else
      var a := actuals[0];
      if Overlaps(a, t) then [Ratio(t, a)] + Ratios(t, actuals[1..])
      else Ratios(t, actuals[1..])
  }

  /** `relative_overlap(t, a)` for a box `a` that overlaps `t`: defined, positive and at most 1. */
  function Ratio(t: Box, a: Box): (r: real)
    requires Overlaps(a, t)
    ensures r == RelativeOverlap(t, a).value
    ensures 0.0 < r <= 1.0
  {
    OverlapsSymmetric(a, t);
    OverlapsDefinesRatio(t, a);
    RelativeOverlap(t, a).value
  }

  /** `[o for o in os if o > threshold]`. */
  function Above(os: seq<real>, threshold: real): (r: seq<real>)
    ensures |r| <= |os|
    ensures forall i :: 0 <= i < |r| ==> r[i] > threshold && r[i] in os
    ensures (forall i :: 0 <= i < |os| ==> os[i] <= threshold) ==> r == []
  {
    if os == [] then []
    else if os[0] > threshold then [os[0]] + Above(os[1..], threshold)
    else Above(os[1..], threshold)
  }

  /** The effect on the statistics of one truth box whose overlap ratios are `oas`, or the error it raises. */
  function Tally(r: Boxstats, oas: seq<real>, significant: real, close: real): Result<Boxstats>
  {
    var r1 := if |Above(oas, significant)| > 1 then r.(multiple := r.multiple + 1) else r;
    var matching := Above(oas, close);
    if |matching| < 1 then Ok(r1.(missing := r1.missing + 1))
    else if |matching| > 1 then Err(AttributeError)
    else Ok(r1.(error := r1.error + (1.0 - matching[0]), count := r1.count + 1))
  }

  /** One truth box adds to exactly one of `missing` and `count`, and at most 1 to `multiple`. */
  lemma TallyCounters(r: Boxstats, oas: seq<real>, significant: real, close: real)
    requires forall i :: 0 <= i < |oas| ==> 0.0 < oas[i] <= 1.0
    requires Tally(r, oas, significant, close).Ok?
    ensures var r' := Tally(r, oas, significant, close).value;
            && r'.missing + r'.count == r.missing + r.count + 1
            && r.multiple <= r'.multiple <= r.multiple + 1
            && ((r'.count == r.count + 1 && r.error <= r'.error <= r.error + (1.0 - close))
                || (r'.count == r.count && r'.error == r.error))
  {
    var matching := Above(oas, close);
    if |matching| == 1 {
      assert matching[0] in oas;
    }
  }

  /** The overlap ratios of each truth box against the actual boxes, one row per truth box. */
  function Table(truths: seq<Box>, actuals: seq<Box>): (tab: seq<seq<real>>)
    ensures |tab| == |truths|
    ensures forall k :: 0 <= k < |truths| ==> tab[k] == Ratios(truths[k], actuals)
  {
    seq(|truths|, k requires 0 <= k < |truths| => Ratios(truths[k], actuals))
  }

  /** The statistics after the rows of `tab`, in order. */
  function StatsOf(tab: seq<seq<real>>, significant: real, close: real): Result<Boxstats>
    decreases |tab|
  {
    if tab == [] then Ok(Zero)
    else match StatsOf(tab[..|tab| - 1], significant, close)
      case Err(e) => Err(e)
      case Ok(r) => Tally(r, tab[|tab| - 1], significant, close)
  }

  /** What `boxstats(truths, actuals, significant, close)` returns or raises. */
  function Stats(truths: seq<Box>, actuals: seq<Box>, significant: real, close: real): Result<Boxstats>
  {
    StatsOf(Table(truths, actuals), significant, close)
  }

  /** `boxstats`: one pass over the truth boxes, updating the counters of a `Boxstats`. */
  method ComputeBoxstats(truths: seq<Box>, actuals: seq<Box>, significant: real, close: real)
      returns (r: Result<Boxstats>)
    ensures r == Stats(truths, actuals, significant, close)
  {
    ghost var tab := Table(truths, actuals);
    var result := Zero;
    for i := 0 to |truths|
      invariant StatsOf(tab[..i], significant, close) == Ok(result)
    {
      StatsOfNext(tab, i, significant, close);
      var oas := Ratios(truths[i], actuals);
      var next := TallyBox(result, oas, significant, close);
      if next.Err? {
        StatsOfErrPrefix(tab, i + 1, significant, close);
        return next;
      }
      result := next.value;
    }
    assert tab[..|truths|] == tab;
    return Ok(result);
  }

  /** The body of the loop of `boxstats` for a truth box whose overlap ratios are `oas`. */
  method TallyBox(result: Boxstats, oas: seq<real>, significant: real, close: real)
      returns (r: Result<Boxstats>)
    ensures r == Tally(result, oas, significant, close)
  {
    var updated := result;
    if |Above(oas, significant)| > 1 {
      updated := updated.(multiple := updated.multiple + 1);
    }
    var matching := Above(oas, close);
    if |matching| < 1 {
      updated := updated.(missing := updated.missing + 1);
    } else if |matching| > 1 {
      return Err(AttributeError);
    } else {
      updated := updated.(error := updated.error + (1.0 - matching[0]), count := updated.count + 1);
    }
    return Ok(updated);
  }

  /** The statistics after one more row. */
  lemma StatsOfNext(tab: seq<seq<real>>, i: nat, significant: real, close: real)
    requires i < |tab|
    ensures StatsOf(tab[..i], significant, close).Err? ==>
            StatsOf(tab[..i + 1], significant, close) == StatsOf(tab[..i], significant, close)
    ensures StatsOf(tab[..i], significant, close).Ok? ==>
            StatsOf(tab[..i + 1], significant, close) == Tally(StatsOf(tab[..i], significant, close).value, tab[i], significant, close)
  {
    assert tab[..i + 1][..i] == tab[..i];
  }

  /** An error in a prefix is the error of the whole table. */
  lemma {:induction false} StatsOfErrPrefix(tab: seq<seq<real>>, i: nat, significant: real, close: real)
    requires i <= |tab| && StatsOf(tab[..i], significant, close).Err?
    ensures StatsOf(tab, significant, close) == StatsOf(tab[..i], significant, close)
    decreases |tab| - i
  {
    if i == |tab| {
      assert tab[..i] == tab;
    } else {
      StatsOfNext(tab, i, significant, close);
      StatsOfErrPrefix(tab, i + 1, significant, close);
    }
  }

  // ---------------------------------------------------------------- properties

  /** Every ratio of the table lies in `(0, 1]`. */
  predicate ValidRatios(tab: seq<seq<real>>)
  {
    forall k, i :: 0 <= k < |tab| && 0 <= i < |tab[k]| ==> 0.0 < tab[k][i] <= 1.0
  }

  lemma TableValid(truths: seq<Box>, actuals: seq<Box>)
    ensures ValidRatios(Table(truths, actuals))
  {
    var tab := Table(truths, actuals);
    forall k, i | 0 <= k < |tab| && 0 <= i < |tab[k]|
      ensures 0.0 < tab[k][i] <= 1.0
    {
      assert tab[k] == Ratios(truths[k], actuals);
    }
  }

  /** `c * x`, as a sum of `c` copies of `x`. */
  function Times(c: nat, x: real): real
  {
    if c == 0 then 0.0 else Times(c - 1, x) + x
  }

  lemma {:induction false} TimesIsProduct(c: nat, x: real)
    ensures Times(c, x) == c as real * x
  {
    if c > 0 {
      TimesIsProduct(c - 1, x);
    }
  }

  lemma ValidRatiosPrefix(tab: seq<seq<real>>, n: nat)
    requires ValidRatios(tab) && n <= |tab|
    ensures ValidRatios(tab[..n])
  {
    var init := tab[..n];
    forall k, i | 0 <= k < |init| && 0 <= i < |init[k]|
      ensures 0.0 < init[k][i] <= 1.0
    {
      assert init[k] == tab[k];
    }
  }

  /** The last row is tallied onto the statistics of the others. */
  lemma StatsOfLast(tab: seq<seq<real>>, significant: real, close: real)
    requires tab != [] && StatsOf(tab, significant, close).Ok?
    ensures StatsOf(tab[..|tab| - 1], significant, close).Ok?
    ensures StatsOf(tab, significant, close) ==
            Tally(StatsOf(tab[..|tab| - 1], significant, close).value, tab[|tab| - 1], significant, close)
  {
  }

  lemma {:induction false} StatsOfCounters(tab: seq<seq<real>>, significant: real, close: real)
    requires ValidRatios(tab) && StatsOf(tab, significant, close).Ok?
    ensures var r := StatsOf(tab, significant, close).value;
            && r.missing + r.count == |tab|
            && r.multiple <= |tab|
            && 0.0 <= r.error <= Times(r.count, 1.0 - close)
    decreases |tab|
  {
    if tab != [] {
      var n := |tab| - 1;
      StatsOfLast(tab, significant, close);
      ValidRatiosPrefix(tab, n);
      StatsOfCounters(tab[..n], significant, close);
      var r := StatsOf(tab[..n], significant, close).value;
      assert forall i :: 0 <= i < |tab[n]| ==> 0.0 < tab[n][i] <= 1.0;
      TallyCounters(r, tab[n], significant, close);
      CountersStep(r, Tally(r, tab[n], significant, close).value, n, close);
    }
  }

  /** The bounds on the counters carry over one tallied truth box. */
  lemma CountersStep(r: Boxstats, r': Boxstats, n: nat, close: real)
    requires r.missing + r.count == n && r.multiple <= n && 0.0 <= r.error <= Times(r.count, 1.0 - close)
    requires r'.missing + r'.count == r.missing + r.count + 1
    requires r.multiple <= r'.multiple <= r.multiple + 1
    requires (r'.count == r.count + 1 && r.error <= r'.error <= r.error + (1.0 - close))
             || (r'.count == r.count && r'.error == r.error)
    ensures r'.missing + r'.count == n + 1 && r'.multiple <= n + 1 && 0.0 <= r'.error <= Times(r'.count, 1.0 - close)
  {
    assert Times(r.count + 1, 1.0 - close) == Times(r.count, 1.0 - close) + (1.0 - close);
  }

  /**
    Each truth box is either missing or counted, at most every truth box has several significant
    overlaps, and the error is a sum of `1 - o` over close matches `o`, so it lies between 0 and
    `count * (1 - close)` (`Times`, see `TimesIsProduct`).
   */
  lemma StatsCounters(truths: seq<Box>, actuals: seq<Box>, significant: real, close: real)
    requires Stats(truths, actuals, significant, close).Ok?
    ensures var r := Stats(truths, actuals, significant, close).value;
            && r.missing + r.count == |truths|
            && r.multiple <= |truths|
            && 0.0 <= r.error <= Times(r.count, 1.0 - close)
  {
    TableValid(truths, actuals);
    StatsOfCounters(Table(truths, actuals), significant, close);
  }

  lemma {:induction false} StatsOfFails(tab: seq<seq<real>>, significant: real, close: real)
    ensures StatsOf(tab, significant, close).Err? <==> exists k :: 0 <= k < |tab| && |Above(tab[k], close)| > 1
    ensures StatsOf(tab, significant, close).Err? ==> StatsOf(tab, significant, close).error == AttributeError
    decreases |tab|
  {
    if tab != [] {
      var n := |tab| - 1;
      var init := tab[..n];
      StatsOfFails(init, significant, close);
      StatsOfFailsStep(tab, significant, close);
      if exists k :: 0 <= k < n && |Above(init[k], close)| > 1 {
        var k :| 0 <= k < n && |Above(init[k], close)| > 1;
        assert init[k] == tab[k];
      } else {
        forall k | 0 <= k < n
          ensures |Above(tab[k], close)| <= 1
        {
          assert init[k] == tab[k];
        }
        if |Above(tab[n], close)| > 1 {
          assert 0 <= n < |tab| && |Above(tab[n], close)| > 1;
        } else {
          assert forall k :: 0 <= k < |tab| ==> |Above(tab[k], close)| <= 1;
        }
      }
    }
  }

  /** The last row raises exactly when the others did not and it has more than one close match. */
  lemma StatsOfFailsStep(tab: seq<seq<real>>, significant: real, close: real)
    requires tab != []
    ensures var init := StatsOf(tab[..|tab| - 1], significant, close);
            && (StatsOf(tab, significant, close).Err? <==> init.Err? || |Above(tab[|tab| - 1], close)| > 1)
            && (init.Err? ==> StatsOf(tab, significant, close) == init)
            && (init.Ok? && StatsOf(tab, significant, close).Err? ==> StatsOf(tab, significant, close).error == AttributeError)
  {
    var init := StatsOf(tab[..|tab| - 1], significant, close);
    if init.Ok? {
      TallyFails(init.value, tab[|tab| - 1], significant, close);
    }
  }

  /** One truth box raises exactly when it has more than one close match. */
  lemma TallyFails(r: Boxstats, oas: seq<real>, significant: real, close: real)
    ensures Tally(r, oas, significant, close).Err? <==> |Above(oas, close)| > 1
    ensures Tally(r, oas, significant, close).Err? ==> Tally(r, oas, significant, close).error == AttributeError
  {
  }

  /** The truth box at `k` has more than one close match. */
  predicate Ambiguous(truths: seq<Box>, actuals: seq<Box>, close: real, k: int)
    requires 0 <= k < |truths|
  {
    |Above(Ratios(truths[k], actuals), close)| > 1
  }

  /** `boxstats` raises exactly when some truth box has more than one close match. */
  lemma StatsFails(truths: seq<Box>, actuals: seq<Box>, significant: real, close: real)
    ensures Stats(truths, actuals, significant, close).Err? <==>
            exists k :: 0 <= k < |truths| && Ambiguous(truths, actuals, close, k)
    ensures Stats(truths, actuals, significant, close).Err? ==>
            Stats(truths, actuals, significant, close).error == AttributeError
  {
    var tab := Table(truths, actuals);
    StatsOfFails(tab, significant, close);
    if exists k :: 0 <= k < |tab| && |Above(tab[k], close)| > 1 {
      var k :| 0 <= k < |tab| && |Above(tab[k], close)| > 1;
      assert Ambiguous(truths, actuals, close, k);
    }
    if exists k :: 0 <= k < |truths| && Ambiguous(truths, actuals, close, k) {
      var k :| 0 <= k < |truths| && Ambiguous(truths, actuals, close, k);
      assert |Above(tab[k], close)| > 1;
    }
  }

  /** Rows that each hold exactly one ratio above both thresholds, and it is 1, score perfectly. */
  lemma {:induction false} StatsOfPerfect(tab: seq<seq<real>>, significant: real, close: real)
    requires forall k :: 0 <= k < |tab| ==> Above(tab[k], significant) == [1.0] && Above(tab[k], close) == [1.0]
    ensures StatsOf(tab, significant, close) == Ok(Boxstats(0, 0, 0.0, |tab|))
    decreases |tab|
  {
    if tab != [] {
      var init := tab[..|tab| - 1];
      assert forall k :: 0 <= k < |init| ==> init[k] == tab[k];
      StatsOfPerfect(init, significant, close);
    }
  }

  // ------------------------------------------------------ comparing a partition with itself

  lemma {:induction false} RatiosConcat(t: Box, xs: seq<Box>, ys: seq<Box>)
    ensures Ratios(t, xs + ys) == Ratios(t, xs) + Ratios(t, ys)
    decreases |xs|
  {
    if xs == [] {
      assert xs + ys == ys;
    } else {
      assert (xs + ys)[1..] == xs[1..] + ys;
      RatiosConcat(t, xs[1..], ys);
    }
  }

  lemma {:induction false} AboveConcat(xs: seq<real>, ys: seq<real>, threshold: real)
    ensures Above(xs + ys, threshold) == Above(xs, threshold) + Above(ys, threshold)
    decreases |xs|
  {
    if xs == [] {
      assert xs + ys == ys;
    } else {
      assert (xs + ys)[1..] == xs[1..] + ys;
      AboveConcat(xs[1..], ys, threshold);
    }
  }

  lemma AboveNoneStep(t: Box, xs: seq<Box>, threshold: real)
    requires xs != [] && Above(Ratios(t, xs[1..]), threshold) == []
    requires Overlaps(xs[0], t) ==> Ratio(t, xs[0]) <= threshold
    ensures Above(Ratios(t, xs), threshold) == []
  {
    RatiosCons(t, xs);
    if Overlaps(xs[0], t) {
      AboveConsLow(Ratio(t, xs[0]), Ratios(t, xs[1..]), threshold);
    }
  }

  /** The first box contributes its ratio when it overlaps `t`, and nothing otherwise. */
  lemma RatiosCons(t: Box, xs: seq<Box>)
    requires xs != []
    ensures Overlaps(xs[0], t) ==> Ratios(t, xs) == [Ratio(t, xs[0])] + Ratios(t, xs[1..])
    ensures !Overlaps(xs[0], t) ==> Ratios(t, xs) == Ratios(t, xs[1..])
  {
  }

  lemma AboveConsLow(o: real, rest: seq<real>, threshold: real)
    requires o <= threshold
    ensures Above([o] + rest, threshold) == Above(rest, threshold)
  {
    assert ([o] + rest)[1..] == rest;
  }

  /** Boxes whose overlap with `t` is at most the threshold contribute nothing above it. */
  lemma {:induction false} AboveNone(t: Box, xs: seq<Box>, threshold: real)
    requires forall m :: 0 <= m < |xs| && Overlaps(xs[m], t) ==> Ratio(t, xs[m]) <= threshold
    ensures Above(Ratios(t, xs), threshold) == []
    decreases |xs|
  {
    if xs != [] {
      AboveNone(t, xs[1..], threshold) by {
        forall m | 0 <= m < |xs[1..]| && Overlaps(xs[1..][m], t)
          ensures Ratio(t, xs[1..][m]) <= threshold
        {
          assert xs[1..][m] == xs[m + 1];
        }
      }
      AboveNoneStep(t, xs, threshold);
    }
  }

  /** A box of positive area compared with a list in which only it overlaps it by more than `threshold`. */
  lemma AboveSelf(boxes: seq<Box>, k: nat, threshold: real)
    requires k < |boxes| && Area(boxes[k]) > 0.0 && threshold < 1.0
    requires forall m :: 0 <= m < |boxes| && m != k && Overlaps(boxes[m], boxes[k]) ==>
               Ratio(boxes[k], boxes[m]) <= threshold
    ensures Above(Ratios(boxes[k], boxes), threshold) == [1.0]
  {
    var t := boxes[k];
    RatiosSplit(t, boxes, k);
    AboveNoneSlice(boxes, k, 0, k, threshold);
    AboveNoneSlice(boxes, k, k + 1, |boxes|, threshold);
    assert boxes[0..k] == boxes[..k] && boxes[k + 1..|boxes|] == boxes[k + 1..];
    RatiosSelf(t);
    AboveOnlyMiddle(Ratios(t, boxes[..k]), Ratios(t, [t]), Ratios(t, boxes[k + 1..]), threshold);
  }

  /** The ratios of a list are those before `k`, those of box `k`, and those after it. */
  lemma RatiosSplit(t: Box, boxes: seq<Box>, k: nat)
    requires k < |boxes|
    ensures Ratios(t, boxes) == Ratios(t, boxes[..k]) + Ratios(t, [boxes[k]]) + Ratios(t, boxes[k + 1..])
  {
    var before, after := boxes[..k], boxes[k + 1..];
    assert boxes == before + ([boxes[k]] + after);
    RatiosConcat(t, before, [boxes[k]] + after);
    RatiosConcat(t, [boxes[k]], after);
  }

  lemma AboveOnlyMiddle(xs: seq<real>, mid: seq<real>, ys: seq<real>, threshold: real)
    requires Above(xs, threshold) == [] && Above(ys, threshold) == []
    requires mid == [1.0] && threshold < 1.0
    ensures Above(xs + mid + ys, threshold) == [1.0]
  {
    AboveConcat(xs, mid + ys, threshold);
    AboveConcat(mid, ys, threshold);
    assert xs + mid + ys == xs + (mid + ys);
    assert Above(mid, threshold) == [1.0] by {
      assert mid[1..] == [];
    }
  }

  /** A box of positive area has the single ratio 1 against itself. */
  lemma RatiosSelf(t: Box)
    requires Area(t) > 0.0
    ensures Ratios(t, [t]) == [1.0]
  {
    RelativeOverlapSelf(t);
    assert Intersect(t, t) == t;
    assert Overlaps(t, t);
    RatiosCons(t, [t]);
    assert [t][1..] == [];
  }

  /** A slice of the list that leaves out box `k` contributes nothing above the threshold. */
  lemma AboveNoneSlice(boxes: seq<Box>, k: nat, lo: nat, hi: nat, threshold: real)
    requires k < |boxes| && lo <= hi <= |boxes| && (k < lo || hi <= k)
    requires forall m :: 0 <= m < |boxes| && m != k && Overlaps(boxes[m], boxes[k]) ==>
               Ratio(boxes[k], boxes[m]) <= threshold
    ensures Above(Ratios(boxes[k], boxes[lo..hi]), threshold) == []
  {
    var xs := boxes[lo..hi];
    forall m | 0 <= m < |xs| && Overlaps(xs[m], boxes[k])
      ensures Ratio(boxes[k], xs[m]) <= threshold
    {
      assert xs[m] == boxes[lo + m];
    }
    AboveNone(boxes[k], xs, threshold);
  }

  /** In a good partition every other box overlaps box `k` by at most `significant`. */
  lemma OthersWithin(boxes: seq<Box>, significant: real, k: nat)
    requires k < |boxes| && AllPairsWithin(boxes, significant)
    ensures forall m :: 0 <= m < |boxes| && m != k && Overlaps(boxes[m], boxes[k]) ==>
              Ratio(boxes[k], boxes[m]) <= significant
  {
    forall m | 0 <= m < |boxes| && m != k && Overlaps(boxes[m], boxes[k])
      ensures Ratio(boxes[k], boxes[m]) <= significant
    {
      if m < k {
        RelativeOverlapSymmetric(boxes[m], boxes[k]);
      }
    }
  }

  /** A good partition of boxes with positive area, compared with itself, scores `(0, 0, 0.0, n)`. */
  lemma StatsSelf(boxes: seq<Box>, significant: real, close: real)
    requires AllPairsWithin(boxes, significant)
    requires forall k :: 0 <= k < |boxes| ==> Area(boxes[k]) > 0.0
    requires significant <= close < 1.0
    ensures Stats(boxes, boxes, significant, close) == Ok(Boxstats(0, 0, 0.0, |boxes|))
  {
    var tab := Table(boxes, boxes);
    forall k | 0 <= k < |tab|
      ensures Above(tab[k], significant) == [1.0] && Above(tab[k], close) == [1.0]
    {
      OthersWithin(boxes, significant, k);
      AboveSelf(boxes, k, significant);
      AboveSelf(boxes, k, close);
    }
    StatsOfPerfect(tab, significant, close);
  }

  // ------------------------------------------------------------ partition check and pages

  /** `check_bad_partition`: true at the first pair above the threshold. */
  function BadPartition(boxes: seq<Box>, significant: real): Result<bool>
  {
    match PairScan(boxes, significant)
    case Err(e) => Err(e)
    case Ok(good) => Ok(!good)
  }

  /** A partition is good exactly when every pair is within the threshold. */
  lemma BadPartitionMeaning(boxes: seq<Box>, significant: real)
    ensures BadPartition(boxes, significant) == Ok(false) <==> AllPairsWithin(boxes, significant)
    ensures BadPartition(boxes, significant) == Ok(true) ==>
            exists i, j :: 0 <= i < j < |boxes| && RelativeOverlap(boxes[i], boxes[j]).Ok? &&
                           RelativeOverlap(boxes[i], boxes[j]).value > significant
  {
    MostlyNonOverlappingMeaning(boxes, significant);
  }

  /** `check_bad_partition`: the nested scan with an early return. */
  method CheckBadPartition(boxes: seq<Box>, significant: real) returns (r: Result<bool>)
    ensures r == BadPartition(boxes, significant)
  {
    ghost var m := OverlapTable(boxes);
    var i := 0;
    while i < |boxes|
      invariant 0 <= i <= |boxes|
      invariant Scan(m, significant, 0, 1) == Scan(m, significant, i, i + 1)
    {
      var j := i + 1;
      while j < |boxes|
        invariant i + 1 <= j <= |boxes|
        invariant Scan(m, significant, 0, 1) == Scan(m, significant, i, j)
      {
        var o := RelativeOverlap(boxes[i], boxes[j]);
        TableEntry(boxes, i, j);
        if o.Err? {
          return Err(o.error);
        }
        if o.value > significant {
          return Ok(true);
        }
        j := j + 1;
      }
      i := i + 1;
    }
    return Ok(false);
  }

  /** One page: both partitions are checked, the truth first, then both directions are scored. */
  function EvaluatePage(tboxes: seq<Box>, aboxes: seq<Box>, significant: real, close: real)
    : Result<(Boxstats, Boxstats)>
  {
    match BadPartition(tboxes, significant)
    case Err(e) => Err(e)
    case Ok(true) => Err(ValueError)
    case Ok(false) =>
      match BadPartition(aboxes, significant)
      case Err(e) => Err(e)
      case Ok(true) => Err(ValueError)
      case Ok(false) =>
        match Stats(tboxes, aboxes, significant, close)
        case Err(e) => Err(e)
        case Ok(s1) =>
          match Stats(aboxes, tboxes, significant, close)
          case Err(e) => Err(e)
          case Ok(s2) => Ok((s1, s2))
  }

  /** A bad truth partition is reported whatever the actual boxes are. */
  lemma BadTruthFirst(tboxes: seq<Box>, aboxes: seq<Box>, significant: real, close: real)
    requires !AllPairsWithin(tboxes, significant)
    ensures EvaluatePage(tboxes, aboxes, significant, close).Err?
    ensures PairScan(tboxes, significant).Ok? ==> EvaluatePage(tboxes, aboxes, significant, close) == Err(ValueError)
  {
    MostlyNonOverlappingMeaning(tboxes, significant);
  }

  /**
    A page compared with itself, when its boxes have positive area and form a good partition,
    gives `(0, 0, 0.0, n)` in both directions.
   */
  lemma EvaluatePageSelf(boxes: seq<Box>, significant: real, close: real)
    requires AllPairsWithin(boxes, significant)
    requires forall k :: 0 <= k < |boxes| ==> Area(boxes[k]) > 0.0
    requires significant <= close < 1.0
    ensures EvaluatePage(boxes, boxes, significant, close) == Ok((Boxstats(0, 0, 0.0, |boxes|), Boxstats(0, 0, 0.0, |boxes|)))
    ensures ToTuple(EvaluatePage(boxes, boxes, significant, close).value.0) == (0, 0, 0.0, |boxes|)
  {
    MostlyNonOverlappingMeaning(boxes, significant);
    StatsSelf(boxes, significant, close);
  }

  /** The body of the page loop of `evaluate_geometries`: both partition checks, then both scores. */
  method ComparePage(tboxes: seq<Box>, aboxes: seq<Box>, significant: real, close: real)
      returns (r: Result<(Boxstats, Boxstats)>)
    ensures r == EvaluatePage(tboxes, aboxes, significant, close)
  {
    var badTruth := CheckBadPartition(tboxes, significant);
    if badTruth.Err? {
      return Err(badTruth.error);
    }
    if badTruth.value {
      return Err(ValueError);
    }
    var badActual := CheckBadPartition(aboxes, significant);
    if badActual.Err? {
      return Err(badActual.error);
    }
    if badActual.value {
      return Err(ValueError);
    }
    var s1 := ComputeBoxstats(tboxes, aboxes, significant, close);
    if s1.Err? {
      return Err(s1.error);
    }
    var s2 := ComputeBoxstats(aboxes, tboxes, significant, close);
    if s2.Err? {
      return Err(s2.error);
    }
    return Ok((s1.value, s2.value));
  }

  /** The outcome of every page pair, in order. */
  function PageResults(truthPages: seq<seq<Box>>, actualPages: seq<seq<Box>>, significant: real, close: real)
    : (rs: seq<Result<(Boxstats, Boxstats)>>)
    requires |truthPages| == |actualPages|
    ensures |rs| == |truthPages|
  {
    seq(|truthPages|, i requires 0 <= i < |truthPages| =>
      EvaluatePage(truthPages[i], actualPages[i], significant, close))
  }

  /**
    The pages in order: what is yielded before the first error, and that error. Unequal page
    counts fail the assertion before anything is yielded.
   */
  function Geometries(truthPages: seq<seq<Box>>, actualPages: seq<seq<Box>>, significant: real, close: real)
    : (seq<(Boxstats, Boxstats)>, Option<Error>)
  {
    if |truthPages| != |actualPages| then ([], Some(AssertionError))
    else Collect(PageResults(truthPages, actualPages, significant, close), 0)
  }

  /** `evaluate_geometries`: yields one pair of statistics per page until a page fails. */
  method EvaluateGeometries(truthPages: seq<seq<Box>>, actualPages: seq<seq<Box>>, significant: real, close: real)
      returns (yielded: seq<(Boxstats, Boxstats)>, failure: Option<Error>)
    ensures (yielded, failure) == Geometries(truthPages, actualPages, significant, close)
  {
    if |truthPages| != |actualPages| {
      return [], Some(AssertionError);
    }
    ghost var rs := PageResults(truthPages, actualPages, significant, close);
    assert Geometries(truthPages, actualPages, significant, close) == Collect(rs, 0);
    yielded := [];
    var i := 0;
    assert yielded + Collect(rs, 0).0 == Collect(rs, 0).0;
    while i < |truthPages|
      invariant 0 <= i <= |truthPages|
      invariant Collect(rs, 0) == (yielded + Collect(rs, i).0, Collect(rs, i).1)
    {
      var page := ComparePage(truthPages[i], actualPages[i], significant, close);
      assert page == rs[i];
      CollectStep(rs, i, yielded);
      if page.Err? {
        return yielded, Some(page.error);
      }
      yielded := yielded + [page.value];
      i := i + 1;
    }
    CollectStep(rs, i, yielded);
    return yielded, None;
  }

  /** Every page pair is evaluated without an error. */
  predicate PagesSucceed(truthPages: seq<seq<Box>>, actualPages: seq<seq<Box>>, significant: real, close: real)
    requires |truthPages| == |actualPages|
  {
    forall k :: 0 <= k < |truthPages| ==> EvaluatePage(truthPages[k], actualPages[k], significant, close).Ok?
  }

  /**
    With equal page counts, one pair is yielded per page exactly when no page fails, and never
    more pairs than pages; unequal counts fail before anything is yielded.
   */
  lemma GeometriesCount(truthPages: seq<seq<Box>>, actualPages: seq<seq<Box>>, significant: real, close: real)
    ensures |Geometries(truthPages, actualPages, significant, close).0| <= |truthPages|
    ensures |truthPages| != |actualPages| ==> Geometries(truthPages, actualPages, significant, close) == ([], Some(AssertionError))
    ensures |truthPages| == |actualPages| ==>
              (Geometries(truthPages, actualPages, significant, close).1.None? <==>
               |Geometries(truthPages, actualPages, significant, close).0| == |truthPages|)
    ensures |truthPages| == |actualPages| ==>
              (Geometries(truthPages, actualPages, significant, close).1.None? <==>
               PagesSucceed(truthPages, actualPages, significant, close))
  {
    if |truthPages| == |actualPages| {
      var rs := PageResults(truthPages, actualPages, significant, close);
      CollectCount(rs, 0);
      assert Geometries(truthPages, actualPages, significant, close) == Collect(rs, 0);
      forall k | 0 <= k < |rs|
        ensures rs[k] == EvaluatePage(truthPages[k], actualPages[k], significant, close)
      {
      }
    }
  }
}
