/**
  Geometric evaluation of recognised lines against true lines: each true line is paired with
  the recognised line of largest intersection, the pair is checked for a tight overlap with
  eroded boxes, and the edit distance of the texts is counted as a segmentation or an OCR error.
 */
module Eval {
  import opened Wrappers
  import opened Rectangles
  import opened Text
  import opened EditDistance

  /** A line element: its bounding box and its text as `get_text` gives it. */
  datatype Line = Line(bbox: Box, text: string)

  /** `(area(intersect(get_bbox(line), bbox)), get_bbox(line), get_text(line))`. */
  datatype Candidate = Candidate(area: real, bbox: Box, text: string)

  /** `segmentation_errors`, `segmentation_ocr_errors` and `ocr_errors`. */
  datatype Counters = Counters(segmentation: int, segmentationOcr: int, ocr: int)

  /** Relative (percent) and absolute tolerances, horizontal and vertical. */
  const HTol: int := 90
  const VTol: int := 80
  const HPix: real := 5.0
  const VPix: real := 5.0

  /** The threshold `edit_distance` uses when it is given none. */
  const DefaultThreshold: int := 99999

  /** `min(HPIX, (100 - HTOL) * width(bbox) / 100)`. */
  function TolX(b: Box): (t: real)
    ensures 0.0 <= t <= 5.0 && t <= Width(b) / 10.0
    ensures t == 5.0 || t == Width(b) / 10.0
  {
    Min(HPix, (100 - HTol) as real * Width(b) / 100.0)
  }

  /** `min(VPIX, (100 - VTOL) * height(bbox) / 100)`. */
  function TolY(b: Box): (t: real)
    ensures 0.0 <= t <= 5.0 && t <= Height(b) / 5.0
    ensures t == 5.0 || t == Height(b) / 5.0
  {
    Min(VPix, (100 - VTol) as real * Height(b) / 100.0)
  }

  // -------------------------------------------------------------- the best candidate

  /** Python's `>` on strings: lexicographic by code point. */
  predicate StrGreater(a: string, b: string)
  {
    if b == [] then a != []
    else if a == [] then false
    else if a[0] != b[0] then a[0] > b[0]
    else StrGreater(a[1..], b[1..])
  }

  /** Python's `>` on two 4-tuples of numbers. */
  predicate RectGreater(r: Rect, s: Rect)
  {
    if r.x0 != s.x0 then r.x0 > s.x0
    else if r.y0 != s.y0 then r.y0 > s.y0
    else if r.x1 != s.x1 then r.x1 > s.x1
    else r.y1 > s.y1
  }

  /**
    Python's `>` on two candidate tuples: the first differing component decides; a tuple and
    `None` cannot be ordered.
   */
  function Greater(x: Candidate, m: Candidate): Result<bool>
  {
    if x.area != m.area then Ok(x.area > m.area)
    else if x.bbox != m.bbox then
      if x.bbox.None? || m.bbox.None? then Err(TypeError) else Ok(RectGreater(x.bbox.value, m.bbox.value))
    else Ok(StrGreater(x.text, m.text))
  }

  /** `max` from index `k` on, with `m` the maximum so far: replaced only by a greater item. */
  function BestFrom(cands: seq<Candidate>, k: nat, m: Candidate): Result<Candidate>
    requires k <= |cands|
    decreases |cands| - k
  {
    if k == |cands| then Ok(m)
    else match Greater(cands[k], m)
      case Err(e) => Err(e)
      case Ok(g) => BestFrom(cands, k + 1, if g then cands[k] else m)
  }

  /** `max(candidates)`. */
  function Best(cands: seq<Candidate>): Result<Candidate>
    requires cands != []
  {
    BestFrom(cands, 1, cands[0])
  }

  /** The candidate tuple of one recognised line against the true box `bbox`. */
  function CandidateOf(line: Line, bbox: Box): Candidate
  {
    Candidate(Area(Intersect(line.bbox, bbox)), line.bbox, line.text)
  }

  /** The candidate tuples of the recognised lines against the true box `bbox`, in order. */
  function Candidates(bbox: Box, actuals: seq<Line>): (r: seq<Candidate>)
    ensures |r| == |actuals|
    ensures forall k :: 0 <= k < |actuals| ==> r[k] == CandidateOf(actuals[k], bbox)
  {
    seq(|actuals|, k requires 0 <= k < |actuals| => CandidateOf(actuals[k], bbox))
  }

  /**
    The tight-overlap test: the eroded recognised box lies in the true box by area, and the
    eroded true box lies in the recognised box by area.
   */
  predicate Tight(actual: Box, truth: Box, tx: real, ty: real)
  {
    && Area(Intersect(Erode(actual, tx, ty), truth)) == Area(Erode(actual, tx, ty))
    && Area(Intersect(actual, Erode(truth, tx, ty))) == Area(Erode(truth, tx, ty))
  }

  // ------------------------------------------------------------------- the counters

  /** The edit distance `evaluate` charges for a true line and a recognised text. */
  function TextError(truth: Line, text: string): int
  {
    Bounded(Normalize(RemoveTex(truth.text)), Normalize(text), DefaultThreshold)
  }

  /**
    The counters after one true line that has a best candidate at edit distance `d`, given
    whether the pair overlaps tightly: `d` is a segmentation OCR error with a segmentation
    error, or else an OCR error.
   */
  function Judge(c: Counters, tight: bool, d: int): Counters
  {
    if !tight then Counters(c.segmentation + 1, c.segmentationOcr + d, c.ocr)
    else Counters(c.segmentation, c.segmentationOcr, c.ocr + d)
  }

  /**
    The warning `verbose` logs for a segmentation error computes `q * 1.0 / area(bbox)`, which
    raises `ZeroDivisionError` for a true box without area.
   */
  predicate WarningFails(verbose: bool, truth: Line)
  {
    verbose && Area(truth.bbox) == 0.0
  }

  /**
    The counters after one true line with tolerances `(tx, ty)`, or the error it raises. A line
    with no candidate, or whose best candidate does not overlap tightly, is a segmentation
    error, and only there is the warning of `verbose` logged.
   */
  function LineStep(verbose: bool, c: Counters, truth: Line, tx: real, ty: real, actuals: seq<Line>): Result<Counters>
  {
    var cands := Candidates(truth.bbox, actuals);
    if cands == [] then
      if WarningFails(verbose, truth) then Err(ZeroDivisionError)
      else Ok(c.(segmentation := c.segmentation + 1, segmentationOcr := c.segmentationOcr + |truth.text|))
    else
      match Best(cands)
      case Err(e) => Err(e)
      case Ok(b) =>
        var tight := Tight(b.bbox, truth.bbox, tx, ty);
        if !tight && WarningFails(verbose, truth) then Err(ZeroDivisionError)
        else Ok(Judge(c, tight, TextError(truth, b.text)))
  }

  /** The counters after the true lines of a page, in order, starting from `c`. */
  function PageScore(verbose: bool, c: Counters, truths: seq<Line>, actuals: seq<Line>): Result<Counters>
    decreases |truths|
  {
    if truths == [] then Ok(c)
    else match LineStep(verbose, c, truths[0], TolX(truths[0].bbox), TolY(truths[0].bbox), actuals)
      case Err(e) => Err(e)
      case Ok(c') => PageScore(verbose, c', truths[1..], actuals)
  }

  /** The counters after the pages, in order, starting from `c`. */
  function PagesScore(verbose: bool, c: Counters, truthPages: seq<seq<Line>>, actualPages: seq<seq<Line>>): Result<Counters>
    requires |truthPages| == |actualPages|
    decreases |truthPages|
  {
    if truthPages == [] then Ok(c)
    else match PageScore(verbose, c, truthPages[0], actualPages[0])
      case Err(e) => Err(e)
      case Ok(c') => PagesScore(verbose, c', truthPages[1..], actualPages[1..])
  }

  /** The three counters `evaluate` returns, or the error it raises. */
  function Score(verbose: bool, truthPages: seq<seq<Line>>, actualPages: seq<seq<Line>>): Result<Counters>
  {
    if |truthPages| != |actualPages| then Err(AssertionError)
    else PagesScore(verbose, Counters(0, 0, 0), truthPages, actualPages)
  }

  // ---------------------------------------------------------------------- the loops

  /** The body of the true-line loop of `evaluate`. */
  method ScoreLine(verbose: bool, c: Counters, truth: Line, tx: real, ty: real, actuals: seq<Line>) returns (r: Result<Counters>)
    ensures r == LineStep(verbose, c, truth, tx, ty, actuals)
  {
    var bbox := truth.bbox;
    var candidates := Candidates(bbox, actuals);
    if candidates == [] {
      if verbose && Area(bbox) == 0.0 {
        return Err(ZeroDivisionError);
      }
      assert LineStep(verbose, c, truth, tx, ty, actuals) == Ok(c.(segmentation := c.segmentation + 1, segmentationOcr := c.segmentationOcr + |truth.text|));
      return Ok(c.(segmentation := c.segmentation + 1, segmentationOcr := c.segmentationOcr + |truth.text|));
    }
    var best := Best(candidates);
    if best.Err? {
      assert LineStep(verbose, c, truth, tx, ty, actuals) == Err(best.error);
      return Err(best.error);
    }
    var actualBbox, actualLine := best.value.bbox, best.value.text;
    var tightOverlap := Tight(actualBbox, bbox, tx, ty);
    if !tightOverlap && verbose && Area(bbox) == 0.0 {
      return Err(ZeroDivisionError);
    }
    var error := LineError(truth, actualLine);
    var counters := Charge(c, tightOverlap, error);
    r := Ok(counters);
  }

  /** The rest of the loop body once a best candidate is found and its edit distance is known. */
  method Charge(c: Counters, tightOverlap: bool, error: int) returns (r: Counters)
    ensures r == Judge(c, tightOverlap, error)
  {
    r := c;
    if !tightOverlap {
      r := r.(segmentation := r.segmentation + 1);
      r := r.(segmentationOcr := r.segmentationOcr + error);
    } else {
      r := r.(ocr := r.ocr + error);
    }
  }

  /** `edit_distance(normalize(remove_tex(get_text(true_line))), normalize(actual_line))`. */
  method LineError(truth: Line, actualLine: string) returns (error: int)
    ensures error == TextError(truth, actualLine)
  {
    var trueText := RemoveTex(truth.text);
    error := EditDistance.EditDistance(Normalize(trueText), Normalize(actualLine), DefaultThreshold);
  }

  /** One page of `evaluate`: the tolerances of all true lines first, then the lines in order. */
  method ScorePage(verbose: bool, c: Counters, truths: seq<Line>, actuals: seq<Line>) returns (r: Result<Counters>)
    ensures r == PageScore(verbose, c, truths, actuals)
  {
    var tx := seq(|truths|, k requires 0 <= k < |truths| => TolX(truths[k].bbox));
    var ty := seq(|truths|, k requires 0 <= k < |truths| => TolY(truths[k].bbox));
    var counters := c;
    for index := 0 to |truths|
      invariant PageScore(verbose, c, truths, actuals) == PageScore(verbose, counters, truths[index..], actuals)
    {
      assert truths[index..][1..] == truths[index + 1..];
      var next := ScoreLine(verbose, counters, truths[index], tx[index], ty[index], actuals);
      if next.Err? {
        return next;
      }
      counters := next.value;
    }
    return Ok(counters);
  }

  /** `evaluate` on the line elements of the pages of the two documents. */
  method Evaluate(verbose: bool, truthPages: seq<seq<Line>>, actualPages: seq<seq<Line>>) returns (r: Result<Counters>)
    ensures r == Score(verbose, truthPages, actualPages)
  {
    if |truthPages| != |actualPages| {
      return Err(AssertionError);
    }
    var counters := Counters(0, 0, 0);
    for p := 0 to |truthPages|
      invariant Score(verbose, truthPages, actualPages) == PagesScore(verbose, counters, truthPages[p..], actualPages[p..])
    {
      assert truthPages[p..][1..] == truthPages[p + 1..];
      assert actualPages[p..][1..] == actualPages[p + 1..];
      var next := ScorePage(verbose, counters, truthPages[p], actualPages[p]);
      if next.Err? {
        return next;
      }
      counters := next.value;
    }
    return Ok(counters);
  }

  // -------------------------------------------------------------------- properties

  lemma {:induction false} StrGreaterTrans(a: string, b: string, c: string)
    requires StrGreater(a, b) && StrGreater(b, c)
    ensures StrGreater(a, c)
    decreases |a|
  {
    if c != [] && a[0] == b[0] && b[0] == c[0] {
      StrGreaterTrans(a[1..], b[1..], c[1..]);
    }
  }

  lemma {:induction false} StrGreaterIrreflexive(a: string)
    ensures !StrGreater(a, a)
    decreases |a|
  {
    if a != [] {
      StrGreaterIrreflexive(a[1..]);
    }
  }

  /** The tuple order is a strict order wherever it is defined. */
  lemma GreaterStrict(x: Candidate, y: Candidate, z: Candidate)
    ensures Greater(x, x) == Ok(false)
    ensures Greater(x, y) == Ok(true) && Greater(y, z) == Ok(true) ==> Greater(x, z) == Ok(true)
  {
    StrGreaterIrreflexive(x.text);
    if Greater(x, y) == Ok(true) && Greater(y, z) == Ok(true) && x.area == y.area == z.area
       && x.bbox == y.bbox == z.bbox {
      StrGreaterTrans(x.text, y.text, z.text);
    }
  }

  lemma {:induction false} BestFromMeaning(cands: seq<Candidate>, k: nat, m: Candidate)
    requires 1 <= k <= |cands| && m in cands
    requires forall j :: 0 <= j < k ==> Greater(cands[j], m) != Ok(true)
    ensures BestFrom(cands, k, m).Ok? ==>
              && BestFrom(cands, k, m).value in cands
              && forall j :: 0 <= j < |cands| ==> Greater(cands[j], BestFrom(cands, k, m).value) != Ok(true)
    ensures BestFrom(cands, k, m).Err? ==> BestFrom(cands, k, m).error == TypeError
    decreases |cands| - k
  {
    if k < |cands| {
      var x := cands[k];
      match Greater(x, m)
      case Err(_) =>
      case Ok(g) =>
        if g {
          forall j | 0 <= j < k + 1
            ensures Greater(cands[j], x) != Ok(true)
          {
            GreaterStrict(cands[j], x, m);
          }
          BestFromMeaning(cands, k + 1, x);
        } else {
          BestFromMeaning(cands, k + 1, m);
        }
    }
  }

  /**
    `max(candidates)`, when it does not raise, is a candidate that no candidate is greater than;
    in particular its intersection area is the largest. It raises only a `TypeError`.
   */
  lemma BestMeaning(cands: seq<Candidate>)
    requires cands != []
    ensures Best(cands).Ok? ==>
              && Best(cands).value in cands
              && (forall j :: 0 <= j < |cands| ==> Greater(cands[j], Best(cands).value) != Ok(true))
              && (forall j :: 0 <= j < |cands| ==> cands[j].area <= Best(cands).value.area)
    ensures Best(cands).Err? ==> Best(cands).error == TypeError
  {
    GreaterStrict(cands[0], cands[0], cands[0]);
    BestFromMeaning(cands, 1, cands[0]);
  }

  /** Boxes that are all present, or all absent, can always be ordered, so `max` does not raise. */
  lemma {:induction false} BestFromDefined(cands: seq<Candidate>, k: nat, m: Candidate)
    requires k <= |cands|
    requires forall j :: 0 <= j < |cands| ==> cands[j].bbox.Some? == m.bbox.Some?
    ensures BestFrom(cands, k, m).Ok?
    decreases |cands| - k
  {
    if k < |cands| {
      var g := Greater(cands[k], m);
      BestFromDefined(cands, k + 1, if g.value then cands[k] else m);
    }
  }

  lemma BestDefined(cands: seq<Candidate>)
    requires cands != []
    requires forall j :: 0 <= j < |cands| ==> cands[j].bbox.Some? == cands[0].bbox.Some?
    ensures Best(cands).Ok?
  {
    BestFromDefined(cands, 1, cands[0]);
  }

  /**
    For halves whose eroded boxes keep a positive area, the tight-overlap test is containment
    of each eroded box in the other box.
   */
  lemma TightMeaning(actual: Rect, truth: Rect, tx: real, ty: real)
    requires Area(Erode(Some(actual), tx, ty)) > 0.0 && Area(Erode(Some(truth), tx, ty)) > 0.0
    ensures Tight(Some(actual), Some(truth), tx, ty) <==>
              Inside(Erode(Some(actual), tx, ty).value, truth) && Inside(Erode(Some(truth), tx, ty).value, actual)
  {
    ContainedByArea(Erode(Some(actual), tx, ty).value, truth);
    ContainedByArea(Erode(Some(truth), tx, ty).value, actual);
    IntersectSymmetric(Some(actual), Erode(Some(truth), tx, ty));
  }

  /** A half whose eroded box collapses to area zero passes its half of the test whatever it is compared with. */
  lemma CollapsedHalfPasses(actual: Box, truth: Box, tx: real, ty: real)
    requires Area(Erode(actual, tx, ty)) == 0.0
    ensures Area(Intersect(Erode(actual, tx, ty), truth)) == Area(Erode(actual, tx, ty))
  {
    IntersectAreaBounded(Erode(actual, tx, ty), truth);
  }

  /**
    One true line adds 1 to the segmentation errors and something non-negative to their OCR
    errors, or adds something non-negative to the OCR errors alone; with no recognised line it
    adds the raw length of its text.
   */
  lemma LineStepMeaning(verbose: bool, c: Counters, truth: Line, tx: real, ty: real, actuals: seq<Line>)
    requires LineStep(verbose, c, truth, tx, ty, actuals).Ok?
    ensures var c' := LineStep(verbose, c, truth, tx, ty, actuals).value;
            || (c'.segmentation == c.segmentation + 1 && c'.segmentationOcr >= c.segmentationOcr && c'.ocr == c.ocr)
            || (c'.segmentation == c.segmentation && c'.segmentationOcr == c.segmentationOcr && c'.ocr >= c.ocr)
    ensures actuals == [] ==>
              LineStep(verbose, c, truth, tx, ty, actuals) ==
              Ok(Counters(c.segmentation + 1, c.segmentationOcr + |truth.text|, c.ocr))
  {
    var cands := Candidates(truth.bbox, actuals);
    if cands != [] {
      var b := Best(cands).value;
      LineStepJudged(verbose, c, truth, tx, ty, actuals, b);
      BoundedContract(Normalize(RemoveTex(truth.text)), Normalize(b.text), DefaultThreshold);
    } else {
      LineStepNoActuals(verbose, c, truth, tx, ty);
    }
  }

  /**
    With no recognised line, a true line is a segmentation error costing the raw length of its
    text, or with `verbose` and a box without area the warning's division raises.
   */
  lemma LineStepNoActuals(verbose: bool, c: Counters, truth: Line, tx: real, ty: real)
    ensures LineStep(verbose, c, truth, tx, ty, []) ==
            if WarningFails(verbose, truth) then Err(ZeroDivisionError)
            else Ok(Counters(c.segmentation + 1, c.segmentationOcr + |truth.text|, c.ocr))
  {
    assert Candidates(truth.bbox, []) == [];
  }


  /**
    With a best candidate, one true line is judged on that candidate's box and text, unless the
    warning of a segmentation error divides by zero.
   */
  lemma LineStepJudged(verbose: bool, c: Counters, truth: Line, tx: real, ty: real, actuals: seq<Line>, b: Candidate)
    requires actuals != [] && Best(Candidates(truth.bbox, actuals)) == Ok(b)
    ensures LineStep(verbose, c, truth, tx, ty, actuals) ==
            if !Tight(b.bbox, truth.bbox, tx, ty) && WarningFails(verbose, truth) then Err(ZeroDivisionError)
            else Ok(Judge(c, Tight(b.bbox, truth.bbox, tx, ty), TextError(truth, b.text)))
  {
  }

  /**
    A recognised line that is the best candidate and overlaps tightly adds the edit distance of
    the normalised texts to the OCR errors alone (exactly, below the default threshold).
   */
  lemma TightAddsOcr(verbose: bool, c: Counters, truth: Line, tx: real, ty: real, actuals: seq<Line>)
    requires actuals != []
    requires Best(Candidates(truth.bbox, actuals)).Ok?
    requires Tight(Best(Candidates(truth.bbox, actuals)).value.bbox, truth.bbox, tx, ty)
    ensures var b := Best(Candidates(truth.bbox, actuals)).value;
            var d := Bounded(Normalize(RemoveTex(truth.text)), Normalize(b.text), DefaultThreshold);
            && LineStep(verbose, c, truth, tx, ty, actuals) == Ok(c.(ocr := c.ocr + d))
            && (d < DefaultThreshold ==> d == Distance(Normalize(RemoveTex(truth.text)), Normalize(b.text)))
  {
    var b := Best(Candidates(truth.bbox, actuals)).value;
    LineStepJudged(verbose, c, truth, tx, ty, actuals, b);
    BoundedContract(Normalize(RemoveTex(truth.text)), Normalize(b.text), DefaultThreshold);
  }

  /**
    A best candidate that does not overlap tightly makes the true line a segmentation error and
    adds the edit distance of the normalised texts to the segmentation OCR errors; with
    `verbose` a true box without area raises in the warning instead.
   */
  lemma LooseAddsSegmentation(verbose: bool, c: Counters, truth: Line, tx: real, ty: real, actuals: seq<Line>)
    requires actuals != []
    requires Best(Candidates(truth.bbox, actuals)).Ok?
    requires !Tight(Best(Candidates(truth.bbox, actuals)).value.bbox, truth.bbox, tx, ty)
    ensures var b := Best(Candidates(truth.bbox, actuals)).value;
            var d := Bounded(Normalize(RemoveTex(truth.text)), Normalize(b.text), DefaultThreshold);
            && LineStep(verbose, c, truth, tx, ty, actuals) ==
               (if WarningFails(verbose, truth) then Err(ZeroDivisionError)
                else Ok(Counters(c.segmentation + 1, c.segmentationOcr + d, c.ocr)))
            && (d < DefaultThreshold ==> d == Distance(Normalize(RemoveTex(truth.text)), Normalize(b.text)))
  {
    var b := Best(Candidates(truth.bbox, actuals)).value;
    LineStepJudged(verbose, c, truth, tx, ty, actuals, b);
    BoundedContract(Normalize(RemoveTex(truth.text)), Normalize(b.text), DefaultThreshold);
  }

  /**
    The counters never decrease along a page, and the segmentation errors grow by at most the
    number of true lines.
   */
  lemma {:induction false} PageScoreMonotone(verbose: bool, c: Counters, truths: seq<Line>, actuals: seq<Line>)
    requires PageScore(verbose, c, truths, actuals).Ok?
    ensures var c' := PageScore(verbose, c, truths, actuals).value;
            && c.segmentation <= c'.segmentation <= c.segmentation + |truths|
            && c.segmentationOcr <= c'.segmentationOcr
            && c.ocr <= c'.ocr
    decreases |truths|
  {
    if truths != [] {
      var t := truths[0];
      LineStepMeaning(verbose, c, t, TolX(t.bbox), TolY(t.bbox), actuals);
      var c1 := LineStep(verbose, c, t, TolX(t.bbox), TolY(t.bbox), actuals).value;
      PageScoreMonotone(verbose, c1, truths[1..], actuals);
    }
  }

  /**
    A page with no recognised lines: every true line is a segmentation error costing its length;
    with `verbose` a true box without area raises in its warning.
   */
  lemma {:induction false} PageScoreNoActuals(verbose: bool, c: Counters, truths: seq<Line>)
    ensures PageScore(verbose, c, truths, []) ==
            if verbose && SomeWithoutArea(truths) then Err(ZeroDivisionError)
            else Ok(Counters(c.segmentation + |truths|, c.segmentationOcr + TextLength(truths), c.ocr))
    decreases |truths|
  {
    if truths != [] {
      var t := truths[0];
      LineStepNoActuals(verbose, c, t, TolX(t.bbox), TolY(t.bbox));
      PageScoreNoActuals(verbose, Counters(c.segmentation + 1, c.segmentationOcr + |t.text|, c.ocr), truths[1..]);
    }
  }

  /** Some true line has a box without area. */
  predicate SomeWithoutArea(lines: seq<Line>)
  {
    lines != [] && (Area(lines[0].bbox) == 0.0 || SomeWithoutArea(lines[1..]))
  }

  /**
    `verbose` changes one true line only by the warning's division: the quiet step, where it is
    a segmentation error of a box without area, raises instead.
   */
  lemma LineStepVerbose(c: Counters, truth: Line, tx: real, ty: real, actuals: seq<Line>)
    ensures var quiet := LineStep(false, c, truth, tx, ty, actuals);
            LineStep(true, c, truth, tx, ty, actuals) ==
            if Area(truth.bbox) == 0.0 && quiet.Ok? && quiet.value.segmentation == c.segmentation + 1
            then Err(ZeroDivisionError) else quiet
  {
  }

  /** A page that scores with `verbose` scores the same without it. */
  lemma {:induction false} PageScoreVerbose(c: Counters, truths: seq<Line>, actuals: seq<Line>)
    requires PageScore(true, c, truths, actuals).Ok?
    ensures PageScore(true, c, truths, actuals) == PageScore(false, c, truths, actuals)
    decreases |truths|
  {
    if truths != [] {
      var t := truths[0];
      LineStepVerbose(c, t, TolX(t.bbox), TolY(t.bbox), actuals);
      var c1 := LineStep(true, c, t, TolX(t.bbox), TolY(t.bbox), actuals).value;
      PageScoreVerbose(c1, truths[1..], actuals);
    }
  }

  /** All pages scored with `verbose` give the counters they give without it. */
  lemma {:induction false} PagesScoreVerbose(c: Counters, truthPages: seq<seq<Line>>, actualPages: seq<seq<Line>>)
    requires |truthPages| == |actualPages|
    requires PagesScore(true, c, truthPages, actualPages).Ok?
    ensures PagesScore(true, c, truthPages, actualPages) == PagesScore(false, c, truthPages, actualPages)
    decreases |truthPages|
  {
    if truthPages != [] {
      PageScoreVerbose(c, truthPages[0], actualPages[0]);
      var c1 := PageScore(true, c, truthPages[0], actualPages[0]).value;
      PagesScoreVerbose(c1, truthPages[1..], actualPages[1..]);
    }
  }

  /** `evaluate` with `verbose`, when it returns, returns what it returns without. */
  lemma ScoreVerbose(truthPages: seq<seq<Line>>, actualPages: seq<seq<Line>>)
    requires Score(true, truthPages, actualPages).Ok?
    ensures Score(true, truthPages, actualPages) == Score(false, truthPages, actualPages)
  {
    PagesScoreVerbose(Counters(0, 0, 0), truthPages, actualPages);
  }

  /** The total length of the texts of the lines. */
  function TextLength(lines: seq<Line>): nat
  {
    if lines == [] then 0 else |lines[0].text| + TextLength(lines[1..])
  }

  /** Over all pages: counters start at zero and never decrease; segmentation errors are at most the true lines. */
  lemma {:induction false} PagesScoreMonotone(verbose: bool, c: Counters, truthPages: seq<seq<Line>>, actualPages: seq<seq<Line>>)
    requires |truthPages| == |actualPages|
    requires PagesScore(verbose, c, truthPages, actualPages).Ok?
    ensures var c' := PagesScore(verbose, c, truthPages, actualPages).value;
            && c.segmentation <= c'.segmentation <= c.segmentation + LineCount(truthPages)
            && c.segmentationOcr <= c'.segmentationOcr
            && c.ocr <= c'.ocr
    decreases |truthPages|
  {
    if truthPages != [] {
      PageScoreMonotone(verbose, c, truthPages[0], actualPages[0]);
      var c1 := PageScore(verbose, c, truthPages[0], actualPages[0]).value;
      PagesScoreMonotone(verbose, c1, truthPages[1..], actualPages[1..]);
    }
  }

  /** The number of true lines over all pages. */
  function LineCount(pages: seq<seq<Line>>): nat
  {
    if pages == [] then 0 else |pages[0]| + LineCount(pages[1..])
  }

  /** `evaluate`: unequal page counts fail the assertion; otherwise the counters are bounded as above. */
  lemma ScoreMeaning(verbose: bool, truthPages: seq<seq<Line>>, actualPages: seq<seq<Line>>)
    ensures |truthPages| != |actualPages| ==> Score(verbose, truthPages, actualPages) == Err(AssertionError)
    ensures Score(verbose, truthPages, actualPages).Ok? ==>
              var c := Score(verbose, truthPages, actualPages).value;
              && 0 <= c.segmentation <= LineCount(truthPages)
              && 0 <= c.segmentationOcr
              && 0 <= c.ocr
  {
    if |truthPages| == |actualPages| && Score(verbose, truthPages, actualPages).Ok? {
      PagesScoreMonotone(verbose, Counters(0, 0, 0), truthPages, actualPages);
    }
  }
}
