/**
  Evaluation of recognised lines against the true lines of a page: each recognised line is
  matched greedily with the nearest remaining true line by edit distance; the distances add up
  to the OCR errors and the characters of the true lines left over are segmentation errors.
 */
module EvalLines {
  import opened Wrappers
  import opened PyStr
  import opened Text
  import opened NodeUtils
  import opened EditDistance

  /** The distance `min_d` starts at before any true line is compared. */
  const Unmatched: int := 999999

  /** The normalised lines, with those that normalise to the empty string dropped. */
  function Prepare(lines: seq<string>): (r: seq<string>)
    ensures |r| <= |lines|
    ensures forall k :: 0 <= k < |r| ==> r[k] != ""
  {
    if lines == [] then []
    else
      var t := Normalize(lines[0]);
      if t == "" then Prepare(lines[1..]) else [t] + Prepare(lines[1..])
  }

  /** The images under `f` of the lines, those that are empty dropped. */
  function NonEmptyImages(f: string -> string, lines: seq<string>): seq<string>
  {
    if lines == [] then []
    else if f(lines[0]) == "" then NonEmptyImages(f, lines[1..])
    else [f(lines[0])] + NonEmptyImages(f, lines[1..])
  }

  lemma {:induction false} PrepareIsImages(lines: seq<string>)
    ensures Prepare(lines) == NonEmptyImages(Normalize, lines)
    decreases |lines|
  {
    if lines != [] {
      PrepareIsImages(lines[1..]);
    }
  }

  lemma {:induction false} ImagesFrom(f: string -> string, lines: seq<string>)
    ensures forall k :: 0 <= k < |NonEmptyImages(f, lines)| ==>
              exists j :: 0 <= j < |lines| && NonEmptyImages(f, lines)[k] == f(lines[j])
    decreases |lines|
  {
    if lines != [] {
      var rest := NonEmptyImages(f, lines[1..]);
      var r := NonEmptyImages(f, lines);
      var skip := if f(lines[0]) == "" then 0 else 1;
      ImagesFrom(f, lines[1..]);
      forall k | 0 <= k < |r|
        ensures exists j :: 0 <= j < |lines| && r[k] == f(lines[j])
      {
        if k < skip {
          assert r[k] == f(lines[0]);
        } else {
          assert r[k] == rest[k - skip];
          var j :| 0 <= j < |lines[1..]| && rest[k - skip] == f(lines[1..][j]);
          assert lines[1..][j] == lines[j + 1];
        }
      }
    } else {
      assert NonEmptyImages(f, lines) == [];
    }
  }

  lemma {:induction false} ImagesKeep(f: string -> string, lines: seq<string>)
    ensures forall j :: 0 <= j < |lines| && f(lines[j]) != "" ==> f(lines[j]) in NonEmptyImages(f, lines)
    decreases |lines|
  {
    if lines != [] {
      ImagesKeep(f, lines[1..]);
      forall j | 1 <= j < |lines| && f(lines[j]) != ""
        ensures f(lines[j]) in NonEmptyImages(f, lines[1..])
      {
        assert lines[1..][j - 1] == lines[j];
      }
    }
  }

  /** Every prepared line is the normalised form of an input line. */
  lemma PrepareFrom(lines: seq<string>)
    ensures forall k :: 0 <= k < |Prepare(lines)| ==> exists j :: 0 <= j < |lines| && Prepare(lines)[k] == Normalize(lines[j])
  {
    PrepareIsImages(lines);
    ImagesFrom(Normalize, lines);
  }

  /** Every input line that does not normalise to the empty string is kept, normalised. */
  lemma PrepareKeeps(lines: seq<string>)
    ensures forall j :: 0 <= j < |lines| && Normalize(lines[j]) != "" ==> Normalize(lines[j]) in Prepare(lines)
  {
    PrepareIsImages(lines);
    ImagesKeep(Normalize, lines);
  }

  /** The prepared lines are in the canonical form the normaliser produces. */
  lemma PrepareCanonical(lines: seq<string>)
    ensures forall k :: 0 <= k < |Prepare(lines)| ==> Canonical(Prepare(lines)[k])
  {
    PrepareFrom(lines);
    forall k | 0 <= k < |Prepare(lines)|
      ensures Canonical(Prepare(lines)[k])
    {
      var j :| 0 <= j < |lines| && Prepare(lines)[k] == Normalize(lines[j]);
      NormalizeCanonical(lines[j]);
    }
  }

  /** The text of each `ocr_line` element, given as its text nodes. */
  function LineTexts(nodes: seq<seq<string>>): (r: seq<string>)
    ensures |r| == |nodes|
    ensures forall k :: 0 <= k < |nodes| ==> r[k] == GetText(nodes[k])
  {
    seq(|nodes|, k requires 0 <= k < |nodes| => GetText(nodes[k]))
  }

  /**
    The scan of the pool for `line` from index `k` on, with the best distance `minD` and its
    index `minI` so far: an entry replaces the best only when its distance, bounded by `minD`,
    is strictly smaller.
   */
  function NearestFrom(pool: seq<string>, line: string, k: nat, minD: int, minI: int): (r: (int, int))
    requires k <= |pool|
    ensures r.1 == minI || k <= r.1 < |pool|
    decreases |pool| - k
  {
    if k == |pool| then (minD, minI)
    else
      var d := Bounded(pool[k], line, minD);
      if d < minD then NearestFrom(pool, line, k + 1, d, k)
      else NearestFrom(pool, line, k + 1, minD, minI)
  }

  /** The `(min_d, min_i)` the inner loop ends with. */
  function Nearest(pool: seq<string>, line: string): (r: (int, int))
    ensures r.1 == -1 || 0 <= r.1 < |pool|
  {
    NearestFrom(pool, line, 0, Unmatched, -1)
  }

  /** `remaining` after `del remaining[i]`. */
  function Remove(s: seq<string>, i: nat): (r: seq<string>)
    requires i < |s|
    ensures |r| == |s| - 1
    ensures forall k :: 0 <= k < |r| ==> r[k] == if k < i then s[k] else s[k + 1]
  {
    s[..i] + s[i + 1..]
  }

  /** Python's `s[i]` is defined for `-|s| <= i < |s|`; a negative index counts from the end. */
  predicate PyIndexable(s: seq<string>, i: int)
  {
    -|s| <= i < |s|
  }

  /**
    The greedy matching of the lines of `actual`, in order, against the pool of true lines: the
    true lines left over and the sum of the distances, or the failed assertion of an empty
    match. With `verbose` a line that is not matched exactly is logged with `remaining[min_i]`
    before the assertion, which raises `IndexError` when that index does not exist.
   */
  function Match(verbose: bool, pool: seq<string>, actual: seq<string>): Result<(seq<string>, int)>
    decreases |actual|
  {
    if actual == [] then Ok((pool, 0))
    else match Turn(verbose, pool, actual[0])
      case Err(e) => Err(e)
      case Ok(t) => Shift(Match(verbose, t.0, actual[1..]), t.1)
  }

  /**
    One recognised line against the pool: the pool without its nearest true line and that
    line's distance, or the index error of the `verbose` log call, or the failed assertion.
   */
  function Turn(verbose: bool, pool: seq<string>, line: string): Result<(seq<string>, int)>
  {
    var n := Nearest(pool, line);
    if verbose && n.0 > 0 && !PyIndexable(pool, n.1) then Err(IndexError)
    else if n.1 < 0 then Err(AssertionError)
    else Ok((Remove(pool, n.1), n.0))
  }

  /** The total length of the lines. */
  function SumLengths(lines: seq<string>): nat
  {
    if lines == [] then 0 else |lines[0]| + SumLengths(lines[1..])
  }

  /** What `evaluate_lines` returns: `(segmentation_errors, ocr_errors)`, or its failed assertion. */
  function Evaluate(verbose: bool, truthText: string, actualNodes: seq<seq<string>>): Result<(int, int)>
  {
    var truth := Prepare(Split(truthText, '\n'));
    var actual := Prepare(LineTexts(actualNodes));
    match Match(verbose, truth, actual)
    case Err(e) => Err(e)
    case Ok(m) => Ok((SumLengths(m.0), m.1))
  }

  // ---------------------------------------------------------------- the loops

  /** The inner loop of `evaluate_lines`: the nearest remaining true line of `line`. */
  method FindNearest(pool: seq<string>, line: string) returns (minD: int, minI: int)
    ensures (minD, minI) == Nearest(pool, line)
  {
    minD, minI := Unmatched, -1;
    for index := 0 to |pool|
      invariant Nearest(pool, line) == NearestFrom(pool, line, index, minD, minI)
    {
      var d := EditDistance.EditDistance(pool[index], line, minD);
      if d < minD {
        minD, minI := d, index;
      }
    }
  }

  /** `evaluate_lines` on the file text and the text nodes of the `ocr_line` elements. */
  method EvaluateLines(verbose: bool, truthText: string, actualNodes: seq<seq<string>>) returns (r: Result<(int, int)>)
    ensures r == Evaluate(verbose, truthText, actualNodes)
  {
    var truthLines := Prepare(Split(truthText, '\n'));
    var actualLines := Prepare(LineTexts(actualNodes));
    var matched := MatchLines(verbose, truthLines, actualLines);
    if matched.Err? {
      return Err(matched.error);
    }
    var segmentationErrors := TotalLength(matched.value.0);
    return Ok((segmentationErrors, matched.value.1));
  }

  /** The matching loop of `evaluate_lines`: deletes each nearest true line from `remaining`. */
  method MatchLines(verbose: bool, truthLines: seq<string>, actualLines: seq<string>) returns (r: Result<(seq<string>, int)>)
    ensures r == Match(verbose, truthLines, actualLines)
  {
    var remaining := truthLines;
    var ocrErrors := 0;
    for k := 0 to |actualLines|
      invariant Match(verbose, truthLines, actualLines) == Shift(Match(verbose, remaining, actualLines[k..]), ocrErrors)
    {
      var t := MatchTurn(verbose, remaining, actualLines[k]);
      MatchLoopStep(verbose, truthLines, actualLines, k, remaining, ocrErrors);
      if t.Err? {
        return Err(t.error);
      }
      remaining, ocrErrors := t.value.0, ocrErrors + t.value.1;
    }
    assert actualLines[|actualLines|..] == [];
    return Ok((remaining, ocrErrors));
  }

  /** The body of the matching loop: the inner search, the log call of `verbose`, the assertion and the deletion. */
  method MatchTurn(verbose: bool, remaining: seq<string>, line: string) returns (r: Result<(seq<string>, int)>)
    ensures r == Turn(verbose, remaining, line)
  {
    var minD, minI := FindNearest(remaining, line);
    if verbose && minD > 0 && !PyIndexable(remaining, minI) {
      return Err(IndexError);
    }
    if minI < 0 {
      return Err(AssertionError);
    }
    return Ok((Remove(remaining, minI), minD));
  }

  /** One turn of the matching loop, from its invariant to the next state or to the error it raises. */
  lemma MatchLoopStep(verbose: bool, truthLines: seq<string>, actualLines: seq<string>, k: nat,
                      remaining: seq<string>, ocrErrors: int)
    requires k < |actualLines|
    requires Match(verbose, truthLines, actualLines) == Shift(Match(verbose, remaining, actualLines[k..]), ocrErrors)
    ensures var t := Turn(verbose, remaining, actualLines[k]);
            && (t.Err? ==> Match(verbose, truthLines, actualLines) == Err(t.error))
            && (t.Ok? ==> Match(verbose, truthLines, actualLines) == Shift(Match(verbose, t.value.0, actualLines[k + 1..]), ocrErrors + t.value.1))
  {
    var tail := actualLines[k + 1..];
    assert actualLines[k..] == [actualLines[k]] + tail;
    MatchStep(verbose, remaining, actualLines[k], tail);
    var t := Turn(verbose, remaining, actualLines[k]);
    if t.Ok? {
      ShiftShift(Match(verbose, t.value.0, tail), t.value.1, ocrErrors);
    }
  }

  /** The segmentation-error loop of `evaluate_lines`: the characters of the leftover lines. */
  method TotalLength(remaining: seq<string>) returns (n: int)
    ensures n == SumLengths(remaining)
  {
    n := 0;
    for k := 0 to |remaining|
      invariant n + SumLengths(remaining[k..]) == SumLengths(remaining)
    {
      assert remaining[k..][1..] == remaining[k + 1..];
      n := n + |remaining[k]|;
    }
    assert remaining[|remaining|..] == [];
  }

  /** The matching result with `e` more OCR errors. */
  function Shift(m: Result<(seq<string>, int)>, e: int): Result<(seq<string>, int)>
  {
    match m
    case Err(x) => Err(x)
    case Ok(p) => Ok((p.0, p.1 + e))
  }

  lemma MatchStep(verbose: bool, pool: seq<string>, line: string, rest: seq<string>)
    ensures Turn(verbose, pool, line).Err? ==> Match(verbose, pool, [line] + rest) == Err(Turn(verbose, pool, line).error)
    ensures Turn(verbose, pool, line).Ok? ==>
              Match(verbose, pool, [line] + rest) == Shift(Match(verbose, Turn(verbose, pool, line).value.0, rest), Turn(verbose, pool, line).value.1)
  {
    assert ([line] + rest)[1..] == rest;
  }

  lemma ShiftShift(m: Result<(seq<string>, int)>, a: int, b: int)
    ensures Shift(Shift(m, a), b) == Shift(m, a + b)
  {
  }

  // ---------------------------------------------------------------- properties

  /** `a` is `b` with some entries deleted, the others kept in order. */
  predicate Subseq(a: seq<string>, b: seq<string>)
    decreases |b|
  {
    a == [] || (b != [] && ((a[0] == b[0] && Subseq(a[1..], b[1..])) || Subseq(a, b[1..])))
  }

  lemma {:induction false} SubseqRefl(a: seq<string>)
    ensures Subseq(a, a)
    decreases |a|
  {
    if a != [] {
      SubseqRefl(a[1..]);
    }
  }

  lemma {:induction false} RemoveSubseq(s: seq<string>, i: nat)
    requires i < |s|
    ensures Subseq(Remove(s, i), s)
    decreases i
  {
    if i == 0 {
      assert Remove(s, i) == s[1..];
      SubseqRefl(s[1..]);
    } else {
      RemoveSubseq(s[1..], i - 1);
      assert Remove(s, i)[1..] == Remove(s[1..], i - 1);
    }
  }

  lemma {:induction false} SubseqTrans(a: seq<string>, b: seq<string>, c: seq<string>)
    requires Subseq(a, b) && Subseq(b, c)
    ensures Subseq(a, c)
    decreases |c|
  {
    if a != [] {
      if Subseq(b, c[1..]) {
        SubseqTrans(a, b, c[1..]);
      } else if a[0] == b[0] && Subseq(a[1..], b[1..]) {
        SubseqTrans(a[1..], b[1..], c[1..]);
      } else {
        SubseqTrans(a, b[1..], c[1..]);
      }
    }
  }

  /** Deleting entries can only shorten the total length. */
  lemma {:induction false} SubseqSumLengths(a: seq<string>, b: seq<string>)
    requires Subseq(a, b)
    ensures SumLengths(a) <= SumLengths(b)
    decreases |b|
  {
    if a != [] {
      if a[0] == b[0] && Subseq(a[1..], b[1..]) {
        SubseqSumLengths(a[1..], b[1..]);
      } else {
        SubseqSumLengths(a, b[1..]);
      }
    }
  }

  /** An entry of `a` is an entry of `b`. */
  lemma {:induction false} SubseqElements(a: seq<string>, b: seq<string>)
    requires Subseq(a, b)
    ensures forall x :: x in a ==> x in b
    decreases |b|
  {
    if a != [] {
      if a[0] == b[0] && Subseq(a[1..], b[1..]) {
        SubseqElements(a[1..], b[1..]);
        assert forall x :: x in a ==> x == a[0] || x in a[1..];
      } else {
        SubseqElements(a, b[1..]);
      }
    }
  }

  /** Lines that are all non-empty have at least one character each. */
  lemma {:induction false} SumLengthsAtLeastCount(lines: seq<string>)
    requires forall k :: 0 <= k < |lines| ==> lines[k] != ""
    ensures SumLengths(lines) >= |lines|
    decreases |lines|
  {
    if lines != [] {
      SumLengthsAtLeastCount(lines[1..]);
    }
  }

  /**
    The scan keeps either the initial `(999999, -1)` or an index whose bounded distance was
    below the threshold of its time, which makes it the exact edit distance; no entry after the
    chosen one falls below the chosen distance; and the initial state is kept exactly when no
    entry falls below 999999.
   */
  lemma {:induction false} NearestFromMeaning(pool: seq<string>, line: string, k: nat, minD: int, minI: int)
    requires k <= |pool|
    requires (minI == -1 && minD == Unmatched) || (0 <= minI < k && minD == Distance(pool[minI], line) < Unmatched)
    ensures var r := NearestFrom(pool, line, k, minD, minI);
            && ((r.1 == -1 && r.0 == Unmatched) || (0 <= r.1 < |pool| && r.0 == Distance(pool[r.1], line) < Unmatched))
            && r.0 <= minD
            && (r.1 >= k ==> forall j :: r.1 < j < |pool| ==> Bounded(pool[j], line, r.0) >= r.0)
            && (r.1 == minI ==> r.0 == minD && forall j :: k <= j < |pool| ==> Bounded(pool[j], line, minD) >= minD)
            && (minI == -1 && (forall j :: k <= j < |pool| ==> Bounded(pool[j], line, minD) >= minD) ==> r.1 == -1)
    decreases |pool| - k
  {
    if k < |pool| {
      var d := Bounded(pool[k], line, minD);
      BoundedContract(pool[k], line, minD);
      if d < minD {
        NearestFromMeaning(pool, line, k + 1, d, k);
      } else {
        NearestFromMeaning(pool, line, k + 1, minD, minI);
      }
    }
  }

  /**
    `min_i` is `-1` exactly when every true line is 999999 or more edits away by the bounded
    measure; otherwise `min_d` is the exact distance of the chosen true line and no later line
    is nearer by the measure the loop applies to it.
   */
  lemma NearestMeaning(pool: seq<string>, line: string)
    ensures var r := Nearest(pool, line);
            && (r.1 == -1 <==> forall j :: 0 <= j < |pool| ==> Bounded(pool[j], line, Unmatched) >= Unmatched)
            && (r.1 == -1 ==> r.0 == Unmatched)
            && (r.1 >= 0 ==> r.0 == Distance(pool[r.1], line) < Unmatched)
            && (r.1 >= 0 ==> forall j :: r.1 < j < |pool| ==> Bounded(pool[j], line, r.0) >= r.0)
  {
    NearestFromMeaning(pool, line, 0, Unmatched, -1);
  }

  /** A true line short enough is always compared exactly, so a non-empty pool yields a match. */
  lemma NearestFound(pool: seq<string>, line: string)
    requires pool != [] && |pool[0]| + |line| < Unmatched
    ensures Nearest(pool, line).1 >= 0
  {
    NearestMeaning(pool, line);
    ShortIsExact(pool[0], line, Unmatched);
  }

  /** An identical line is found first at distance 0. */
  lemma {:induction false} NearestSelfFrom(pool: seq<string>, line: string, k: nat)
    requires 0 < k <= |pool|
    ensures NearestFrom(pool, line, k, 0, 0) == (0, 0)
    decreases |pool| - k
  {
    if k < |pool| {
      BoundedContract(pool[k], line, 0);
      NearestSelfFrom(pool, line, k + 1);
    }
  }

  lemma NearestSelf(pool: seq<string>)
    requires pool != []
    ensures Nearest(pool, pool[0]) == (0, 0)
  {
    NearestSelfFrom(pool, pool[0], 1);
  }

  /**
    A matching that succeeds leaves `|pool| - |actual|` true lines, the others deleted and these
    kept in their order, and adds up non-negative distances; a failing one is the assertion or,
    with `verbose`, the index error of the log call.
   */
  lemma {:induction false} MatchShape(verbose: bool, pool: seq<string>, actual: seq<string>)
    ensures Match(verbose, pool, actual).Err? ==>
              Match(verbose, pool, actual).error == AssertionError || (verbose && Match(verbose, pool, actual).error == IndexError)
    ensures Match(verbose, pool, actual).Ok? ==>
              && |Match(verbose, pool, actual).value.0| == |pool| - |actual|
              && Subseq(Match(verbose, pool, actual).value.0, pool)
              && Match(verbose, pool, actual).value.1 >= 0
    decreases |actual|
  {
    if actual == [] {
      SubseqRefl(pool);
    } else {
      var n := Nearest(pool, actual[0]);
      NearestMeaning(pool, actual[0]);
      if n.1 >= 0 {
        MatchShape(verbose, Remove(pool, n.1), actual[1..]);
        if Match(verbose, pool, actual).Ok? {
          RemoveSubseq(pool, n.1);
          SubseqTrans(Match(verbose, pool, actual).value.0, Remove(pool, n.1), pool);
        }
      }
    }
  }

  /**
    More recognised lines than true lines fail: quietly on the assertion; with `verbose` either
    on the assertion or, once the pool is exhausted, on `remaining[-1]` of the log call.
   */
  lemma {:induction false} MatchTooMany(verbose: bool, pool: seq<string>, actual: seq<string>)
    requires |actual| > |pool|
    ensures !verbose ==> Match(verbose, pool, actual) == Err(AssertionError)
    ensures verbose ==> Match(verbose, pool, actual) in {Err(AssertionError), Err(IndexError)}
    decreases |actual|
  {
    var n := Nearest(pool, actual[0]);
    NearestMeaning(pool, actual[0]);
    if n.1 >= 0 {
      MatchTooMany(verbose, Remove(pool, n.1), actual[1..]);
    }
  }

  /**
    With `verbose` and true lines short enough to be found, more recognised lines than true lines
    exhaust the pool and raise `IndexError` at `remaining[min_i]` with `min_i == -1`, before the
    assertion is reached.
   */
  lemma {:induction false} VerboseTooManyIndexError(pool: seq<string>, actual: seq<string>)
    requires |actual| > |pool|
    requires forall x, y :: x in pool && y in actual ==> |x| + |y| < Unmatched
    ensures Match(true, pool, actual) == Err(IndexError)
    decreases |actual|
  {
    var n := Nearest(pool, actual[0]);
    NearestMeaning(pool, actual[0]);
    if pool != [] {
      NearestFound(pool, actual[0]);
      var rest := Remove(pool, n.1);
      RemoveSubseq(pool, n.1);
      SubseqElements(rest, pool);
      assert forall y :: y in actual[1..] ==> y in actual;
      VerboseTooManyIndexError(rest, actual[1..]);
    }
  }

  /**
    `verbose` changes only which error is raised: when the matching succeeds with it or without
    it, it succeeds both ways with the same result.
   */
  lemma {:induction false} VerboseSameMatch(pool: seq<string>, actual: seq<string>)
    ensures Match(true, pool, actual).Ok? || Match(false, pool, actual).Ok? ==> Match(true, pool, actual) == Match(false, pool, actual)
    decreases |actual|
  {
    if actual != [] {
      var n := Nearest(pool, actual[0]);
      var tail := actual[1..];
      assert actual == [actual[0]] + tail;
      MatchStep(true, pool, actual[0], tail);
      MatchStep(false, pool, actual[0], tail);
      if n.1 >= 0 {
        VerboseSameMatch(Remove(pool, n.1), tail);
      }
    }
  }

  /** With no more recognised lines than true lines, all of them short, the matching succeeds. */
  lemma {:induction false} MatchSucceeds(verbose: bool, pool: seq<string>, actual: seq<string>)
    requires |actual| <= |pool|
    requires forall x, y :: x in pool && y in actual ==> |x| + |y| < Unmatched
    ensures Match(verbose, pool, actual).Ok?
    decreases |actual|
  {
    if actual != [] {
      NearestFound(pool, actual[0]);
      var n := Nearest(pool, actual[0]);
      var rest := Remove(pool, n.1);
      RemoveSubseq(pool, n.1);
      SubseqElements(rest, pool);
      assert forall y :: y in actual[1..] ==> y in actual;
      MatchSucceeds(verbose, rest, actual[1..]);
    }
  }

  /** A list of lines matched against itself leaves nothing and costs nothing. */
  lemma {:induction false} MatchSelf(verbose: bool, lines: seq<string>)
    ensures Match(verbose, lines, lines) == Ok(([], 0))
    decreases |lines|
  {
    if lines != [] {
      NearestSelf(lines);
      assert Remove(lines, 0) == lines[1..];
      MatchSelf(verbose, lines[1..]);
    }
  }

  /**
    On success the segmentation errors are at least the number of leftover true lines (each is
    non-empty) and at most the length of all true lines, and the OCR errors are never negative.
   */
  lemma EvaluateBounds(verbose: bool, truthText: string, actualNodes: seq<seq<string>>)
    requires Evaluate(verbose, truthText, actualNodes).Ok?
    ensures var truth := Prepare(Split(truthText, '\n'));
            var actual := Prepare(LineTexts(actualNodes));
            var e := Evaluate(verbose, truthText, actualNodes).value;
            && |actual| <= |truth|
            && |truth| - |actual| <= e.0 <= SumLengths(truth)
            && e.1 >= 0
  {
    var truth := Prepare(Split(truthText, '\n'));
    var actual := Prepare(LineTexts(actualNodes));
    MatchShape(verbose, truth, actual);
    var m := Match(verbose, truth, actual).value;
    SubseqSumLengths(m.0, truth);
    SubseqElements(m.0, truth);
    assert forall k :: 0 <= k < |m.0| ==> m.0[k] != "" by {
      forall k | 0 <= k < |m.0|
        ensures m.0[k] != ""
      {
        assert m.0[k] in truth;
      }
    }
    SumLengthsAtLeastCount(m.0);
  }

  /**
    More recognised lines than true lines, after normalising, fail the assertion, or with
    `verbose` possibly the index of the log call.
   */
  lemma EvaluateTooMany(verbose: bool, truthText: string, actualNodes: seq<seq<string>>)
    requires |Prepare(LineTexts(actualNodes))| > |Prepare(Split(truthText, '\n'))|
    ensures !verbose ==> Evaluate(verbose, truthText, actualNodes) == Err(AssertionError)
    ensures verbose ==> Evaluate(verbose, truthText, actualNodes) in {Err(AssertionError), Err(IndexError)}
  {
    MatchTooMany(verbose, Prepare(Split(truthText, '\n')), Prepare(LineTexts(actualNodes)));
  }

  /** `verbose` leaves every evaluation that succeeds unchanged and makes no other one succeed. */
  lemma EvaluateVerboseSame(truthText: string, actualNodes: seq<seq<string>>)
    ensures Evaluate(true, truthText, actualNodes).Ok? <==> Evaluate(false, truthText, actualNodes).Ok?
    ensures Evaluate(true, truthText, actualNodes).Ok? ==> Evaluate(true, truthText, actualNodes) == Evaluate(false, truthText, actualNodes)
  {
    VerboseSameMatch(Prepare(Split(truthText, '\n')), Prepare(LineTexts(actualNodes)));
  }

  /**
    With `verbose`, more recognised lines than true lines, all of them short, raise `IndexError`
    where the quiet evaluation fails its assertion.
   */
  lemma EvaluateVerboseIndexError(truthText: string, actualNodes: seq<seq<string>>)
    requires |Prepare(LineTexts(actualNodes))| > |Prepare(Split(truthText, '\n'))|
    requires forall x, y :: x in Prepare(Split(truthText, '\n')) && y in Prepare(LineTexts(actualNodes)) ==> |x| + |y| < Unmatched
    ensures Evaluate(true, truthText, actualNodes) == Err(IndexError)
    ensures Evaluate(false, truthText, actualNodes) == Err(AssertionError)
  {
    VerboseTooManyIndexError(Prepare(Split(truthText, '\n')), Prepare(LineTexts(actualNodes)));
    MatchTooMany(false, Prepare(Split(truthText, '\n')), Prepare(LineTexts(actualNodes)));
  }

  /** Recognised lines identical to the true lines after normalising give `(0, 0)`. */
  lemma EvaluateSelf(verbose: bool, truthText: string, actualNodes: seq<seq<string>>)
    requires Prepare(LineTexts(actualNodes)) == Prepare(Split(truthText, '\n'))
    ensures Evaluate(verbose, truthText, actualNodes) == Ok((0, 0))
  {
    MatchSelf(verbose, Prepare(Split(truthText, '\n')));
  }

  /**
    The matching is greedy, not optimal: the first true line, 3 edits away, is kept because the
    bounded distance of the second one stops at the threshold 3, although it is 2 edits away.
   */
  lemma GreedyIsNotNearest()
    ensures Nearest(["ba", "aaaab"], "baaaa") == (3, 0)
    ensures Distance("aaaab", "baaaa") == 2
  {
    var b := "baaaa";
    ShortIsExact("ba", b, Unmatched);
    assert Lev("ba", b, 1, 1) == 0;
    assert Lev("ba", b, 1, 2) == 1;
    assert Lev("ba", b, 1, 3) == 2;
    assert Lev("ba", b, 1, 4) == 3;
    assert Lev("ba", b, 1, 5) == 4;
    assert Lev("ba", b, 2, 1) == 1;
    assert Lev("ba", b, 2, 2) == 0;
    assert Lev("ba", b, 2, 3) == 1;
    assert Lev("ba", b, 2, 4) == 2;
    assert Lev("ba", b, 2, 5) == 3;
    assert Bounded("ba", b, Unmatched) == 3;
    EarlyExitIsNotExact();
    var pool := ["ba", "aaaab"];
    assert NearestFrom(pool, b, 2, 3, 0) == (3, 0);
    assert NearestFrom(pool, b, 1, 3, 0) == (3, 0);
  }
}
