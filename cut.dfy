/**
  Cutting a double page in two: each line box goes to the left or the right of the middle of
  the page, the upper medians of the left ends and of the right starts are averaged, and the
  truncated average is the column the page image is cut at.
 */
module Cut {
  import opened Wrappers

  datatype Side = Left | Right

  /** `bbox[2] / 2`: half the right edge of the page box. */
  function Middle(page: Option<seq<int>>): (r: Result<real>)
    ensures r.Ok? <==> page.Some? && |page.value| >= 3
    ensures r.Ok? ==> r.value * 2.0 == page.value[2] as real
  {
    if page.None? then Err(AssertionError)
    else if |page.value| < 3 then Err(IndexError)
    else Ok(page.value[2] as real / 2.0)
  }

  /**
    The side of one line box. Only `b[0]` is read for a box that starts right of the middle; a
    straddling box goes right when it reaches further right of the middle than `b[1]` lies left
    of it (the source compares with the top edge `b[1]` here).
   */
  function LineSide(line: Option<seq<int>>, middle: real): Result<Side>
  {
    if line.None? then Err(AssertionError)
    else
      var b := line.value;
      if |b| == 0 then Err(IndexError)
      else if b[0] as real > middle then Ok(Right)
      else if |b| < 3 then Err(IndexError)
      else if (b[2] as real) < middle then Ok(Left)
      else if b[2] as real - middle > middle - b[1] as real then Ok(Right)
      else Ok(Left)
  }

  /** The loop over the lines from the lists `left` and `right` built so far on. */
  function Sides(lines: seq<Option<seq<int>>>, middle: real, left: seq<int>, right: seq<int>)
    : Result<(seq<int>, seq<int>)>
    decreases |lines|
  {
    if lines == [] then Ok((left, right))
    else match LineSide(lines[0], middle)
      case Err(e) => Err(e)
      case Ok(Right) => Sides(lines[1..], middle, left, right + [lines[0].value[0]])
      case Ok(Left) => Sides(lines[1..], middle, left + [lines[0].value[2]], right)
  }

  /** `left_ends.append(b[2])` / `right_starts.append(b[0])` over the lines of the page. */
  method SplitLines(lines: seq<Option<seq<int>>>, middle: real) returns (r: Result<(seq<int>, seq<int>)>)
    ensures r == Sides(lines, middle, [], [])
  {
    var leftEnds, rightStarts := [], [];
    for i := 0 to |lines|
      invariant Sides(lines, middle, [], []) == Sides(lines[i..], middle, leftEnds, rightStarts)
    {
      assert lines[i..][1..] == lines[i + 1..];
      var side := LineSide(lines[i], middle);
      if side.Err? {
        return Err(side.error);
      }
      var b := lines[i].value;
      if side.value == Right {
        rightStarts := rightStarts + [b[0]];
      } else {
        leftEnds := leftEnds + [b[2]];
      }
    }
    assert lines[|lines|..] == [];
    return Ok((leftEnds, rightStarts));
  }

  // ---------------------------------------------------------------- sorting and the median

  predicate Sorted(s: seq<int>)
  {
    forall i, j :: 0 <= i < j < |s| ==> s[i] <= s[j]
  }

  function Insert(x: int, s: seq<int>): (r: seq<int>)
    ensures |r| == |s| + 1
  {
    if s == [] then [x] else if x <= s[0] then [x] + s else [s[0]] + Insert(x, s[1..])
  }

  /** `list.sort()` on integers, as a value. */
  function Sort(xs: seq<int>): (r: seq<int>)
    ensures |r| == |xs|
  {
    if xs == [] then [] else Insert(xs[0], Sort(xs[1..]))
  }

  lemma {:induction false} InsertMultiset(x: int, s: seq<int>)
    ensures multiset(Insert(x, s)) == multiset{x} + multiset(s)
  {
    if s != [] && x > s[0] {
      InsertMultiset(x, s[1..]);
      assert s == [s[0]] + s[1..];
    }
  }

  lemma {:induction false} InsertSorted(x: int, s: seq<int>)
    requires Sorted(s)
    ensures Sorted(Insert(x, s))
  {
    if s != [] && x > s[0] {
      var t := Insert(x, s[1..]);
      InsertSorted(x, s[1..]);
      InsertMultiset(x, s[1..]);
      forall k | 0 <= k < |t|
        ensures s[0] <= t[k]
      {
        assert t[k] in multiset(t);
        if t[k] != x {
          assert t[k] in multiset(s[1..]);
          var i :| 0 <= i < |s[1..]| && s[1..][i] == t[k];
          assert s[i + 1] == t[k];
        }
      }
      assert Insert(x, s) == [s[0]] + t;
    }
  }

  /** The sorted list is ordered and holds the same elements. */
  lemma {:induction false} SortSorted(xs: seq<int>)
    ensures Sorted(Sort(xs)) && multiset(Sort(xs)) == multiset(xs) && |Sort(xs)| == |xs|
  {
    if xs != [] {
      SortSorted(xs[1..]);
      InsertSorted(xs[0], Sort(xs[1..]));
      InsertMultiset(xs[0], Sort(xs[1..]));
      assert xs == [xs[0]] + xs[1..];
    }
  }

  /** How many elements of `s` are below `m`, and how many above it. */
  function CountBelow(s: seq<int>, m: int): nat
  {
    if s == [] then 0 else (if s[0] < m then 1 else 0) + CountBelow(s[1..], m)
  }

  function CountAbove(s: seq<int>, m: int): nat
  {
    if s == [] then 0 else (if s[0] > m then 1 else 0) + CountAbove(s[1..], m)
  }

  lemma {:induction false} CountsOfInsert(x: int, s: seq<int>, m: int)
    ensures CountBelow(Insert(x, s), m) == (if x < m then 1 else 0) + CountBelow(s, m)
    ensures CountAbove(Insert(x, s), m) == (if x > m then 1 else 0) + CountAbove(s, m)
  {
    if s != [] && x > s[0] {
      CountsOfInsert(x, s[1..], m);
      assert Insert(x, s)[1..] == Insert(x, s[1..]);
    } else {
      assert Insert(x, s)[1..] == s;
    }
  }

  /** Sorting changes no count. */
  lemma {:induction false} CountsOfSort(xs: seq<int>, m: int)
    ensures CountBelow(Sort(xs), m) == CountBelow(xs, m) && CountAbove(Sort(xs), m) == CountAbove(xs, m)
  {
    if xs != [] {
      CountsOfSort(xs[1..], m);
      CountsOfInsert(xs[0], Sort(xs[1..]), m);
    }
  }

  /** In a sorted list, at most `k` elements lie below `s[k]` and at most `|s| - k - 1` above it. */
  lemma {:induction false} CountsAroundIndex(s: seq<int>, k: nat)
    requires Sorted(s) && k < |s|
    ensures CountBelow(s, s[k]) <= k && CountAbove(s, s[k]) <= |s| - k - 1
  {
    if k == 0 {
      NoneBelow(s, s[0]);
    } else {
      assert s[1..][k - 1] == s[k];
      CountsAroundIndex(s[1..], k - 1);
    }
    if k == |s| - 1 {
      NoneAbove(s, s[k]);
    } else {
      assert s[..k + 1][k] == s[k];
      CountAboveSplit(s, k + 1, s[k]);
    }
  }

  lemma {:induction false} NoneBelow(s: seq<int>, m: int)
    requires forall i :: 0 <= i < |s| ==> s[i] >= m
    ensures CountBelow(s, m) == 0
  {
    if s != [] {
      NoneBelow(s[1..], m);
    }
  }

  lemma {:induction false} NoneAbove(s: seq<int>, m: int)
    requires forall i :: 0 <= i < |s| ==> s[i] <= m
    ensures CountAbove(s, m) == 0
  {
    if s != [] {
      NoneAbove(s[1..], m);
    }
  }

  /** Nothing before index `j` of a sorted list lies above `s[j - 1]`. */
  lemma {:induction false} CountAboveSplit(s: seq<int>, j: nat, m: int)
    requires Sorted(s) && 0 < j <= |s| && m == s[j - 1]
    ensures CountAbove(s, m) <= |s| - j
  {
    if j == 1 {
      CountAboveAtMost(s[1..]);
    } else {
      assert s[1..][j - 2] == s[j - 1];
      CountAboveSplit(s[1..], j - 1, m);
    }
  }

  lemma {:induction false} CountAboveAtMost(s: seq<int>)
    ensures forall m :: CountAbove(s, m) <= |s|
  {
    if s != [] {
      CountAboveAtMost(s[1..]);
    }
  }

  /** `sorted(xs)[len(xs) // 2]`, an `IndexError` for an empty list. */
  function UpperMedian(xs: seq<int>): Result<int>
  {
    if xs == [] then Err(IndexError) else Ok(Sort(xs)[|xs| / 2])
  }

  /**
    The value is one of the elements; at most half of the elements (rounded down) lie below it,
    and fewer than half (rounded up) above it.
   */
  lemma UpperMedianMeaning(xs: seq<int>)
    ensures UpperMedian(xs).Err? <==> xs == []
    ensures UpperMedian(xs).Ok? ==>
              var m := UpperMedian(xs).value;
              && m in xs
              && CountBelow(xs, m) <= |xs| / 2
              && CountAbove(xs, m) <= |xs| - |xs| / 2 - 1
  {
    if xs != [] {
      SortSorted(xs);
      var s := Sort(xs);
      var m := s[|xs| / 2];
      assert m in multiset(s);
      CountsOfSort(xs, m);
      CountsAroundIndex(s, |xs| / 2);
    }
  }

  // ---------------------------------------------------------------- the cut column

  /** `int(x / 2)`: the half of an integer, truncated toward zero like Python's `int()`. */
  function TruncHalf(x: int): int
  {
    if x >= 0 then x / 2 else -((-x) / 2)
  }

  /** The truncated half lies between zero and the exact half, less than one from it. */
  lemma TruncHalfMeaning(x: int)
    ensures x >= 0 ==> 0 <= 2 * TruncHalf(x) <= x < 2 * TruncHalf(x) + 2
    ensures x < 0 ==> x <= 2 * TruncHalf(x) <= 0 && 2 * TruncHalf(x) - 2 < x
  {
  }

  /** The truncated average of two integers lies between them. */
  lemma CutBetween(ml: int, mr: int)
    ensures ml <= mr ==> ml <= TruncHalf(ml + mr) <= mr
    ensures mr <= ml ==> mr <= TruncHalf(ml + mr) <= ml
  {
    TruncHalfMeaning(ml + mr);
  }

  /** The two medians and the cut column of a page. */
  datatype Columns = Columns(middleLeft: int, middleRight: int, cut: int)

  /** From the page box and the line boxes to the cut column, or the error raised on the way. */
  function CutColumns(page: Option<seq<int>>, lines: seq<Option<seq<int>>>): Result<Columns>
  {
    match Middle(page)
    case Err(e) => Err(e)
    case Ok(middle) =>
      match Sides(lines, middle, [], [])
      case Err(e) => Err(e)
      case Ok((leftEnds, rightStarts)) =>
        match UpperMedian(leftEnds)
        case Err(e) => Err(e)
        case Ok(ml) =>
          match UpperMedian(rightStarts)
          case Err(e) => Err(e)
          case Ok(mr) => Ok(Columns(ml, mr, TruncHalf(ml + mr)))
  }

  // ---------------------------------------------------------------- output names

  /** The names of the left, right and debug images. */
  datatype Names = Names(left: string, right: string, debug: string)

  /**
    A name whose fourth character from the end is a dot keeps its three-character extension
    after the inserted `left.`, `right.` or `cut.`; any other name gets them at its end. A name
    shorter than four characters raises `IndexError`.
   */
  function OutputNames(path: string): Result<Names>
  {
    if |path| < 4 then Err(IndexError)
    else if path[|path| - 4] == '.' then
      var name, suffix := path[..|path| - 3], path[|path| - 3..];
      Ok(Names(name + "left." + suffix, name + "right." + suffix, name + "cut." + suffix))
    else Ok(Names(path + "left.", path + "right.", path + "cut."))
  }

  /** `base.ext` with a three-character extension gives `base.left.ext`, `base.right.ext` and `base.cut.ext`. */
  lemma OutputNamesDotted(base: string, ext: string)
    requires |ext| == 3
    ensures OutputNames(base + "." + ext) == Ok(Names(base + ".left." + ext, base + ".right." + ext, base + ".cut." + ext))
  {
    var path := base + "." + ext;
    assert path[|path| - 4] == '.';
    assert path[..|path| - 3] == base + ".";
    assert path[|path| - 3..] == ext;
    assert base + "." + "left." + ext == base + ".left." + ext;
    assert base + "." + "right." + ext == base + ".right." + ext;
    assert base + "." + "cut." + ext == base + ".cut." + ext;
  }

  /** Without a dot at that place the words are appended to the whole name. */
  lemma OutputNamesUndotted(path: string)
    requires |path| >= 4 && path[|path| - 4] != '.'
    ensures OutputNames(path) == Ok(Names(path + "left.", path + "right.", path + "cut."))
  {
  }

  // ---------------------------------------------------------------- one page

  /** A crop box `(x0, y0, x1, y1)`. */
  datatype Crop = Crop(x0: int, y0: int, x1: int, y1: int)

  /** What is saved for a page whose image was found. */
  datatype Saved = Saved(names: Names, debugSaved: bool, left: Crop, right: Crop)

  datatype PageCut = PageCut(columns: Columns, saved: Option<Saved>)

  /**
    One page of `cut`: the `image` property must be present; `found` says whether the image
    could be opened (a missing image switches the debug output off), `width` and `height` are
    its size, and `path` is the image path joined to the directory of the hOCR file.
   */
  function CutPageOf(image: Option<string>, path: string, found: bool, width: int, height: int, debug: bool,
                     page: Option<seq<int>>, lines: seq<Option<seq<int>>>): Result<PageCut>
  {
    if image.None? then Err(AssertionError)
    else match CutColumns(page, lines)
      case Err(e) => Err(e)
      case Ok(c) =>
        if !found then Ok(PageCut(c, None))
        else match OutputNames(path)
          case Err(e) => Err(e)
          case Ok(names) =>
            Ok(PageCut(c, Some(Saved(names, debug, Crop(0, 0, c.cut, height), Crop(c.cut, 0, width, height)))))
  }

  /** `cut` for one page: classify, sort, take the medians, average, then name and crop. */
  method CutPage(image: Option<string>, path: string, found: bool, width: int, height: int, debug: bool,
                 page: Option<seq<int>>, lines: seq<Option<seq<int>>>) returns (r: Result<PageCut>)
    ensures r == CutPageOf(image, path, found, width, height, debug, page, lines)
  {
    if image.None? {
      return Err(AssertionError);
    }
    var debugOn := debug && found;
    var middle := Middle(page);
    if middle.Err? {
      return Err(middle.error);
    }
    var sides := SplitLines(lines, middle.value);
    if sides.Err? {
      return Err(sides.error);
    }
    var leftEnds := Sort(sides.value.0);
    var rightStarts := Sort(sides.value.1);
    var n, m := |leftEnds|, |rightStarts|;
    SortSorted(sides.value.0);
    SortSorted(sides.value.1);
    if n == 0 {
      return Err(IndexError);
    }
    var middleLeft := leftEnds[n / 2];
    if m == 0 {
      return Err(IndexError);
    }
    var middleRight := rightStarts[m / 2];
    var cut := TruncHalf(middleLeft + middleRight);
    var columns := Columns(middleLeft, middleRight, cut);
    if !found {
      return Ok(PageCut(columns, None));
    }
    var names := OutputNames(path);
    if names.Err? {
      return Err(names.error);
    }
    var saved := Saved(names.value, debugOn, Crop(0, 0, cut, height), Crop(cut, 0, width, height));
    return Ok(PageCut(columns, Some(saved)));
  }

  // ---------------------------------------------------------------- the document

  /** What one `ocr_page` supplies: its `image` property, the joined path, the image, its box. */
  datatype PageInput = PageInput(image: Option<string>, path: string, found: bool, width: int, height: int,
                                 box: Option<seq<int>>)

  function CutOne(p: PageInput, lines: seq<Option<seq<int>>>, debug: bool): Result<PageCut>
  {
    CutPageOf(p.image, p.path, p.found, p.width, p.height, debug, p.box, lines)
  }

  /** The debug flag page `k` sees: on, and every earlier image found. */
  predicate DebugAt(pages: seq<PageInput>, k: nat, debug: bool)
  {
    debug && forall j :: 0 <= j < k && j < |pages| ==> pages[j].found
  }

  /** Each page cut with the debug flag it sees. */
  function PageCuts(pages: seq<PageInput>, lines: seq<Option<seq<int>>>, debug: bool): (rs: seq<Result<PageCut>>)
    ensures |rs| == |pages|
  {
    seq(|pages|, k requires 0 <= k < |pages| => CutOne(pages[k], lines, DebugAt(pages, k, debug)))
  }

  /**
    The pages from the first on: the pages cut before an error are kept with the error. A page
    whose image is missing switches the debug output off for every later page.
   */
  function CutAll(pages: seq<PageInput>, lines: seq<Option<seq<int>>>, debug: bool): (r: (seq<PageCut>, Option<Error>))
    ensures |r.0| <= |pages|
  {
    CollectCount(PageCuts(pages, lines, debug), 0);
    Collect(PageCuts(pages, lines, debug), 0)
  }

  /** Page `k` is cut with the debug flag it sees. */
  lemma PageCutsEntry(pages: seq<PageInput>, lines: seq<Option<seq<int>>>, debug: bool, k: nat)
    requires k < |pages|
    ensures PageCuts(pages, lines, debug)[k] == CutOne(pages[k], lines, DebugAt(pages, k, debug))
  {
  }

  /** `cut`: the pages in document order, each against the line boxes of the whole document. */
  method CutDocument(pages: seq<PageInput>, lines: seq<Option<seq<int>>>, debug: bool)
    returns (done: seq<PageCut>, error: Option<Error>)
    ensures (done, error) == CutAll(pages, lines, debug)
  {
    ghost var rs := PageCuts(pages, lines, debug);
    done, error := [], None;
    var on := debug;
    assert done + Collect(rs, 0).0 == Collect(rs, 0).0;
    for i := 0 to |pages|
      invariant on == DebugAt(pages, i, debug)
      invariant Collect(rs, 0) == (done + Collect(rs, i).0, Collect(rs, i).1)
    {
      var p := pages[i];
      var r := CutPage(p.image, p.path, p.found, p.width, p.height, on, p.box, lines);
      PageCutsEntry(pages, lines, debug, i);
      assert r == CutOne(pages[i], lines, on);
      CollectStep(rs, i, done);
      if r.Err? {
        return done, Some(r.error);
      }
      done := done + [r.value];
      assert DebugAt(pages, i + 1, debug) == (on && p.found);
      on := on && p.found;
    }
    CollectStep(rs, |pages|, done);
  }

  /**
    The pages cut are a prefix of the document, all of it when no error is raised, and page
    `k` is cut with the debug flag `DebugAt(pages, k, debug)`: on as long as every earlier image
    was found.
   */
  lemma CutAllMeaning(pages: seq<PageInput>, lines: seq<Option<seq<int>>>, debug: bool)
    ensures var (done, error) := CutAll(pages, lines, debug);
            var rs := PageCuts(pages, lines, debug);
            && (error.None? <==> |done| == |pages|)
            && (error.None? <==> forall k :: 0 <= k < |pages| ==> rs[k].Ok?)
            && (forall k :: 0 <= k < |done| ==> rs[k] == Ok(done[k]))
            && (error.Some? ==> rs[|done|] == Err(error.value))
  {
    CollectCount(PageCuts(pages, lines, debug), 0);
  }

  /** Once an image is missing, no later page saves debug output. */
  lemma DebugStaysOff(pages: seq<PageInput>, lines: seq<Option<seq<int>>>, debug: bool, j: nat, k: nat)
    requires j < k < |CutAll(pages, lines, debug).0| && !pages[j].found
    ensures CutAll(pages, lines, debug).0[k].saved.Some? ==> !CutAll(pages, lines, debug).0[k].saved.value.debugSaved
  {
    CutAllMeaning(pages, lines, debug);
    PageCutsEntry(pages, lines, debug, k);
    assert !DebugAt(pages, k, debug);
    CutPageMeaning(pages[k].image, pages[k].path, pages[k].found, pages[k].width, pages[k].height,
                   DebugAt(pages, k, debug), pages[k].box, lines);
  }

  // ---------------------------------------------------------------- properties

  /** A box wholly right of the middle goes right, and one wholly left of it goes left. */
  lemma LineSideClear(b: seq<int>, middle: real)
    requires |b| >= 3
    ensures b[0] as real > middle ==> LineSide(Some(b), middle) == Ok(Right)
    ensures b[0] as real <= middle && (b[2] as real) < middle ==> LineSide(Some(b), middle) == Ok(Left)
    ensures LineSide(Some(b), middle).Ok?
  {
  }

  /**
    The straddle test reads the top edge: two boxes with the same horizontal extent across the
    middle can land on different sides when only their `y0` differs.
   */
  lemma LineSideReadsTop()
    ensures LineSide(Some([40, 0, 60, 10]), 50.0) == Ok(Left)
    ensures LineSide(Some([40, 45, 60, 55]), 50.0) == Ok(Right)
  {
  }

  /** The scan fails exactly when some line has no box or too short a box. */
  lemma {:induction false} SidesFail(lines: seq<Option<seq<int>>>, middle: real, left: seq<int>, right: seq<int>)
    ensures Sides(lines, middle, left, right).Err? <==> exists k :: 0 <= k < |lines| && LineSide(lines[k], middle).Err?
    decreases |lines|
  {
    if lines != [] {
      var tail := lines[1..];
      assert forall k :: 1 <= k < |lines| ==> lines[k] == tail[k - 1];
      match LineSide(lines[0], middle)
      case Err(e) =>
      case Ok(Right) =>
        SidesFail(tail, middle, left, right + [lines[0].value[0]]);
      case Ok(Left) =>
        SidesFail(tail, middle, left + [lines[0].value[2]], right);
    }
  }

  /** Every line lands in one list, its `x0` among the right starts or its `x1` among the left ends. */
  lemma {:induction false} SidesMeaning(lines: seq<Option<seq<int>>>, middle: real, left: seq<int>, right: seq<int>)
    requires Sides(lines, middle, left, right).Ok?
    ensures var (l, r) := Sides(lines, middle, left, right).value;
            && |l| + |r| == |left| + |right| + |lines|
            && left <= l && right <= r
            && (forall k :: 0 <= k < |lines| && LineSide(lines[k], middle) == Ok(Right) ==> lines[k].value[0] in r)
            && (forall k :: 0 <= k < |lines| && LineSide(lines[k], middle) == Ok(Left) ==> lines[k].value[2] in l)
    decreases |lines|
  {
    if lines != [] {
      var tail := lines[1..];
      var (l, r) := Sides(lines, middle, left, right).value;
      assert forall k :: 1 <= k < |lines| ==> lines[k] == tail[k - 1];
      if LineSide(lines[0], middle) == Ok(Right) {
        var right' := right + [lines[0].value[0]];
        assert Sides(lines, middle, left, right) == Sides(tail, middle, left, right');
        SidesMeaning(tail, middle, left, right');
        assert right' <= r && right <= right';
        assert lines[0].value[0] == r[|right|];
      } else {
        var left' := left + [lines[0].value[2]];
        assert Sides(lines, middle, left, right) == Sides(tail, middle, left', right);
        SidesMeaning(tail, middle, left', right);
        assert left' <= l && left <= left';
        assert lines[0].value[2] == l[|left|];
      }
    }
  }

  /**
    When the page succeeds, the cut lies between the two medians, each median belongs to its
    list, and the left and right crops meet at the cut column and cover the image width.
   */
  lemma CutPageMeaning(image: Option<string>, path: string, found: bool, width: int, height: int, debug: bool,
                       page: Option<seq<int>>, lines: seq<Option<seq<int>>>)
    ensures var r := CutPageOf(image, path, found, width, height, debug, page, lines);
            && (image.None? ==> r == Err(AssertionError))
            && (r.Ok? ==> CutColumns(page, lines) == Ok(r.value.columns))
            && (r.Ok? ==> (r.value.saved.Some? <==> found))
            && (r.Ok? && found ==>
                  var s := r.value.saved.value;
                  && s.left.x1 == s.right.x0 == r.value.columns.cut
                  && (s.left.x1 - s.left.x0) + (s.right.x1 - s.right.x0) == width
                  && s.debugSaved == debug && OutputNames(path) == Ok(s.names))
  {
  }

  /** The cut column lies between the medians of the left ends and of the right starts. */
  lemma CutColumnsMeaning(page: Option<seq<int>>, lines: seq<Option<seq<int>>>)
    ensures CutColumns(page, lines).Ok? ==>
              var c := CutColumns(page, lines).value;
              var s := Sides(lines, Middle(page).value, [], []).value;
              && Middle(page).Ok? && Sides(lines, Middle(page).value, [], []).Ok?
              && c.middleLeft in s.0 && c.middleRight in s.1
              && |s.0| + |s.1| == |lines|
              && (c.middleLeft <= c.middleRight ==> c.middleLeft <= c.cut <= c.middleRight)
              && (c.middleRight <= c.middleLeft ==> c.middleRight <= c.cut <= c.middleLeft)
    ensures Middle(page).Ok? && Sides(lines, Middle(page).value, [], []).Ok? ==>
              var s := Sides(lines, Middle(page).value, [], []).value;
              (CutColumns(page, lines).Ok? <==> s.0 != [] && s.1 != [])
  {
    if Middle(page).Ok? && Sides(lines, Middle(page).value, [], []).Ok? {
      var s := Sides(lines, Middle(page).value, [], []).value;
      SidesFail(lines, Middle(page).value, [], []);
      SidesMeaning(lines, Middle(page).value, [], []);
      UpperMedianMeaning(s.0);
      UpperMedianMeaning(s.1);
      if CutColumns(page, lines).Ok? {
        var c := CutColumns(page, lines).value;
        CutBetween(c.middleLeft, c.middleRight);
      }
    }
  }
}
