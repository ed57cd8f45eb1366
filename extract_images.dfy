/**
  Extracting one image and one text file per hOCR line: the padding and file-pattern options,
  the box of each line padded and clamped to the page image, skipped when empty, and the line
  numbering of what is written.
 */
module ExtractImages {
  import opened Wrappers
  import opened PyStr
  import opened NodeUtils

  function Max(a: int, b: int): int { if a >= b then a else b }
  function Min(a: int, b: int): int { if a <= b then a else b }

  // ---------------------------------------------------------------- options

  /** The parsed `--pad` list: one value stands for all four sides, four values are kept as given. */
  function Padding(pad: Option<seq<int>>): Result<Option<seq<int>>>
  {
    if pad.None? then Ok(None)
    else if |pad.value| == 1 then Ok(Some([pad.value[0], pad.value[0], pad.value[0], pad.value[0]]))
    else if |pad.value| == 4 then Ok(Some(pad.value))
    else Err(AssertionError)
  }

  /** Only lists of one or four values pass; what passes has four entries, each side's padding. */
  lemma PaddingMeaning(pad: Option<seq<int>>)
    ensures Padding(pad).Err? <==> pad.Some? && |pad.value| != 1 && |pad.value| != 4
    ensures Padding(pad).Err? ==> Padding(pad).error == AssertionError
    ensures pad.None? ==> Padding(pad) == Ok(None)
    ensures Padding(pad).Ok? && pad.Some? ==>
              var q := Padding(pad).value;
              && q.Some? && |q.value| == 4
              && (|pad.value| == 4 ==> q.value == pad.value)
              && (|pad.value| == 1 ==> forall k :: 0 <= k < 4 ==> q.value[k] == pad.value[0])
  {
  }

  /**
    The pattern of the text files: a pattern whose fourth character from the end is a dot has
    its last three characters replaced by `txt`; any other gets `.txt` appended. A pattern of
    fewer than four characters raises `IndexError`.
   */
  function TxtPattern(pattern: string): Result<string>
  {
    if |pattern| < 4 then Err(IndexError)
    else if pattern[|pattern| - 4] == '.' then Ok(pattern[..|pattern| - 3] + "txt")
    else Ok(pattern + ".txt")
  }

  /** The text pattern keeps everything up to the extension and always ends in `.txt`. */
  lemma TxtPatternMeaning(pattern: string)
    ensures TxtPattern(pattern).Ok? <==> |pattern| >= 4
    ensures TxtPattern(pattern).Ok? ==>
              var t := TxtPattern(pattern).value;
              && |t| >= 4 && t[|t| - 4..] == ".txt"
              && (pattern[|pattern| - 4] == '.' ==> |t| == |pattern| && t[..|t| - 3] == pattern[..|pattern| - 3])
              && (pattern[|pattern| - 4] != '.' ==> t[..|pattern|] == pattern)
  {
    if |pattern| >= 4 {
      var t := TxtPattern(pattern).value;
      if pattern[|pattern| - 4] == '.' {
        assert t[|t| - 4..] == [pattern[|pattern| - 4]] + "txt";
      } else {
        assert t[..|pattern|] == pattern;
      }
    }
  }

  /** `base.ext` with a three-character extension gives `base.txt`. */
  lemma TxtPatternDotted(base: string, ext: string)
    requires |ext| == 3
    ensures TxtPattern(base + "." + ext) == Ok(base + ".txt")
  {
    var p := base + "." + ext;
    assert p[|p| - 4] == '.';
    assert p[..|p| - 3] == base + ".";
    assert base + "." + "txt" == base + ".txt";
  }

  // ---------------------------------------------------------------- the image of a page

  /** `os.path.basename`: what follows the last `/`. */
  function BaseName(path: string): (r: string)
    ensures |r| <= |path|
  {
    if path == [] then []
    else if path[|path| - 1] == '/' then []
    else BaseName(path[..|path| - 1]) + [path[|path| - 1]]
  }

  /** `os.path.join(dir, name)` for a `name` that does not start with `/`. */
  function JoinPath(dir: string, name: string): string
  {
    if dir == [] || dir[|dir| - 1] == '/' then dir + name else dir + "/" + name
  }

  /**
    The image file of a page from its `file` and `image` properties (both read with quotes
    stripped): `file` unless it is absent or empty, and only then `image`, moved into the
    directory `basename` when one is given. No name at all raises `TypeError` in the path
    functions.
   */
  function ChooseName(file: Result<Option<string>>, image: Result<Option<string>>, basename: Option<string>): Result<string>
  {
    match file
    case Err(e) => Err(e)
    case Ok(f) =>
      var chosen: Result<Option<string>> := if f.Some? && f.value != [] then Ok(f) else image;
      match chosen
      case Err(e) => Err(e)
      case Ok(None) => Err(TypeError)
      case Ok(Some(name)) =>
        if basename.Some? && basename.value != [] then Ok(JoinPath(basename.value, BaseName(name)))
        else Ok(name)
  }

  function ImageName(title: Option<string>, basename: Option<string>): Result<string>
  {
    ChooseName(PropOf(title, "file", true), PropOf(title, "image", true), basename)
  }

  /**
    The `file` property wins over `image`, which is read only when `file` is absent or empty
    (so a malformed `image` property raises nothing then); with neither, `TypeError`.
   */
  lemma ChooseNamePrefersFile(file: Result<Option<string>>, image: Result<Option<string>>)
    ensures file.Ok? && file.value.Some? && file.value.value != [] ==> ChooseName(file, image, None) == Ok(file.value.value)
    ensures file.Err? ==> ChooseName(file, image, None) == Err(file.error)
    ensures file.Ok? && (file.value.None? || file.value.value == []) ==>
              && (image.Err? ==> ChooseName(file, image, None) == Err(image.error))
              && (image == Ok(None) ==> ChooseName(file, image, None) == Err(TypeError))
              && (image.Ok? && image.value.Some? ==> ChooseName(file, image, None) == Ok(image.value.value))
  {
  }

  /** With a directory, only the last component of the chosen name is kept, under that directory. */
  lemma ChooseNameInDirectory(file: Result<Option<string>>, image: Result<Option<string>>, dir: string)
    requires dir != [] && dir[|dir| - 1] != '/'
    ensures ChooseName(file, image, Some(dir)).Ok? <==> ChooseName(file, image, None).Ok?
    ensures ChooseName(file, image, Some(dir)).Ok? ==>
              ChooseName(file, image, Some(dir)).value == dir + "/" + BaseName(ChooseName(file, image, None).value)
  {
  }

  /** The last component has no `/` and ends the path, right after its last `/`. */
  lemma BaseNameMeaning(path: string)
    ensures var r := BaseName(path);
            && (forall k :: 0 <= k < |r| ==> r[k] != '/')
            && |r| <= |path| && r == path[|path| - |r|..]
            && (|r| < |path| ==> path[|path| - |r| - 1] == '/')
  {
  }

  // ---------------------------------------------------------------- one line

  /** A line capture: its `title` attribute and its text nodes. */
  datatype LineInput = LineInput(title: Option<string>, texts: seq<string>)

  /** What becomes of a line: skipped, or its crop box and its text written out. */
  datatype Outcome = Skip | Emit(box: seq<int>, text: string)

  /** The box after padding: the top left corner moves out but not below 0, the bottom right not past the image. */
  function Padded(b: seq<int>, p: seq<int>, w: int, h: int): (r: seq<int>)
    requires |b| >= 4 && |p| == 4
    ensures |r| == |b|
  {
    b[0 := Max(b[0] - p[0], 0)][1 := Max(b[1] - p[1], 0)][2 := Min(b[2] + p[2], w)][3 := Min(b[3] + p[3], h)]
  }

  /**
    The line's `bbox`, read with `get_prop(...).split()`: a line without one raises
    `AttributeError`, a token that is not an integer `ValueError`.
   */
  function LineBox(title: Option<string>): Result<seq<int>>
  {
    match PropOf(title, "bbox", false)
    case Err(e) => Err(e)
    case Ok(None) => Err(AttributeError)
    case Ok(Some(v)) => ParseInts(Words(v))
  }

  /**
    One line: padding when asked for, then skipped when `x0 > x1` or `y0 >= y1`. Only the first
    three coordinates are read when the line is skipped on its width.
   */
  function LineOf(line: LineInput, padding: Option<seq<int>>, w: int, h: int): Result<Outcome>
    requires padding.Some? ==> |padding.value| == 4
  {
    match LineBox(line.title)
    case Err(e) => Err(e)
    case Ok(b0) => BoxOutcome(b0, line.texts, padding, w, h)
  }

  /** What a line with the coordinates `b0` and the text nodes `texts` becomes. */
  function BoxOutcome(b0: seq<int>, texts: seq<string>, padding: Option<seq<int>>, w: int, h: int): Result<Outcome>
    requires padding.Some? ==> |padding.value| == 4
  {
    if padding.Some? && |b0| < 4 then Err(IndexError)
    else
      var b := if padding.Some? then Padded(b0, padding.value, w, h) else b0;
      if |b| < 3 then Err(IndexError)
      else if b[0] > b[2] then Ok(Skip)
      else if |b| < 4 then Err(IndexError)
      else if b[1] >= b[3] then Ok(Skip)
      else Ok(Emit(b, GetText(texts)))
  }

  /** `bbox[0] = max(bbox[0] - padding[0], 0)` and the three like it, in place. */
  method PadBox(bbox: array<int>, p: seq<int>, w: int, h: int)
    requires bbox.Length >= 4 && |p| == 4
    modifies bbox
    ensures bbox[..] == Padded(old(bbox[..]), p, w, h)
  {
    bbox[0] := Max(bbox[0] - p[0], 0);
    bbox[1] := Max(bbox[1] - p[1], 0);
    bbox[2] := Min(bbox[2] + p[2], w);
    bbox[3] := Min(bbox[3] + p[3], h);
  }

  /** `[int(x) for x in get_prop(line, 'bbox').split()]`. */
  method ReadBox(title: Option<string>) returns (r: Result<seq<int>>)
    ensures r == LineBox(title)
  {
    var prop := GetProp(title, "bbox", false);
    if prop.Err? {
      return Err(prop.error);
    }
    if prop.value.None? {
      return Err(AttributeError);
    }
    return ParseInts(Words(prop.value.value));
  }

  /** The padding, clamping and skip test on the list `bbox`, changed in place. */
  method TestBox(b0: seq<int>, texts: seq<string>, padding: Option<seq<int>>, w: int, h: int) returns (r: Result<Outcome>)
    requires padding.Some? ==> |padding.value| == 4
    ensures r == BoxOutcome(b0, texts, padding, w, h)
  {
    var bbox := new int[|b0|](k requires 0 <= k < |b0| => b0[k]);
    assert bbox[..] == b0;
    if padding.Some? {
      if bbox.Length < 4 {
        return Err(IndexError);
      }
      PadBox(bbox, padding.value, w, h);
    }
    if bbox.Length < 3 {
      return Err(IndexError);
    }
    if bbox[0] > bbox[2] {
      return Ok(Skip);
    }
    if bbox.Length < 4 {
      return Err(IndexError);
    }
    if bbox[1] >= bbox[3] {
      return Ok(Skip);
    }
    return Ok(Emit(bbox[..], GetText(texts)));
  }

  /** The body of the line loop, up to the crop and the text written out. */
  method ProcessLine(line: LineInput, padding: Option<seq<int>>, w: int, h: int) returns (r: Result<Outcome>)
    requires padding.Some? ==> |padding.value| == 4
    ensures r == LineOf(line, padding, w, h)
  {
    var box := ReadBox(line.title);
    if box.Err? {
      return Err(box.error);
    }
    r := TestBox(box.value, line.texts, padding, w, h);
  }

  /**
    A written box is not inverted: `x0 <= x1` and `y0 < y1`; with padding it lies inside the
    image, `0 <= x0`, `0 <= y0`, `x1 <= w`, `y1 <= h`, and it is the padded and clamped box of the
    line. Boxes of fewer than four coordinates are never written.
   */
  lemma BoxOutcomeEmits(b0: seq<int>, texts: seq<string>, padding: Option<seq<int>>, w: int, h: int)
    requires padding.Some? ==> |padding.value| == 4
    ensures BoxOutcome(b0, texts, padding, w, h).Ok? && BoxOutcome(b0, texts, padding, w, h).value.Emit? ==>
              var b := BoxOutcome(b0, texts, padding, w, h).value.box;
              && |b| == |b0| >= 4
              && b[0] <= b[2] && b[1] < b[3]
              && BoxOutcome(b0, texts, padding, w, h).value.text == GetText(texts)
              && (padding.None? ==> b == b0)
              && (padding.Some? ==> b == Padded(b0, padding.value, w, h) && 0 <= b[0] && 0 <= b[1] && b[2] <= w && b[3] <= h)
  {
  }

  /** A box of four coordinates or more is skipped exactly when it is inverted in x or empty in y. */
  lemma BoxOutcomeSkips(b0: seq<int>, texts: seq<string>, padding: Option<seq<int>>, w: int, h: int)
    requires padding.Some? ==> |padding.value| == 4
    requires |b0| >= 4
    ensures var b := if padding.Some? then Padded(b0, padding.value, w, h) else b0;
            && BoxOutcome(b0, texts, padding, w, h).Ok?
            && (BoxOutcome(b0, texts, padding, w, h) == Ok(Skip) <==> b[0] > b[2] || b[1] >= b[3])
  {
  }

  /**
    The failures: with padding, fewer than four coordinates raise `IndexError`; without it, so do
    fewer than three, and exactly three unless the box is inverted in x.
   */
  lemma BoxOutcomeFails(b0: seq<int>, texts: seq<string>, padding: Option<seq<int>>, w: int, h: int)
    requires padding.Some? ==> |padding.value| == 4
    ensures BoxOutcome(b0, texts, padding, w, h).Err? ==> BoxOutcome(b0, texts, padding, w, h).error == IndexError
    ensures padding.Some? ==> (BoxOutcome(b0, texts, padding, w, h).Err? <==> |b0| < 4)
    ensures padding.None? ==> (BoxOutcome(b0, texts, padding, w, h).Err? <==> |b0| < 3 || (|b0| == 3 && b0[0] <= b0[2]))
  {
  }

  /** The test is lopsided: a box of zero width is written, one of zero height is skipped. */
  lemma ZeroWidthKeptZeroHeightSkipped(texts: seq<string>)
    ensures BoxOutcome([10, 20, 10, 30], texts, None, 100, 100) == Ok(Emit([10, 20, 10, 30], GetText(texts)))
    ensures BoxOutcome([10, 20, 30, 20], texts, None, 100, 100) == Ok(Skip)
  {
  }

  /** `get_prop(...).split()` read as integers agrees with `get_bbox` wherever the latter finds a box. */
  lemma LineBoxAgrees(title: Option<string>)
    ensures GetBbox(title).Ok? && GetBbox(title).value.Some? ==> LineBox(title) == Ok(GetBbox(title).value.value)
    ensures PropOf(title, "bbox", false) == Ok(None) ==> GetBbox(title) == Ok(None) && LineBox(title) == Err(AttributeError)
  {
  }

  // ---------------------------------------------------------------- one page

  /** A written line: its number in the output patterns, its crop box and its text. */
  datatype Written = Written(number: nat, box: seq<int>, text: string)

  /** The emitted outcomes numbered from `first` on, skipped lines taking no number. */
  function Number(outs: seq<Outcome>, first: nat): seq<Written>
  {
    if outs == [] then []
    else match outs[0]
      case Skip => Number(outs[1..], first)
      case Emit(b, t) => [Written(first, b, t)] + Number(outs[1..], first + 1)
  }

  function LineResults(lines: seq<LineInput>, padding: Option<seq<int>>, w: int, h: int): (rs: seq<Result<Outcome>>)
    requires padding.Some? ==> |padding.value| == 4
    ensures |rs| == |lines|
  {
    seq(|lines|, k requires 0 <= k < |lines| => LineOf(lines[k], padding, w, h))
  }

  /** What a page leaves behind: the lines written, and the error that ended the run, if any. */
  datatype PageRun = PageRun(written: seq<Written>, error: Option<Error>)

  /** The run of a list of line results: the outcomes up to the first error, numbered from 1. */
  function Run(rs: seq<Result<Outcome>>): PageRun
  {
    var (outs, err) := Collect(rs, 0);
    PageRun(Number(outs, 1), err)
  }

  /** The lines of a page in order, numbered from 1, up to the first line that raises. */
  function LinesOf(lines: seq<LineInput>, padding: Option<seq<int>>, w: int, h: int): PageRun
    requires padding.Some? ==> |padding.value| == 4
  {
    Run(LineResults(lines, padding, w, h))
  }

  /** The state of the inner loop before line `i`: the outcomes so far, numbered, and the next number. */
  predicate RunSoFar(rs: seq<Result<Outcome>>, i: nat, outs: seq<Outcome>, written: seq<Written>, lineCount: int)
  {
    && i <= |rs|
    && Collect(rs, 0) == (outs + Collect(rs, i).0, Collect(rs, i).1)
    && written == Number(outs, 1) && lineCount == |written| + 1
  }

  lemma RunStart(rs: seq<Result<Outcome>>)
    ensures RunSoFar(rs, 0, [], [], 1)
  {
    assert [] + Collect(rs, 0).0 == Collect(rs, 0).0;
  }

  /** One line: an error ends the run with the lines written so far; an outcome moves the state on. */
  lemma RunStep(rs: seq<Result<Outcome>>, i: nat, outs: seq<Outcome>, written: seq<Written>, lineCount: int)
    requires i < |rs| && RunSoFar(rs, i, outs, written, lineCount)
    ensures rs[i].Err? ==> Run(rs) == PageRun(written, Some(rs[i].error))
    ensures rs[i].Ok? ==>
              var o := rs[i].value;
              RunSoFar(rs, i + 1, outs + [o],
                       written + (if o.Emit? then [Written(lineCount, o.box, o.text)] else []),
                       lineCount + (if o.Emit? then 1 else 0))
  {
    CollectStep(rs, i, outs);
    if rs[i].Ok? {
      NumberStep(outs, rs[i].value, written, lineCount);
    }
  }

  lemma RunEnd(rs: seq<Result<Outcome>>, outs: seq<Outcome>, written: seq<Written>, lineCount: int)
    requires RunSoFar(rs, |rs|, outs, written, lineCount)
    ensures Run(rs) == PageRun(written, None)
  {
    CollectStep(rs, |rs|, outs);
  }

  /** The inner loop: `line_count` starts at 1 and goes up by one per line written. */
  method ExtractLines(lines: seq<LineInput>, padding: Option<seq<int>>, w: int, h: int) returns (r: PageRun)
    requires padding.Some? ==> |padding.value| == 4
    ensures r == LinesOf(lines, padding, w, h)
  {
    ghost var rs := LineResults(lines, padding, w, h);
    ghost var outs: seq<Outcome> := [];
    var written: seq<Written> := [];
    var lineCount := 1;
    RunStart(rs);
    for i := 0 to |lines|
      invariant RunSoFar(rs, i, outs, written, lineCount)
    {
      var o := ProcessLine(lines[i], padding, w, h);
      LineResultsEntry(lines, padding, w, h, i);
      RunStep(rs, i, outs, written, lineCount);
      if o.Err? {
        return PageRun(written, Some(o.error));
      }
      outs := outs + [o.value];
      if o.value.Emit? {
        written := written + [Written(lineCount, o.value.box, o.value.text)];
        lineCount := lineCount + 1;
      }
    }
    RunEnd(rs, outs, written, lineCount);
    return PageRun(written, None);
  }

  /** One turn of the inner loop, as the numbering sees it. */
  lemma NumberStep(outs: seq<Outcome>, o: Outcome, written: seq<Written>, lineCount: nat)
    requires written == Number(outs, 1) && lineCount == |written| + 1
    ensures Number(outs + [o], 1) == written + (if o.Emit? then [Written(lineCount, o.box, o.text)] else [])
  {
    NumberAppend(outs, o, 1);
  }

  /** Numbering one more outcome appends at most one line, numbered after the others. */
  lemma {:induction false} NumberAppend(outs: seq<Outcome>, o: Outcome, first: nat)
    ensures Number(outs + [o], first) ==
            Number(outs, first) + (if o.Emit? then [Written(first + |Number(outs, first)|, o.box, o.text)] else [])
    decreases |outs|
  {
    if outs == [] {
      assert [o][1..] == [];
    } else {
      assert (outs + [o])[1..] == outs[1..] + [o];
      match outs[0]
      case Skip => NumberAppend(outs[1..], o, first);
      case Emit(b, t) => NumberAppend(outs[1..], o, first + 1);
    }
  }

  /** The numbers are `first, first + 1, ...` without gaps, one per emitted outcome, in order. */
  lemma {:induction false} NumberMeaning(outs: seq<Outcome>, first: nat)
    ensures forall k :: 0 <= k < |Number(outs, first)| ==> Number(outs, first)[k].number == first + k
    ensures forall k :: 0 <= k < |Number(outs, first)| ==>
              Emit(Number(outs, first)[k].box, Number(outs, first)[k].text) in outs
    ensures (forall k :: 0 <= k < |outs| ==> outs[k].Emit?) ==> |Number(outs, first)| == |outs|
    ensures |Number(outs, first)| <= |outs|
    decreases |outs|
  {
    if outs != [] {
      NumberMeaning(outs[1..], if outs[0].Emit? then first + 1 else first);
      var ws := Number(outs, first);
      var tail := Number(outs[1..], if outs[0].Emit? then first + 1 else first);
      forall k | 0 <= k < |ws|
        ensures ws[k].number == first + k && Emit(ws[k].box, ws[k].text) in outs
      {
        if outs[0].Emit? && k > 0 {
          assert ws[k] == tail[k - 1];
          assert Emit(ws[k].box, ws[k].text) in outs[1..];
        } else if outs[0].Skip? {
          assert ws[k] == tail[k];
          assert Emit(ws[k].box, ws[k].text) in outs[1..];
        }
      }
      assert forall k :: 1 <= k < |outs| ==> outs[1..][k - 1] == outs[k];
    }
  }

  /** Line `j` of a page gives the outcome `LineOf` says. */
  lemma LineResultsEntry(lines: seq<LineInput>, padding: Option<seq<int>>, w: int, h: int, j: nat)
    requires padding.Some? ==> |padding.value| == 4
    requires j < |lines|
    ensures LineResults(lines, padding, w, h)[j] == LineOf(lines[j], padding, w, h)
  {
  }

  /**
    The lines written from a page are numbered 1 to k without gaps, k at most the number of
    lines, each the outcome of some line; the run ends early exactly when some line raises.
   */
  lemma LinesOfMeaning(lines: seq<LineInput>, padding: Option<seq<int>>, w: int, h: int)
    requires padding.Some? ==> |padding.value| == 4
    ensures var r := LinesOf(lines, padding, w, h);
            var rs := LineResults(lines, padding, w, h);
            && |r.written| <= |lines|
            && (forall k :: 0 <= k < |r.written| ==> r.written[k].number == k + 1)
            && (forall k :: 0 <= k < |r.written| ==>
                  exists j :: 0 <= j < |lines| && rs[j] == Ok(Emit(r.written[k].box, r.written[k].text)))
            && (r.error.None? <==> forall j :: 0 <= j < |lines| ==> rs[j].Ok?)
  {
    RunMeaning(LineResults(lines, padding, w, h));
  }

  /** The run of any list of results, as `LinesOfMeaning` states it for a page. */
  lemma RunMeaning(rs: seq<Result<Outcome>>)
    ensures var r := Run(rs);
            && |r.written| <= |rs|
            && (forall k :: 0 <= k < |r.written| ==> r.written[k].number == k + 1)
            && (forall k :: 0 <= k < |r.written| ==>
                  exists j :: 0 <= j < |rs| && rs[j] == Ok(Emit(r.written[k].box, r.written[k].text)))
            && (r.error.None? <==> forall j :: 0 <= j < |rs| ==> rs[j].Ok?)
  {
    var (outs, err) := Collect(rs, 0);
    CollectCount(rs, 0);
    NumberMeaning(outs, 1);
    var ws := Number(outs, 1);
    forall k | 0 <= k < |ws|
      ensures exists j :: 0 <= j < |rs| && rs[j] == Ok(Emit(ws[k].box, ws[k].text))
    {
      var j :| 0 <= j < |outs| && outs[j] == Emit(ws[k].box, ws[k].text);
      assert rs[j] == Ok(outs[j]);
    }
  }

  // ---------------------------------------------------------------- the document

  /**
    What one `ocr_page` supplies: its `title` attribute, the size of its image, and its lines
    (the lines matched for it, taken as given).
   */
  datatype PageInput = PageInput(title: Option<string>, width: int, height: int, lines: seq<LineInput>)

  /** One page: find its image, which must exist, then its lines. */
  function PageOf(page: PageInput, basename: Option<string>, existing: set<string>, padding: Option<seq<int>>): PageRun
    requires padding.Some? ==> |padding.value| == 4
  {
    match ImageName(page.title, basename)
    case Err(e) => PageRun([], Some(e))
    case Ok(name) =>
      if name !in existing then PageRun([], Some(FileNotFoundError))
      else LinesOf(page.lines, padding, page.width, page.height)
  }

  /** The pages from `i` on, up to and including the first page that raises. */
  function PagesFrom(runs: seq<PageRun>, i: nat): (seq<seq<Written>>, Option<Error>)
    decreases |runs| - i
  {
    if i >= |runs| then ([], None)
    else if runs[i].error.Some? then ([runs[i].written], runs[i].error)
    else
      var rest := PagesFrom(runs, i + 1);
      ([runs[i].written] + rest.0, rest.1)
  }

  function PageRuns(pages: seq<PageInput>, basename: Option<string>, existing: set<string>, padding: Option<seq<int>>)
    : (rs: seq<PageRun>)
    requires padding.Some? ==> |padding.value| == 4
    ensures |rs| == |pages|
  {
    seq(|pages|, k requires 0 <= k < |pages| => PageOf(pages[k], basename, existing, padding))
  }

  /**
    The whole run: the options are checked first, then each page in order. `existing` is the
    set of paths that exist on disk.
   */
  function ExtractAll(pages: seq<PageInput>, pad: Option<seq<int>>, pattern: string, basename: Option<string>,
                      existing: set<string>): (seq<seq<Written>>, Option<Error>)
  {
    match Padding(pad)
    case Err(e) => ([], Some(e))
    case Ok(padding) =>
      PaddingMeaning(pad);
      match TxtPattern(pattern)
      case Err(e) => ([], Some(e))
      case Ok(_) => PagesFrom(PageRuns(pages, basename, existing, padding), 0)
  }

  /** `extract_images`: the lines written per page, and the error that stopped the run, if any. */
  method ExtractImagesOf(pages: seq<PageInput>, pad: Option<seq<int>>, pattern: string, basename: Option<string>,
                         existing: set<string>) returns (done: seq<seq<Written>>, error: Option<Error>)
    ensures (done, error) == ExtractAll(pages, pad, pattern, basename, existing)
  {
    var padding := Padding(pad);
    if padding.Err? {
      return [], Some(padding.error);
    }
    PaddingMeaning(pad);
    var txt := TxtPattern(pattern);
    if txt.Err? {
      return [], Some(txt.error);
    }
    done, error := ExtractPages(pages, basename, existing, padding.value);
  }

  /** The outer loop over the pages, once the options are known to be good. */
  method ExtractPages(pages: seq<PageInput>, basename: Option<string>, existing: set<string>, padding: Option<seq<int>>)
    returns (done: seq<seq<Written>>, error: Option<Error>)
    requires padding.Some? ==> |padding.value| == 4
    ensures (done, error) == PagesFrom(PageRuns(pages, basename, existing, padding), 0)
  {
    ghost var runs := PageRuns(pages, basename, existing, padding);
    done, error := [], None;
    assert done + PagesFrom(runs, 0).0 == PagesFrom(runs, 0).0;
    for i := 0 to |pages|
      invariant PagesFrom(runs, 0) == (done + PagesFrom(runs, i).0, PagesFrom(runs, i).1)
    {
      var run := ExtractPage(pages[i], basename, existing, padding);
      assert run == runs[i];
      PagesFromStep(runs, i, done);
      done := done + [run.written];
      if run.error.Some? {
        return done, run.error;
      }
    }
    PagesFromStep(runs, |pages|, done);
  }

  /** One turn of the outer loop: the page's image must exist before its lines are cut out. */
  method ExtractPage(page: PageInput, basename: Option<string>, existing: set<string>, padding: Option<seq<int>>)
    returns (run: PageRun)
    requires padding.Some? ==> |padding.value| == 4
    ensures run == PageOf(page, basename, existing, padding)
  {
    var name := ImageName(page.title, basename);
    if name.Err? {
      run := PageRun([], Some(name.error));
    } else if name.value !in existing {
      run := PageRun([], Some(FileNotFoundError));
    } else {
      run := ExtractLines(page.lines, padding, page.width, page.height);
    }
  }

  lemma PagesFromStep(runs: seq<PageRun>, i: nat, done: seq<seq<Written>>)
    requires i <= |runs|
    ensures i == |runs| ==> (done + PagesFrom(runs, i).0, PagesFrom(runs, i).1) == (done, None)
    ensures i < |runs| && runs[i].error.Some? ==>
              (done + PagesFrom(runs, i).0, PagesFrom(runs, i).1) == (done + [runs[i].written], runs[i].error)
    ensures i < |runs| && runs[i].error.None? ==>
              (done + PagesFrom(runs, i).0, PagesFrom(runs, i).1) ==
              (done + [runs[i].written] + PagesFrom(runs, i + 1).0, PagesFrom(runs, i + 1).1)
  {
    if i < |runs| && runs[i].error.None? {
      assert done + ([runs[i].written] + PagesFrom(runs, i + 1).0) == done + [runs[i].written] + PagesFrom(runs, i + 1).0;
    } else {
      assert done + [] == done;
    }
  }

  /**
    One entry per page reached; the run stops at the first page that raises (its lines written
    so far included) and covers every page when none does.
   */
  lemma {:induction false} PagesFromMeaning(runs: seq<PageRun>, i: nat)
    requires i <= |runs|
    ensures var (done, error) := PagesFrom(runs, i);
            && |done| <= |runs| - i
            && (forall k :: 0 <= k < |done| ==> done[k] == runs[i + k].written)
            && (error.None? <==> forall k :: i <= k < |runs| ==> runs[k].error.None?)
            && (error.None? ==> |done| == |runs| - i)
            && (error.Some? ==> |done| > 0 && runs[i + |done| - 1].error == error)
            && (forall k :: i <= k < i + |done| - 1 ==> runs[k].error.None?)
    decreases |runs| - i
  {
    if i < |runs| && runs[i].error.None? {
      PagesFromMeaning(runs, i + 1);
    }
  }

  /** A page whose image cannot be found ends the run with `FileNotFoundError` and writes nothing. */
  lemma MissingImageStops(page: PageInput, basename: Option<string>, existing: set<string>, padding: Option<seq<int>>)
    requires padding.Some? ==> |padding.value| == 4
    requires ImageName(page.title, basename).Ok? && ImageName(page.title, basename).value !in existing
    ensures PageOf(page, basename, existing, padding) == PageRun([], Some(FileNotFoundError))
  {
  }
}
