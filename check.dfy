/**
  The hOCR conformance checker: a numbered `ok` / `not ok` line per check, the structure checks
  (meta information, a page, every line, paragraph and content area inside a page) and, unless
  overlap checks are disabled, three overlap checks per page.
 */
module Check {
  import opened Wrappers
  import opened PyStr
  import opened NodeUtils
  import opened Rectangles

  // ---------------------------------------------------------------- report lines

  /** A check: its outcome and its message. */
  type Outcome = (bool, Message)

  /** A check's message: a fixed note, or the note on element `index` of a kind not placed in a page. */
  datatype Message = Says(note: string) | Placement(kind: string, index: int)

  /** The text of a message; `f"{kind} {idx:2d} in an ocr_page"` for a placement. */
  function MessageText(m: Message): string
  {
    match m
    case Says(note) => note
    case Placement(kind, index) => kind + " " + RJust(IntToString(index), 2) + " in an ocr_page"
  }

  /** What `test_ok` writes for one check: its outcome, its number and its message. */
  datatype Line = Line(ok: bool, number: int, msg: Message)

  /** The text of a line: `"ok n - msg\n"`, with `"not "` in front on failure. */
  function Text(l: Line): string
  {
    (if l.ok then "" else "not ") + "ok " + IntToString(l.number) + " - " + MessageText(l.msg) + "\n"
  }

  /** The lines of the checks `cs`, numbered on from `n`. */
  function Reports(n: int, cs: seq<Outcome>): (lines: seq<Line>)
    ensures |lines| == |cs|
  {
    seq(|cs|, k requires 0 <= k < |cs| => Line(cs[k].0, n + k + 1, cs[k].1))
  }

  /**
    A failed check's text starts with `not ok `, a passed one's with `ok `; then come the number
    and the message, and the line ends.
   */
  lemma TextMeaning(l: Line)
    ensures var line := Text(l);
            var start := if l.ok then 3 else 7;
            && (l.ok ==> line[..3] == "ok ")
            && (!l.ok ==> line[..7] == "not ok ")
            && line[start..start + |IntToString(l.number)|] == IntToString(l.number)
            && line[|line| - |MessageText(l.msg)| - 1..|line| - 1] == MessageText(l.msg)
            && line[|line| - 1] == '\n'
  {
  }

  lemma ReportsConcat(n: int, a: seq<Outcome>, b: seq<Outcome>)
    ensures Reports(n, a + b) == Reports(n, a) + Reports(n + |a|, b)
  {
  }

  lemma ReportsAppend(n: int, cs: seq<Outcome>, c: Outcome)
    ensures Reports(n, cs + [c]) == Reports(n, cs) + [Line(c.0, n + |cs| + 1, c.1)]
  {
    ReportsConcat(n, cs, [c]);
  }

  /** Writing the lines of `a` and then those of `b` writes the lines of `a + b`. */
  lemma ReportsThen(log0: seq<Line>, n0: int, a: seq<Outcome>, log1: seq<Line>, n1: int, b: seq<Outcome>, log2: seq<Line>)
    requires log1 == log0 + Reports(n0, a) && n1 == n0 + |a|
    requires log2 == log1 + Reports(n1, b)
    ensures log2 == log0 + Reports(n0, a + b)
  {
    ReportsConcat(n0, a, b);
    assert log0 + Reports(n0, a) + Reports(n1, b) == log0 + (Reports(n0, a) + Reports(n1, b));
  }

  // ---------------------------------------------------------------- the structure checks

  /**
    What the structure checks look at: whether the two metas and a page are present, and for
    each line, paragraph and content area whether it has a page among its ancestors.
   */
  datatype Structure = Structure(
    hasSystem: bool, hasCapabilities: bool, hasPage: bool, lines: seq<bool>, pars: seq<bool>, careas: seq<bool>)

  /** The check of each element of a kind, in order. */
  function Placed(kind: string, inPage: seq<bool>): (cs: seq<Outcome>)
    ensures |cs| == |inPage|
  {
    seq(|inPage|, i requires 0 <= i < |inPage| => (inPage[i], Placement(kind, i)))
  }

  function MetaChecks(doc: Structure): seq<Outcome>
  {
    [(doc.hasSystem, Says("//meta[@name='ocr-system']")), (doc.hasCapabilities, Says("//meta[@name='ocr-capabilities']")),
     (doc.hasPage, Says("has a page"))]
  }

  /** The checks of `check_xml_structure`, in order. */
  function StructureChecks(doc: Structure): seq<Outcome>
  {
    MetaChecks(doc) + Placed("ocr_line", doc.lines) + Placed("ocr_par", doc.pars) + Placed("ocr_carea", doc.careas)
  }

  /**
    Three checks and one per line, paragraph and content area; each element's check passes
    exactly when it lies inside a page.
   */
  lemma StructureCount(doc: Structure)
    ensures |StructureChecks(doc)| == 3 + |doc.lines| + |doc.pars| + |doc.careas|
    ensures forall i :: 0 <= i < |doc.lines| ==> StructureChecks(doc)[3 + i] == (doc.lines[i], Placement("ocr_line", i))
    ensures forall i :: 0 <= i < |doc.pars| ==>
              StructureChecks(doc)[3 + |doc.lines| + i] == (doc.pars[i], Placement("ocr_par", i))
    ensures forall i :: 0 <= i < |doc.careas| ==>
              StructureChecks(doc)[3 + |doc.lines| + |doc.pars| + i] == (doc.careas[i], Placement("ocr_carea", i))
    ensures StructureChecks(doc)[..3] == MetaChecks(doc)
  {
  }

  /** Indices below ten are padded to two columns: `ocr_line  7 in an ocr_page`. */
  lemma PaddedIndex()
    ensures MessageText(Placement("ocr_line", 7)) == "ocr_line  7 in an ocr_page"
  {
    PaddedSeven();
  }

  lemma PaddedSeven()
    ensures RJust(IntToString(7), 2) == [' ', '7']
  {
    var d := IntToString(7);
    assert d == ['7'];
    var col := RJust(d, 2);
    assert |col| == 2 && col[1..] == d && col[0] == ' ';
    assert col[1] == d[0];
  }

  /** Two-digit indices fill the column: `ocr_line 12 in an ocr_page`. */
  lemma TwoDigitIndex()
    ensures MessageText(Placement("ocr_line", 12)) == "ocr_line 12 in an ocr_page"
  {
    var d := IntToString(12);
    assert d == ['1', '2'] by {
      assert NatToString(1) == ['1'];
    }
    assert RJust(d, 2) == d;
  }

  // ---------------------------------------------------------------- the overlap checks

  /** The titles of one page's lines, paragraphs and content areas. */
  datatype PageTitles = PageTitles(lines: seq<Option<string>>, pars: seq<Option<string>>, careas: seq<Option<string>>)

  /** `get_prop(obj, 'bbox')` for each element. */
  function BboxProps(titles: seq<Option<string>>): (ps: seq<Result<Option<string>>>)
    ensures |ps| == |titles|
  {
    seq(|titles|, k requires 0 <= k < |titles| => PropOf(titles[k], "bbox", false))
  }

  /**
    `[get_bbox(obj) for obj in objs if get_prop(obj, 'bbox')]`: the numbers of each element whose
    box property is non-empty, in order; the first property or number that cannot be read raises.
   */
  function BoxesFrom(props: seq<Result<Option<string>>>): (r: Result<seq<seq<int>>>)
    ensures r.Ok? ==> |r.value| <= |props|
  {
    if props == [] then Ok([])
    else match props[0]
      case Err(e) => Err(e)
      case Ok(p) =>
        if p.None? || p.value == [] then BoxesFrom(props[1..])
        else match ParseInts(Words(p.value))
          case Err(e) => Err(e)
          case Ok(xs) =>
            match BoxesFrom(props[1..])
            case Err(e) => Err(e)
            case Ok(rest) => Ok([xs] + rest)
  }

  /** Elements without a box property contribute nothing. */
  lemma {:induction false} NoBoxesWithoutProps(props: seq<Result<Option<string>>>)
    requires forall k :: 0 <= k < |props| ==> props[k] == Ok(None)
    ensures BoxesFrom(props) == Ok([])
  {
    if props != [] {
      NoBoxesWithoutProps(props[1..]);
    }
  }

  /** The box a tuple of at least four numbers stands for; extra numbers are not looked at. */
  function ToBox(xs: seq<int>): Box
  {
    if |xs| >= 4 then Some(Rect(xs[0] as real, xs[1] as real, xs[2] as real, xs[3] as real)) else None
  }

  /** `relative_overlap` on two number tuples: indexing a tuple of fewer than four raises `IndexError`. */
  function PairOverlap(a: seq<int>, b: seq<int>): Result<real>
  {
    if |a| < 4 || |b| < 4 then Err(IndexError) else RelativeOverlap(ToBox(a), ToBox(b))
  }

  /** The boxes of a list of number tuples. */
  function Boxes(xs: seq<seq<int>>): (boxes: seq<Box>)
    ensures |boxes| == |xs| && forall i :: 0 <= i < |xs| ==> boxes[i] == ToBox(xs[i])
  {
    seq(|xs|, i requires 0 <= i < |xs| => ToBox(xs[i]))
  }

  function PairTable(xs: seq<seq<int>>): (m: Table)
    ensures |m| == |xs| && Square(m)
  {
    seq(|xs|, i requires 0 <= i < |xs| => seq(|xs|, j requires 0 <= j < |xs| => PairOverlap(xs[i], xs[j])))
  }

  /** `mostly_non_overlapping(boxes)` with its default threshold 0.2. */
  function NonOverlapping(xs: seq<seq<int>>): Result<bool>
  {
    Scan(PairTable(xs), 0.2, 0, 1)
  }

  /** On tuples of four or more numbers this is the scan over their boxes. */
  lemma NonOverlappingIsScan(xs: seq<seq<int>>)
    requires forall i :: 0 <= i < |xs| ==> |xs[i]| >= 4
    ensures NonOverlapping(xs) == PairScan(Boxes(xs), 0.2)
  {
    var boxes := Boxes(xs);
    var m, t := PairTable(xs), OverlapTable(boxes);
    forall i | 0 <= i < |xs|
      ensures m[i] == t[i]
    {
      forall j | 0 <= j < |xs|
        ensures m[i][j] == t[i][j]
      {
        TableEntry(boxes, i, j);
      }
    }
    assert m == t;
  }

  /** A short tuple raises only once it is compared: alone on its page it passes. */
  lemma ShortTupleRaisesWhenCompared()
    ensures NonOverlapping([[1, 2, 3]]) == Ok(true)
    ensures NonOverlapping([[1, 2, 3], [0, 0, 10, 10]]) == Err(IndexError)
  {
    var m := PairTable([[1, 2, 3], [0, 0, 10, 10]]);
    assert m[0][1] == Err(IndexError);
  }

  /** One overlap check: the boxes of one kind of element, then the scan; its message is `msg`. */
  function KindCheck(titles: seq<Option<string>>, msg: Message): (r: Result<Outcome>)
    ensures r.Ok? ==> r.value.1 == msg
    ensures BoxesFrom(BboxProps(titles)).Err? ==> r == Err(BoxesFrom(BboxProps(titles)).error)
    ensures BoxesFrom(BboxProps(titles)).Ok? ==> r.Ok? == NonOverlapping(BoxesFrom(BboxProps(titles)).value).Ok?
  {
    match BoxesFrom(BboxProps(titles))
    case Err(e) => Err(e)
    case Ok(xs) =>
      match NonOverlapping(xs)
      case Err(e) => Err(e)
      case Ok(v) => Ok((v, msg))
  }

  /**
    When every element's box has four numbers, one kind's check passes exactly when every pair of
    its boxes overlaps by at most a fifth, fails only when some pair overlaps by more, and raises
    only on a pair with no area between them.
   */
  lemma KindCheckMeaning(titles: seq<Option<string>>, msg: Message, xs: seq<seq<int>>)
    requires BoxesFrom(BboxProps(titles)) == Ok(xs)
    requires forall i :: 0 <= i < |xs| ==> |xs[i]| >= 4
    ensures KindCheck(titles, msg) == Ok((true, msg)) <==> AllPairsWithin(Boxes(xs), 0.2)
    ensures KindCheck(titles, msg) == Ok((false, msg)) ==>
              exists i, j :: 0 <= i < j < |xs| && RelativeOverlap(ToBox(xs[i]), ToBox(xs[j])).Ok? &&
                             RelativeOverlap(ToBox(xs[i]), ToBox(xs[j])).value > 0.2
    ensures KindCheck(titles, msg).Err? ==>
              exists i, j :: 0 <= i < j < |xs| && RelativeOverlap(ToBox(xs[i]), ToBox(xs[j])).Err?
  {
    NonOverlappingIsScan(xs);
    MostlyNonOverlappingMeaning(Boxes(xs), 0.2);
  }

  /** The message of overlap check `kind`: 0 for lines, 1 for paragraphs, 2 for content areas. */
  function Note(kind: nat): Message
  {
    Says(if kind == 0 then "mostly_nonoverlapping/line"
         else if kind == 1 then "mostly_nonoverlapping/par"
         else "mostly_nonoverlapping/carea")
  }

  /** The titles overlap check `kind` looks at. */
  function Titles(page: PageTitles, kind: nat): seq<Option<string>>
  {
    if kind == 0 then page.lines else if kind == 1 then page.pars else page.careas
  }

  /** The three checks of a page: its lines, its paragraphs, its content areas. */
  function PageResults(page: PageTitles): (rs: seq<Result<Outcome>>)
    ensures |rs| == 3
  {
    seq(3, kind requires 0 <= kind < 3 => KindCheck(Titles(page, kind), Note(kind)))
  }

  /** The entries of `parts`, one part after another. */
  function Flatten<T>(parts: seq<seq<T>>): seq<T>
  {
    if parts == [] then [] else parts[0] + Flatten(parts[1..])
  }

  /** Flattening parts of three gives three entries per part; entry `k` is entry `k % 3` of part `k / 3`. */
  lemma {:induction false} FlattenEntry<T>(parts: seq<seq<T>>, k: nat)
    requires forall i :: 0 <= i < |parts| ==> |parts[i]| == 3
    ensures |Flatten(parts)| == 3 * |parts|
    ensures k < 3 * |parts| ==> Flatten(parts)[k] == parts[k / 3][k % 3]
  {
    if parts != [] {
      FlattenEntry(parts[1..], if k >= 3 then k - 3 else 0);
      if 3 <= k < 3 * |parts| {
        assert (k - 3) / 3 == k / 3 - 1 && (k - 3) % 3 == k % 3;
      }
    }
  }

  /** The checks of `check_geometry` in order, three per page. */
  function GeometryResults(pages: seq<PageTitles>): (rs: seq<Result<Outcome>>)
    ensures |rs| == 3 * |pages|
  {
    var parts := seq(|pages|, p requires 0 <= p < |pages| => PageResults(pages[p]));
    FlattenEntry(parts, 0);
    Flatten(parts)
  }

  /** Check `k` is check `k % 3` of page `k / 3`. */
  lemma GeometryEntry(pages: seq<PageTitles>, k: nat)
    requires k < 3 * |pages|
    ensures GeometryResults(pages)[k] == PageResults(pages[k / 3])[k % 3]
  {
    var parts := seq(|pages|, p requires 0 <= p < |pages| => PageResults(pages[p]));
    FlattenEntry(parts, k);
  }

  /**
    The overlap checks: with no error, exactly three per page, for lines, paragraphs and content
    areas in turn, each the scan of that kind's boxes; an error ends them at the check it hits.
   */
  lemma GeometryMeaning(pages: seq<PageTitles>)
    ensures var out := Collect(GeometryResults(pages), 0);
            && (out.1.None? <==> |out.0| == 3 * |pages|)
            && |out.0| <= 3 * |pages|
            && (forall k :: 0 <= k < |out.0| ==> PageResults(pages[k / 3])[k % 3] == Ok(out.0[k]) && out.0[k].1 == Note(k % 3))
            && (out.1.Some? ==> |out.0| < 3 * |pages| && PageResults(pages[|out.0| / 3])[|out.0| % 3] == Err(out.1.value))
  {
    var rs := GeometryResults(pages);
    CollectCount(rs, 0);
    var out := Collect(rs, 0);
    forall k | 0 <= k < |out.0|
      ensures PageResults(pages[k / 3])[k % 3] == Ok(out.0[k]) && out.0[k].1 == Note(k % 3)
    {
      GeometryEntry(pages, k);
      assert rs[0 + k] == Ok(out.0[k]);
    }
    if out.1.Some? {
      GeometryEntry(pages, |out.0|);
      assert rs[0 + |out.0|] == Err(out.1.value);
    }
  }

  // ---------------------------------------------------------------- the checker

  /** `Checker`: the counter of checks done and the lines written so far. */
  class Checker {
    const noOverlap: bool
    var testCounter: int
    var log: seq<Line>

    /** Every line written so far has been counted; every operation of the checker keeps this. */
    predicate Valid()
      reads this
    {
      testCounter == |log|
    }

    constructor (noOverlap: bool)
      ensures this.noOverlap == noOverlap && testCounter == 0 && log == [] && Valid()
    {
      this.noOverlap := noOverlap;
      testCounter := 0;
      log := [];
    }

    /** `test_ok`: one more check, and its line. */
    method TestOk(v: bool, msg: Message)
      modifies this
      ensures old(Valid()) ==> Valid()
      ensures testCounter == old(testCounter) + 1
      ensures log == old(log) + [Line(v, testCounter, msg)]
    {
      testCounter := testCounter + 1;
      log := log + [Line(v, testCounter, msg)];
    }

    /** The checks on the elements of one kind, numbered on from the counter. */
    method CheckPlaced(kind: string, inPage: seq<bool>)
      modifies this
      ensures old(Valid()) ==> Valid()
      ensures testCounter == old(testCounter) + |inPage|
      ensures log == old(log) + Reports(old(testCounter), Placed(kind, inPage))
    {
      ghost var cs := Placed(kind, inPage);
      ghost var n0 := testCounter;
      ghost var log0 := log;
      for i := 0 to |inPage|
        invariant testCounter == n0 + i
        invariant log == log0 + Reports(n0, cs[..i])
      {
        TestOk(inPage[i], Placement(kind, i));
        ReportsAppend(n0, cs[..i], cs[i]);
        assert cs[..i + 1] == cs[..i] + [cs[i]];
      }
      assert cs[..|inPage|] == cs;
    }

    method CheckMeta(doc: Structure)
      modifies this
      ensures old(Valid()) ==> Valid()
      ensures testCounter == old(testCounter) + 3
      ensures log == old(log) + Reports(old(testCounter), MetaChecks(doc))
    {
      TestOk(doc.hasSystem, Says("//meta[@name='ocr-system']"));
      TestOk(doc.hasCapabilities, Says("//meta[@name='ocr-capabilities']"));
      TestOk(doc.hasPage, Says("has a page"));
    }

    /** `check_xml_structure`. */
    method CheckXmlStructure(doc: Structure)
      modifies this
      ensures old(Valid()) ==> Valid()
      ensures testCounter == old(testCounter) + |StructureChecks(doc)|
      ensures log == old(log) + Reports(old(testCounter), StructureChecks(doc))
    {
      ghost var n0 := testCounter;
      ghost var a := MetaChecks(doc);
      ghost var b := Placed("ocr_line", doc.lines);
      ghost var c := Placed("ocr_par", doc.pars);
      ghost var d := Placed("ocr_carea", doc.careas);
      CheckMeta(doc);
      CheckPlaced("ocr_line", doc.lines);
      CheckPlaced("ocr_par", doc.pars);
      CheckPlaced("ocr_carea", doc.careas);
      ReportsConcat(n0, a, b);
      ReportsConcat(n0, a + b, c);
      ReportsConcat(n0, a + b + c, d);
    }

    /** Writes the line of each check in order; the first check that raises stops it. */
    method Record(rs: seq<Result<Outcome>>) returns (err: Option<Error>)
      modifies this
      ensures old(Valid()) ==> Valid()
      ensures var out := Collect(rs, 0);
              && err == out.1
              && testCounter == old(testCounter) + |out.0|
              && log == old(log) + Reports(old(testCounter), out.0)
    {
      ghost var n0 := testCounter;
      ghost var log0 := log;
      ghost var done: seq<Outcome> := [];
      assert done + Collect(rs, 0).0 == Collect(rs, 0).0;
      for k := 0 to |rs|
        invariant Collect(rs, 0) == (done + Collect(rs, k).0, Collect(rs, k).1)
        invariant testCounter == n0 + |done|
        invariant log == log0 + Reports(n0, done)
      {
        CollectStep(rs, k, done);
        if rs[k].Err? {
          return Some(rs[k].error);
        }
        TestOk(rs[k].value.0, rs[k].value.1);
        ReportsAppend(n0, done, rs[k].value);
        done := done + [rs[k].value];
      }
      CollectStep(rs, |rs|, done);
      return None;
    }

    /** `check_geometry`: per page, the line, paragraph and content-area checks; an error stops it. */
    method CheckGeometry(pages: seq<PageTitles>) returns (err: Option<Error>)
      modifies this
      ensures old(Valid()) ==> Valid()
      ensures var out := Collect(GeometryResults(pages), 0);
              && err == out.1
              && testCounter == old(testCounter) + |out.0|
              && log == old(log) + Reports(old(testCounter), out.0)
    {
      err := Record(GeometryResults(pages));
    }

    /** `check`: the structure checks, then the overlap checks unless they are disabled. */
    method Check(doc: Structure, pages: seq<PageTitles>) returns (err: Option<Error>)
      modifies this
      ensures old(Valid()) ==> Valid()
      ensures var out := Collect(GeometryResults(pages), 0);
              var cs := StructureChecks(doc) + (if noOverlap then [] else out.0);
              && err == (if noOverlap then None else out.1)
              && testCounter == old(testCounter) + |cs|
              && log == old(log) + Reports(old(testCounter), cs)
    {
      ghost var n0, log0 := testCounter, log;
      CheckXmlStructure(doc);
      ghost var n1, log1 := testCounter, log;
      if !noOverlap {
        err := CheckGeometry(pages);
        ReportsThen(log0, n0, StructureChecks(doc), log1, n1, Collect(GeometryResults(pages), 0).0, log);
      } else {
        err := None;
        assert StructureChecks(doc) + [] == StructureChecks(doc);
      }
    }
  }

  /**
    A fresh checker numbers its checks 1, 2, ...: after `check` the counter is the number of lines,
    3 plus one per line, paragraph and content area, plus the overlap checks when enabled.
   */
  lemma CheckCounts(doc: Structure, pages: seq<PageTitles>, noOverlap: bool)
    ensures var out := Collect(GeometryResults(pages), 0);
            var cs := StructureChecks(doc) + (if noOverlap then [] else out.0);
            && |cs| == 3 + |doc.lines| + |doc.pars| + |doc.careas| + (if noOverlap then 0 else |out.0|)
            && (!noOverlap && out.1.None? ==> |cs| == 3 + |doc.lines| + |doc.pars| + |doc.careas| + 3 * |pages|)
  {
    StructureCount(doc);
    GeometryMeaning(pages);
  }
}
