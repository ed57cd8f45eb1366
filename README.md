# hocr-tools in Dafny

A model of the computational core of hocr-tools, the command-line tools for hOCR files (HTML
documents whose elements carry OCR layout in a `title` attribute such as
`bbox 10 20 300 40; x_wconf 93`). The model covers the helpers the tools share and the logic of
each tool, with the XML, image and file handling replaced by plain inputs:

- `wrappers.dfy` (`Wrappers`): `Option`, `Result`, the Python exceptions the code can raise, and
  `Collect`, which runs a list of results up to the first error.
- `pystr.dfy` (`PyStr`): the Python string built-ins the code relies on (`isspace`, `strip`,
  `split`, `int`, `str`, `ljust`/`rjust`, `lower`).
- `rectangles.dfy` (`Rectangles`) and `rectangles_legacy.dfy` (`LegacyRectangles`): box
  intersection, area, width, height, overlap, relative overlap, the pairwise
  mostly-non-overlapping scan (a loop with an early return) and erosion; the older package's
  versions without absent boxes and with a 1/0 answer.
- `edit_distance.dfy` (`EditDistance`): the bounded Levenshtein distance, filled in place in a
  2-D array with an early exit at the threshold.
- `text.dfy` (`Text`) and `text_legacy.dfy` (`LegacyText`): `normalize`.
- `node_utils.dfy` (`NodeUtils`): `get_prop`, `get_bbox` and the whitespace collapse of `get_text`,
  on the `title` string and the text nodes of an element.
- `eval_geom.dfy` (`EvalGeom`): `hocr-eval-geom` — `Boxstats`, `boxstats`, `check_bad_partition`
  and the page loop of `evaluate_geometries`.
- `eval_lines.dfy` (`EvalLines`): `hocr-eval-lines` — normalising and filtering the lines, the
  greedy nearest-line matching that deletes from the pool, and the leftover sum.
- `eval.dfy` (`Eval`): `hocr-eval` — tolerances, best candidate, tight-overlap test and the three
  counters over the pages.
- `cut.dfy` (`Cut`): `hocr-cut` — line classification, upper medians, truncated average, output
  names and crops.
- `extract_images.dfy` (`ExtractImages`): `hocr-extract-images` — padding, text pattern, image
  name, box pad/clamp/skip (in place on an array) and line numbering over pages.
- `extract_g1000.dfy` (`ExtractG1000`): `hocr-extract-g1000` — the settings read from the
  environment, the dictionary filter, the crop, and the SAX `DocumentHandler` as a class whose
  callbacks update its fields, specified by a state-transition function over events.
- `wordfreq.dfy` (`WordFreq`) and `wordfreq_legacy.dfy` (`WordFreqLegacy`): `hocr-wordfreq` —
  dehyphenation, counting in first-occurrence order, stable ranking and the report.
- `check.dfy` (`Check`): `hocr-check` — the `Checker` class with its counter and its numbered
  `ok` / `not ok` lines, the structure checks and the overlap checks.
- `merge_dc.dfy` (`MergeDc`): `hocr-merge-dc` — the fifteen Dublin Core Metadata Element Set 1.1
  elements, the tag and value rewriting, and the `Head` class whose children are rewritten in
  place.

Each loop of the source is a method proved against a specification function; the properties
the code promises are lemmas about those functions. Coordinates, ratios and tolerances are
`real`. Where the newer and the older package differ, both are modelled and a lemma relates
them.

## Model

| member | source | states |
|---|---|---|
| Rectangles.Intersect | hocr_tools_lib/utils/rectangle_utils.py:12-19 | absent exactly when either box is absent; otherwise the box of the larger lower corners and the smaller upper corners |
| Rectangles.Width | hocr_tools_lib/utils/rectangle_utils.py:62-68 | never negative; `x1 - x0` for a present box that is not inverted, 0 for an absent or inverted one |
| Rectangles.Height | hocr_tools_lib/utils/rectangle_utils.py:71-77 | never negative; `y1 - y0` for a present box that is not inverted, 0 for an absent or inverted one |
| Rectangles.Area | hocr_tools_lib/utils/rectangle_utils.py:22-28 | never negative, and 0 for an absent box (defined as width times height) |
| Rectangles.RelativeOverlap | hocr_tools_lib/utils/rectangle_utils.py:38-45 | defined exactly when the larger area is positive, otherwise `ZeroDivisionError`; a defined value lies in [0, 1] |
| Rectangles.Erode | hocr_tools_lib/utils/rectangle_utils.py:80-92 | an absent box stays absent; otherwise every side moves inward by exactly `2t + 1` |
| Rectangles.IntersectAreaBounded | hocr_tools_lib/utils/rectangle_utils.py:12-28 | the intersection's area is at most the area of each box |
| Rectangles.IntersectSides | hocr_tools_lib/utils/rectangle_utils.py:12-19 | the intersection is no wider and no taller than either box |
| Rectangles.AreaMono | hocr_tools_lib/utils/rectangle_utils.py:22-28 | a box no wider and no taller than another has no larger area |
| Rectangles.IntersectSymmetric | hocr_tools_lib/utils/rectangle_utils.py:12-19 | `intersect(u, v) == intersect(v, u)` |
| Rectangles.OverlapsSymmetric | hocr_tools_lib/utils/rectangle_utils.py:31-35 | `overlaps` is symmetric and false when either box is absent |
| Rectangles.RelativeOverlapSymmetric | hocr_tools_lib/utils/rectangle_utils.py:38-45 | the relative overlap (or its error) is symmetric |
| Rectangles.RelativeOverlapSelf | hocr_tools_lib/utils/rectangle_utils.py:38-45 | a box of positive area overlaps itself with ratio exactly 1 |
| Rectangles.OverlapsDefinesRatio | hocr_tools_lib/utils/rectangle_utils.py:31-45 | overlapping boxes always have a defined, positive relative overlap |
| Rectangles.ErodeZeroIsNotIdentity | hocr_tools_lib/utils/rectangle_utils.py:87-92 | eroding with tolerances 0 moves each side in by 1, so it is not the identity |
| Rectangles.ErodeShrinks | hocr_tools_lib/utils/rectangle_utils.py:28 | with non-negative tolerances erosion never grows the area, and a box eroded past its width or height has area 0 |
| Rectangles.ContainedByArea | hocr_tools_lib/utils/rectangle_utils.py:12-28 | for a box `s` of positive area, `area(intersect(s, b)) == area(s)` exactly when `s` lies inside `b` corner by corner |
| Rectangles.OverlapTable | hocr_tools_lib/utils/rectangle_utils.py:55-57 | one row and one column per box |
| Rectangles.TableEntry | hocr_tools_lib/utils/rectangle_utils.py:57 | entry `(i, j)` of the table is `relative_overlap(boxes[i], boxes[j])` |
| Rectangles.ScanMeaning | hocr_tools_lib/utils/rectangle_utils.py:55-59 | the scan from pair `(i, j)` answers true exactly when every later pair is defined and within the threshold, false only at a pair above it, and never fails when every pair is defined |
| Rectangles.MostlyNonOverlappingMeaning | hocr_tools_lib/utils/rectangle_utils.py:48-59 | true exactly when every pair `i < j` is within the threshold; false only when some pair exceeds it; an error only from a pair of two zero-area boxes; true for lists of length 0 or 1 |
| Rectangles.WithinTable | hocr_tools_lib/utils/rectangle_utils.py:48-59 | the pairwise condition over the boxes is the same as over their table |
| Rectangles.MostlyNonOverlapping | hocr_tools_lib/utils/rectangle_utils.py:48-59 | the nested loop with its early return computes the scan above |
| LegacyRectangles.Area | hocr_tools/utils/rectangle_utils.py:9-13 | never negative |
| LegacyRectangles.Present | hocr_tools/utils/rectangle_utils.py:29-34 | every box wrapped as a present box, in order |
| LegacyRectangles.AreaAgrees | hocr_tools/utils/rectangle_utils.py:9-13 | the older area is the newer area of the present box |
| LegacyRectangles.AgreesWithOptionalVersion | hocr_tools/utils/rectangle_utils.py:1-54 | intersect, width, height, area, overlaps, relative_overlap and erode each agree with the newer helpers on present boxes; the relative overlap is defined exactly when the larger area is positive |
| LegacyRectangles.TableEntryAgrees | hocr_tools/utils/rectangle_utils.py:32 | each table entry of the present boxes is the older relative overlap |
| LegacyRectangles.FlagMeaning | hocr_tools/utils/rectangle_utils.py:29-34 | the flag is 1 exactly when every pair is within the threshold, and 0 only when some pair exceeds it |
| LegacyRectangles.MostlyNonOverlapping | hocr_tools/utils/rectangle_utils.py:29-34 | the nested loop returns 0 at the first offending pair and 1 otherwise, as the newer scan mapped to integers |
| EditDistance.LevNonNegative | hocr_tools_lib/utils/edit_utils.py:7-9 | every Levenshtein cell is non-negative |
| EditDistance.FillRow | hocr_tools_lib/utils/edit_utils.py:15-24 | one row of the table: either it exits with the first cell at or above the threshold, or the row is filled with the prefix distances and the scan carries on from the next row |
| EditDistance.EditDistance | hocr_tools_lib/utils/edit_utils.py:1-25 | the method over the 2-D table returns the row-major scan's answer: 0 for equal strings, the first cell at or above the threshold, or the full distance |
| EditDistance.ScanCellsExactBelow | hocr_tools_lib/utils/edit_utils.py:14-25 | whatever the scan returns is either the true distance or at or above the threshold, and never negative |
| EditDistance.ScanCellsNoExit | hocr_tools_lib/utils/edit_utils.py:14-25 | when no inner cell reaches the threshold the scan returns the true distance |
| EditDistance.ScanCellsNoColumns | hocr_tools_lib/utils/edit_utils.py:10-25 | with `b` empty the inner loops never run and the border cell `len(a)` is returned |
| EditDistance.LevSymmetric | hocr_tools_lib/utils/edit_utils.py:14-21 | the recurrence is symmetric in the two strings |
| EditDistance.LevSame | hocr_tools_lib/utils/edit_utils.py:14-21 | a string is at distance 0 from itself |
| EditDistance.LevBound | hocr_tools_lib/utils/edit_utils.py:10-21 | a cell never exceeds `i + j` |
| EditDistance.ShortIsExact | hocr_tools_lib/utils/edit_utils.py:14-25 | when `len(a) + len(b)` is below the threshold no exit can happen and the result is the exact distance |
| EditDistance.DistanceProperties | hocr_tools_lib/utils/edit_utils.py:14-25 | the Levenshtein distance is symmetric and zero on equal strings |
| EditDistance.BoundedContract | hocr_tools_lib/utils/edit_utils.py:1-25 | 0 for equal strings whatever the threshold; never negative; a result below the threshold is the exact distance; a result that is not exact is at or above the threshold |
| EditDistance.BoundedWithoutExit | hocr_tools_lib/utils/edit_utils.py:14-25 | without a cell reaching the threshold the result is the unit-cost Levenshtein distance |
| EditDistance.BoundedEmpty | hocr_tools_lib/utils/edit_utils.py:10-25 | with one string empty the result is the other's length |
| EditDistance.BoundedSymmetricBelow | hocr_tools_lib/utils/edit_utils.py:14-25 | two results below the threshold, one per argument order, are equal |
| EditDistance.EarlyExitIsNotExact | hocr_tools_lib/utils/edit_utils.py:14-25 | `edit_distance("aaaab", "baaaa", 3)` is 3 though the distance is 2: a result at the threshold need not be exact |
| EditDistance.RemoveTex | hocr_tools_lib/utils/edit_utils.py:35-36 | the identity |
| Text.SkipRun | hocr_tools_lib/utils/text_utils.py:4 | drops exactly the leading run of characters outside `[a-zA-Z0-9.,!?:;]`: the rest is a suffix that is empty or starts with an allowed character |
| Text.SimplifyHead | hocr_tools_lib/utils/text_utils.py:11 | the substitution is empty only on the empty string; it starts with the first character when that is allowed, else with a space |
| Text.SimplifyShape | hocr_tools_lib/utils/text_utils.py:4-11 | after the substitution only allowed characters and spaces remain, no two spaces are adjacent, a leading space comes from a leading disallowed character, and a string with nothing allowed becomes `""` or `" "` |
| Text.StripCanonical | hocr_tools_lib/utils/text_utils.py:12 | stripping such a string leaves no space at either end; an all-space string becomes empty |
| Text.NormalizeCanonical | hocr_tools_lib/utils/text_utils.py:7-13 | the output holds only allowed characters and single spaces, with no space at either end |
| Text.SimplifyFixes | hocr_tools_lib/utils/text_utils.py:11 | the substitution leaves a string of allowed characters and single spaces unchanged |
| Text.NormalizeFixesCanonical | hocr_tools_lib/utils/text_utils.py:7-13 | a string is returned unchanged exactly when it is already in that canonical form |
| Text.NormalizeIdempotent | hocr_tools_lib/utils/text_utils.py:7-13 | normalising twice is normalising once |
| Text.NormalizeAllowedOnly | hocr_tools_lib/utils/text_utils.py:11-12 | a string of allowed characters only is returned unchanged |
| Text.NormalizeNothingAllowed | hocr_tools_lib/utils/text_utils.py:11-12 | a string with no allowed character normalises to `""` |
| Text.SimplifyAllowedPrefix | hocr_tools_lib/utils/text_utils.py:11 | an allowed prefix passes through the substitution untouched |
| Text.SimplifyGap | hocr_tools_lib/utils/text_utils.py:11 | a gap of disallowed characters before a word becomes one space |
| Text.SimplifyTwoWords | hocr_tools_lib/utils/text_utils.py:11 | two words separated by any gap come out separated by one space |
| Text.JoinedWordsCanonical | hocr_tools_lib/utils/text_utils.py:7-13 | two allowed words joined by one space are canonical |
| Text.NormalizeTwoWords | hocr_tools_lib/utils/text_utils.py:7-13 | two words separated by a gap normalise to the words joined by one space |
| Text.SkipRunPrefix | hocr_tools_lib/utils/text_utils.py:4 | the run skipped before a word is exactly the gap |
| Text.NormalizeExample | hocr_tools_lib/utils/text_utils.py:7-13 | `"Hello,  World!!"` normalises to `"Hello, World!!"` |
| LegacyText.Normalize | hocr_tools/utils/text_utils.py:4-10 | the output holds only allowed characters and single spaces, with no space at either end |
| LegacyText.AgreesWithCurrent | hocr_tools/utils/text_utils.py:4-10 | the older `normalize` agrees with the newer one on every input |
| LegacyText.Idempotent | hocr_tools/utils/text_utils.py:7-10 | the older `normalize` is idempotent |
| PyStr.LStrip | hocr_tools_lib/utils/text_utils.py:12 | drops exactly the leading whitespace: a suffix of the input that is empty or starts with a non-space |
| PyStr.RStrip | hocr_tools_lib/utils/text_utils.py:12 | drops exactly the trailing whitespace: a prefix of the input that is empty or ends with a non-space |
| PyStr.StripSlice | hocr_tools_lib/utils/text_utils.py:12 | `strip()` returns a slice of its input with no whitespace at either end, and `""` for an all-whitespace string |
| PyStr.Split | hocr_tools_lib/utils/node_utils.py:23 | `split(';')` gives at least one piece and no piece holds the separator |
| PyStr.JoinSplit | hocr_tools_lib/utils/node_utils.py:23 | joining the pieces with the separator gives the string back |
| PyStr.WordsAreWords | hocr_tools_lib/utils/node_utils.py:45 | every element of `split()` is a non-empty run of non-whitespace characters |
| PyStr.WordsOfJoin | hocr_tools_lib/utils/node_utils.py:45 | words joined by single spaces split back into the same words |
| PyStr.ParseInt | hocr_tools_lib/utils/node_utils.py:45 | `int()` succeeds exactly on an optional sign followed by decimal digits, otherwise `ValueError` |
| PyStr.ParseIntToString | hocr_tools_lib/utils/node_utils.py:45 | `int(str(i)) == i` |
| PyStr.LJust | hocr_tools_lib/tools/hocr_wordfreq.py:57 | `ljust(width)`: the string, then spaces up to the width |
| PyStr.RJust | hocr_tools_lib/tools/hocr_check.py:44-46 | `rjust(width)`: spaces up to the width, then the string |
| NodeUtils.SplitKey | hocr_tools_lib/utils/node_utils.py:25 | a failed unpacking is a `ValueError` |
| NodeUtils.SplitKeyIsSplit | hocr_tools_lib/utils/node_utils.py:25 | the unpacking succeeds exactly when the segment has at least two whitespace-separated words |
| NodeUtils.SplitKeyWords | hocr_tools_lib/utils/node_utils.py:25 | the key is the first word and the value holds exactly the remaining words |
| NodeUtils.SplitKeyOfSegment | hocr_tools_lib/utils/node_utils.py:25 | `lead + key + gap + value` unpacks to that key and that value: leading whitespace of the value removed, inner and trailing whitespace kept |
| NodeUtils.StripQuotesMeaning | hocr_tools_lib/utils/node_utils.py:26-27 | the stripped value is a slice of the value with no quote at either end, and only quotes were removed |
| NodeUtils.StripQuotesOver | hocr_tools_lib/utils/node_utils.py:26-27 | any run of `'` and `"` on either side goes, matched in pairs or not |
| NodeUtils.GetProp | hocr_tools_lib/utils/node_utils.py:11-30 | the loop over the `;` segments with its early return computes `PropOf` |
| NodeUtils.FindPropMeaning | hocr_tools_lib/utils/node_utils.py:23-30 | the answer is decided by the first segment that fails to unpack (`ValueError`) or carries the key (its value, quote-stripped when asked); with no such segment the property is absent |
| NodeUtils.PropOfNoTitle | hocr_tools_lib/utils/node_utils.py:20-22 | a missing or empty title gives `None` |
| NodeUtils.PropOfSingle | hocr_tools_lib/utils/node_utils.py:23-29 | a one-segment title `key value` gives the value for that key |
| NodeUtils.ParseInts | hocr_tools_lib/utils/node_utils.py:45 | succeeds exactly when every token is an integer, then with one integer per token; otherwise `ValueError` |
| NodeUtils.ParseIntTokens | hocr_tools_lib/utils/node_utils.py:45 | the printed integers parse back to themselves |
| NodeUtils.GetBboxSingle | hocr_tools_lib/utils/node_utils.py:40-46 | a `bbox` value is decoded into the integers of its words, with no check that there are four |
| NodeUtils.GetBboxRoundTrip | hocr_tools_lib/utils/node_utils.py:33-46 | writing integers into a `bbox` title and reading it back gives them again |
| NodeUtils.NonSpace | hocr_tools_lib/utils/node_utils.py:58 | never longer than its input |
| NodeUtils.CollapseKeepsText | hocr_tools_lib/utils/node_utils.py:58 | the collapse keeps every non-whitespace character, in order |
| NodeUtils.CollapseHead | hocr_tools_lib/utils/node_utils.py:58 | its first character is a space exactly when the input starts with whitespace, else the input's own first character |
| NodeUtils.CollapseSpaces | hocr_tools_lib/utils/node_utils.py:58 | the only whitespace left is single spaces, never two in a row |
| NodeUtils.CollapseEnds | hocr_tools_lib/utils/node_utils.py:58 | nothing is trimmed: empty, leading space and trailing space exactly as in the input |
| NodeUtils.CollapseIdempotent | hocr_tools_lib/utils/node_utils.py:58 | collapsing twice is collapsing once |
| EvalGeom.Ratios | hocr_tools_lib/tools/hocr_eval_geom.py:67-68 | only overlapping boxes are compared, so every ratio is defined (no division by zero), positive and at most 1 |
| EvalGeom.Ratio | hocr_tools_lib/tools/hocr_eval_geom.py:68 | for an overlapping box the relative overlap is defined and lies in (0, 1] |
| EvalGeom.Above | hocr_tools_lib/tools/hocr_eval_geom.py:69-71 | the filter keeps only ratios above the threshold, taken from the list; none when no ratio is above it |
| EvalGeom.TallyCounters | hocr_tools_lib/tools/hocr_eval_geom.py:69-80 | one truth box adds 1 to exactly one of `missing` and `count`, at most 1 to `multiple`, and either adds a term in `[0, 1 - close]` to `error` with `count` or leaves `error` alone |
| EvalGeom.TallyFails | hocr_tools_lib/tools/hocr_eval_geom.py:74-77 | one truth box raises `AttributeError` exactly when it has more than one close match |
| EvalGeom.Table | hocr_tools_lib/tools/hocr_eval_geom.py:66-68 | one row of ratios per truth box |
| EvalGeom.ComputeBoxstats | hocr_tools_lib/tools/hocr_eval_geom.py:50-81 | the loop mutating a zero `Boxstats` computes `Stats`, the statistics over the truth boxes in order or the error raised |
| EvalGeom.TallyBox | hocr_tools_lib/tools/hocr_eval_geom.py:69-80 | the loop body computes `Tally` |
| EvalGeom.StatsOfNext | hocr_tools_lib/tools/hocr_eval_geom.py:66-80 | one more truth box tallies onto the statistics so far, and an earlier error stands |
| EvalGeom.StatsOfErrPrefix | hocr_tools_lib/tools/hocr_eval_geom.py:75-77 | once a truth box has raised, that error is the result |
| EvalGeom.TableValid | hocr_tools_lib/tools/hocr_eval_geom.py:67-68 | every ratio of the table lies in (0, 1] |
| EvalGeom.TimesIsProduct | hocr_tools_lib/tools/hocr_eval_geom.py:79 | the repeated sum used for the error bound is the product `count * (1 - close)` |
| EvalGeom.StatsOfCounters | hocr_tools_lib/tools/hocr_eval_geom.py:65-81 | over the rows, `missing + count` is the number of rows, `multiple` is at most that, and `0 <= error <= count * (1 - close)` |
| EvalGeom.StatsCounters | hocr_tools_lib/tools/hocr_eval_geom.py:50-81 | without an exception, `missing + count == len(truths)`, `multiple <= len(truths)` and `0 <= error <= count * (1 - close)` |
| EvalGeom.StatsOfFails | hocr_tools_lib/tools/hocr_eval_geom.py:71-77 | the rows raise exactly when some row has more than one close match, and the error is `AttributeError` |
| EvalGeom.StatsFails | hocr_tools_lib/tools/hocr_eval_geom.py:71-77 | `boxstats` raises exactly when some truth box has more than one actual box with overlap above `close_match`, and then with `AttributeError` |
| EvalGeom.StatsOfPerfect | hocr_tools_lib/tools/hocr_eval_geom.py:69-80 | rows whose only significant and close ratio is 1 score `(0, 0, 0.0, n)` |
| EvalGeom.RatiosConcat | hocr_tools_lib/tools/hocr_eval_geom.py:67-68 | the ratios of two lists of actual boxes are the ratios of each, in order |
| EvalGeom.AboveConcat | hocr_tools_lib/tools/hocr_eval_geom.py:69-71 | filtering a concatenation filters each part |
| EvalGeom.RatiosCons | hocr_tools_lib/tools/hocr_eval_geom.py:67-68 | the first actual box adds its ratio exactly when it overlaps the truth box |
| EvalGeom.AboveNone | hocr_tools_lib/tools/hocr_eval_geom.py:69-71 | boxes whose overlap is at most the threshold contribute nothing above it |
| EvalGeom.AboveSelf | hocr_tools_lib/tools/hocr_eval_geom.py:67-71 | a box of positive area compared with a list in which no other box overlaps it above the threshold has the single ratio 1 above it |
| EvalGeom.RatiosSelf | hocr_tools_lib/tools/hocr_eval_geom.py:67-68 | a box of positive area has the single ratio 1 against itself |
| EvalGeom.OthersWithin | hocr_tools_lib/tools/hocr_eval_geom.py:84-96 | in a good partition no other box overlaps a given one by more than the threshold |
| EvalGeom.StatsSelf | hocr_tools_lib/tools/hocr_eval_geom.py:50-81 | a good partition of positive-area boxes compared with itself scores `(0, 0, 0.0, n)` when `significant_overlap <= close_match < 1` |
| EvalGeom.BadPartitionMeaning | hocr_tools_lib/tools/hocr_eval_geom.py:84-96 | `check_bad_partition` is false exactly when every pair is within the threshold (so it is `not mostly_non_overlapping`), and true only at a pair above it |
| EvalGeom.CheckBadPartition | hocr_tools_lib/tools/hocr_eval_geom.py:84-96 | the nested loop with its early return computes `BadPartition`, the negated pairwise scan |
| EvalGeom.BadTruthFirst | hocr_tools_lib/tools/hocr_eval_geom.py:126-130 | a bad truth partition fails the page whatever the actual boxes; with defined ratios the failure is `ValueError` |
| EvalGeom.EvaluatePageSelf | hocr_tools_lib/tools/hocr_eval_geom.py:123-137 | a page compared with itself that is a good partition of positive-area boxes gives `(0, 0, 0.0, n)` both ways, and `to_tuple` gives the counters in that order |
| EvalGeom.ComparePage | hocr_tools_lib/tools/hocr_eval_geom.py:124-137 | the page-loop body checks the truth partition, then the actual one, then scores both ways |
| EvalGeom.PageResults | hocr_tools_lib/tools/hocr_eval_geom.py:120-137 | one outcome per page pair |
| EvalGeom.EvaluateGeometries | hocr_tools_lib/tools/hocr_eval_geom.py:99-137 | the generator's loop yields exactly the page results before the first failing page, then that page's error; unequal page counts give `AssertionError` |
| EvalGeom.GeometriesCount | hocr_tools_lib/tools/hocr_eval_geom.py:119-137 | never more pairs than pages; unequal page counts fail before anything is yielded; with equal counts one pair per page is yielded exactly when no page fails |
| Wrappers.CollectCount | hocr_tools_lib/tools/hocr_eval_geom.py:123-137 | a generator that stops at its first error yields at most one value per step |
| Wrappers.CollectConcat | hocr_tools_lib/tools/hocr_eval_geom.py:123-137 | running two stretches of steps yields the first's values, then the second's unless the first failed |
| EvalLines.Prepare | hocr_tools_lib/tools/hocr_eval_lines.py:43-46 | no more lines than given, and none of them empty |
| EvalLines.PrepareFrom | hocr_tools_lib/tools/hocr_eval_lines.py:43-45 | every prepared line is the normalised form of an input line |
| EvalLines.PrepareKeeps | hocr_tools_lib/tools/hocr_eval_lines.py:44-46 | every input line whose normalised form is not empty is kept, normalised |
| EvalLines.PrepareCanonical | hocr_tools_lib/tools/hocr_eval_lines.py:43-46 | the prepared lines hold only allowed characters and single spaces, none at either end |
| EvalLines.LineTexts | hocr_tools_lib/tools/hocr_eval_lines.py:39-41 | one text per `ocr_line` element, `get_text` of its text nodes |
| EvalLines.NearestFrom | hocr_tools_lib/tools/hocr_eval_lines.py:53-58 | the scan keeps the index it started with or picks one of the indices it visits |
| EvalLines.Nearest | hocr_tools_lib/tools/hocr_eval_lines.py:51-58 | `min_i` is `-1` or a valid pool index |
| EvalLines.Remove | hocr_tools_lib/tools/hocr_eval_lines.py:64 | `del remaining[i]`: one entry shorter, entries before `i` kept, those after it moved down by one |
| EvalLines.FindNearest | hocr_tools_lib/tools/hocr_eval_lines.py:51-58 | the inner loop computes `Nearest` |
| EvalLines.EvaluateLines | hocr_tools_lib/tools/hocr_eval_lines.py:37-71 | `evaluate_lines` on the file text, the text nodes and `verbose` returns `Evaluate`: `(segmentation_errors, ocr_errors)`, the failed assertion, or with `verbose` the `IndexError` of logging `remaining[-1]` on an exhausted pool |
| EvalLines.MatchLines | hocr_tools_lib/tools/hocr_eval_lines.py:48-65 | the matching loop that deletes from `remaining` in place computes `Match`, including the log call of `verbose` that indexes `remaining[min_i]` before the assertion |
| EvalLines.MatchTurn | hocr_tools_lib/tools/hocr_eval_lines.py:51-65 | one turn of the loop, the inner search, the log call of `verbose` indexing `remaining[min_i]`, the assertion and `del remaining[min_i]`, computes `Turn` |
| EvalLines.TotalLength | hocr_tools_lib/tools/hocr_eval_lines.py:67-69 | the leftover loop adds up the lengths of the leftover lines |
| EvalLines.MatchStep | hocr_tools_lib/tools/hocr_eval_lines.py:50-65 | each recognised line takes one `Turn`: the `IndexError` of the `verbose` log call at an index `remaining` lacks, the failed assertion on `min_i == -1`, or the deletion of its nearest entry with its `min_d` added |
| EvalLines.RemoveSubseq | hocr_tools_lib/tools/hocr_eval_lines.py:64 | deleting an entry keeps the others in order |
| EvalLines.SubseqSumLengths | hocr_tools_lib/tools/hocr_eval_lines.py:67-69 | deleting entries can only shorten the total length |
| EvalLines.SubseqElements | hocr_tools_lib/tools/hocr_eval_lines.py:48-64 | the entries left are entries of the original list |
| EvalLines.SumLengthsAtLeastCount | hocr_tools_lib/tools/hocr_eval_lines.py:44-69 | non-empty lines add at least one each |
| EvalLines.NearestFromMeaning | hocr_tools_lib/tools/hocr_eval_lines.py:51-58 | the scan keeps `(999999, -1)` or an index whose bounded distance was below its threshold, hence exact; no later entry beats the chosen distance under the bound the loop uses; the start is kept only when nothing beats it |
| EvalLines.NearestMeaning | hocr_tools_lib/tools/hocr_eval_lines.py:51-58 | `min_i` is `-1` exactly when every true line is 999999 or more edits away by the bounded measure; otherwise `min_d` is the exact distance of the chosen line (strict `<`, so the earliest such line) |
| EvalLines.NearestFound | hocr_tools_lib/tools/hocr_eval_lines.py:53-63 | with a non-empty pool whose first line is short enough, some line is chosen |
| EvalLines.NearestSelfFrom | hocr_tools_lib/tools/hocr_eval_lines.py:53-58 | once distance 0 is found at index 0 it is never replaced |
| EvalLines.NearestSelf | hocr_tools_lib/tools/hocr_eval_lines.py:51-58 | a line equal to the first pool entry is matched to it at distance 0 |
| EvalLines.MatchShape | hocr_tools_lib/tools/hocr_eval_lines.py:48-65 | a successful matching leaves `len(truth) - len(actual)` true lines, the rest deleted and these kept in order, with a non-negative error sum; a failure is the assertion, or with `verbose` possibly the index error |
| EvalLines.MatchTooMany | hocr_tools_lib/tools/hocr_eval_lines.py:50-63 | more recognised lines than true lines fail: `assert min_i >= 0` without `verbose`, the assertion or the `IndexError` of the log call with it |
| EvalLines.VerboseTooManyIndexError | hocr_tools_lib/tools/hocr_eval_lines.py:50-62 | with `verbose` and short lines, more recognised lines than true lines exhaust the pool and raise `IndexError` at `remaining[min_i]` before the assertion |
| EvalLines.VerboseSameMatch | hocr_tools_lib/tools/hocr_eval_lines.py:50-65 | `verbose` changes only the error: a matching that succeeds with or without it succeeds both ways with the same result |
| EvalLines.MatchSucceeds | hocr_tools_lib/tools/hocr_eval_lines.py:50-65 | no more recognised lines than true lines, all short enough, always match |
| EvalLines.MatchSelf | hocr_tools_lib/tools/hocr_eval_lines.py:48-65 | lines matched against themselves leave nothing and cost nothing |
| EvalLines.EvaluateBounds | hocr_tools_lib/tools/hocr_eval_lines.py:43-71 | on success there are no more recognised than true lines, the segmentation errors lie between the number of leftover lines and the length of all true lines, and the OCR errors are not negative |
| EvalLines.EvaluateTooMany | hocr_tools_lib/tools/hocr_eval_lines.py:50-63 | more recognised than true lines after preparing fail the assertion, or with `verbose` the assertion or the index error |
| EvalLines.EvaluateVerboseSame | hocr_tools_lib/tools/hocr_eval_lines.py:37-71 | `evaluate_lines` succeeds with `verbose` exactly when it succeeds without, with the same counts |
| EvalLines.EvaluateVerboseIndexError | hocr_tools_lib/tools/hocr_eval_lines.py:50-63 | more recognised than true lines, all short, raise `IndexError` with `verbose` and fail the assertion without it |
| EvalLines.EvaluateSelf | hocr_tools_lib/tools/hocr_eval_lines.py:48-71 | recognised lines identical to the true lines after preparing give `(0, 0)` |
| EvalLines.GreedyIsNotNearest | hocr_tools_lib/tools/hocr_eval_lines.py:51-58 | the bounded scan keeps a line 3 edits away over one 2 edits away, so `min_d` need not be the smallest distance |
| Eval.TolX | hocr_tools_lib/tools/hocr_eval.py:18-57 | `min(5, 10 * width / 100)`: between 0 and 5, at most a tenth of the width, and one of the two |
| Eval.TolY | hocr_tools_lib/tools/hocr_eval.py:19-61 | `min(5, 20 * height / 100)`: between 0 and 5, at most a fifth of the height, and one of the two |
| Eval.Candidates | hocr_tools_lib/tools/hocr_eval.py:65-70 | one tuple `(area(intersect(box, bbox)), box, text)` per recognised line, in order |
| Eval.ScoreLine | hocr_tools_lib/tools/hocr_eval.py:63-118 | the body of the true-line loop computes `LineStep`, including the `ZeroDivisionError` of the `verbose` warning for a true box without area |
| Eval.Charge | hocr_tools_lib/tools/hocr_eval.py:85-118 | the rest of the loop body computes `Judge`: the distance goes to the segmentation OCR errors with a segmentation error when not tight, to the OCR errors otherwise |
| Eval.LineError | hocr_tools_lib/tools/hocr_eval.py:95-113 | the distance charged is `edit_distance(normalize(remove_tex(text)), normalize(actual_text))` with the default threshold |
| Eval.ScorePage | hocr_tools_lib/tools/hocr_eval.py:52-118 | one page: the tolerance lists are built first, then the true lines are scored in order, as `PageScore` |
| Eval.Evaluate | hocr_tools_lib/tools/hocr_eval.py:24-124 | `evaluate` over the pages with its `verbose` flag computes `Score`: the three counters, or the error raised, the warning's division by `area(bbox)` included |
| Eval.StrGreaterTrans | hocr_tools_lib/tools/hocr_eval.py:74 | Python's `>` on strings is transitive |
| Eval.StrGreaterIrreflexive | hocr_tools_lib/tools/hocr_eval.py:74 | no string is greater than itself |
| Eval.GreaterStrict | hocr_tools_lib/tools/hocr_eval.py:74 | the tuple order is irreflexive and transitive where defined |
| Eval.BestFromMeaning | hocr_tools_lib/tools/hocr_eval.py:74 | the running maximum stays a candidate that no candidate seen is greater than; the only error is `TypeError` |
| Eval.BestMeaning | hocr_tools_lib/tools/hocr_eval.py:74 | `max(candidates)` is a candidate no other candidate is greater than, so its intersection area is the largest; it raises only `TypeError` (a tuple compared with `None`) |
| Eval.BestFromDefined | hocr_tools_lib/tools/hocr_eval.py:74 | boxes all present or all absent can always be ordered |
| Eval.BestDefined | hocr_tools_lib/tools/hocr_eval.py:74 | then `max` does not raise |
| Eval.TightMeaning | hocr_tools_lib/tools/hocr_eval.py:75-83 | for halves whose eroded boxes keep positive area, the test passes exactly when each eroded box lies inside the other box |
| Eval.CollapsedHalfPasses | hocr_tools_lib/tools/hocr_eval.py:76-81 | a half whose eroded box has area 0 passes whatever it is compared with |
| Eval.LineStepMeaning | hocr_tools_lib/tools/hocr_eval.py:62-118 | one true line adds 1 to the segmentation errors and a non-negative amount to their OCR errors, or a non-negative amount to the OCR errors alone; with no recognised lines it adds the raw length of its text |
| Eval.LineStepNoActuals | hocr_tools_lib/tools/hocr_eval.py:71-100 | with no recognised line, a true line costs 1 segmentation error and its raw text length, or with `verbose` and no area the warning raises `ZeroDivisionError` |
| Eval.LineStepJudged | hocr_tools_lib/tools/hocr_eval.py:73-118 | with a best candidate, the true line is judged on that candidate's box (tight or not) and the edit distance of its text, unless a non-tight pair with `verbose` and a true box without area raises `ZeroDivisionError` |
| Eval.TightAddsOcr | hocr_tools_lib/tools/hocr_eval.py:107-118 | a tight best candidate adds the normalised edit distance to `ocr_errors` alone, exactly below the default threshold |
| Eval.LooseAddsSegmentation | hocr_tools_lib/tools/hocr_eval.py:85-98 | a best candidate that is not tight adds 1 to `segmentation_errors` and the normalised edit distance to `segmentation_ocr_errors`, or with `verbose` and a true box without area raises `ZeroDivisionError` in the warning |
| Eval.PageScoreMonotone | hocr_tools_lib/tools/hocr_eval.py:62-118 | along a page the counters never decrease and the segmentation errors grow by at most the number of true lines |
| Eval.PageScoreNoActuals | hocr_tools_lib/tools/hocr_eval.py:85-100 | a page without recognised lines makes every true line a segmentation error costing the raw length of its text; with `verbose`, a true box without area raises `ZeroDivisionError` |
| Eval.LineStepVerbose | hocr_tools_lib/tools/hocr_eval.py:71-100 | `verbose` changes a true line only where the quiet step is a segmentation error of a box without area: that step raises `ZeroDivisionError` |
| Eval.PageScoreVerbose | hocr_tools_lib/tools/hocr_eval.py:62-118 | a page that scores with `verbose` gives the counters it gives without |
| Eval.PagesScoreVerbose | hocr_tools_lib/tools/hocr_eval.py:47-118 | all pages scored with `verbose` give the counters they give without |
| Eval.ScoreVerbose | hocr_tools_lib/tools/hocr_eval.py:24-124 | `evaluate` with `verbose`, when it returns, returns its quiet result |
| Eval.PagesScoreMonotone | hocr_tools_lib/tools/hocr_eval.py:47-118 | over the pages the counters never decrease and the segmentation errors grow by at most the number of true lines |
| Eval.ScoreMeaning | hocr_tools_lib/tools/hocr_eval.py:44-124 | unequal page counts fail the assertion; otherwise the counters start at 0, are non-negative, and the segmentation errors are at most the number of true lines |
| Cut.Middle | hocr_tools_lib/tools/hocr_cut.py:54-56 | defined exactly when the page has a box of at least three numbers, and then twice the middle is `bbox[2]` |
| Cut.SplitLines | hocr_tools_lib/tools/hocr_cut.py:58-78 | the loop appending to `left_ends` and `right_starts` computes `Sides` from two empty lists |
| Cut.Insert | hocr_tools_lib/tools/hocr_cut.py:80-81 | inserting adds one element |
| Cut.Sort | hocr_tools_lib/tools/hocr_cut.py:80-81 | sorting keeps the length |
| Cut.InsertMultiset | hocr_tools_lib/tools/hocr_cut.py:80-81 | insertion adds exactly the one element |
| Cut.InsertSorted | hocr_tools_lib/tools/hocr_cut.py:80-81 | insertion into a sorted list keeps it sorted |
| Cut.SortSorted | hocr_tools_lib/tools/hocr_cut.py:80-81 | the sorted list is ordered and a permutation of the input |
| Cut.CountsOfInsert | hocr_tools_lib/tools/hocr_cut.py:80-81 | insertion changes the counts below and above a value only by the inserted element |
| Cut.CountsOfSort | hocr_tools_lib/tools/hocr_cut.py:80-81 | sorting changes no count below or above a value |
| Cut.CountsAroundIndex | hocr_tools_lib/tools/hocr_cut.py:84-85 | in a sorted list at most `k` elements lie below `s[k]` and at most `len - k - 1` above it |
| Cut.CountAboveSplit | hocr_tools_lib/tools/hocr_cut.py:84-85 | nothing before index `j` of a sorted list lies above `s[j - 1]` |
| Cut.UpperMedianMeaning | hocr_tools_lib/tools/hocr_cut.py:80-85 | `sorted(xs)[len(xs) // 2]` raises `IndexError` exactly on an empty list; otherwise it is an element with at most `len // 2` elements below it and fewer than half, rounded up, above it |
| Cut.TruncHalfMeaning | hocr_tools_lib/tools/hocr_cut.py:87 | `int(x / 2)` truncates toward zero: for `x >= 0` twice it is `x` or `x - 1`, for `x < 0` it is `x` or `x + 1` |
| Cut.CutBetween | hocr_tools_lib/tools/hocr_cut.py:87 | the truncated average of two integers lies between them |
| Cut.OutputNamesDotted | hocr_tools_lib/tools/hocr_cut.py:91-121 | `base.ext` with a three-character extension gives `base.left.ext`, `base.right.ext` and `base.cut.ext` (so `litver.png` gives `litver.left.png`) |
| Cut.OutputNamesUndotted | hocr_tools_lib/tools/hocr_cut.py:94-121 | without a dot in that place `left.`, `right.` and `cut.` are appended to the whole name |
| Cut.CutPage | hocr_tools_lib/tools/hocr_cut.py:40-123 | the method for one page (classify, sort, medians, average, names, crops) computes `CutPageOf` |
| Cut.PageCuts | hocr_tools_lib/tools/hocr_cut.py:40-123 | one outcome per page |
| Cut.CutAll | hocr_tools_lib/tools/hocr_cut.py:40-123 | no more pages cut than there are pages |
| Cut.PageCutsEntry | hocr_tools_lib/tools/hocr_cut.py:49-51 | page `k` is cut with the debug flag left by the earlier pages |
| Cut.CutDocument | hocr_tools_lib/tools/hocr_cut.py:40-123 | the page loop, carrying the debug flag, computes `CutAll` |
| Cut.CutAllMeaning | hocr_tools_lib/tools/hocr_cut.py:40-123 | the pages cut are a prefix of the document, all of it exactly when no page raises, and the error is the first failing page's |
| Cut.DebugStaysOff | hocr_tools_lib/tools/hocr_cut.py:49-98 | after an image is missing no later page saves debug output |
| Cut.LineSideClear | hocr_tools_lib/tools/hocr_cut.py:63-66 | a box starting right of the middle goes right; one not starting right of it but ending left of it goes left; any box of three numbers gets a side |
| Cut.LineSideReadsTop | hocr_tools_lib/tools/hocr_cut.py:67 | the straddle test compares with `b[1]`: two boxes with the same horizontal extent land on different sides when only their top edge differs |
| Cut.SidesFail | hocr_tools_lib/tools/hocr_cut.py:61-62 | the scan fails exactly when some line has no box (or one too short to index) |
| Cut.SidesMeaning | hocr_tools_lib/tools/hocr_cut.py:63-78 | every line adds to exactly one list, its `x0` to the right starts or its `x1` to the left ends; the lengths add up to the number of lines |
| Cut.CutPageMeaning | hocr_tools_lib/tools/hocr_cut.py:41-123 | a missing `image` property fails the assertion; on success the columns are the page's, images are saved exactly when found, the crops `(0, 0, cut, h)` and `(cut, 0, w, h)` meet at the cut and cover the width, and the names are derived from the path |
| Cut.CutColumnsMeaning | hocr_tools_lib/tools/hocr_cut.py:54-87 | each median belongs to its list, the lists together hold one entry per line, the cut lies between the two medians, and the computation succeeds exactly when neither list is empty |
| ExtractImages.PaddingMeaning | hocr_tools_lib/tools/hocr_extract_images.py:21-26 | `--pad` fails its assertion exactly when it holds neither one nor four values; one value pads all four sides, four are kept in order |
| ExtractImages.TxtPatternMeaning | hocr_tools_lib/tools/hocr_extract_images.py:28-30 | the text pattern exists exactly when the pattern has at least four characters, ends in `.txt`, and keeps the pattern up to its dot (with a dot four from the end) or the whole pattern (without) |
| ExtractImages.TxtPatternDotted | hocr_tools_lib/tools/hocr_extract_images.py:28-30 | `base.ext` with a three-character extension gives `base.txt` (`line-%03d.png` gives `line-%03d.txt`) |
| ExtractImages.BaseName | hocr_tools_lib/tools/hocr_extract_images.py:47 | the last component is no longer than the path |
| ExtractImages.BaseNameMeaning | hocr_tools_lib/tools/hocr_extract_images.py:47 | the last component holds no `/`, ends the path, and follows its last `/` |
| ExtractImages.ChooseNamePrefersFile | hocr_tools_lib/tools/hocr_extract_images.py:43-45 | a non-empty `file` property wins; `image` is read only when `file` is absent or empty; with neither the path functions raise `TypeError`; errors reading either property propagate |
| ExtractImages.ChooseNameInDirectory | hocr_tools_lib/tools/hocr_extract_images.py:46-47 | with a directory the name is `dir/` followed by the last component of the chosen name, and it succeeds exactly when the plain name does |
| ExtractImages.Padded | hocr_tools_lib/tools/hocr_extract_images.py:55-60 | padding keeps the number of coordinates |
| ExtractImages.PadBox | hocr_tools_lib/tools/hocr_extract_images.py:56-60 | the four in-place updates of `bbox` give `Padded` of the old box |
| ExtractImages.ReadBox | hocr_tools_lib/tools/hocr_extract_images.py:54 | the method reading the line's box computes `LineBox` (a missing `bbox` raises `AttributeError`, a non-integer token `ValueError`) |
| ExtractImages.TestBox | hocr_tools_lib/tools/hocr_extract_images.py:55-62 | padding and the skip test, on an array copy of the box, compute `BoxOutcome` |
| ExtractImages.ProcessLine | hocr_tools_lib/tools/hocr_extract_images.py:54-68 | the body of the line loop computes `LineOf` |
| ExtractImages.BoxOutcomeEmits | hocr_tools_lib/tools/hocr_extract_images.py:55-68 | a box that is written has `x0 <= x1` and `y0 < y1`, carries the line's text, is the raw box without padding and the clamped padded box, inside the image, with it |
| ExtractImages.BoxOutcomeSkips | hocr_tools_lib/tools/hocr_extract_images.py:61-62 | a box of four coordinates or more is skipped exactly when `x0 > x1` or `y0 >= y1` |
| ExtractImages.BoxOutcomeFails | hocr_tools_lib/tools/hocr_extract_images.py:57-61 | the only failure is `IndexError`: with padding exactly when fewer than four coordinates, without it when fewer than three or exactly three with `x0 <= x1` |
| ExtractImages.ZeroWidthKeptZeroHeightSkipped | hocr_tools_lib/tools/hocr_extract_images.py:61 | the skip test is asymmetric: a zero-width box is written, a zero-height box is skipped |
| ExtractImages.LineBoxAgrees | hocr_tools_lib/tools/hocr_extract_images.py:54 | reading the box with `split` agrees with `get_bbox` wherever that finds a box; a missing `bbox` raises `AttributeError` here |
| ExtractImages.LineResults | hocr_tools_lib/tools/hocr_extract_images.py:53-68 | one outcome per line |
| ExtractImages.RunStart | hocr_tools_lib/tools/hocr_extract_images.py:52 | before the loop nothing is written and `line_count` is 1 |
| ExtractImages.RunStep | hocr_tools_lib/tools/hocr_extract_images.py:53-69 | a line that raises ends the page with the lines written so far; a written line takes the current number and increments it; a skipped line changes nothing |
| ExtractImages.RunEnd | hocr_tools_lib/tools/hocr_extract_images.py:53-69 | after the last line the page run has no error |
| ExtractImages.ExtractLines | hocr_tools_lib/tools/hocr_extract_images.py:51-69 | the line loop computes `LinesOf` |
| ExtractImages.NumberStep | hocr_tools_lib/tools/hocr_extract_images.py:64-69 | one more line adds one output numbered `line_count` when it is written and nothing when it is skipped |
| ExtractImages.NumberAppend | hocr_tools_lib/tools/hocr_extract_images.py:64-69 | numbering one more outcome appends at most one line, numbered after the others |
| ExtractImages.NumberMeaning | hocr_tools_lib/tools/hocr_extract_images.py:52-69 | outputs are numbered `first, first + 1, ...` without gaps, each is an emitted outcome, and there is one per outcome when none is skipped |
| ExtractImages.LineResultsEntry | hocr_tools_lib/tools/hocr_extract_images.py:53-68 | line `j` gives the outcome of processing that line |
| ExtractImages.LinesOfMeaning | hocr_tools_lib/tools/hocr_extract_images.py:51-69 | a page writes outputs numbered 1 to k, k at most its number of lines, each the outcome of one of its lines; it ends without error exactly when no line raises |
| ExtractImages.RunMeaning | hocr_tools_lib/tools/hocr_extract_images.py:51-69 | the same, for any list of line results |
| ExtractImages.PageRuns | hocr_tools_lib/tools/hocr_extract_images.py:42-70 | one run per page |
| ExtractImages.ExtractImagesOf | hocr_tools_lib/tools/hocr_extract_images.py:17-70 | the whole tool, options first and then the page loop, computes `ExtractAll` |
| ExtractImages.ExtractPages | hocr_tools_lib/tools/hocr_extract_images.py:42-70 | the page loop computes `PagesFrom` on the page runs |
| ExtractImages.ExtractPage | hocr_tools_lib/tools/hocr_extract_images.py:43-69 | one page computes `PageOf`: its image name, `FileNotFoundError` when it does not exist, then its lines |
| ExtractImages.PagesFromStep | hocr_tools_lib/tools/hocr_extract_images.py:42-70 | one turn of the page loop: stop after a page that raises, otherwise continue with the next |
| ExtractImages.PagesFromMeaning | hocr_tools_lib/tools/hocr_extract_images.py:42-70 | one entry per page reached, in order; the run stops at the first page that raises, keeping that page's lines written so far, and covers every page when none raises |
| ExtractImages.MissingImageStops | hocr_tools_lib/tools/hocr_extract_images.py:48-49 | a page whose image does not exist raises `FileNotFoundError` and writes nothing |
| ExtractG1000.DictOf | hocr_tools_lib/tools/hocr_extract_g1000.py:187-193 | a word is in the dictionary exactly when it is the lowercase form of some word of the file, and every entry maps to 1 |
| ExtractG1000.GetConfiguration | hocr_tools_lib/tools/hocr_extract_g1000.py:162-198 | the method assigning one setting after the other computes `ConfigurationOf` |
| ExtractG1000.DefaultsWhenUnset | hocr_tools_lib/tools/hocr_extract_g1000.py:110-172 | with every variable unset or empty the settings are the defaults `ocr_line`, `.`, 20, 50, no dictionary, `""`, 1000000, 2, `png` |
| ExtractG1000.TextSettingsOverride | hocr_tools_lib/tools/hocr_extract_g1000.py:168-185 | `element`, `regex`, `dict` (into `dict_file`) and `output_format` are the environment's value when non-empty and the default otherwise |
| ExtractG1000.NumberSettingMeaning | hocr_tools_lib/tools/hocr_extract_g1000.py:168-175 | a number setting fails exactly when its variable is non-empty and does not parse with `int`; otherwise it is the parsed value or the current one |
| ExtractG1000.NumberSettingsOverride | hocr_tools_lib/tools/hocr_extract_g1000.py:180-184 | `min_len`, `max_len`, `max_lines` and `pad` are the parsed environment values over the defaults 20, 50, 1000000 and 2 |
| ExtractG1000.DictionaryLoaded | hocr_tools_lib/tools/hocr_extract_g1000.py:187-193 | a dictionary is loaded exactly when a file is named, and holds that file's words lowercased |
| ExtractG1000.ConfigurationFails | hocr_tools_lib/tools/hocr_extract_g1000.py:180-188 | reading the settings fails exactly on a number that does not parse or a named dictionary file that cannot be opened |
| ExtractG1000.CheckDict | hocr_tools_lib/tools/hocr_extract_g1000.py:201-217 | the word loop returns `True` exactly when there is no dictionary, an empty one, or every non-empty word, lowercased, maps to a non-zero value |
| ExtractG1000.LowerCharIdempotent | hocr_tools_lib/tools/hocr_extract_g1000.py:215 | lowercasing a character twice is lowercasing it once |
| ExtractG1000.LowerIdempotent | hocr_tools_lib/tools/hocr_extract_g1000.py:215 | lowercasing a string twice is lowercasing it once |
| ExtractG1000.DictFromFileMeaning | hocr_tools_lib/tools/hocr_extract_g1000.py:187-217 | with a dictionary read from a non-empty file, a text passes exactly when each of its non-empty words equals some word of the file up to letter case |
| ExtractG1000.DictAcceptsIgnoresCase | hocr_tools_lib/tools/hocr_extract_g1000.py:209-217 | lowercasing the words of a text first changes nothing |
| ExtractG1000.CropMeaning | hocr_tools_lib/tools/hocr_extract_g1000.py:286-291 | the crop succeeds exactly when the box is four integers with `y0 < y1` and `x0 < x1 <= w` and `y1 <= h` (`ValueError` for the wrong count, `AssertionError` otherwise); it lies inside the image, holds a box that starts inside the image when the padding is not negative, and is the box itself with no padding |
| ExtractG1000.CropClamped | hocr_tools_lib/tools/hocr_extract_g1000.py:286-291 | the padding is cut off at the image's edges, an oversized box fails its assertion and three coordinates fail to unpack |
| ExtractG1000.CropOfFails | hocr_tools_lib/tools/hocr_extract_g1000.py:285-286 | a missing or empty box fails `assert self.bbox`, non-integer tokens raise `ValueError`, and otherwise the crop is taken from the integers |
| ExtractG1000.ReadBbox | hocr_tools_lib/tools/hocr_extract_g1000.py:269-273 | corrected behaviour, see ## Findings; as written: `BboxAsWritten`. Reading the box from the title computes `BboxOf`, none without a title |
| ExtractG1000.DocumentHandler.constructor | hocr_tools_lib/tools/hocr_extract_g1000.py:236-256 | a new handler holds the setup and the state `startDocument` leaves |
| ExtractG1000.DocumentHandler.SetState | hocr_tools_lib/tools/hocr_extract_g1000.py:231-311 | the fields take the given state |
| ExtractG1000.DocumentHandler.StartDocument | hocr_tools_lib/tools/hocr_extract_g1000.py:249-255 | `total` 0, `pageno` -1, empty text, depth 0, `start` -1, nothing written |
| ExtractG1000.DocumentHandler.StartElement | hocr_tools_lib/tools/hocr_extract_g1000.py:260-275 | corrected behaviour, see ## Findings; as written: `BboxAsWritten`. The callback's new fields are `StartStep` of the old ones |
| ExtractG1000.DocumentHandler.EnterPage | hocr_tools_lib/tools/hocr_extract_g1000.py:261-266 | one level deeper; a page start resets `lineno` to -1, moves to the next image and raises `IndexError` past the last one |
| ExtractG1000.DocumentHandler.OpenLine | hocr_tools_lib/tools/hocr_extract_g1000.py:267-275 | corrected behaviour, see ## Findings; as written: `BboxAsWritten`. A target start increments `lineno` (`AttributeError` before any page), stores the box, sets `start` to the depth and clears the text |
| ExtractG1000.DocumentHandler.EndElement | hocr_tools_lib/tools/hocr_extract_g1000.py:277-306 | the callback's new fields are `EndStep` of the old ones |
| ExtractG1000.DocumentHandler.EmitLine | hocr_tools_lib/tools/hocr_extract_g1000.py:283-303 | writing a line that passed the filters gives `EmitStep` of the old fields |
| ExtractG1000.DocumentHandler.WriteLine | hocr_tools_lib/tools/hocr_extract_g1000.py:292-303 | the line is appended with its page, numbers, crop, text and box; `total` grows by one and the run exits at `max_lines` |
| ExtractG1000.DocumentHandler.Characters | hocr_tools_lib/tools/hocr_extract_g1000.py:308-310 | corrected behaviour, see ## Findings; as written: `CharactersAsWritten`. The text grows by the characters given and nothing else changes |
| ExtractG1000.DocumentHandler.Parse | hocr_tools_lib/tools/hocr_extract_g1000.py:77-88 | feeding the events to the callbacks in order gives `Steps` of the old state |
| ExtractG1000.StepsHalted | hocr_tools_lib/tools/hocr_extract_g1000.py:302-303 | once the run has stopped no event changes anything |
| ExtractG1000.PageStart | hocr_tools_lib/tools/hocr_extract_g1000.py:261-266 | a page start increments `pageno`, sets `lineno` to -1 and goes one level deeper; it takes the next image exactly when one is left and raises `IndexError` otherwise; nothing is written |
| ExtractG1000.TargetStart | hocr_tools_lib/tools/hocr_extract_g1000.py:261-275 | a target start goes one level deeper, then opens the next line number with `start` at that depth, an empty text and the box read; a box that cannot be read stops the run with its error, and a target before any page raises `AttributeError` |
| ExtractG1000.OtherStart | hocr_tools_lib/tools/hocr_extract_g1000.py:260-275 | any other element only goes one level deeper |
| ExtractG1000.LineEnd | hocr_tools_lib/tools/hocr_extract_g1000.py:277-306 | only the end of the open target element hands its line to the writer, and only when its text passes the length, regex and dictionary filters; either way the text and `start` are reset unless the run stopped; every end goes one level up |
| ExtractG1000.EmitMeaning | hocr_tools_lib/tools/hocr_extract_g1000.py:283-303 | a line is written exactly when its crop succeeds, with the page's image and the numbers as they stand; `total` grows by one and the run exits exactly when it reaches `max_lines`; a failed crop stops the run with its error; nothing else changes |
| ExtractG1000.EmitUnset | hocr_tools_lib/tools/hocr_extract_g1000.py:284-285 | writing before a page or a box was ever assigned raises `AttributeError` |
| ExtractG1000.StepsCounters | hocr_tools_lib/tools/hocr_extract_g1000.py:260-310 | over a run that does not stop, the depth moves by the starts minus the ends; written lines are only appended, and `total` counts them |
| ExtractG1000.StepCounters | hocr_tools_lib/tools/hocr_extract_g1000.py:260-310 | one event moves the depth by +1, -1 or 0 unless it stops the run, appends lines only, and keeps `total` counting them |
| ExtractG1000.StartCounters | hocr_tools_lib/tools/hocr_extract_g1000.py:260-275 | an element start goes one level deeper, writes nothing, and never exits the run |
| ExtractG1000.PageCounters | hocr_tools_lib/tools/hocr_extract_g1000.py:261-266 | the page half of a start goes one level deeper, writes nothing, and never exits |
| ExtractG1000.LineCounters | hocr_tools_lib/tools/hocr_extract_g1000.py:267-275 | the target half of a start keeps the depth, writes nothing, and never exits |
| ExtractG1000.EndCounters | hocr_tools_lib/tools/hocr_extract_g1000.py:277-306 | an element end goes one level up unless it stops the run, appends lines only, and keeps `total` counting them |
| ExtractG1000.EmitCounters | hocr_tools_lib/tools/hocr_extract_g1000.py:283-303 | the writer keeps the depth, appends lines only, and keeps `total` counting them |
| ExtractG1000.StepTotal | hocr_tools_lib/tools/hocr_extract_g1000.py:301-303 | one event writes at most one line; a run exits only on the line that reaches `max_lines` |
| ExtractG1000.EndTotal | hocr_tools_lib/tools/hocr_extract_g1000.py:277-306 | an element end writes no line, or one line and exits exactly at `max_lines`, or stops with an error and `total` unchanged |
| ExtractG1000.EmitTotal | hocr_tools_lib/tools/hocr_extract_g1000.py:283-303 | the writer either fails with `total` unchanged, or counts one line and exits exactly at `max_lines` |
| ExtractG1000.WriteTotal | hocr_tools_lib/tools/hocr_extract_g1000.py:301-303 | writing a line counts it and exits exactly when `max_lines` is reached |
| ExtractG1000.StepsMaxLines | hocr_tools_lib/tools/hocr_extract_g1000.py:301-303 | from a count below `max_lines` a run never writes more than `max_lines` lines, and it exits exactly when it reaches that many |
| ExtractG1000.StepsAppend | hocr_tools_lib/tools/hocr_extract_g1000.py:77-88 | running two event lists one after the other is running their concatenation |
| ExtractG1000.StepsTwo | hocr_tools_lib/tools/hocr_extract_g1000.py:77-88 | two events run one after the other |
| ExtractG1000.StepsThree | hocr_tools_lib/tools/hocr_extract_g1000.py:77-88 | three events run one after the other |
| ExtractG1000.OpenFirstLine | hocr_tools_lib/tools/hocr_extract_g1000.py:249-275 | a page start and a target start with a readable box leave line 0 of page 0 open at depth 2 with the first image |
| ExtractG1000.CloseFirstLine | hocr_tools_lib/tools/hocr_extract_g1000.py:277-310 | the text, the end of that line and the end of the page write the line and bring the depth back to 0 |
| ExtractG1000.FirstLineText | hocr_tools_lib/tools/hocr_extract_g1000.py:308-310 | the text of the open line is the characters given |
| ExtractG1000.PageEndAfterLine | hocr_tools_lib/tools/hocr_extract_g1000.py:277-306 | the end of the page after its line was closed goes one level up and changes nothing else |
| ExtractG1000.WriteFirstLine | hocr_tools_lib/tools/hocr_extract_g1000.py:277-306 | the end of the open line writes it with page 0, line 0, its crop, text and box, and resets text and `start` |
| ExtractG1000.OneLineRun | hocr_tools_lib/tools/hocr_extract_g1000.py:77-310 | the whole run over a page with one passing line ends in the state with that one line written, `total` 1 and depth 0 |
| ExtractG1000.OneLineDocument | hocr_tools_lib/tools/hocr_extract_g1000.py:249-310 | a page holding one target line whose text passes writes exactly that line, numbered page 0 and line 0, with its crop, and the run goes on |
| ExtractG1000.NoLineAsWritten | hocr_tools_lib/tools/hocr_extract_g1000.py:269-285 | as written, no line can ever be cropped: a title makes `get_prop` raise, and no title leaves no box for the assertion |
| ExtractG1000.BboxOfFindsBox | hocr_tools_lib/tools/hocr_extract_g1000.py:269-271 | reading the title as the element's properties finds its box |
| ExtractG1000.CharactersAsWrittenRaises | hocr_tools_lib/tools/hocr_extract_g1000.py:308-310 | as declared with `start` and `end`, the parser's one-argument call raises `TypeError` on the first text and adds nothing to the line, where the corrected callback would |
| ExtractG1000.CharactersAppend | hocr_tools_lib/tools/hocr_extract_g1000.py:308-310 | the one-argument handler appends the text to the open line, keeping what was there |
| WordFreq.JoinHyphenated | hocr_tools_lib/tools/hocr_wordfreq.py:40 | deleting hyphens at line breaks never lengthens the text |
| WordFreq.BreaksToSpaces | hocr_tools_lib/tools/hocr_wordfreq.py:42 | rewriting the breaks never lengthens the text |
| WordFreq.NoBreakLeft | hocr_tools_lib/tools/hocr_wordfreq.py:42 | no line feed survives the rewriting of breaks |
| WordFreq.BreaksToSpacesPointwise | hocr_tools_lib/tools/hocr_wordfreq.py:42 | without carriage returns each line feed becomes a space and every other character stays, in place |
| WordFreq.NoHyphenNoJoin | hocr_tools_lib/tools/hocr_wordfreq.py:40 | a text without hyphens is left as it is |
| WordFreq.JoinAcrossBreak | hocr_tools_lib/tools/hocr_wordfreq.py:40 | a word broken by a hyphen at a `\n` or `\r\n` line end is joined: `a-\nb` becomes `a` followed by `b` |
| WordFreq.CountAppend | hocr_tools_lib/tools/hocr_wordfreq.py:47-50 | one more token adds one to its own count and nothing to any other |
| WordFreq.DistinctMeaning | hocr_tools_lib/tools/hocr_wordfreq.py:47-50 | the dictionary's keys are exactly the non-empty tokens, each once; a word has a positive count exactly when it occurs |
| WordFreq.DistinctStep | hocr_tools_lib/tools/hocr_wordfreq.py:47-50 | one more token adds a key at the end exactly when it is new and not empty |
| WordFreq.CountsStep | hocr_tools_lib/tools/hocr_wordfreq.py:47-50 | one more token: a new word enters with count 1, a known word's count grows by one, `""` is skipped |
| WordFreq.CountEntry | hocr_tools_lib/tools/hocr_wordfreq.py:47-50 | the same, for one key of the dictionary |
| WordFreq.CountWords | hocr_tools_lib/tools/hocr_wordfreq.py:43-50 | the counting loop builds the counts of the tokens, with keys in first-occurrence order |
| WordFreq.SumCountsStep | hocr_tools_lib/tools/hocr_wordfreq.py:47-50 | one more token adds one to the total count of a set of distinct words exactly when it is among them |
| WordFreq.SumCountsAppend | hocr_tools_lib/tools/hocr_wordfreq.py:47-50 | adding a word to the set adds its count to the total |
| WordFreq.CountsAddUp | hocr_tools_lib/tools/hocr_wordfreq.py:47-50 | the counts add up to the number of non-empty tokens |
| WordFreq.InsertByCount | hocr_tools_lib/tools/hocr_wordfreq.py:52-53 | inserting a word into the ranking adds one entry |
| WordFreq.Rank | hocr_tools_lib/tools/hocr_wordfreq.py:52-53 | ranking keeps the number of words |
| WordFreq.InsertMultiset | hocr_tools_lib/tools/hocr_wordfreq.py:52-53 | insertion adds exactly the inserted word |
| WordFreq.InsertAtMost | hocr_tools_lib/tools/hocr_wordfreq.py:52-53 | insertion keeps a bound on the counts |
| WordFreq.InsertDescending | hocr_tools_lib/tools/hocr_wordfreq.py:52-53 | insertion keeps the ranking in non-increasing count order |
| WordFreq.WithCountAppend | hocr_tools_lib/tools/hocr_wordfreq.py:52-53 | the words with a given count in a concatenation are those of each part in order |
| WordFreq.WithCountBelow | hocr_tools_lib/tools/hocr_wordfreq.py:52-53 | a list whose counts are all below `k` has no word of count `k` |
| WordFreq.InsertInFront | hocr_tools_lib/tools/hocr_wordfreq.py:52-53 | a word placed before lower counts comes before them among its equals too |
| WordFreq.InsertStable | hocr_tools_lib/tools/hocr_wordfreq.py:52-53 | insertion places a word after the words already there with the same count |
| WordFreq.RankSorts | hocr_tools_lib/tools/hocr_wordfreq.py:52-53 | the ranking is a permutation of the words in non-increasing count order |
| WordFreq.RankStable | hocr_tools_lib/tools/hocr_wordfreq.py:52-53 | the sort is stable under `reverse=True`: words with the same count keep their input order |
| WordFreq.ReportOf | hocr_tools_lib/tools/hocr_wordfreq.py:52-57 | the report has one line per ranked word up to the limit |
| WordFreq.Report | hocr_tools_lib/tools/hocr_wordfreq.py:52-57 | the loop with its `break` yields `min(n, max_hits + 1)` lines (none for a negative limit), line `k` the `k`-th ranked word with its count |
| WordFreq.FormatExamples | hocr_tools_lib/tools/hocr_wordfreq.py:57 | 23 occurrences of `the` are reported as `23   \tthe` (the count left-justified in five) |
| WordFreq.WordFrequencies | hocr_tools_lib/tools/hocr_wordfreq.py:16-57 | the whole function, strip, lowercase, dehyphenate, split, count, rank and report, computes `Frequencies`: `AssertionError` without a body |
| WordFreq.FrequenciesMeaning | hocr_tools_lib/tools/hocr_wordfreq.py:43-57 | the report says what it claims: `min(n, max_hits + 1)` lines for `n` distinct words, line `k` the `k`-th ranked word with its number of occurrences |
| WordFreq.RankedWords | hocr_tools_lib/tools/hocr_wordfreq.py:43-53 | the ranked words are the distinct non-empty tokens, each once, each carrying its number of occurrences |
| WordFreq.RankedOrder | hocr_tools_lib/tools/hocr_wordfreq.py:52-53 | counts never increase down the ranking, and words of equal count keep their first-occurrence order |
| WordFreq.PreparedTextMeaning | hocr_tools_lib/tools/hocr_wordfreq.py:33-42 | dehyphenated text has no line feed left; without options the text is the stripped body |
| WordFreqLegacy.Frequencies | hocr_tools/tools/hocr_wordfreq.py:12-13 | the older tool fails with `AttributeError` exactly when there is no body |
| WordFreqLegacy.AgreesWithCurrent | hocr_tools/tools/hocr_wordfreq.py:8-37 | on a document with a body both tools give the same report; without one the older fails on the missing element and the current one on its assertion |
| WordFreqLegacy.LegacyMeaning | hocr_tools/tools/hocr_wordfreq.py:23-37 | the older report has `min(n, max_hits + 1)` lines, line `k` the `k`-th ranked word with its count, ranked by count |
| Check.Reports | hocr_tools_lib/tools/hocr_check.py:36-46 | one numbered line per check, numbered on from the counter |
| Check.TextMeaning | hocr_tools_lib/tools/hocr_check.py:43-46 | a failed check's line starts with `not ok `, a passed one's with `ok `; then the number, ` - `, the message and a line end |
| Check.ReportsConcat | hocr_tools_lib/tools/hocr_check.py:36-46 | the lines of two runs of checks one after the other are the lines of both, the second numbered on from the first |
| Check.ReportsAppend | hocr_tools_lib/tools/hocr_check.py:36-46 | one more check adds one line, numbered after the others |
| Check.ReportsThen | hocr_tools_lib/tools/hocr_check.py:48-54 | writing the lines of one list of checks and then another writes the lines of both |
| Check.Placed | hocr_tools_lib/tools/hocr_check.py:86-108 | one check per element of a kind |
| Check.StructureCount | hocr_tools_lib/tools/hocr_check.py:67-108 | the structure checks are the two meta checks and the page check, then one per line, paragraph and content area in that order, each passing exactly when the element lies inside a page |
| Check.PaddedIndex | hocr_tools_lib/tools/hocr_check.py:91 | an index below ten is right-aligned in two columns: `ocr_line  7 in an ocr_page` |
| Check.PaddedSeven | hocr_tools_lib/tools/hocr_check.py:91 | `7` in two columns is a space then `7` |
| Check.TwoDigitIndex | hocr_tools_lib/tools/hocr_check.py:91 | a two-digit index fills the column: `ocr_line 12 in an ocr_page` |
| Check.BboxProps | hocr_tools_lib/tools/hocr_check.py:116-118 | one box property read per element |
| Check.BoxesFrom | hocr_tools_lib/tools/hocr_check.py:117-119 | the boxes kept are at most the elements read |
| Check.NoBoxesWithoutProps | hocr_tools_lib/tools/hocr_check.py:117-119 | elements without a box property contribute no box |
| Check.Boxes | hocr_tools_lib/utils/rectangle_utils.py:12-45 | the box of each number tuple is its first four numbers |
| Check.PairTable | hocr_tools_lib/utils/rectangle_utils.py:48-59 | the overlap of every ordered pair of tuples, in a square table |
| Check.NonOverlappingIsScan | hocr_tools_lib/tools/hocr_check.py:120-123 | on tuples of four numbers or more the check is `mostly_non_overlapping` over their boxes with threshold 0.2 |
| Check.ShortTupleRaisesWhenCompared | hocr_tools_lib/tools/hocr_check.py:117-121 | a box of three numbers alone on its page passes; compared with another it raises `IndexError` |
| Check.KindCheck | hocr_tools_lib/tools/hocr_check.py:116-140 | an overlap check carries its message, raises when a box cannot be read, and otherwise succeeds exactly when the scan does |
| Check.KindCheckMeaning | hocr_tools_lib/tools/hocr_check.py:116-140 | with four numbers per box, a kind's check passes exactly when every pair overlaps by at most a fifth; it fails only when some pair overlaps by more, and raises only on a pair with no area to compare |
| Check.PageResults | hocr_tools_lib/tools/hocr_check.py:114-140 | three checks per page |
| Check.FlattenEntry | hocr_tools_lib/tools/hocr_check.py:114-140 | pages of three checks give three entries each; entry `k` is check `k % 3` of page `k / 3` |
| Check.GeometryResults | hocr_tools_lib/tools/hocr_check.py:114-140 | three checks per page |
| Check.GeometryEntry | hocr_tools_lib/tools/hocr_check.py:114-140 | overlap check `k` is check `k % 3` of page `k / 3` |
| Check.GeometryMeaning | hocr_tools_lib/tools/hocr_check.py:110-140 | with no error there are exactly three overlap checks per page, for lines, paragraphs and content areas in turn; an error ends them at the check it hits |
| Check.Checker.constructor | hocr_tools_lib/tools/hocr_check.py:27-34 | a new checker has done no check and written nothing |
| Check.Checker.TestOk | hocr_tools_lib/tools/hocr_check.py:36-46 | one more check is counted and its line written with the new count |
| Check.Checker.CheckPlaced | hocr_tools_lib/tools/hocr_check.py:86-108 | the loop over one kind of element writes one numbered line per element |
| Check.Checker.CheckMeta | hocr_tools_lib/tools/hocr_check.py:71-84 | the meta and page checks write three numbered lines |
| Check.Checker.CheckXmlStructure | hocr_tools_lib/tools/hocr_check.py:67-108 | the structure checks are written in order, numbered on from the counter |
| Check.Checker.Record | hocr_tools_lib/tools/hocr_check.py:114-140 | the overlap checks are written in order until the first one that raises, which writes nothing |
| Check.Checker.CheckGeometry | hocr_tools_lib/tools/hocr_check.py:110-140 | the overlap checks of every page are written in order, stopping at the first error |
| Check.Checker.Check | hocr_tools_lib/tools/hocr_check.py:48-54 | the structure checks are written, then the overlap checks unless disabled, numbered consecutively |
| Check.CheckCounts | hocr_tools_lib/tools/hocr_check.py:48-140 | a run counts 3 checks plus one per line, paragraph and content area, plus three per page when the overlap checks run without error |
| MergeDc.RewriteTag | hocr_tools_lib/tools/hocr_merge_dc.py:34-36 | a tag the namespace pattern matches at its start becomes `dc:` followed by the rest of the tag; any other tag is left alone |
| MergeDc.MetaName | hocr_tools_lib/tools/hocr_merge_dc.py:38 | a `dc:` prefix becomes `DC.` and the rest is kept; any other name is left alone |
| MergeDc.KnownShape | hocr_tools_lib/tools/hocr_merge_dc.py:9-13 | each of the fifteen known elements is `dc:` followed by a non-empty name |
| MergeDc.Sanitise | hocr_tools_lib/tools/hocr_merge_dc.py:40 | each tab, carriage return, line feed and quote becomes a space, every other character stays, in place |
| MergeDc.Take | hocr_tools_lib/tools/hocr_merge_dc.py:41 | `s[:500]` is the start of the text, 500 characters long or all of it |
| MergeDc.StripKeepsNone | hocr_tools_lib/tools/hocr_merge_dc.py:40 | stripping brings back none of the replaced characters |
| MergeDc.StrippedEnds | hocr_tools_lib/tools/hocr_merge_dc.py:40 | a stripped text begins and ends with a non-whitespace character |
| MergeDc.ValueMeaning | hocr_tools_lib/tools/hocr_merge_dc.py:39-41 | a meta's content is at most 500 characters, holds no tab, carriage return, line feed or quote, does not start with whitespace, and is the start of the sanitised and stripped text, which it equals, ending without whitespace, when that fits |
| MergeDc.PickConcat | hocr_tools_lib/tools/hocr_merge_dc.py:33-47 | the metas of two parts of a record are those of the first part followed by those of the second |
| MergeDc.PickEach | hocr_tools_lib/tools/hocr_merge_dc.py:33-47 | what holds of the meta of each element holds of every meta produced |
| MergeDc.PickAll | hocr_tools_lib/tools/hocr_merge_dc.py:33-47 | when every element produces a meta, meta `k` is element `k`'s |
| MergeDc.PickNone | hocr_tools_lib/tools/hocr_merge_dc.py:33-47 | when no element produces a meta, there are none |
| MergeDc.WithoutMeaning | hocr_tools_lib/tools/hocr_merge_dc.py:25-27 | the removal leaves no element it removes, keeps every other, brings in nothing, and changes nothing when there is nothing to remove |
| MergeDc.WithoutConcat | hocr_tools_lib/tools/hocr_merge_dc.py:25-27 | removing from two parts is removing from each |
| MergeDc.RemovalStep | hocr_tools_lib/tools/hocr_merge_dc.py:25-27 | one turn of the in-place removal: the element at the cursor is the next original one; it is dropped or kept |
| MergeDc.AppendStep | hocr_tools_lib/tools/hocr_merge_dc.py:33-47 | one turn of the append loop adds the meta of the element, when it has one |
| MergeDc.MetaForMeaning | hocr_tools_lib/tools/hocr_merge_dc.py:37-47 | the meta of a known element is named `DC.` and one of the fifteen, has a clean content of at most 500 characters, and is one a later removal takes away |
| MergeDc.NewMetasMeaning | hocr_tools_lib/tools/hocr_merge_dc.py:33-47 | every meta the merge writes is named `DC.<element>` for one of the fifteen, with a clean content of at most 500 characters |
| MergeDc.AllKnownInOrder | hocr_tools_lib/tools/hocr_merge_dc.py:33-47 | when every element is known, there is one meta per element, in document order |
| MergeDc.UnknownGiveNothing | hocr_tools_lib/tools/hocr_merge_dc.py:37 | elements outside the fifteen give no meta |
| MergeDc.NewMetasInOrder | hocr_tools_lib/tools/hocr_merge_dc.py:33-47 | the metas follow the order of the record's elements |
| MergeDc.RewriteNamespace | hocr_tools_lib/tools/hocr_merge_dc.py:34-36 | a tag in the Dublin Core namespace becomes `dc:` and its local name |
| MergeDc.NewlineIsNoDot | hocr_tools_lib/tools/hocr_merge_dc.py:34-36 | a newline where the pattern has a dot is not matched, since a Python `re` dot does not match a newline, so such a tag is left as it is |
| MergeDc.CollapsePlain | hocr_tools_lib/utils/node_utils.py:49-58 | a text without whitespace is its own collapsed form |
| MergeDc.PlainText | hocr_tools_lib/tools/hocr_merge_dc.py:39-41 | a text of capital letters that fits is its own meta content |
| MergeDc.TitleExample | hocr_tools_lib/tools/hocr_merge_dc.py:33-47 | a `dc:title` of `UKOLN` gives the meta named `DC.title` with content `UKOLN` |
| MergeDc.KeptMeaning | hocr_tools_lib/tools/hocr_merge_dc.py:25-27 | after the removal no `DC.*` meta is left in the head, every other child is, and nothing else comes in |
| MergeDc.MergeIdempotent | hocr_tools_lib/tools/hocr_merge_dc.py:16-49 | merging the same record twice gives the head of a single merge |
| MergeDc.RemoveAgain | hocr_tools_lib/tools/hocr_merge_dc.py:25-47 | removing again after appending only removable elements leaves what the first removal left |
| MergeDc.Head.constructor | hocr_tools_lib/tools/hocr_merge_dc.py:21-23 | a head holds the children it is given |
| MergeDc.Head.RemoveDcMetas | hocr_tools_lib/tools/hocr_merge_dc.py:25-27 | the in-place loop leaves the head's children without their `DC.*` metas, the others in order |
| MergeDc.Head.AppendMetas | hocr_tools_lib/tools/hocr_merge_dc.py:33-47 | the loop appends the record's metas after the children, in order |
| MergeDc.MergeDublinCore | hocr_tools_lib/tools/hocr_merge_dc.py:16-49 | a document without a head fails the assertion; otherwise the head becomes its children without `DC.*` metas followed by the record's metas |

## Left out

- XML and HTML parsing, XPath queries and `text_content`: every tool is given the element lists and text nodes it would have found. `hocr-check`, `hocr-extract-images` and `hocr-extract-g1000` read each element's `title` string; `hocr-cut` is given the number tuples `get_bbox` returns; `hocr-eval` and `hocr-eval-geom` are given boxes already decoded. The queries under a page (`page.xpath("//*[@class=...]")`) are absolute and see the whole document; the model takes whatever list each page is handed.
- Eval.Evaluate: takes each line's box already decoded into four numbers. The `ValueError`s that `get_bbox` raises are not modelled here: one from `get_prop` on a property without a value (hocr_tools_lib/utils/node_utils.py:25), one from `int` on a non-numeric `bbox` (hocr_tools_lib/utils/node_utils.py:45). Neither is the `IndexError` that `width`, `height` and `intersect` raise on a box of fewer than four numbers.
- EvalGeom.EvaluateGeometries: takes each element's box already decoded into four numbers. As for `Eval.Evaluate`, `get_bbox`'s `ValueError` and the short-box `IndexError` of `width`, `height` and `intersect` are not modelled here.
- Cut.CutAll: takes the number tuples themselves, so a short tuple's `IndexError` is modelled but `get_bbox`'s `ValueError` is not.
- Image work: opening, cropping, drawing, saving and closing images with PIL. Image sizes are inputs, a crop is the box it would be taken with, and saved outputs are records of what would be written. `Image.open` failing on an existing file is not modelled.
- File and process I/O: reading the hOCR and record files, writing line images, text and box files, `os.mkdir`, the `tidy` pipe of `hocr-extract-g1000`, `os.path.exists` (a set of existing paths), reading the environment (a map) and the dictionary file (its words, or `None` when it cannot be opened).
- `get_image_list` of `hocr-extract-g1000` (glob or file listing): the page images are an input list.
- Every `main`, argparse, logging, `print` and writing to stderr. The `verbose` log calls of `evaluate_lines` and `evaluate` write nothing in the model; only the exceptions their arguments raise (`remaining[min_i]` on an empty pool, the division by a zero area) are modelled. `test_ok` appends a `Line` record to the checker's log instead of writing text; `Check.Text` gives that line's text. `sys.exit(0)` after `max_lines` is the `Exited` halt of the handler. The `main` of `hocr-extract-g1000` reads `args.output_prefix`, which its parser never defines; `main` is not part of this model.
- The regex engine: the `\W+` and `\s+` tokenisers and the user's `re.match` are function parameters; the fixed substitutions the code uses (the dehyphenation rewrites, the value sanitiser, the namespace rewrite, the normaliser's character class) are written out.
- `ast.literal_eval` of `--pad` and the `UnicodeDammit` decoding: the padding arrives as a parsed list of integers.
- Floating point: ratios, error sums and tolerances are exact reals, so rounding is not modelled.
- `PyStr.Lower`: lowercases ASCII letters only; Python's `str.lower` maps all of Unicode.
- `PyStr.IsSpace`: Python's whitespace set is written out; the rest of Unicode's character database is not.
- `PyStr.ParseInt`: accepts an optional sign and decimal digits; the underscores and non-ASCII digits `int()` also accepts are not modelled.
- `ExtractImages.JoinPath`: `os.path.join` for a name that does not start with `/`; an absolute name, which replaces the directory, is not modelled.
- Python's `%` formatting of the output patterns (`line-%03d.png`, `output_pattern % (pageno, lineno)`): written lines carry their numbers instead of file names.
- `Cut.Sort`: `list.sort()` is modelled as an insertion sort on the list value, which is reassigned; the in-place algorithm Python uses is not modelled.
- `MergeDc.MergeDublinCore`: models the head's direct children only; `//head//meta` also finds metas nested deeper, several heads, and the `HEAD` spelling. The serialisation with `etree.tostring` and the `nsmap` of the new elements are left out.
- `hocr_pdf.py`, `hocr_split.py`, `hocr_combine.py` (both packages) and `hocr_lines.py`: rendering, library child-list edits, or a single collapse already covered by `get_text`.
- The blank-line deletion of `hocr-wordfreq --dehyphenate` removes nothing from the stripped text (its pattern has no `re.MULTILINE`), so it is not modelled.

## Findings

| source | as written | input that shows it | evidently intended | confidence | as-written member | corrected member |
|---|---|---|---|---|---|---|
| hocr_tools_lib/tools/hocr_extract_g1000.py:269-271 | `get_prop(props, "bbox")` is handed the `title` string, and `get_prop` calls `.get('title')` on it | any target element with a `title`, e.g. `title="bbox 1 2 30 40"`, raises `AttributeError`; without a title no box exists and `assert self.bbox` fails, so no line is ever written | read the `bbox` property from the element's title | high (not executed) | ExtractG1000.NoLineAsWritten | ExtractG1000.BboxOfFindsBox |
| hocr_tools_lib/tools/hocr_extract_g1000.py:308-310 | `characters(self, text, start, end)` takes two extra parameters | the SAX parser calls `characters(content)` with one argument, which raises `TypeError` at the first text of any document | `characters(self, content)` appending to `self.text` | high (not executed) | ExtractG1000.CharactersAsWrittenRaises | ExtractG1000.CharactersAppend |
