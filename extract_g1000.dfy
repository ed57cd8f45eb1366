/**
  Extracting line images from a Google 1000 Books volume: the settings read from the
  environment, the dictionary filter, and the SAX handler that follows the element nesting,
  collects the text of each target element and writes out the lines that pass the filters.
 */
module ExtractG1000 {
  import opened Wrappers
  import opened PyStr
  import opened NodeUtils

  function Max(a: int, b: int): int { if a >= b then a else b }
  function Min(a: int, b: int): int { if a <= b then a else b }

  // ---------------------------------------------------------------- the settings

  /** The settings of a run; `dictData` maps lowercased dictionary words to 1. */
  datatype Configuration = Configuration(
    element: string, regex: string, minLen: int, maxLen: int, dictData: Option<map<string, int>>,
    dictFile: string, maxLines: int, pad: int, outputFormat: string)

  const Defaults := Configuration("ocr_line", ".", 20, 50, None, "", 1000000, 2, "png")

  /** A setting is taken from the environment only when the variable is set to a non-empty value. */
  predicate Given(env: map<string, string>, key: string)
  {
    key in env && env[key] != []
  }

  /** `configuration.dict_data[word.lower()] = 1` for each word of the dictionary file. */
  function DictOf(words: seq<string>): (d: map<string, int>)
    ensures forall w :: w in d <==> exists i :: 0 <= i < |words| && Lower(words[i]) == w
    ensures forall w :: w in d ==> d[w] == 1
  {
    if words == [] then map[]
    else
      var d := DictOf(words[..|words| - 1]);
      assert forall i :: 0 <= i < |words| - 1 ==> words[..|words| - 1][i] == words[i];
      d[Lower(words[|words| - 1]) := 1]
  }

  /**
    `get_configuration`: the defaults, each overridden by its environment variable when that is
    non-empty (`dict` sets `dict_file`; the numbers are parsed with `int`, which can raise
    `ValueError`), then the dictionary read from `dict_file` when one is named. `dictWords` are
    the words of that file, `None` when it cannot be opened.
   */
  function ConfigurationOf(env: map<string, string>, dictWords: Option<seq<string>>): Result<Configuration>
  {
    var d := Defaults;
    var minLen := NumberSetting(env, "min_len", d.minLen);
    var maxLen := NumberSetting(env, "max_len", d.maxLen);
    var maxLines := NumberSetting(env, "max_lines", d.maxLines);
    var pad := NumberSetting(env, "pad", d.pad);
    if minLen.Err? then Err(minLen.error)
    else if maxLen.Err? then Err(maxLen.error)
    else if maxLines.Err? then Err(maxLines.error)
    else if pad.Err? then Err(pad.error)
    else
      var c := d.(element := TextSetting(env, "element", d.element), regex := TextSetting(env, "regex", d.regex),
                  minLen := minLen.value, maxLen := maxLen.value, dictFile := TextSetting(env, "dict", d.dictFile),
                  maxLines := maxLines.value, pad := pad.value,
                  outputFormat := TextSetting(env, "output_format", d.outputFormat));
      if c.dictFile == [] then Ok(c)
      else if dictWords.None? then Err(FileNotFoundError)
      else Ok(c.(dictData := Some(DictOf(dictWords.value))))
  }

  /** `set_value_if_available` for a text setting. */
  function TextSetting(env: map<string, string>, key: string, current: string): string
  {
    if Given(env, key) then env[key] else current
  }

  /** `set_value_if_available` for a number setting: `int(value)`, which ignores surrounding whitespace. */
  function NumberSetting(env: map<string, string>, key: string, current: int): Result<int>
  {
    if Given(env, key) then ParseInt(Strip(env[key])) else Ok(current)
  }

  /** `get_configuration`, one `setattr` after the other on the configuration being built. */
  method GetConfiguration(env: map<string, string>, dictWords: Option<seq<string>>) returns (r: Result<Configuration>)
    ensures r == ConfigurationOf(env, dictWords)
  {
    var c := Defaults;
    c := c.(element := TextSetting(env, "element", c.element));
    c := c.(regex := TextSetting(env, "regex", c.regex));
    var n := NumberSetting(env, "min_len", c.minLen);
    if n.Err? {
      return Err(n.error);
    }
    c := c.(minLen := n.value);
    n := NumberSetting(env, "max_len", c.maxLen);
    if n.Err? {
      return Err(n.error);
    }
    c := c.(maxLen := n.value);
    c := c.(dictFile := TextSetting(env, "dict", c.dictFile));
    n := NumberSetting(env, "max_lines", c.maxLines);
    if n.Err? {
      return Err(n.error);
    }
    c := c.(maxLines := n.value);
    n := NumberSetting(env, "pad", c.pad);
    if n.Err? {
      return Err(n.error);
    }
    c := c.(pad := n.value);
    c := c.(outputFormat := TextSetting(env, "output_format", c.outputFormat));
    if c.dictFile != [] {
      if dictWords.None? {
        return Err(FileNotFoundError);
      }
      c := c.(dictData := Some(DictOf(dictWords.value)));
    }
    return Ok(c);
  }

  /** With nothing set in the environment, the settings are the defaults. */
  lemma DefaultsWhenUnset(env: map<string, string>, dictWords: Option<seq<string>>)
    requires forall k :: k in env ==> env[k] == []
    ensures ConfigurationOf(env, dictWords) == Ok(Configuration("ocr_line", ".", 20, 50, None, "", 1000000, 2, "png"))
  {
  }

  /** Each text setting is its environment value when that is non-empty and its default otherwise. */
  lemma TextSettingsOverride(env: map<string, string>, dictWords: Option<seq<string>>)
    requires ConfigurationOf(env, dictWords).Ok?
    ensures var c := ConfigurationOf(env, dictWords).value;
            && c.element == (if Given(env, "element") then env["element"] else "ocr_line")
            && c.regex == (if Given(env, "regex") then env["regex"] else ".")
            && c.dictFile == (if Given(env, "dict") then env["dict"] else "")
            && c.outputFormat == (if Given(env, "output_format") then env["output_format"] else "png")
  {
  }

  /** A number setting is its parsed environment value when that is non-empty, and fails when that does not parse. */
  lemma NumberSettingMeaning(env: map<string, string>, key: string, current: int)
    ensures NumberSetting(env, key, current).Err? <==> Given(env, key) && ParseInt(Strip(env[key])).Err?
    ensures NumberSetting(env, key, current).Ok? ==>
              NumberSetting(env, key, current).value == if Given(env, key) then ParseInt(Strip(env[key])).value else current
  {
  }

  /** The number settings are taken from the environment over their defaults 20, 50, 1000000 and 2. */
  lemma NumberSettingsOverride(env: map<string, string>, dictWords: Option<seq<string>>)
    requires ConfigurationOf(env, dictWords).Ok?
    ensures var c := ConfigurationOf(env, dictWords).value;
            && NumberSetting(env, "min_len", 20) == Ok(c.minLen)
            && NumberSetting(env, "max_len", 50) == Ok(c.maxLen)
            && NumberSetting(env, "max_lines", 1000000) == Ok(c.maxLines)
            && NumberSetting(env, "pad", 2) == Ok(c.pad)
  {
  }

  /** A dictionary is loaded exactly when a file is named, and holds the lowercased words of that file. */
  lemma DictionaryLoaded(env: map<string, string>, dictWords: Option<seq<string>>)
    requires ConfigurationOf(env, dictWords).Ok?
    ensures var c := ConfigurationOf(env, dictWords).value;
            && (c.dictData.Some? <==> c.dictFile != [])
            && (c.dictData.Some? ==> dictWords.Some? && c.dictData.value == DictOf(dictWords.value))
  {
  }

  /** The settings fail exactly on a number that does not parse, or a dictionary file that cannot be read. */
  lemma ConfigurationFails(env: map<string, string>, dictWords: Option<seq<string>>)
    ensures ConfigurationOf(env, dictWords).Err? <==>
              || NumberSetting(env, "min_len", 20).Err? || NumberSetting(env, "max_len", 50).Err?
              || NumberSetting(env, "max_lines", 1000000).Err? || NumberSetting(env, "pad", 2).Err?
              || (Given(env, "dict") && dictWords.None?)
  {
  }

  // ---------------------------------------------------------------- the dictionary filter

  /**
    `check_dict`: without a dictionary (none, or an empty one) every text passes; otherwise every
    non-empty word, lowercased, must map to a non-zero value. `words` is `re.split(r'\W+', s)`.
   */
  predicate DictAccepts(dictionary: Option<map<string, int>>, words: seq<string>)
  {
    dictionary.None? || dictionary.value == map[]
    || forall i :: 0 <= i < |words| && words[i] != [] ==>
         Lower(words[i]) in dictionary.value && dictionary.value[Lower(words[i])] != 0
  }

  /** The loop over the words, returning `False` at the first word the dictionary lacks. */
  method CheckDict(dictionary: Option<map<string, int>>, words: seq<string>) returns (r: bool)
    ensures r == DictAccepts(dictionary, words)
  {
    if dictionary.None? || dictionary.value == map[] {
      return true;
    }
    var d := dictionary.value;
    for i := 0 to |words|
      invariant forall j :: 0 <= j < i && words[j] != [] ==> Lower(words[j]) in d && d[Lower(words[j])] != 0
    {
      var word := words[i];
      if word == [] {
        continue;
      }
      var key := Lower(word);
      if key !in d || d[key] == 0 {
        return false;
      }
    }
    return true;
  }

  lemma LowerCharIdempotent(c: char)
    ensures LowerChar(LowerChar(c)) == LowerChar(c)
  {
  }

  /** Lowercasing twice is lowercasing once. */
  lemma LowerIdempotent(s: string)
    ensures Lower(Lower(s)) == Lower(s)
  {
    forall i | 0 <= i < |s|
      ensures Lower(Lower(s))[i] == Lower(s)[i]
    {
      LowerCharIdempotent(s[i]);
    }
  }

  /**
    With a dictionary read from a file, a text passes exactly when each of its non-empty words
    is, up to letter case, a word of the file: the filter ignores case.
   */
  lemma DictFromFileMeaning(fileWords: seq<string>, words: seq<string>)
    requires fileWords != []
    ensures DictAccepts(Some(DictOf(fileWords)), words) <==>
              forall i :: 0 <= i < |words| && words[i] != [] ==>
                exists j :: 0 <= j < |fileWords| && Lower(fileWords[j]) == Lower(words[i])
  {
    var d := DictOf(fileWords);
    assert Lower(fileWords[0]) in d;
  }

  /** Changing the letter case of the words changes nothing. */
  lemma DictAcceptsIgnoresCase(dictionary: Option<map<string, int>>, words: seq<string>, lowered: seq<string>)
    requires |lowered| == |words| && forall i :: 0 <= i < |words| ==> lowered[i] == Lower(words[i])
    ensures DictAccepts(dictionary, words) <==> DictAccepts(dictionary, lowered)
  {
    forall i | 0 <= i < |words|
      ensures Lower(lowered[i]) == Lower(words[i]) && (lowered[i] == [] <==> words[i] == [])
    {
      LowerIdempotent(words[i]);
    }
  }

  // ---------------------------------------------------------------- the line crop

  datatype Crop = Crop(x0: int, y0: int, x1: int, y1: int)

  /**
    The crop of a line that passed the filters, from the integers of its box: there must be four
    (`ValueError` otherwise), the box must be non-empty and inside the `w` by `h` image
    (`AssertionError` otherwise); it is then padded and clamped to the image.
   */
  function CropOfInts(xs: seq<int>, w: int, h: int, pad: int): Result<Crop>
  {
    if |xs| != 4 then Err(ValueError)
    else if !(xs[1] < xs[3] && xs[0] < xs[2] <= w && xs[3] <= h) then Err(AssertionError)
    else Ok(Crop(Max(0, xs[0] - pad), Max(0, xs[1] - pad), Min(w, xs[2] + pad), Min(h, xs[3] + pad)))
  }

  /** The crop from the box text: a missing or empty box fails its `assert`; the tokens must be integers. */
  function CropOf(bbox: Option<string>, w: int, h: int, pad: int): Result<Crop>
  {
    if bbox.None? || bbox.value == [] then Err(AssertionError)
    else match ParseInts(Words(bbox.value))
      case Err(e) => Err(e)
      case Ok(xs) => CropOfInts(xs, w, h, pad)
  }

  /**
    A crop lies inside the image; with a padding of zero or more, a box that starts inside the
    image is held by its crop, which is then not empty. It fails exactly on a box that is not four integers or not inside the image.
   */
  lemma CropMeaning(xs: seq<int>, w: int, h: int, pad: int)
    ensures CropOfInts(xs, w, h, pad).Ok? <==> |xs| == 4 && xs[1] < xs[3] && xs[0] < xs[2] <= w && xs[3] <= h
    ensures CropOfInts(xs, w, h, pad).Err? ==> CropOfInts(xs, w, h, pad).error == (if |xs| != 4 then ValueError else AssertionError)
    ensures CropOfInts(xs, w, h, pad).Ok? ==>
              var c := CropOfInts(xs, w, h, pad).value;
              && 0 <= c.x0 && 0 <= c.y0 && c.x1 <= w && c.y1 <= h
              && (pad >= 0 && 0 <= xs[0] && 0 <= xs[1] ==>
                    c.x0 <= xs[0] && c.y0 <= xs[1] && xs[2] <= c.x1 && xs[3] <= c.y1 && c.x0 < c.x1 && c.y0 < c.y1)
              && (pad == 0 && 0 <= xs[0] && 0 <= xs[1] ==> c == Crop(xs[0], xs[1], xs[2], xs[3]))
  {
  }

  /** The padding is cut off at the image's edges. */
  lemma CropClamped()
    ensures CropOfInts([1, 2, 30, 40], 30, 40, 2) == Ok(Crop(0, 0, 30, 40))
    ensures CropOfInts([5, 6, 20, 30], 30, 40, 2) == Ok(Crop(3, 4, 22, 32))
    ensures CropOfInts([5, 6, 20, 30], 10, 40, 2) == Err(AssertionError)
    ensures CropOfInts([5, 6, 20], 30, 40, 2) == Err(ValueError)
  {
  }

  /** A missing or empty box fails its assertion; tokens that are not integers raise `ValueError`. */
  lemma CropOfFails(bbox: Option<string>, w: int, h: int, pad: int)
    ensures bbox.None? || bbox.value == [] ==> CropOf(bbox, w, h, pad) == Err(AssertionError)
    ensures bbox.Some? && bbox.value != [] && ParseInts(Words(bbox.value)).Err? ==> CropOf(bbox, w, h, pad) == Err(ValueError)
    ensures bbox.Some? && bbox.value != [] && ParseInts(Words(bbox.value)).Ok? ==>
              CropOf(bbox, w, h, pad) == CropOfInts(ParseInts(Words(bbox.value)).value, w, h, pad)
  {
  }

  // ---------------------------------------------------------------- the handler

  /** A SAX event: an element start with its `class` and `title` attributes, an element end, or text. */
  datatype Event = StartElem(cls: Option<string>, title: Option<string>) | EndElem | Chars(data: string)

  /** The image of a page: its file name and its size. */
  datatype PageImage = PageImage(name: string, width: int, height: int)

  /** A line written out: its page image and numbers, its crop, text and box. */
  datatype Written = Written(image: string, pageno: int, lineno: int, crop: Crop, text: string, bbox: string)

  /** How a run stopped: an exception, or `sys.exit(0)` after enough lines. */
  datatype Halt = Raised(error: Error) | Exited

  /**
    The handler's fields. An attribute the code has not assigned yet is `None` (`lineno`, `page`,
    `bbox`); reading it raises `AttributeError`. `halted` is set once the run has stopped.
   */
  datatype HState = HState(
    total: int, pageno: int, lineno: Option<int>, text: string, depth: int, start: int,
    page: Option<PageImage>, bbox: Option<Option<string>>, written: seq<Written>, halted: Option<Halt>)

  /** What `startDocument` leaves. */
  const Initial := HState(0, -1, None, "", 0, -1, None, None, [], None)

  /**
    What the handler is given: the settings, the page images in order, `re.match(regex, ·)` as
    `accept`, and `re.split(r'\W+', ·)` as `split`.
   */
  datatype Setup = Setup(cfg: Configuration, images: seq<PageImage>, accept: string -> bool, split: string -> seq<string>)

  /** The value of the `class` attribute, `""` when there is none. */
  function ClassOf(cls: Option<string>): string
  {
    if cls.Some? then cls.value else ""
  }

  /**
    The `bbox` property of a target element read from its `title` attribute: absent without a
    title, else the property (a segment without a value raises).
   */
  function BboxOf(title: Option<string>): Result<Option<string>>
  {
    if title.None? then Ok(None) else PropOf(title, "bbox", false)
  }

  /** The first half of `startElement`: one level deeper, and a page start moves to the next image. */
  function PageStep(su: Setup, s: HState, cls: Option<string>): HState
  {
    var s1 := s.(depth := s.depth + 1);
    if ClassOf(cls) != "ocr_page" then s1
    else if !(0 <= s1.pageno + 1 < |su.images|) then s1.(lineno := Some(-1), pageno := s1.pageno + 1, halted := Some(Raised(IndexError)))
    else s1.(lineno := Some(-1), pageno := s1.pageno + 1, page := Some(su.images[s1.pageno + 1]))
  }

  /** The second half: a target start opens a line with the box `b` read from its title. */
  function LineStep(su: Setup, s: HState, cls: Option<string>, b: Result<Option<string>>): HState
  {
    if s.halted.Some? || ClassOf(cls) != su.cfg.element then s
    else if s.lineno.None? then s.(halted := Some(Raised(AttributeError)))
    else
      var s1 := s.(lineno := Some(s.lineno.value + 1));
      match b
      case Err(e) => s1.(halted := Some(Raised(e)))
      case Ok(box) => s1.(bbox := Some(box), start := s1.depth, text := "")
  }

  /** `startElement`. */
  function StartStep(su: Setup, s: HState, cls: Option<string>, title: Option<string>): HState
  {
    LineStep(su, PageStep(su, s, cls), cls, BboxOf(title))
  }

  /** The filters a line's text must pass: its length, the regex and the dictionary. */
  predicate Accepts(su: Setup, text: string)
  {
    su.cfg.minLen <= |text| <= su.cfg.maxLen && su.accept(text) && DictAccepts(su.cfg.dictData, su.split(text))
  }

  /** Writing a line that passed the filters: its crop, then the count, which may end the run. */
  function EmitStep(su: Setup, s: HState): HState
  {
    if s.page.None? || s.bbox.None? then s.(halted := Some(Raised(AttributeError)))
    else match CropOf(s.bbox.value, s.page.value.width, s.page.value.height, su.cfg.pad)
      case Err(e) => s.(halted := Some(Raised(e)))
      case Ok(c) =>
        if s.lineno.None? then s.(halted := Some(Raised(AttributeError)))
        else WriteStep(su, s, c)
  }

  /** The line written with crop `c`, then the count, which may end the run. */
  function WriteStep(su: Setup, s: HState, c: Crop): HState
    requires s.page.Some? && s.bbox.Some? && s.lineno.Some?
  {
    var line := Written(s.page.value.name, s.pageno, s.lineno.value, c, s.text,
                        if s.bbox.value.Some? then s.bbox.value.value else "");
    var s1 := s.(written := s.written + [line], total := s.total + 1);
    if s1.total >= su.cfg.maxLines then s1.(halted := Some(Exited)) else s1
  }

  /** `endElement`: the end of the open target element closes its line; one level up. */
  function EndStep(su: Setup, s: HState): HState
  {
    if s.depth != s.start then s.(depth := s.depth - 1)
    else
      var s1 := if Accepts(su, s.text) then EmitStep(su, s) else s;
      if s1.halted.Some? then s1 else s1.(text := "", start := -1, depth := s1.depth - 1)
  }

  /** One event; a run that has stopped sees no more. */
  function Step(su: Setup, s: HState, e: Event): HState
  {
    if s.halted.Some? then s
    else match e
      case StartElem(cls, title) => StartStep(su, s, cls, title)
      case EndElem => EndStep(su, s)
      case Chars(data) => s.(text := s.text + data)
  }

  function Steps(su: Setup, s: HState, es: seq<Event>): HState
    decreases |es|
  {
    if es == [] then s else Steps(su, Step(su, s, es[0]), es[1..])
  }

  /** Reading the box from the title with `get_prop`. */
  method ReadBbox(title: Option<string>) returns (b: Result<Option<string>>)
    ensures b == BboxOf(title)
  {
    if title.None? {
      return Ok(None);
    }
    b := GetProp(title, "bbox", false);
  }

  /** `DocumentHandler`: the SAX callbacks update these fields. */
  class DocumentHandler {
    const su: Setup
    var total: int
    var pageno: int
    var lineno: Option<int>
    var text: string
    var depth: int
    var start: int
    var page: Option<PageImage>
    var bbox: Option<Option<string>>
    var written: seq<Written>
    var halted: Option<Halt>

    function State(): HState
      reads this
    {
      HState(total, pageno, lineno, text, depth, start, page, bbox, written, halted)
    }

    /** A handler for a run, as `startDocument` leaves it. */
    constructor (setup: Setup)
      ensures su == setup && State() == Initial
    {
      su := setup;
      total, pageno, lineno, text, depth, start := 0, -1, None, "", 0, -1;
      page, bbox, written, halted := None, None, [], None;
    }

    method SetState(s: HState)
      modifies this
      ensures State() == s
    {
      total, pageno, lineno, text, depth, start := s.total, s.pageno, s.lineno, s.text, s.depth, s.start;
      page, bbox, written, halted := s.page, s.bbox, s.written, s.halted;
    }

    method StartDocument()
      modifies this
      ensures State() == Initial
    {
      total, pageno, text, depth, start := 0, -1, "", 0, -1;
      lineno, page, bbox, written, halted := None, None, None, [], None;
    }

    method StartElement(cls: Option<string>, title: Option<string>)
      requires halted.None?
      modifies this
      ensures State() == StartStep(su, old(State()), cls, title)
    {
      EnterPage(cls);
      var b := ReadBbox(title);
      OpenLine(cls, b);
    }

    method EnterPage(cls: Option<string>)
      modifies this
      ensures State() == PageStep(su, old(State()), cls)
    {
      depth := depth + 1;
      if ClassOf(cls) == "ocr_page" {
        lineno := Some(-1);
        pageno := pageno + 1;
        if !(0 <= pageno < |su.images|) {
          halted := Some(Raised(IndexError));
          return;
        }
        page := Some(su.images[pageno]);
      }
    }

    method OpenLine(cls: Option<string>, b: Result<Option<string>>)
      modifies this
      ensures State() == LineStep(su, old(State()), cls, b)
    {
      if halted.Some? || ClassOf(cls) != su.cfg.element {
        return;
      }
      if lineno.None? {
        halted := Some(Raised(AttributeError));
        return;
      }
      lineno := Some(lineno.value + 1);
      if b.Err? {
        halted := Some(Raised(b.error));
        return;
      }
      bbox := Some(b.value);
      start := depth;
      text := "";
    }

    method EndElement()
      requires halted.None?
      modifies this
      ensures State() == EndStep(su, old(State()))
    {
      if depth == start {
        if Accepts(su, text) {
          EmitLine();
          if halted.Some? {
            return;
          }
        }
        text := "";
        start := -1;
      }
      depth := depth - 1;
    }

    method EmitLine()
      requires halted.None?
      modifies this
      ensures State() == EmitStep(su, old(State()))
    {
      if page.None? || bbox.None? {
        halted := Some(Raised(AttributeError));
        return;
      }
      var c := CropOf(bbox.value, page.value.width, page.value.height, su.cfg.pad);
      if c.Err? {
        halted := Some(Raised(c.error));
        return;
      }
      if lineno.None? {
        halted := Some(Raised(AttributeError));
        return;
      }
      WriteLine(c.value);
    }

    method WriteLine(c: Crop)
      requires page.Some? && bbox.Some? && lineno.Some?
      modifies this
      ensures State() == WriteStep(su, old(State()), c)
    {
      written := written + [Written(page.value.name, pageno, lineno.value, c, text,
                                    if bbox.value.Some? then bbox.value.value else "")];
      total := total + 1;
      if total >= su.cfg.maxLines {
        halted := Some(Exited);
      }
    }

    method Characters(data: string)
      requires halted.None?
      modifies this
      ensures State() == old(State()).(text := old(text) + data)
    {
      text := text + data;
    }

    /** The parser's loop: each event goes to its callback until the run stops. */
    method Parse(es: seq<Event>)
      modifies this
      ensures State() == Steps(su, old(State()), es)
    {
      for i := 0 to |es|
        invariant Steps(su, old(State()), es) == Steps(su, State(), es[i..])
      {
        assert es[i..][1..] == es[i + 1..];
        if halted.Some? {
          StepsHalted(su, State(), es[i..]);
          return;
        }
        match es[i]
        case StartElem(cls, title) => StartElement(cls, title);
        case EndElem => EndElement();
        case Chars(data) => Characters(data);
      }
    }
  }

  // ---------------------------------------------------------------- properties of the handler

  /** A stopped run stays as it is. */
  lemma {:induction false} StepsHalted(su: Setup, s: HState, es: seq<Event>)
    requires s.halted.Some?
    ensures Steps(su, s, es) == s
    decreases |es|
  {
    if es != [] {
      StepsHalted(su, s, es[1..]);
    }
  }

  /**
    A page start moves to the next page image and restarts the line numbers at -1 (0 when the
    page element is itself a target); `IndexError` when the images have run out.
   */
  lemma PageStart(su: Setup, s: HState, title: Option<string>)
    requires su.cfg.element != "ocr_page" && s.halted.None?
    ensures var s' := StartStep(su, s, Some("ocr_page"), title);
            && s'.pageno == s.pageno + 1 && s'.lineno == Some(-1) && s'.depth == s.depth + 1
            && (0 <= s.pageno + 1 < |su.images| <==> s'.halted.None?)
            && (s'.halted.None? ==> s'.page == Some(su.images[s.pageno + 1]))
            && (s'.halted.Some? ==> s'.halted == Some(Raised(IndexError)))
            && s'.written == s.written && s'.total == s.total && s'.text == s.text && s'.start == s.start
  {
  }

  /**
    A target start goes one level deeper like any other, then opens a line with the box `b` of its
    title: the next line number, `start` at the new depth, an empty text; a title that cannot be
    read stops the run, and so does a target before any page.
   */
  lemma TargetStart(su: Setup, s: HState, cls: string, b: Result<Option<string>>)
    requires cls == su.cfg.element && cls != "ocr_page" && s.halted.None?
    ensures PageStep(su, s, Some(cls)) == s.(depth := s.depth + 1)
    ensures s.lineno.None? ==> LineStep(su, s, Some(cls), b) == s.(halted := Some(Raised(AttributeError)))
    ensures s.lineno.Some? ==>
              var s' := LineStep(su, s, Some(cls), b);
              && s'.depth == s.depth && s'.lineno == Some(s.lineno.value + 1) && s'.pageno == s.pageno
              && (s'.halted.None? <==> b.Ok?)
              && (s'.halted.None? ==> s'.start == s.depth && s'.text == "" && s'.bbox == Some(b.value))
              && (s'.halted.Some? ==> s'.halted == Some(Raised(b.error)))
              && s'.written == s.written && s'.total == s.total
  {
  }

  /** Other elements only go one level deeper. */
  lemma OtherStart(su: Setup, s: HState, cls: Option<string>, title: Option<string>)
    requires ClassOf(cls) != "ocr_page" && ClassOf(cls) != su.cfg.element
    ensures StartStep(su, s, cls, title) == s.(depth := s.depth + 1)
  {
  }

  /**
    The end of the open target line hands it to `EmitStep` when its text passes the filters;
    either way the text and `start` are then reset unless the run stopped. Any other end only
    goes one level up.
   */
  lemma LineEnd(su: Setup, s: HState)
    requires s.halted.None?
    ensures s.depth != s.start ==> EndStep(su, s) == s.(depth := s.depth - 1)
    ensures s.depth == s.start && !Accepts(su, s.text) ==> EndStep(su, s) == s.(text := "", start := -1, depth := s.depth - 1)
    ensures s.depth == s.start && Accepts(su, s.text) ==>
              var e := EmitStep(su, s);
              EndStep(su, s) == if e.halted.Some? then e else e.(text := "", start := -1, depth := s.depth - 1)
  {
  }

  /**
    Writing a line with page, box and line number set: it is written exactly when its crop `c`
    succeeds, with the page's image and numbers as they stand; the count grows by one and the
    run exits when it reaches `max_lines`. A failed crop stops the run with its error.
   */
  lemma EmitMeaning(su: Setup, s: HState, c: Result<Crop>)
    requires s.page.Some? && s.bbox.Some? && s.lineno.Some? && s.halted.None?
    requires c == CropOf(s.bbox.value, s.page.value.width, s.page.value.height, su.cfg.pad)
    ensures var s' := EmitStep(su, s);
            && (c.Err? ==> s' == s.(halted := Some(Raised(c.error))))
            && (c.Ok? ==>
                  && s'.written == s.written + [Written(s.page.value.name, s.pageno, s.lineno.value, c.value,
                                                        s.text, if s.bbox.value.Some? then s.bbox.value.value else "")]
                  && s'.total == s.total + 1
                  && (s'.halted == Some(Exited) <==> s.total + 1 >= su.cfg.maxLines)
                  && (s'.halted.None? <==> s.total + 1 < su.cfg.maxLines)
                  && s' == s.(written := s'.written, total := s'.total, halted := s'.halted))
  {
  }

  /** A line whose page, box or line number was never assigned raises `AttributeError`. */
  lemma EmitUnset(su: Setup, s: HState)
    requires s.page.None? || s.bbox.None?
    ensures EmitStep(su, s) == s.(halted := Some(Raised(AttributeError)))
  {
  }

  /** The change of depth an event makes unless it stops the run: +1 per start, -1 per end. */
  function Delta(e: Event): int
  {
    match e
    case StartElem(_, _) => 1
    case EndElem => -1
    case Chars(_) => 0
  }

  function Nesting(es: seq<Event>): int
  {
    if es == [] then 0 else Delta(es[0]) + Nesting(es[1..])
  }

  /**
    Over a run that does not stop, the depth moves by the starts minus the ends, so a balanced
    document comes back to the depth it started at; the written lines are counted by `total`
    and only ever appended to.
   */
  lemma {:induction false} StepsCounters(su: Setup, s: HState, es: seq<Event>)
    ensures var s' := Steps(su, s, es);
            && (s'.halted.None? ==> s'.depth == s.depth + Nesting(es))
            && s.written <= s'.written
            && |s'.written| - |s.written| == s'.total - s.total
    decreases |es|
  {
    if es != [] {
      var s1 := Step(su, s, es[0]);
      StepCounters(su, s, es[0]);
      StepsCounters(su, s1, es[1..]);
      if s1.halted.Some? {
        StepsHalted(su, s1, es[1..]);
      }
    }
  }

  lemma StepCounters(su: Setup, s: HState, e: Event)
    ensures var s' := Step(su, s, e);
            && (s'.halted.None? ==> s'.depth == s.depth + Delta(e) && s.halted.None?)
            && s.written <= s'.written
            && |s'.written| - |s.written| == s'.total - s.total
  {
    if s.halted.None? {
      match e
      case StartElem(cls, title) => StartCounters(su, s, cls, title);
      case EndElem => EndCounters(su, s);
      case Chars(_) =>
    }
  }

  lemma StartCounters(su: Setup, s: HState, cls: Option<string>, title: Option<string>)
    ensures var s' := StartStep(su, s, cls, title);
            && (s'.halted.None? ==> s'.depth == s.depth + 1)
            && s'.written == s.written && s'.total == s.total
            && (s.halted.None? ==> s'.halted != Some(Exited))
  {
    var b := BboxOf(title);
    PageCounters(su, s, cls);
    LineCounters(su, PageStep(su, s, cls), cls, b);
  }

  lemma PageCounters(su: Setup, s: HState, cls: Option<string>)
    ensures var s' := PageStep(su, s, cls);
            s'.depth == s.depth + 1 && s'.written == s.written && s'.total == s.total
            && (s.halted.None? ==> s'.halted != Some(Exited))
  {
  }

  lemma LineCounters(su: Setup, s: HState, cls: Option<string>, b: Result<Option<string>>)
    ensures var s' := LineStep(su, s, cls, b);
            s'.depth == s.depth && s'.written == s.written && s'.total == s.total
            && (s.halted.None? ==> s'.halted != Some(Exited))
  {
  }

  lemma EndCounters(su: Setup, s: HState)
    ensures var s' := EndStep(su, s);
            && (s'.halted.None? ==> s'.depth == s.depth - 1)
            && s.written <= s'.written
            && |s'.written| - |s.written| == s'.total - s.total
  {
    EmitCounters(su, s);
  }

  lemma EmitCounters(su: Setup, s: HState)
    ensures var s' := EmitStep(su, s);
            && s'.depth == s.depth
            && s.written <= s'.written
            && |s'.written| - |s.written| == s'.total - s.total
  {
  }

  /** One event adds at most one line, and the line that reaches `max_lines` ends the run. */
  lemma StepTotal(su: Setup, s: HState, e: Event)
    ensures var s' := Step(su, s, e);
            || (s'.total == s.total && (s'.halted == Some(Exited) ==> s.halted == Some(Exited)))
            || (s'.total == s.total + 1 && (s'.halted == Some(Exited) <==> s'.total >= su.cfg.maxLines)
                && (s'.halted.Some? ==> s'.halted == Some(Exited)))
  {
    if s.halted.None? {
      match e
      case StartElem(cls, title) => StartCounters(su, s, cls, title);
      case EndElem => EndTotal(su, s);
      case Chars(_) =>
    }
  }

  lemma EndTotal(su: Setup, s: HState)
    requires s.halted.None?
    ensures var s' := EndStep(su, s);
            || (s'.total == s.total && s'.halted.None?)
            || (s'.total == s.total + 1 && (s'.halted == Some(Exited) <==> s'.total >= su.cfg.maxLines)
                && (s'.halted.Some? ==> s'.halted == Some(Exited)))
            || (s'.total == s.total && s'.halted.Some? && s'.halted != Some(Exited))
  {
    EmitTotal(su, s);
  }

  lemma EmitTotal(su: Setup, s: HState)
    requires s.halted.None?
    ensures var s' := EmitStep(su, s);
            || (s'.total == s.total && s'.halted.Some? && s'.halted != Some(Exited))
            || (s'.total == s.total + 1 && (s'.halted == Some(Exited) <==> s'.total >= su.cfg.maxLines)
                && (s'.halted.Some? ==> s'.halted == Some(Exited)))
  {
    if s.page.Some? && s.bbox.Some? && s.lineno.Some? {
      var c := CropOf(s.bbox.value, s.page.value.width, s.page.value.height, su.cfg.pad);
      if c.Ok? {
        WriteTotal(su, s, c.value);
      }
    }
  }

  lemma WriteTotal(su: Setup, s: HState, c: Crop)
    requires s.halted.None? && s.page.Some? && s.bbox.Some? && s.lineno.Some?
    ensures var s' := WriteStep(su, s, c);
            && s'.total == s.total + 1 && (s'.halted == Some(Exited) <==> s'.total >= su.cfg.maxLines)
            && (s'.halted.Some? ==> s'.halted == Some(Exited))
  {
  }

  /**
    The run never writes more than `max_lines` lines after a start below it, and it exits right
    when it reaches that many.
   */
  lemma {:induction false} StepsMaxLines(su: Setup, s: HState, es: seq<Event>)
    requires s.total < su.cfg.maxLines
    ensures var s' := Steps(su, s, es);
            && s'.total <= su.cfg.maxLines
            && (s'.total == su.cfg.maxLines ==> s'.halted == Some(Exited))
            && (s'.halted != Some(Exited) ==> s'.total < su.cfg.maxLines)
    decreases |es|
  {
    if es != [] {
      var s1 := Step(su, s, es[0]);
      StepTotal(su, s, es[0]);
      if s1.halted.Some? {
        StepsHalted(su, s1, es[1..]);
      } else {
        StepsMaxLines(su, s1, es[1..]);
      }
    }
  }

  /** Running two event lists one after the other. */
  lemma {:induction false} StepsAppend(su: Setup, s: HState, a: seq<Event>, b: seq<Event>)
    ensures Steps(su, s, a + b) == Steps(su, Steps(su, s, a), b)
    decreases |a|
  {
    if a != [] {
      assert (a + b)[0] == a[0] && (a + b)[1..] == a[1..] + b;
      var s1 := Step(su, s, a[0]);
      assert Steps(su, s, a + b) == Steps(su, s1, a[1..] + b);
      assert Steps(su, s, a) == Steps(su, s1, a[1..]);
      StepsAppend(su, s1, a[1..], b);
    } else {
      assert a + b == b;
    }
  }

  lemma StepsTwo(su: Setup, s: HState, e1: Event, e2: Event)
    ensures Steps(su, s, [e1, e2]) == Step(su, Step(su, s, e1), e2)
  {
    var t1 := Step(su, s, e1);
    assert [e1, e2][1..] == [e2] && [e2][1..] == [];
    assert Steps(su, s, [e1, e2]) == Steps(su, t1, [e2]);
    assert Steps(su, t1, [e2]) == Steps(su, Step(su, t1, e2), []);
  }

  lemma StepsThree(su: Setup, s: HState, e1: Event, e2: Event, e3: Event, t1: HState, t2: HState, t3: HState)
    requires Step(su, s, e1) == t1 && Step(su, t1, e2) == t2 && Step(su, t2, e3) == t3
    ensures Steps(su, s, [e1, e2, e3]) == t3
  {
    assert [e1, e2, e3][1..] == [e2, e3];
    StepsTwo(su, Step(su, s, e1), e2, e3);
  }

  /** A page start then a target start with a readable box open line 0 of page 0. */
  lemma OpenFirstLine(su: Setup, title: string, v: string)
    requires su.cfg.element != "ocr_page" && |su.images| >= 1
    requires BboxOf(Some(title)) == Ok(Some(v))
    ensures Steps(su, Initial, [StartElem(Some("ocr_page"), None), StartElem(Some(su.cfg.element), Some(title))])
            == HState(0, 0, Some(0), "", 2, 2, Some(su.images[0]), Some(Some(v)), [], None)
  {
    StepsTwo(su, Initial, StartElem(Some("ocr_page"), None), StartElem(Some(su.cfg.element), Some(title)));
    var s1 := HState(0, 0, Some(-1), "", 1, -1, Some(su.images[0]), None, [], None);
    PageStart(su, Initial, None);
    TargetStart(su, s1, su.cfg.element, Ok(Some(v)));
    TargetStart(su, s1.(depth := 2), su.cfg.element, Ok(Some(v)));
  }

  /** The text and end of that line and the end of the page write it out. */
  lemma CloseFirstLine(su: Setup, data: string, v: string, c: Crop)
    requires |su.images| >= 1
    requires CropOf(Some(v), su.images[0].width, su.images[0].height, su.cfg.pad) == Ok(c)
    requires Accepts(su, data) && su.cfg.maxLines > 1
    ensures Steps(su, HState(0, 0, Some(0), "", 2, 2, Some(su.images[0]), Some(Some(v)), [], None), [Chars(data), EndElem, EndElem])
            == HState(1, 0, Some(0), "", 0, -1, Some(su.images[0]), Some(Some(v)), [Written(su.images[0].name, 0, 0, c, data, v)], None)
  {
    var s2 := HState(0, 0, Some(0), "", 2, 2, Some(su.images[0]), Some(Some(v)), [], None);
    var s3 := HState(0, 0, Some(0), data, 2, 2, Some(su.images[0]), Some(Some(v)), [], None);
    var s4 := HState(1, 0, Some(0), "", 1, -1, Some(su.images[0]), Some(Some(v)), [Written(su.images[0].name, 0, 0, c, data, v)], None);
    FirstLineText(su, data, v);
    WriteFirstLine(su, data, v, c);
    PageEndAfterLine(su, s4);
    StepsThree(su, s2, Chars(data), EndElem, EndElem, s3, s4, s4.(depth := 0));
  }

  lemma FirstLineText(su: Setup, data: string, v: string)
    requires |su.images| >= 1
    ensures Step(su, HState(0, 0, Some(0), "", 2, 2, Some(su.images[0]), Some(Some(v)), [], None), Chars(data))
            == HState(0, 0, Some(0), data, 2, 2, Some(su.images[0]), Some(Some(v)), [], None)
  {
    assert "" + data == data;
  }

  lemma PageEndAfterLine(su: Setup, s: HState)
    requires s.halted.None? && s.depth == 1 && s.start == -1
    ensures Step(su, s, EndElem) == s.(depth := 0)
  {
  }

  lemma WriteFirstLine(su: Setup, data: string, v: string, c: Crop)
    requires |su.images| >= 1
    requires CropOf(Some(v), su.images[0].width, su.images[0].height, su.cfg.pad) == Ok(c)
    requires Accepts(su, data) && su.cfg.maxLines > 1
    ensures Step(su, HState(0, 0, Some(0), data, 2, 2, Some(su.images[0]), Some(Some(v)), [], None), EndElem)
            == HState(1, 0, Some(0), "", 1, -1, Some(su.images[0]), Some(Some(v)), [Written(su.images[0].name, 0, 0, c, data, v)], None)
  {
    var s3 := HState(0, 0, Some(0), data, 2, 2, Some(su.images[0]), Some(Some(v)), [], None);
    LineEnd(su, s3);
    EmitMeaning(su, s3, Ok(c));
  }

  /** The whole run over a page holding one target line whose text passes. */
  lemma OneLineRun(su: Setup, title: string, data: string, v: string, c: Crop)
    requires su.cfg.element != "ocr_page" && |su.images| >= 1
    requires BboxOf(Some(title)) == Ok(Some(v))
    requires CropOf(Some(v), su.images[0].width, su.images[0].height, su.cfg.pad) == Ok(c)
    requires Accepts(su, data) && su.cfg.maxLines > 1
    ensures Steps(su, Initial, [StartElem(Some("ocr_page"), None), StartElem(Some(su.cfg.element), Some(title)),
                                Chars(data), EndElem, EndElem])
            == HState(1, 0, Some(0), "", 0, -1, Some(su.images[0]), Some(Some(v)), [Written(su.images[0].name, 0, 0, c, data, v)], None)
  {
    assert [StartElem(Some("ocr_page"), None), StartElem(Some(su.cfg.element), Some(title))] + [Chars(data), EndElem, EndElem]
        == [StartElem(Some("ocr_page"), None), StartElem(Some(su.cfg.element), Some(title)), Chars(data), EndElem, EndElem];
    StepsAppend(su, Initial, [StartElem(Some("ocr_page"), None), StartElem(Some(su.cfg.element), Some(title))],
                [Chars(data), EndElem, EndElem]);
    OpenFirstLine(su, title, v);
    CloseFirstLine(su, data, v, c);
  }

  /**
    A page holding one target line whose text passes: the line is written with page and line
    number 0, its text and its crop, and the depth comes back to 0.
   */
  lemma OneLineDocument(su: Setup, title: string, data: string, v: string, c: Crop)
    requires su.cfg.element != "ocr_page" && |su.images| >= 1
    requires BboxOf(Some(title)) == Ok(Some(v))
    requires CropOf(Some(v), su.images[0].width, su.images[0].height, su.cfg.pad) == Ok(c)
    requires Accepts(su, data) && su.cfg.maxLines > 1
    ensures var s' := Steps(su, Initial, [StartElem(Some("ocr_page"), None), StartElem(Some(su.cfg.element), Some(title)),
                                          Chars(data), EndElem, EndElem]);
            && s'.written == [Written(su.images[0].name, 0, 0, c, data, v)]
            && s'.total == 1 && s'.depth == 0 && s'.halted.None?
  {
    OneLineRun(su, title, data, v, c);
  }

  // ---------------------------------------------------------------- as written

  /**
    The line's box as the source reads it: `get_prop` is handed the `title` string itself, whose
    missing `.get` raises `AttributeError` whenever there is a title.
   */
  function BboxAsWritten(title: Option<string>): Result<Option<string>>
  {
    if title.None? then Ok(None) else Err(AttributeError)
  }

  /** As written, no line can ever be cropped: a title raises, and no title leaves no box to assert. */
  lemma NoLineAsWritten(title: Option<string>, w: int, h: int, pad: int)
    ensures BboxAsWritten(title).Err? || CropOf(BboxAsWritten(title).value, w, h, pad).Err?
  {
  }

  /** With the title read as the element's properties, the box is found. */
  lemma BboxOfFindsBox(v: string)
    requires v != [] && !IsSpace(v[0]) && ';' !in v
    ensures BboxOf(Some("bbox" + " " + v)) == Ok(Some(v))
  {
    var key := "bbox";
    assert key != [] && ';' !in key;
    assert forall i :: 0 <= i < |key| ==> !IsSpace(key[i]);
    PropOfSingle(key, v);
  }

  /**
    `characters(self, text, start, end)` as declared, called as the SAX parser calls it, with the
    text alone: `start` and `end` are missing, so Python raises `TypeError` before the body runs.
   */
  function CharactersAsWritten(s: HState, content: string): HState
  {
    s.(halted := Some(Raised(TypeError)))
  }

  /** The parser's one-argument call raises on the first text of any document and adds nothing to the line. */
  lemma CharactersAsWrittenRaises(su: Setup, s: HState, data: string)
    ensures CharactersAsWritten(s, data).halted == Some(Raised(TypeError))
    ensures CharactersAsWritten(s, data).text == s.text
    ensures s.halted.None? && data != "" ==> CharactersAsWritten(s, data).text != Step(su, s, Chars(data)).text
  {
  }

  /** The one-argument handler the parser calls appends the text to the open line. */
  lemma CharactersAppend(su: Setup, s: HState, data: string)
    requires s.halted.None?
    ensures Step(su, s, Chars(data)) == s.(text := s.text + data)
    ensures Step(su, s, Chars(data)).text[..|s.text|] == s.text
  {
  }
}
