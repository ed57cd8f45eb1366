/**
  Reading hOCR properties. An hOCR element carries its properties in its `title` attribute as
  `key value; key value; ...`; the model works on that attribute string and on the element's
  text-node strings.
 */
module NodeUtils {
  import opened Wrappers
  import opened PyStr

  /** One `key value` segment of a title. */
  datatype Prop = Prop(key: string, args: string)

  /**
    `key, args = prop.split(None, 1)`: the first whitespace-separated word, and the rest with its
    leading whitespace removed. A segment with fewer than two words fails the unpacking.
   */
  function SplitKey(segment: string): (r: Result<Prop>)
    ensures r.Err? ==> r.error == ValueError
  {
    var t := LStrip(segment);
    var key := TakeWord(t);
    var args := LStrip(t[|key|..]);
    if key == [] || args == [] then Err(ValueError) else Ok(Prop(key, args))
  }

  /** Splitting a segment whose stripped form `t` is not empty on whitespace: its first word, then the rest. */
  lemma WordsHead(segment: string)
    requires LStrip(segment) != []
    ensures var t := LStrip(segment);
            Words(segment) == [TakeWord(t)] + Words(LStrip(t[|TakeWord(t)|..]))
  {
    var t := LStrip(segment);
    LStripIdempotent(segment);
    var rest := t[|TakeWord(t)|..];
    assert Words(rest) == Words(LStrip(rest)) by {
      LStripIdempotent(rest);
    }
  }

  lemma WordsEmpty(x: string)
    ensures Words(x) == [] <==> LStrip(x) == []
  {
  }

  /** The unpacking succeeds exactly when the segment has at least two words. */
  lemma SplitKeyIsSplit(segment: string)
    ensures SplitKey(segment).Ok? <==> |Words(segment)| >= 2
  {
    var t := LStrip(segment);
    WordsEmpty(segment);
    if t != [] {
      WordsHead(segment);
      var key := TakeWord(t);
      assert key != [] by {
        assert !IsSpace(t[0]);
      }
      var rest := LStrip(t[|key|..]);
      WordsEmpty(rest);
      LStripIdempotent(t[|key|..]);
    }
  }

  /** The key is then the first word, and the value holds the remaining words. */
  lemma SplitKeyWords(segment: string)
    requires SplitKey(segment).Ok?
    ensures Words(segment) == [SplitKey(segment).value.key] + Words(SplitKey(segment).value.args)
  {
    WordsHead(segment);
  }

  /** Whitespace at the front of a string that then starts with a non-space is stripped whole. */
  lemma {:induction false} LStripPrefix(w: string, v: string)
    requires forall i :: 0 <= i < |w| ==> IsSpace(w[i])
    requires v == [] || !IsSpace(v[0])
    ensures LStrip(w + v) == v
    decreases |w|
  {
    if w == [] {
      assert w + v == v;
    } else {
      assert (w + v)[1..] == w[1..] + v;
      LStripPrefix(w[1..], v);
    }
  }

  /**
    A segment written as optional whitespace, a key, whitespace and a value unpacks to that key
    and that value, whatever whitespace the value holds inside or at its end.
   */
  lemma SplitKeyOfSegment(lead: string, key: string, gap: string, value: string)
    requires forall i :: 0 <= i < |lead| ==> IsSpace(lead[i])
    requires key != [] && forall i :: 0 <= i < |key| ==> !IsSpace(key[i])
    requires gap != [] && forall i :: 0 <= i < |gap| ==> IsSpace(gap[i])
    requires value != [] && !IsSpace(value[0])
    ensures SplitKey(lead + key + gap + value) == Ok(Prop(key, value))
  {
    var t := key + (gap + value);
    assert lead + key + gap + value == lead + t;
    LStripPrefix(lead, t);
    TakeWordPrefix(key, gap + value);
    assert t[|key|..] == gap + value;
    LStripPrefix(gap, value);
  }

  predicate IsQuote(c: char)
  {
    c == '"' || c == '\''
  }

  function LStripQuotes(s: string): (r: string)
    ensures |r| <= |s| && r == s[|s| - |r|..]
    ensures r == [] || !IsQuote(r[0])
    ensures forall i :: 0 <= i < |s| - |r| ==> IsQuote(s[i])
  {
    if s == [] || !IsQuote(s[0]) then s else LStripQuotes(s[1..])
  }

  function RStripQuotes(s: string): (r: string)
    ensures |r| <= |s| && r == s[..|r|]
    ensures r == [] || !IsQuote(r[|r| - 1])
    ensures forall i :: |r| <= i < |s| ==> IsQuote(s[i])
  {
    if s == [] || !IsQuote(s[|s| - 1]) then s else RStripQuotes(s[..|s| - 1])
  }

  /** `args.strip('"\'')`: every leading and trailing quote goes, matched in pairs or not. */
  function StripQuotes(s: string): string
  {
    RStripQuotes(LStripQuotes(s))
  }

  /** The value of a property, with the quotes stripped when asked. */
  function Value(args: string, stripValue: bool): string
  {
    if stripValue then StripQuotes(args) else args
  }

  /** The loop of `get_prop` over the `;`-separated segments, from the first one on. */
  function FindProp(segments: seq<string>, name: string, stripValue: bool): Result<Option<string>>
    decreases |segments|
  {
    if segments == [] then Ok(None)
    else match SplitKey(segments[0])
      case Err(e) => Err(e)
      case Ok(p) => if p.key == name then Ok(Some(Value(p.args, stripValue)))
                    else FindProp(segments[1..], name, stripValue)
  }

  /** What `get_prop` returns for a node whose `title` attribute is `title`. */
  function PropOf(title: Option<string>, name: string, stripValue: bool): Result<Option<string>>
  {
    if title.None? || title.value == [] then Ok(None)
    else FindProp(Split(title.value, ';'), name, stripValue)
  }

  /** `get_prop`: walks the segments and returns at the first one whose key is `name`. */
  method GetProp(title: Option<string>, name: string, stripValue: bool) returns (r: Result<Option<string>>)
    ensures r == PropOf(title, name, stripValue)
  {
    if title.None? || title.value == [] {
      return Ok(None);
    }
    var props := Split(title.value, ';');
    var i := 0;
    while i < |props|
      invariant 0 <= i <= |props|
      invariant FindProp(props, name, stripValue) == FindProp(props[i..], name, stripValue)
    {
      var kv := SplitKey(props[i]);
      if kv.Err? {
        return Err(kv.error);
      }
      var args := kv.value.args;
      if stripValue {
        args := StripQuotes(args);
      }
      if kv.value.key == name {
        return Ok(Some(args));
      }
      assert props[i..][1..] == props[i + 1..];
      i := i + 1;
    }
    return Ok(None);
  }

  /** The first `k` segments parse and do not carry `name`. */
  ghost predicate PassedOver(segments: seq<string>, name: string, k: nat)
    requires k <= |segments|
  {
    forall j :: 0 <= j < k ==> SplitKey(segments[j]).Ok? && SplitKey(segments[j]).value.key != name
  }

  /**
    The result is decided by the first segment that fails to parse or carries `name`: its error,
    or its value; when there is no such segment the property is absent. Later segments are never
    looked at.
   */
  lemma {:induction false} FindPropMeaning(segments: seq<string>, name: string, stripValue: bool, k: nat)
    requires k <= |segments| && PassedOver(segments, name, k)
    ensures k == |segments| ==> FindProp(segments, name, stripValue) == Ok(None)
    ensures k < |segments| && SplitKey(segments[k]).Err? ==> FindProp(segments, name, stripValue) == Err(ValueError)
    ensures k < |segments| && SplitKey(segments[k]).Ok? && SplitKey(segments[k]).value.key == name
            ==> FindProp(segments, name, stripValue) == Ok(Some(Value(SplitKey(segments[k]).value.args, stripValue)))
    decreases k
  {
    if k > 0 {
      assert SplitKey(segments[0]).Ok? && SplitKey(segments[0]).value.key != name;
      assert PassedOver(segments[1..], name, k - 1) by {
        forall j | 0 <= j < k - 1
          ensures SplitKey(segments[1..][j]).Ok? && SplitKey(segments[1..][j]).value.key != name
        {
          assert segments[1..][j] == segments[j + 1];
        }
      }
      FindPropMeaning(segments[1..], name, stripValue, k - 1);
      assert k - 1 < |segments[1..]| ==> segments[1..][k - 1] == segments[k];
    }
  }

  /** A missing or empty title has no properties. */
  lemma PropOfNoTitle(name: string, stripValue: bool)
    ensures PropOf(None, name, stripValue) == Ok(None)
    ensures PropOf(Some(""), name, stripValue) == Ok(None)
  {
  }

  /**
    A title made of one `key value` segment, with a key and a value free of `;`, gives the
    value back for that key.
   */
  lemma PropOfSingle(key: string, value: string)
    requires key != [] && forall i :: 0 <= i < |key| ==> !IsSpace(key[i])
    requires value != [] && !IsSpace(value[0])
    requires ';' !in key && ';' !in value
    ensures PropOf(Some(key + " " + value), key, false) == Ok(Some(value))
  {
    var s := key + " " + value;
    assert ';' !in s by {
      assert forall i :: 0 <= i < |s| ==> s[i] == (if i < |key| then key[i] else if i == |key| then ' ' else value[i - |key| - 1]);
    }
    assert Split(s, ';') == [s];
    assert LStrip(s) == s;
    assert s == key + ([' '] + value);
    TakeWordPrefix(key, [' '] + value);
    assert s[|key|..] == [' '] + value;
    assert LStrip([' '] + value) == value by {
      assert ([' '] + value)[1..] == value;
    }
  }

  /** Leading quotes in front of a text that does not start with a quote are all removed. */
  lemma LStripQuotesOver(l: string, x: string)
    requires forall i :: 0 <= i < |l| ==> IsQuote(l[i])
    requires x == [] || !IsQuote(x[0])
    ensures LStripQuotes(l + x) == x
  {
    var s := l + x;
    var r := LStripQuotes(s);
    assert forall i :: 0 <= i < |l| ==> s[i] == l[i];
    assert x != [] ==> s[|l|] == x[0];
    assert s[|l|..] == x;
  }

  /** Trailing quotes after a text that does not end with a quote are all removed. */
  lemma RStripQuotesOver(x: string, q: string)
    requires forall i :: 0 <= i < |q| ==> IsQuote(q[i])
    requires x == [] || !IsQuote(x[|x| - 1])
    ensures RStripQuotes(x + q) == x
  {
    var s := x + q;
    var r := RStripQuotes(s);
    assert forall i :: |x| <= i < |s| ==> s[i] == q[i - |x|];
    assert x != [] ==> s[|x| - 1] == x[|x| - 1];
    assert s[..|x|] == x;
  }

  /**
    A value that neither starts nor ends with a quote comes back unchanged from any run of
    quotes around it, single, double, matched or not.
   */
  lemma StripQuotesOver(l: string, n: string, q: string)
    requires forall i :: 0 <= i < |l| ==> IsQuote(l[i])
    requires forall i :: 0 <= i < |q| ==> IsQuote(q[i])
    requires n == [] || (!IsQuote(n[0]) && !IsQuote(n[|n| - 1]))
    ensures StripQuotes(l + n + q) == n
  {
    assert l + n + q == l + (n + q);
    if n == [] {
      assert n + q == q;
      forall i | 0 <= i < |l + q|
        ensures IsQuote((l + q)[i])
      {
        if i >= |l| {
          assert (l + q)[i] == q[i - |l|];
        }
      }
      LStripQuotesOver(l + q, []);
      assert l + q + [] == l + q;
    } else {
      LStripQuotesOver(l, n + q);
      RStripQuotesOver(n, q);
    }
  }

  /** The stripped value is a slice of the value with no quote at either end. */
  lemma StripQuotesMeaning(s: string) returns (k: nat)
    ensures k + |StripQuotes(s)| <= |s| && StripQuotes(s) == s[k..k + |StripQuotes(s)|]
    ensures StripQuotes(s) != [] ==> !IsQuote(StripQuotes(s)[0]) && !IsQuote(StripQuotes(s)[|StripQuotes(s)| - 1])
    ensures forall i :: 0 <= i < k ==> IsQuote(s[i])
    ensures forall i :: k + |StripQuotes(s)| <= i < |s| ==> IsQuote(s[i])
  {
    var ls := LStripQuotes(s);
    k := |s| - |ls|;
    assert ls == s[k..];
    if ls != [] {
      assert ls[0] == s[k];
    }
    var r := RStripQuotes(ls);
    forall i | k + |r| <= i < |s|
      ensures IsQuote(s[i])
    {
      assert s[i] == ls[i - k];
    }
  }

  /** `[int(x) for x in tokens]`: the first token that is not an integer raises. */
  function ParseInts(tokens: seq<string>): (r: Result<seq<int>>)
    ensures r.Ok? <==> forall i :: 0 <= i < |tokens| ==> ParseInt(tokens[i]).Ok?
    ensures r.Ok? ==> |r.value| == |tokens| && forall i :: 0 <= i < |tokens| ==> r.value[i] == ParseInt(tokens[i]).value
    ensures r.Err? ==> r.error == ValueError
  {
    if tokens == [] then Ok([])
    else match ParseInt(tokens[0])
      case Err(e) => Err(e)
      case Ok(v) =>
        match ParseInts(tokens[1..])
        case Err(e) => Err(e)
        case Ok(vs) => Ok([v] + vs)
  }

  /**
    `get_bbox`: the integers of the whitespace-split `bbox` value, or `None` without one. Nothing
    checks that there are four of them.
   */
  function GetBbox(title: Option<string>): Result<Option<seq<int>>>
  {
    match PropOf(title, "bbox", false)
    case Err(e) => Err(e)
    case Ok(None) => Ok(None)
    case Ok(Some(v)) =>
      if v == [] then Ok(None)
      else
        match ParseInts(Words(v))
        case Err(e) => Err(e)
        case Ok(xs) => Ok(Some(xs))
  }

  /** The tokens `str(x)` of a list of integers. */
  function IntTokens(xs: seq<int>): (r: seq<string>)
    ensures |r| == |xs| && forall i :: 0 <= i < |xs| ==> r[i] == IntToString(xs[i])
  {
    if xs == [] then [] else [IntToString(xs[0])] + IntTokens(xs[1..])
  }

  lemma IntTokenShape(x: int)
    ensures IntToString(x) != [] && forall k :: 0 <= k < |IntToString(x)| ==> !IsSpace(IntToString(x)[k]) && IntToString(x)[k] != ';'
  {
  }

  lemma {:induction false} ParseIntTokens(xs: seq<int>)
    ensures ParseInts(IntTokens(xs)) == Ok(xs)
    decreases |xs|
  {
    if xs != [] {
      var ts := IntTokens(xs);
      ParseIntToString(xs[0]);
      ParseIntTokens(xs[1..]);
      assert ts[1..] == IntTokens(xs[1..]);
      ParseIntsStep(ts, xs[0], xs[1..]);
      assert [xs[0]] + xs[1..] == xs;
    }
  }

  lemma ParseIntsStep(tokens: seq<string>, x: int, xs: seq<int>)
    requires tokens != [] && ParseInt(tokens[0]) == Ok(x) && ParseInts(tokens[1..]) == Ok(xs)
    ensures ParseInts(tokens) == Ok([x] + xs)
  {
  }

  /** The tokens are words: non-empty, with no whitespace and no `;`. */
  lemma IntTokensShape(xs: seq<int>)
    ensures forall i :: 0 <= i < |IntTokens(xs)| ==> IntTokens(xs)[i] != [] && forall k :: 0 <= k < |IntTokens(xs)[i]| ==> !IsSpace(IntTokens(xs)[i][k])
    ensures forall i :: 0 <= i < |IntTokens(xs)| ==> ';' !in IntTokens(xs)[i]
  {
    var ts := IntTokens(xs);
    forall i | 0 <= i < |ts|
      ensures ts[i] != [] && (forall k :: 0 <= k < |ts[i]| ==> !IsSpace(ts[i][k])) && ';' !in ts[i]
    {
      IntTokenShape(xs[i]);
    }
  }

  /** A one-segment `bbox` title is decoded from the words of its value. */
  lemma GetBboxSingle(key: string, v: string)
    requires key == "bbox"
    requires v != [] && !IsSpace(v[0]) && ';' !in v
    ensures GetBbox(Some(key + " " + v)) == match ParseInts(Words(v)) case Ok(xs) => Ok(Some(xs)) case Err(e) => Err(e)
  {
    assert forall i :: 0 <= i < |key| ==> key[i] == 'b' || key[i] == 'o' || key[i] == 'x';
    PropOfSingle(key, v);
  }

  /** Writing the integers of a box into a `bbox` title and reading it back gives them again. */
  lemma GetBboxRoundTrip(key: string, xs: seq<int>)
    requires key == "bbox" && xs != []
    ensures GetBbox(Some(key + " " + Join(IntTokens(xs), ' '))) == Ok(Some(xs))
  {
    var ts := IntTokens(xs);
    var v := Join(ts, ' ');
    IntTokensShape(xs);
    assert Words(v) == ts by {
      WordsOfJoin(ts);
    }
    assert v != [] && !IsSpace(v[0]) by {
      JoinHead(ts);
      IntTokenShape(xs[0]);
    }
    assert ';' !in v by {
      JoinWithout(ts, ';');
    }
    GetBboxSingle(key, v);
    ParseIntTokens(xs);
  }

  /** A join of parts without `c`, with a separator other than `c`, has no `c`. */
  lemma {:induction false} JoinWithout(ws: seq<string>, c: char)
    requires c != ' ' && forall i :: 0 <= i < |ws| ==> c !in ws[i]
    ensures c !in Join(ws, ' ')
    decreases |ws|
  {
    if |ws| > 1 {
      JoinWithout(ws[1..], c);
    }
  }

  /** `re.sub(r'\s+', ' ', s)`: each maximal whitespace run becomes one space; nothing is trimmed. */
  function Collapse(s: string): string
    decreases |s|
  {
    if s == [] then []
    else if !IsSpace(s[0]) then [s[0]] + Collapse(s[1..])
    else [' '] + Collapse(LStrip(s[1..]))
  }

  /** `get_text`: the text nodes joined, then collapsed. */
  function GetText(textNodes: seq<string>): string
  {
    Collapse(Concat(textNodes))
  }

  function Concat(parts: seq<string>): string
  {
    if parts == [] then [] else parts[0] + Concat(parts[1..])
  }

  /** The characters of `s` that are not whitespace, in order. */
  function NonSpace(s: string): (r: string)
    ensures |r| <= |s|
  {
    if s == [] then [] else (if IsSpace(s[0]) then [] else [s[0]]) + NonSpace(s[1..])
  }

  lemma {:induction false} NonSpaceLStrip(s: string)
    ensures NonSpace(LStrip(s)) == NonSpace(s)
    decreases |s|
  {
    if s != [] && IsSpace(s[0]) {
      assert LStrip(s) == LStrip(s[1..]);
      assert NonSpace(s) == NonSpace(s[1..]);
      NonSpaceLStrip(s[1..]);
    }
  }

  lemma {:induction false} NonSpaceConcat(a: string, b: string)
    ensures NonSpace(a + b) == NonSpace(a) + NonSpace(b)
    decreases |a|
  {
    if a == [] {
      assert a + b == b;
    } else {
      assert (a + b)[1..] == a[1..] + b;
      NonSpaceConcat(a[1..], b);
    }
  }

  /** The collapsed text keeps every character that is not whitespace, in order. */
  lemma {:induction false} CollapseKeepsText(s: string)
    ensures NonSpace(Collapse(s)) == NonSpace(s)
    decreases |s|
  {
    if s == [] {
    } else if !IsSpace(s[0]) {
      CollapseKeepsText(s[1..]);
      NonSpaceConcat([s[0]], Collapse(s[1..]));
    } else {
      var rest := LStrip(s[1..]);
      CollapseKeepsText(rest);
      NonSpaceLStrip(s[1..]);
      NonSpaceConcat([' '], Collapse(rest));
    }
  }

  /** The first character of the collapsed text. */
  lemma CollapseHead(s: string)
    requires s != []
    ensures Collapse(s) != []
    ensures Collapse(s)[0] == if IsSpace(s[0]) then ' ' else s[0]
  {
  }

  /** The only whitespace left is single spaces. */
  lemma {:induction false} CollapseSpaces(s: string)
    ensures forall i :: 0 <= i < |Collapse(s)| ==> IsSpace(Collapse(s)[i]) ==> Collapse(s)[i] == ' '
    ensures forall i :: 0 <= i < |Collapse(s)| - 1 ==> Collapse(s)[i] == ' ' ==> Collapse(s)[i + 1] != ' '
    decreases |s|
  {
    if s == [] {
    } else if !IsSpace(s[0]) {
      CollapseSpaces(s[1..]);
      assert Collapse(s)[1..] == Collapse(s[1..]);
    } else {
      var rest := LStrip(s[1..]);
      CollapseSpaces(rest);
      assert Collapse(s)[1..] == Collapse(rest);
      if rest != [] {
        CollapseHead(rest);
      }
    }
  }

  /**
    Nothing is trimmed: the text is empty, starts with a space or ends with one exactly when the
    input is empty, starts with whitespace or ends with it.
   */
  lemma CollapseEnds(s: string)
    ensures Collapse(s) != [] <==> s != []
    ensures s != [] ==> (Collapse(s)[0] == ' ' <==> IsSpace(s[0]))
    ensures s != [] ==> (Collapse(s)[|Collapse(s)| - 1] == ' ' <==> IsSpace(s[|s| - 1]))
  {
    if s != [] {
      CollapseHead(s);
      CollapseLast(s);
    }
  }

  lemma {:induction false} CollapseLast(s: string)
    requires s != []
    ensures Collapse(s) != [] && (Collapse(s)[|Collapse(s)| - 1] == ' ' <==> IsSpace(s[|s| - 1]))
    decreases |s|
  {
    var c := Collapse(s);
    if !IsSpace(s[0]) {
      var tail := s[1..];
      if tail == [] {
        assert c == [s[0]];
      } else {
        CollapseLast(tail);
        assert c == [s[0]] + Collapse(tail);
        assert tail[|tail| - 1] == s[|s| - 1];
      }
    } else {
      var rest := LStrip(s[1..]);
      assert c == [' '] + Collapse(rest);
      if rest == [] {
        assert c == [' '];
        assert |s| == 1 || s[|s| - 1] == s[1..][|s| - 2];
      } else {
        CollapseLast(rest);
        assert rest[|rest| - 1] == s[|s| - 1];
      }
    }
  }

  /** Collapsing twice is collapsing once. */
  lemma {:induction false} CollapseIdempotent(s: string)
    ensures Collapse(Collapse(s)) == Collapse(s)
    decreases |s|
  {
    if s == [] {
    } else if !IsSpace(s[0]) {
      CollapseIdempotent(s[1..]);
    } else {
      var rest := LStrip(s[1..]);
      CollapseIdempotent(rest);
      if rest != [] {
        CollapseHead(rest);
      }
      var c := Collapse(rest);
      assert Collapse(s) == [' '] + c;
      assert ([' '] + c)[1..] == c;
      assert LStrip(c) == c;
    }
  }
}
