/**
  Word frequencies of an hOCR body text: the text is prepared (stripped, optionally lowercased
  and dehyphenated), split into tokens by a tokeniser, counted in a dictionary whose keys keep
  their first-occurrence order, ranked by count with a stable sort, and reported one line per
  word up to a limit.
 */
module WordFreq {
  import opened Wrappers
  import opened PyStr

  // ---------------------------------------------------------------- dehyphenation

  /** `re.sub(r"-\r?\n", "", s)`: a hyphen at a line break is deleted together with the break. */
  function JoinHyphenated(s: string): (r: string)
    ensures |r| <= |s|
    decreases |s|
  {
    if |s| >= 3 && s[0] == '-' && s[1] == '\r' && s[2] == '\n' then JoinHyphenated(s[3..])
    else if |s| >= 2 && s[0] == '-' && s[1] == '\n' then JoinHyphenated(s[2..])
    else if s == [] then []
    else [s[0]] + JoinHyphenated(s[1..])
  }

  /** `re.sub(r"\r?\n", " ", s)`: each line break becomes one space. */
  function BreaksToSpaces(s: string): (r: string)
    ensures |r| <= |s|
    decreases |s|
  {
    if |s| >= 2 && s[0] == '\r' && s[1] == '\n' then [' '] + BreaksToSpaces(s[2..])
    else if s == [] then []
    else if s[0] == '\n' then [' '] + BreaksToSpaces(s[1..])
    else [s[0]] + BreaksToSpaces(s[1..])
  }

  /**
    The dehyphenation of the text: joined hyphenated words, then the remaining breaks as spaces.
    The blank-line deletion before them, `re.sub(r"^\s*$\r?\n", "", s)`, runs without
    `re.MULTILINE`, so it can only match at the start of the whole text, which has been stripped:
    it removes nothing, and is left out here.
   */
  function Dehyphenate(s: string): string
  {
    BreaksToSpaces(JoinHyphenated(s))
  }

  /** No line feed survives the rewriting of breaks. */
  lemma {:induction false} NoBreakLeft(s: string)
    ensures '\n' !in BreaksToSpaces(s)
    decreases |s|
  {
    if |s| >= 2 && s[0] == '\r' && s[1] == '\n' {
      NoBreakLeft(s[2..]);
    } else if s != [] {
      NoBreakLeft(s[1..]);
    }
  }

  /** Without carriage returns, the rewriting replaces each line feed by a space and keeps everything else. */
  lemma {:induction false} BreaksToSpacesPointwise(s: string)
    requires '\r' !in s
    ensures |BreaksToSpaces(s)| == |s|
    ensures forall i :: 0 <= i < |s| ==> BreaksToSpaces(s)[i] == if s[i] == '\n' then ' ' else s[i]
    decreases |s|
  {
    if s != [] {
      assert '\r' !in s[1..] by {
        assert forall i :: 0 <= i < |s| - 1 ==> s[1..][i] == s[i + 1];
      }
      BreaksToSpacesPointwise(s[1..]);
      assert BreaksToSpaces(s) == [if s[0] == '\n' then ' ' else s[0]] + BreaksToSpaces(s[1..]);
    }
  }

  /** A text without hyphens has nothing to join. */
  lemma {:induction false} NoHyphenNoJoin(s: string)
    requires '-' !in s
    ensures JoinHyphenated(s) == s
    decreases |s|
  {
    if s != [] {
      assert '-' !in s[1..] by {
        assert forall i :: 0 <= i < |s| - 1 ==> s[1..][i] == s[i + 1];
      }
      NoHyphenNoJoin(s[1..]);
    }
  }

  /** A word broken by a hyphen at a line end is joined: `a-\nb` becomes `a` then `b`. */
  lemma {:induction false} JoinAcrossBreak(a: string, b: string, crlf: bool)
    requires '-' !in a
    ensures JoinHyphenated(a + (if crlf then "-\r\n" else "-\n") + b) == a + JoinHyphenated(b)
    decreases |a|
  {
    var brk := if crlf then "-\r\n" else "-\n";
    if a == [] {
      assert a + brk + b == brk + b;
      assert (brk + b)[|brk|..] == b;
    } else {
      assert '-' !in a[1..] by {
        assert forall i :: 0 <= i < |a| - 1 ==> a[1..][i] == a[i + 1];
      }
      assert (a + brk + b)[1..] == a[1..] + brk + b;
      assert (a + brk + b)[0] == a[0];
      JoinAcrossBreak(a[1..], b, crlf);
      assert a == [a[0]] + a[1..];
    }
  }

  // ---------------------------------------------------------------- counting

  /** The number of times `w` occurs among the tokens. */
  function Count(tokens: seq<string>, w: string): nat
  {
    if tokens == [] then 0
    else Count(tokens[..|tokens| - 1], w) + (if tokens[|tokens| - 1] == w then 1 else 0)
  }

  /** The non-empty tokens without repeats, in the order of their first occurrence. */
  function Distinct(tokens: seq<string>): seq<string>
  {
    if tokens == [] then []
    else
      var ds := Distinct(tokens[..|tokens| - 1]);
      var x := tokens[|tokens| - 1];
      if x == [] || x in ds then ds else ds + [x]
  }

  /** The counts dictionary of a token list. */
  function Counts(tokens: seq<string>): map<string, int>
  {
    map w | w in Distinct(tokens) :: Count(tokens, w)
  }

  predicate NoRepeats(ds: seq<string>)
  {
    forall i, j :: 0 <= i < j < |ds| ==> ds[i] != ds[j]
  }

  /** Counting one more token. */
  lemma CountAppend(tokens: seq<string>, x: string, w: string)
    ensures Count(tokens + [x], w) == Count(tokens, w) + (if x == w then 1 else 0)
  {
    assert (tokens + [x])[..|tokens|] == tokens;
  }

  /**
    The distinct words are exactly the non-empty tokens, without repeats; a word occurs among
    the tokens exactly when its count is positive.
   */
  lemma {:induction false} DistinctMeaning(tokens: seq<string>)
    ensures forall w :: w in Distinct(tokens) <==> w != [] && w in tokens
    ensures NoRepeats(Distinct(tokens))
    ensures forall w :: Count(tokens, w) > 0 <==> w in tokens
  {
    if tokens != [] {
      var p := tokens[..|tokens| - 1];
      DistinctMeaning(p);
      assert tokens == p + [tokens[|tokens| - 1]];
    }
  }

  /** One token more: a new word joins the distinct words at the end, `""` and known words do not. */
  lemma DistinctStep(tokens: seq<string>, x: string)
    ensures Distinct(tokens + [x]) == if x == [] || x in Distinct(tokens) then Distinct(tokens) else Distinct(tokens) + [x]
  {
    var t := tokens + [x];
    assert t[..|t| - 1] == tokens;
  }

  /** One token more: a new word enters with count 1, a known word's count grows by one, `""` is skipped. */
  lemma CountsStep(tokens: seq<string>, x: string)
    ensures Counts(tokens + [x]) ==
              if x == [] then Counts(tokens)
              else Counts(tokens)[x := if x in Counts(tokens) then Counts(tokens)[x] + 1 else 1]
  {
    var t := tokens + [x];
    DistinctStep(tokens, x);
    var before, after := Counts(tokens), Counts(t);
    var expected := if x == [] then before else before[x := if x in before then before[x] + 1 else 1];
    forall w
      ensures w in after <==> w in expected
      ensures w in after ==> after[w] == expected[w]
    {
      CountEntry(tokens, x, w);
    }
    assert after == expected;
  }

  /** One key of the counts after one more token. */
  lemma CountEntry(tokens: seq<string>, x: string, w: string)
    ensures var before, after := Counts(tokens), Counts(tokens + [x]);
            && (w in after <==> w in before || (x != [] && w == x))
            && (w in after ==> after[w] == if x != [] && w == x then (if x in before then before[x] + 1 else 1) else before[w])
  {
    DistinctStep(tokens, x);
    CountAppend(tokens, x, w);
    DistinctMeaning(tokens);
  }

  /** The counting loop: `word_counts[word] + 1 if word in word_counts else 1` per non-empty token. */
  method CountWords(tokens: seq<string>) returns (counts: map<string, int>, order: seq<string>)
    ensures counts == Counts(tokens) && order == Distinct(tokens)
  {
    counts, order := map[], [];
    for i := 0 to |tokens|
      invariant counts == Counts(tokens[..i]) && order == Distinct(tokens[..i])
    {
      var word := tokens[i];
      DistinctStep(tokens[..i], word);
      CountsStep(tokens[..i], word);
      assert tokens[..i + 1] == tokens[..i] + [word];
      if word == [] {
        continue;
      }
      if word in counts {
        counts := counts[word := counts[word] + 1];
      } else {
        counts := counts[word := 1];
        order := order + [word];
      }
    }
    assert tokens[..|tokens|] == tokens;
  }

  /** The number of non-empty tokens. */
  function NonEmpty(tokens: seq<string>): nat
  {
    if tokens == [] then 0 else NonEmpty(tokens[..|tokens| - 1]) + (if tokens[|tokens| - 1] == [] then 0 else 1)
  }

  /** The sum of the counts of the words `ds`. */
  function SumCounts(ds: seq<string>, tokens: seq<string>): nat
  {
    if ds == [] then 0 else Count(tokens, ds[0]) + SumCounts(ds[1..], tokens)
  }

  lemma {:induction false} SumCountsStep(ds: seq<string>, tokens: seq<string>, x: string)
    requires NoRepeats(ds)
    ensures SumCounts(ds, tokens + [x]) == SumCounts(ds, tokens) + (if x in ds then 1 else 0)
  {
    if ds != [] {
      CountAppend(tokens, x, ds[0]);
      assert NoRepeats(ds[1..]) by {
        assert forall i :: 0 <= i < |ds| - 1 ==> ds[1..][i] == ds[i + 1];
      }
      SumCountsStep(ds[1..], tokens, x);
      assert x in ds <==> x == ds[0] || x in ds[1..] by {
        assert ds == [ds[0]] + ds[1..];
      }
      assert ds[0] !in ds[1..] by {
        assert forall m :: 0 <= m < |ds| - 1 ==> ds[1..][m] == ds[m + 1] && ds[m + 1] != ds[0];
      }
    }
  }

  lemma {:induction false} SumCountsAppend(ds: seq<string>, x: string, tokens: seq<string>)
    ensures SumCounts(ds + [x], tokens) == SumCounts(ds, tokens) + Count(tokens, x)
  {
    if ds != [] {
      assert (ds + [x])[1..] == ds[1..] + [x];
      SumCountsAppend(ds[1..], x, tokens);
    } else {
      assert [x][1..] == [];
    }
  }

  /** The counts add up to the number of non-empty tokens. */
  lemma {:induction false} CountsAddUp(tokens: seq<string>)
    ensures SumCounts(Distinct(tokens), tokens) == NonEmpty(tokens)
  {
    if tokens != [] {
      var p := tokens[..|tokens| - 1];
      var x := tokens[|tokens| - 1];
      assert tokens == p + [x];
      CountsAddUp(p);
      DistinctMeaning(p);
      var ds := Distinct(p);
      SumCountsStep(ds, p, x);
      if x != [] && x !in ds {
        SumCountsAppend(ds, x, tokens);
        CountAppend(p, x, x);
        DistinctMeaning(p);
        assert Count(p, x) == 0;
      }
    }
  }

  // ---------------------------------------------------------------- ranking

  /** The count of a word, `0` for a word that is not a key. */
  function Key(counts: map<string, int>, w: string): int
  {
    if w in counts then counts[w] else 0
  }

  /** Placing `x` after every word counted at least as often. */
  function InsertByCount(counts: map<string, int>, x: string, s: seq<string>): (r: seq<string>)
    ensures |r| == |s| + 1
  {
    if s == [] then [x]
    else if Key(counts, s[0]) < Key(counts, x) then [x] + s
    else [s[0]] + InsertByCount(counts, x, s[1..])
  }

  /** `sorted(word_counts, reverse=True, key=word_counts.get)`, a stable sort by count, largest first. */
  function Rank(counts: map<string, int>, words: seq<string>): (r: seq<string>)
    ensures |r| == |words|
  {
    if words == [] then []
    else InsertByCount(counts, words[|words| - 1], Rank(counts, words[..|words| - 1]))
  }

  predicate Descending(counts: map<string, int>, r: seq<string>)
  {
    forall i, j :: 0 <= i < j < |r| ==> Key(counts, r[i]) >= Key(counts, r[j])
  }

  /** The words counted exactly `k` times, in their order in `s`. */
  function WithCount(counts: map<string, int>, s: seq<string>, k: int): seq<string>
  {
    if s == [] then []
    else (if Key(counts, s[0]) == k then [s[0]] else []) + WithCount(counts, s[1..], k)
  }

  lemma {:induction false} InsertMultiset(counts: map<string, int>, x: string, s: seq<string>)
    ensures multiset(InsertByCount(counts, x, s)) == multiset(s) + multiset{x}
  {
    if s != [] && Key(counts, s[0]) >= Key(counts, x) {
      var rest := InsertByCount(counts, x, s[1..]);
      InsertMultiset(counts, x, s[1..]);
      assert s == [s[0]] + s[1..];
      calc {
        multiset(InsertByCount(counts, x, s));
        multiset([s[0]] + rest);
        multiset([s[0]]) + multiset(rest);
        multiset([s[0]]) + multiset(s[1..]) + multiset{x};
        multiset(s) + multiset{x};
      }
    } else {
      assert InsertByCount(counts, x, s) == [x] + s;
    }
  }

  predicate AllAtMost(counts: map<string, int>, s: seq<string>, v: int)
  {
    forall i :: 0 <= i < |s| ==> Key(counts, s[i]) <= v
  }

  lemma {:induction false} InsertAtMost(counts: map<string, int>, x: string, s: seq<string>, v: int)
    requires AllAtMost(counts, s, v) && Key(counts, x) <= v
    ensures AllAtMost(counts, InsertByCount(counts, x, s), v)
  {
    if s != [] && Key(counts, s[0]) >= Key(counts, x) {
      InsertAtMost(counts, x, s[1..], v);
    }
  }

  lemma {:induction false} InsertDescending(counts: map<string, int>, x: string, s: seq<string>)
    requires Descending(counts, s)
    ensures Descending(counts, InsertByCount(counts, x, s))
  {
    if s != [] && Key(counts, s[0]) >= Key(counts, x) {
      InsertDescending(counts, x, s[1..]);
      InsertAtMost(counts, x, s[1..], Key(counts, s[0]));
    }
  }

  lemma {:induction false} WithCountAppend(counts: map<string, int>, s: seq<string>, t: seq<string>, k: int)
    ensures WithCount(counts, s + t, k) == WithCount(counts, s, k) + WithCount(counts, t, k)
  {
    if s != [] {
      assert (s + t)[1..] == s[1..] + t;
      WithCountAppend(counts, s[1..], t, k);
    } else {
      assert s + t == t;
    }
  }

  lemma {:induction false} WithCountBelow(counts: map<string, int>, s: seq<string>, k: int)
    requires forall i :: 0 <= i < |s| ==> Key(counts, s[i]) < k
    ensures WithCount(counts, s, k) == []
  {
    if s != [] {
      WithCountBelow(counts, s[1..], k);
    }
  }

  /** A word counted more than the head of a descending list goes in front of it. */
  lemma InsertInFront(counts: map<string, int>, x: string, s: seq<string>, k: int)
    requires Descending(counts, s) && s != [] && Key(counts, s[0]) < Key(counts, x)
    ensures WithCount(counts, [x] + s, k) == WithCount(counts, s, k) + (if Key(counts, x) == k then [x] else [])
  {
    assert ([x] + s)[0] == x && ([x] + s)[1..] == s;
    if Key(counts, x) == k {
      assert forall i :: 0 <= i < |s| ==> Key(counts, s[i]) < k by {
        assert forall i :: 0 < i < |s| ==> Key(counts, s[0]) >= Key(counts, s[i]);
      }
      WithCountBelow(counts, s, k);
      assert WithCount(counts, [x] + s, k) == [x] + [];
    } else {
      assert WithCount(counts, [x] + s, k) == [] + WithCount(counts, s, k);
    }
  }

  /** In a descending list, `x` lands after every word with its own count. */
  lemma {:induction false} InsertStable(counts: map<string, int>, x: string, s: seq<string>, k: int)
    requires Descending(counts, s)
    ensures WithCount(counts, InsertByCount(counts, x, s), k) ==
              WithCount(counts, s, k) + (if Key(counts, x) == k then [x] else [])
  {
    var tail := if Key(counts, x) == k then [x] else [];
    if s == [] {
      assert InsertByCount(counts, x, s) == [x];
    } else if Key(counts, s[0]) < Key(counts, x) {
      assert InsertByCount(counts, x, s) == [x] + s;
      InsertInFront(counts, x, s, k);
    } else {
      var head := if Key(counts, s[0]) == k then [s[0]] else [];
      var rest := InsertByCount(counts, x, s[1..]);
      assert InsertByCount(counts, x, s) == [s[0]] + rest;
      assert ([s[0]] + rest)[1..] == rest;
      assert Descending(counts, s[1..]);
      InsertStable(counts, x, s[1..], k);
      assert WithCount(counts, s, k) == head + WithCount(counts, s[1..], k);
      assert head + (WithCount(counts, s[1..], k) + tail) == (head + WithCount(counts, s[1..], k)) + tail;
    }
  }

  /** The ranking is a permutation of the words, largest count first. */
  lemma {:induction false} RankSorts(counts: map<string, int>, words: seq<string>)
    ensures multiset(Rank(counts, words)) == multiset(words)
    ensures Descending(counts, Rank(counts, words))
  {
    if words != [] {
      var p := words[..|words| - 1];
      var x := words[|words| - 1];
      assert words == p + [x];
      RankSorts(counts, p);
      InsertMultiset(counts, x, Rank(counts, p));
      InsertDescending(counts, x, Rank(counts, p));
    }
  }

  /** The ranking is stable: the words of any one count keep their order. */
  lemma {:induction false} RankStable(counts: map<string, int>, words: seq<string>, k: int)
    ensures WithCount(counts, Rank(counts, words), k) == WithCount(counts, words, k)
  {
    if words != [] {
      var p := words[..|words| - 1];
      var x := words[|words| - 1];
      assert words == p + [x];
      RankStable(counts, p, k);
      RankSorts(counts, p);
      InsertStable(counts, x, Rank(counts, p), k);
      WithCountAppend(counts, p, [x], k);
    }
  }

  // ---------------------------------------------------------------- the report

  /** `f"{count:<5d}\t{word}"`. */
  function FormatLine(count: int, word: string): string
  {
    LJust(IntToString(count), 5) + "\t" + word
  }

  /** How many lines the loop yields: it breaks at the first index above `max_hits`. */
  function HitCount(n: nat, maxHits: int): nat
  {
    if maxHits < 0 then 0 else if n <= maxHits + 1 then n else maxHits + 1
  }

  function ReportOf(ranked: seq<string>, counts: map<string, int>, maxHits: int): (lines: seq<string>)
    ensures |lines| == HitCount(|ranked|, maxHits)
  {
    seq(HitCount(|ranked|, maxHits), k requires 0 <= k < HitCount(|ranked|, maxHits) => FormatLine(Key(counts, ranked[k]), ranked[k]))
  }

  /** The reporting loop over the ranked words, with its `break`. */
  method Report(ranked: seq<string>, counts: map<string, int>, maxHits: int) returns (lines: seq<string>)
    ensures |lines| == HitCount(|ranked|, maxHits) && |lines| <= |ranked|
    ensures maxHits >= 0 ==> |lines| <= maxHits + 1
    ensures forall k :: 0 <= k < |lines| ==> lines[k] == FormatLine(Key(counts, ranked[k]), ranked[k])
  {
    lines := [];
    var idx := 0;
    while idx < |ranked|
      invariant 0 <= idx <= |ranked| && idx <= HitCount(|ranked|, maxHits)
      invariant |lines| == idx
      invariant forall k :: 0 <= k < idx ==> lines[k] == FormatLine(Key(counts, ranked[k]), ranked[k])
      invariant idx < HitCount(|ranked|, maxHits) || idx == |ranked| || idx > maxHits || HitCount(|ranked|, maxHits) == idx
    {
      if idx > maxHits {
        break;
      }
      lines := lines + [FormatLine(Key(counts, ranked[idx]), ranked[idx])];
      idx := idx + 1;
    }
  }

  /** The report line for 23 occurrences of `the`, and for 24, as the repository's own test cases state them. */
  lemma FormatExamples()
    ensures FormatLine(23, "the") == "23   \tthe"
    ensures FormatLine(24, "the") == "24   \tthe"
  {
    assert IntToString(23) == "23";
    assert IntToString(24) == "24";
  }

  // ---------------------------------------------------------------- word_frequencies

  datatype Options = Options(caseInsensitive: bool, spaces: bool, dehyphenate: bool, maxHits: int)

  /** The two tokenisers: `re.split(r'\W+', ·)` and, with `spaces`, `re.split(r'\s+', ·)`. */
  datatype Tokenisers = Tokenisers(words: string -> seq<string>, spaces: string -> seq<string>)

  /** The body text stripped, lowercased with `case_insensitive`, dehyphenated with `dehyphenate`. */
  function PreparedText(body: string, opts: Options): string
  {
    var t := Strip(body);
    var t1 := if opts.caseInsensitive then Lower(t) else t;
    if opts.dehyphenate then Dehyphenate(t1) else t1
  }

  function TokensOf(body: string, opts: Options, tk: Tokenisers): seq<string>
  {
    var text := PreparedText(body, opts);
    if opts.spaces then tk.spaces(text) else tk.words(text)
  }

  /** `word_frequencies` over the body's text, `AssertionError` without a body. */
  function Frequencies(body: Option<string>, opts: Options, tk: Tokenisers): Result<seq<string>>
  {
    if body.None? then Err(AssertionError)
    else
      var tokens := TokensOf(body.value, opts, tk);
      Ok(ReportOf(Rank(Counts(tokens), Distinct(tokens)), Counts(tokens), opts.maxHits))
  }

  method WordFrequencies(body: Option<string>, opts: Options, tk: Tokenisers) returns (r: Result<seq<string>>)
    ensures r == Frequencies(body, opts, tk)
  {
    if body.None? {
      return Err(AssertionError);
    }
    var text := Strip(body.value);
    if opts.caseInsensitive {
      text := Lower(text);
    }
    if opts.dehyphenate {
      text := JoinHyphenated(text);
      text := BreaksToSpaces(text);
    }
    var tokens := if opts.spaces then tk.spaces(text) else tk.words(text);
    var counts, order := CountWords(tokens);
    var ranked := Rank(counts, order);
    var lines := Report(ranked, counts, opts.maxHits);
    assert lines == ReportOf(ranked, counts, opts.maxHits);
    return Ok(lines);
  }

  /**
    What the report says: at most `max_hits + 1` lines (all words when there are fewer), line `k`
    the `k`-th ranked word with its number of occurrences.
   */
  lemma FrequenciesMeaning(body: string, opts: Options, tk: Tokenisers)
    ensures var tokens := TokensOf(body, opts, tk);
            var ranked := Rank(Counts(tokens), Distinct(tokens));
            var lines := Frequencies(Some(body), opts, tk).value;
            && |lines| == HitCount(|Distinct(tokens)|, opts.maxHits)
            && (forall k :: 0 <= k < |lines| ==> lines[k] == FormatLine(Count(tokens, ranked[k]), ranked[k]))
  {
    var tokens := TokensOf(body, opts, tk);
    var ranked := Rank(Counts(tokens), Distinct(tokens));
    RankedWords(tokens);
    assert forall k :: 0 <= k < |ranked| ==> Key(Counts(tokens), ranked[k]) == Count(tokens, ranked[k]);
  }

  /** The ranked words are the distinct non-empty tokens, each once, and carry their counts. */
  lemma RankedWords(tokens: seq<string>)
    ensures var ranked := Rank(Counts(tokens), Distinct(tokens));
            && multiset(ranked) == multiset(Distinct(tokens))
            && (forall w :: w in ranked <==> w != [] && w in tokens)
            && (forall k :: 0 <= k < |ranked| ==> Key(Counts(tokens), ranked[k]) == Count(tokens, ranked[k]))
  {
    var ds := Distinct(tokens);
    var ranked := Rank(Counts(tokens), ds);
    RankSorts(Counts(tokens), ds);
    DistinctMeaning(tokens);
    forall w
      ensures w in ranked <==> w in ds
    {
      assert w in ranked <==> w in multiset(ranked);
      assert w in ds <==> w in multiset(ds);
    }
    forall k | 0 <= k < |ranked|
      ensures Key(Counts(tokens), ranked[k]) == Count(tokens, ranked[k])
    {
      assert ranked[k] in ranked;
    }
  }

  /** Counts never increase down the ranking, and words with the same count keep their first-occurrence order. */
  lemma RankedOrder(tokens: seq<string>)
    ensures var ranked := Rank(Counts(tokens), Distinct(tokens));
            && (forall i, j :: 0 <= i < j < |ranked| ==> Count(tokens, ranked[i]) >= Count(tokens, ranked[j]))
            && (forall c :: WithCount(Counts(tokens), ranked, c) == WithCount(Counts(tokens), Distinct(tokens), c))
  {
    var ds := Distinct(tokens);
    var counts := Counts(tokens);
    var ranked := Rank(counts, ds);
    RankSorts(counts, ds);
    RankedWords(tokens);
    forall c
      ensures WithCount(counts, ranked, c) == WithCount(counts, ds, c)
    {
      RankStable(counts, ds, c);
    }
  }

  /** Dehyphenated text has no line feeds left; left alone, the text is the stripped body. */
  lemma PreparedTextMeaning(body: string, opts: Options)
    ensures opts.dehyphenate ==> '\n' !in PreparedText(body, opts)
    ensures !opts.dehyphenate && !opts.caseInsensitive ==> PreparedText(body, opts) == Strip(body)
  {
    if opts.dehyphenate {
      NoBreakLeft(JoinHyphenated(if opts.caseInsensitive then Lower(Strip(body)) else Strip(body)));
    }
  }
}
