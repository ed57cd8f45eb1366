/**
  The older word-frequency tool. It prepares, counts, ranks and reports exactly like the current
  one; the only difference is that a document without a body fails on the missing element
  (`None.text_content()`) instead of on an assertion.
 */
module WordFreqLegacy {
  import opened Wrappers
  import WordFreq

  /** `word_frequencies`: `AttributeError` without a body, otherwise the current tool's report. */
  function Frequencies(body: Option<string>, opts: WordFreq.Options, tk: WordFreq.Tokenisers): (r: Result<seq<string>>)
    ensures body.None? <==> r.Err?
    ensures r.Err? ==> r.error == AttributeError
  {
    if body.None? then Err(AttributeError) else WordFreq.Frequencies(body, opts, tk)
  }

  /** The legacy report agrees with the current one on every document with a body, and both fail without one. */
  lemma AgreesWithCurrent(body: Option<string>, opts: WordFreq.Options, tk: WordFreq.Tokenisers)
    ensures body.Some? ==> Frequencies(body, opts, tk) == WordFreq.Frequencies(body, opts, tk)
    ensures body.Some? ==> Frequencies(body, opts, tk).Ok?
    ensures body.None? ==> Frequencies(body, opts, tk) == Err(AttributeError) && WordFreq.Frequencies(body, opts, tk) == Err(AssertionError)
  {
  }

  /**
    The legacy report's lines: at most `max_hits + 1`, line `k` the `k`-th ranked word with its
    count, the words ranked by count with ties in first-occurrence order.
   */
  lemma LegacyMeaning(body: string, opts: WordFreq.Options, tk: WordFreq.Tokenisers)
    ensures var tokens := WordFreq.TokensOf(body, opts, tk);
            var ranked := WordFreq.Rank(WordFreq.Counts(tokens), WordFreq.Distinct(tokens));
            var lines := Frequencies(Some(body), opts, tk).value;
            && |lines| == WordFreq.HitCount(|WordFreq.Distinct(tokens)|, opts.maxHits)
            && (forall k :: 0 <= k < |lines| ==> lines[k] == WordFreq.FormatLine(WordFreq.Count(tokens, ranked[k]), ranked[k]))
            && (forall i, j :: 0 <= i < j < |ranked| ==> WordFreq.Count(tokens, ranked[i]) >= WordFreq.Count(tokens, ranked[j]))
  {
    WordFreq.FrequenciesMeaning(body, opts, tk);
    WordFreq.RankedOrder(WordFreq.TokensOf(body, opts, tk));
  }
}
