/** Text normalisation used before comparing OCR text with ground truth. */
module Text {
  import opened PyStr

  /** The characters the normaliser keeps: `[a-zA-Z0-9.,!?:;]`. */
  predicate Allowed(c: char)
  {
    ('a' <= c <= 'z') || ('A' <= c <= 'Z') || ('0' <= c <= '9')
    || c == '.' || c == ',' || c == '!' || c == '?' || c == ':' || c == ';'
  }

  /** Drop the run of characters that are not allowed at the front of `s`. */
  function SkipRun(s: string): (r: string)
    ensures |r| <= |s| && r == s[|s| - |r|..]
    ensures r == [] || Allowed(r[0])
    ensures forall i :: 0 <= i < |s| - |r| ==> !Allowed(s[i])
  {
    if s == [] || Allowed(s[0]) then s else SkipRun(s[1..])
  }

  /** `SIMP_RE.sub(' ', s)`: each maximal run of characters that are not allowed becomes one space. */
  function Simplify(s: string): string
    decreases |s|
  {
    if s == [] then []
    else if Allowed(s[0]) then [s[0]] + Simplify(s[1..])
    else [' '] + Simplify(SkipRun(s[1..]))
  }

  /** `normalize`: simplify, then strip. */
  function Normalize(s: string): string
  {
    Strip(Simplify(s))
  }

  /** Only allowed characters and single spaces, none at either end. */
  predicate Canonical(t: string)
  {
    && AllowedOrSpace(t)
    && SingleSpaced(t)
    && (t != [] ==> t[0] != ' ' && t[|t| - 1] != ' ')
  }

  lemma AllowedIsNotSpace(c: char)
    requires Allowed(c)
    ensures !IsSpace(c) && c != ' '
  {
  }

  /** Only allowed characters and spaces. */
  predicate AllowedOrSpace(t: string)
  {
    forall i :: 0 <= i < |t| ==> Allowed(t[i]) || t[i] == ' '
  }

  /** Never two spaces in a row. */
  predicate SingleSpaced(t: string)
  {
    forall i :: 0 <= i < |t| - 1 ==> t[i] == ' ' ==> t[i + 1] != ' '
  }

  lemma ConsShape(c: char, t: string)
    requires Allowed(c) || c == ' '
    requires AllowedOrSpace(t) && SingleSpaced(t)
    requires c == ' ' ==> t == [] || t[0] != ' '
    ensures AllowedOrSpace([c] + t) && SingleSpaced([c] + t)
  {
    assert forall i :: 1 <= i < |[c] + t| ==> ([c] + t)[i] == t[i - 1];
  }

  /** The first character of `Simplify(s)`: a space exactly when `s` starts with a character that is not allowed. */
  lemma SimplifyHead(s: string)
    ensures Simplify(s) == [] <==> s == []
    ensures s != [] && Allowed(s[0]) ==> Simplify(s)[0] == s[0]
    ensures s != [] && !Allowed(s[0]) ==> Simplify(s)[0] == ' '
  {
  }

  /** What `Simplify` produces: allowed characters and spaces, never two spaces in a row. */
  lemma {:induction false} SimplifyShape(s: string)
    ensures forall i :: 0 <= i < |Simplify(s)| ==> Allowed(Simplify(s)[i]) || Simplify(s)[i] == ' '
    ensures forall i :: 0 <= i < |Simplify(s)| - 1 ==> Simplify(s)[i] == ' ' ==> Simplify(s)[i + 1] != ' '
    ensures Simplify(s) != [] && Simplify(s)[0] == ' ' ==> s != [] && !Allowed(s[0])
    ensures (forall i :: 0 <= i < |s| ==> !Allowed(s[i])) ==> Simplify(s) == [] || Simplify(s) == " "
    decreases |s|
  {
    SimplifyHead(s);
    if s == [] {
    } else if Allowed(s[0]) {
      SimplifyShape(s[1..]);
      ConsShape(s[0], Simplify(s[1..]));
      AllowedIsNotSpace(s[0]);
    } else {
      var rest := SkipRun(s[1..]);
      SimplifyShape(rest);
      SimplifyHead(rest);
      if rest != [] {
        AllowedIsNotSpace(rest[0]);
      }
      ConsShape(' ', Simplify(rest));
      if forall i :: 0 <= i < |s| ==> !Allowed(s[i]) {
        assert rest == [];
      }
    }
  }

  /** Stripping a string of allowed characters and single spaces leaves a canonical string. */
  lemma SliceShape(x: string, lo: nat, hi: nat)
    requires lo <= hi <= |x|
    requires AllowedOrSpace(x) && SingleSpaced(x)
    ensures AllowedOrSpace(x[lo..hi]) && SingleSpaced(x[lo..hi])
  {
    assert forall i :: 0 <= i < hi - lo ==> x[lo..hi][i] == x[lo + i];
  }

  lemma StripCanonical(x: string)
    requires AllowedOrSpace(x) && SingleSpaced(x)
    ensures Canonical(Strip(x))
    ensures (forall i :: 0 <= i < |x| ==> x[i] == ' ') ==> Strip(x) == []
  {
    var k := StripSlice(x);
    SliceShape(x, k, k + |Strip(x)|);
    if forall i :: 0 <= i < |x| ==> x[i] == ' ' {
      assert forall i :: 0 <= i < |x| ==> IsSpace(x[i]);
    }
  }

  /** The output of `normalize` is canonical. */
  lemma NormalizeCanonical(s: string)
    ensures Canonical(Normalize(s))
  {
    SimplifyShape(s);
    StripCanonical(Simplify(s));
  }

  /** `Simplify` leaves a string of allowed characters and single spaces as it is. */
  lemma {:induction false} SimplifyFixes(t: string)
    requires forall i :: 0 <= i < |t| ==> Allowed(t[i]) || t[i] == ' '
    requires forall i :: 0 <= i < |t| - 1 ==> t[i] == ' ' ==> t[i + 1] != ' '
    ensures Simplify(t) == t
    decreases |t|
  {
    if t == [] {
    } else if Allowed(t[0]) {
      SimplifyFixes(t[1..]);
    } else {
      assert t[0] == ' ';
      assert SkipRun(t[1..]) == t[1..];
      SimplifyFixes(t[1..]);
    }
  }

  /** Canonical strings are exactly the fixed points of `normalize`. */
  lemma NormalizeFixesCanonical(t: string)
    ensures Canonical(t) <==> Normalize(t) == t
  {
    if Canonical(t) {
      SimplifyFixes(t);
      if t != [] {
        AllowedIsNotSpace(t[0]);
        AllowedIsNotSpace(t[|t| - 1]);
      }
    }
    if Normalize(t) == t {
      NormalizeCanonical(t);
    }
  }

  /** `normalize` is idempotent. */
  lemma NormalizeIdempotent(s: string)
    ensures Normalize(Normalize(s)) == Normalize(s)
  {
    NormalizeCanonical(s);
    NormalizeFixesCanonical(Normalize(s));
  }

  /** A string made only of allowed characters is returned unchanged. */
  lemma NormalizeAllowedOnly(s: string)
    requires forall i :: 0 <= i < |s| ==> Allowed(s[i])
    ensures Normalize(s) == s
  {
    SimplifyAllowed(s);
    if s != [] {
      AllowedIsNotSpace(s[0]);
      AllowedIsNotSpace(s[|s| - 1]);
    }
    assert LStrip(s) == s;
  }

  /** A string without any allowed character normalises to the empty string. */
  lemma NormalizeNothingAllowed(s: string)
    requires forall i :: 0 <= i < |s| ==> !Allowed(s[i])
    ensures Normalize(s) == []
  {
    SimplifyShape(s);
    StripCanonical(Simplify(s));
  }

  /** An allowed prefix passes through `Simplify` unchanged. */
  lemma {:induction false} SimplifyAllowedPrefix(p: string, q: string)
    requires forall i :: 0 <= i < |p| ==> Allowed(p[i])
    ensures Simplify(p + q) == p + Simplify(q)
    decreases |p|
  {
    if p != [] {
      AppendHeadTail(p, q);
      SimplifyAllowedPrefix(p[1..], q);
      AppendHeadTail(p, Simplify(q));
    } else {
      assert p + q == q;
    }
  }

  lemma {:induction false} SimplifyAllowed(w: string)
    requires forall i :: 0 <= i < |w| ==> Allowed(w[i])
    ensures Simplify(w) == w
    decreases |w|
  {
    if w != [] {
      SimplifyAllowed(w[1..]);
      HeadTail(w);
    }
  }

  /** A run of characters that are not allowed before a word becomes one space. */
  lemma SimplifyGap(gap: string, w: string)
    requires w != [] && gap != []
    requires forall i :: 0 <= i < |w| ==> Allowed(w[i])
    requires forall i :: 0 <= i < |gap| ==> !Allowed(gap[i])
    ensures Simplify(gap + w) == [' '] + w
  {
    SimplifyAllowed(w);
    AppendHeadTail(gap, w);
    SkipRunPrefix(gap[1..], w);
  }

  lemma SimplifyTwoWords(p: string, gap: string, w: string)
    requires w != [] && gap != []
    requires forall i :: 0 <= i < |p| ==> Allowed(p[i])
    requires forall i :: 0 <= i < |w| ==> Allowed(w[i])
    requires forall i :: 0 <= i < |gap| ==> !Allowed(gap[i])
    ensures Simplify(p + gap + w) == p + " " + w
  {
    SimplifyGap(gap, w);
    assert p + gap + w == p + (gap + w);
    SimplifyAllowedPrefix(p, gap + w);
    assert p + ([' '] + w) == p + " " + w;
  }

  lemma JoinedWordsCanonical(p: string, w: string)
    requires p != [] && w != []
    requires forall i :: 0 <= i < |p| ==> Allowed(p[i])
    requires forall i :: 0 <= i < |w| ==> Allowed(w[i])
    ensures Canonical(p + " " + w)
  {
    var t := p + " " + w;
    assert forall i :: 0 <= i < |p| ==> t[i] == p[i];
    assert t[|p|] == ' ';
    assert forall i :: |p| < i < |t| ==> t[i] == w[i - |p| - 1];
  }

  /** Two words of allowed characters separated by any run of other characters. */
  lemma NormalizeTwoWords(p: string, gap: string, w: string)
    requires p != [] && w != [] && gap != []
    requires forall i :: 0 <= i < |p| ==> Allowed(p[i])
    requires forall i :: 0 <= i < |w| ==> Allowed(w[i])
    requires forall i :: 0 <= i < |gap| ==> !Allowed(gap[i])
    ensures Normalize(p + gap + w) == p + " " + w
  {
    SimplifyTwoWords(p, gap, w);
    JoinedWordsCanonical(p, w);
    var t := p + " " + w;
    NormalizeFixesCanonical(t);
    SimplifyFixes(t);
  }

  /** A run of characters that are not allowed, followed by an allowed one, is skipped whole. */
  lemma {:induction false} SkipRunPrefix(gap: string, w: string)
    requires forall i :: 0 <= i < |gap| ==> !Allowed(gap[i])
    requires w != [] && Allowed(w[0])
    ensures SkipRun(gap + w) == w
    decreases |gap|
  {
    if gap == [] {
      assert gap + w == w;
    } else {
      assert (gap + w)[1..] == gap[1..] + w;
      SkipRunPrefix(gap[1..], w);
    }
  }

  /** A double space collapses and punctuation stays. */
  lemma NormalizeExample(s: string, p: string, gap: string, w: string)
    requires p == "Hello," && gap == "  " && w == "World!!" && s == p + gap + w
    ensures Normalize(s) == p + " " + w
  {
    assert forall i :: 0 <= i < |p| ==> Allowed(p[i]);
    assert forall i :: 0 <= i < |w| ==> Allowed(w[i]);
    assert forall i :: 0 <= i < |gap| ==> !Allowed(gap[i]);
    NormalizeTwoWords(p, gap, w);
  }
}
