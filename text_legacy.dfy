/** The older package's `normalize`: the same character class, substitution and strip. */
module LegacyText {
  import opened PyStr
  import Text

  /** `SIMP_RE.sub(' ', s).strip()`, with only allowed characters and single inner spaces left. */
  function Normalize(s: string): (r: string)
    ensures Text.Canonical(r)
  {
    Text.NormalizeCanonical(s);
    Strip(Text.Simplify(s))
  }

  /** It agrees with the newer package's `normalize` on every input. */
  lemma AgreesWithCurrent(s: string)
    ensures Normalize(s) == Text.Normalize(s)
  {
  }

  /** Normalising twice changes nothing. */
  lemma Idempotent(s: string)
    ensures Normalize(Normalize(s)) == Normalize(s)
  {
    Text.NormalizeIdempotent(s);
  }
}
