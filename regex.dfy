/** Python's `re.match(pattern, s)`. The regular-expression engine itself is
    not modelled: a pattern carries its source text (used in error messages)
    and what it matches, in one of two forms.

    - `Prefix` is a pattern that looks at nothing past the text it consumes
      (no `$`, `\Z`, `\b`, `\B`, look-ahead). It carries its language, the
      strings the compiled expression matches completely. `re.match` anchors
      at the start of `s` only, so it succeeds when some prefix of `s` is in
      that language.
    - `Lookaround` is any other pattern. It carries the outcome of `re.match`
      on each string directly, so end anchors and look-ahead can be
      represented. */
module Regex {

  datatype Pattern =
    | Prefix(text: string, accepts: string -> bool)
    | Lookaround(text: string, matchesAt: string -> bool)

  /** `re.match(p.text, s) is not None`. */
  predicate Matches(p: Pattern, s: string)
  {
    match p
    case Prefix(_, accepts) => exists k | 0 <= k <= |s| :: accepts(s[..k])
    case Lookaround(_, matchesAt) => matchesAt(s)
  }

  /** A string a prefix pattern matches completely is matched. */
  lemma FullMatchMatches(p: Pattern, s: string)
    requires p.Prefix? && p.accepts(s)
    ensures Matches(p, s)
  {
    assert s[..|s|] == s;
  }

  /** Anchoring at the start only: for a pattern that looks at nothing past
      what it consumes, text after a match never undoes it. */
  lemma MatchesExtended(p: Pattern, s: string, t: string)
    requires p.Prefix? && Matches(p, s)
    ensures Matches(p, s + t)
  {
    var k :| 0 <= k <= |s| && p.accepts(s[..k]);
    assert (s + t)[..k] == s[..k];
  }

  /** An instance: a pattern denoting exactly "AB" matches "ABC" (the end is
      not anchored) but not "xAB" (the start is). */
  lemma AnchoringExample()
    ensures Matches(Prefix("AB", w => w == "AB"), "ABC")
    ensures !Matches(Prefix("AB", w => w == "AB"), "xAB")
  {
    var p := Prefix("AB", w => w == "AB");
    assert p.accepts(("ABC")[..2]);
    forall k | 0 <= k <= 3
      ensures !p.accepts(("xAB")[..k])
    {
      assert k > 0 ==> ("xAB")[..k][0] == 'x';
    }
  }

  /** One or more ASCII digits, `[0-9]+` matched completely. */
  predicate DigitRun(s: string)
  {
    |s| > 0 && forall i | 0 <= i < |s| :: '0' <= s[i] <= '9'
  }

  /** `^[0-9]+$`: `$` (without MULTILINE) holds at the end of the string and
      just before a final newline. */
  const DigitsToEnd: Pattern :=
    Lookaround("^[0-9]+$", s => DigitRun(s) || (|s| > 1 && s[|s| - 1] == '\n' && DigitRun(s[..|s| - 1])))

  /** An end-anchored pattern matches "12" and "12\n" but not "12a": text
      appended after a match can undo it. */
  lemma EndAnchorExample()
    ensures Matches(DigitsToEnd, "12") && Matches(DigitsToEnd, "12\n")
    ensures !Matches(DigitsToEnd, "12a")
  {
    assert ("12\n")[..2] == "12";
    assert ("12a")[2] == 'a';
    assert ("12a")[..2] == "12";
  }
}
