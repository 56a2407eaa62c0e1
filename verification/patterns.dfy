/**
 * The regular expressions of the job-text cleaner, each written out as the
 * scan Python's `re` engine performs for it (ASCII `\w`, Unicode `\s`):
 * the `\b`-bounded noise phrases, the e-mail pattern
 * `\b[\w\.-]+@[\w\.-]+\.\w+\b` and the URL pattern
 * `\bhttps?://\S+|\bwww\.\S+`, and `re.sub` replacing every match by a space.
 */
module JobPatterns {

  import opened Wrappers
  import opened Text

  // ---------------------------------------------------------------------
  // Runs and word boundaries
  // ---------------------------------------------------------------------

  /** End of the longest run of characters satisfying `cls` that starts at `i`. */
  function RunEnd(s: string, i: nat, cls: char -> bool): (j: nat)
    requires i <= |s|
    ensures i <= j <= |s|
    ensures forall k :: i <= k < j ==> cls(s[k])
    ensures j < |s| ==> !cls(s[j])
    decreases |s| - i
  {
    if i == |s| || !cls(s[i]) then i else RunEnd(s, i + 1, cls)
  }

  /** Regex `\b` at offset `i`: a word character on exactly one side. */
  predicate WordBoundary(s: string, i: nat) {
    (0 < i <= |s| && IsWordChar(s[i - 1])) != (i < |s| && IsWordChar(s[i]))
  }

  // ---------------------------------------------------------------------
  // Noise lines
  // ---------------------------------------------------------------------

  /** The phrases whose `\b`-bounded occurrence marks a line as page chrome. */
  const NoisePhrases: seq<string> := [
    "cookie", "privacy", "terms", "equal opportunity", "all qualified applicants",
    "accessibility", "all rights reserved", "subscribe", "sign up", "get notified",
    "accept all", "more options", "share job", "save job", "apply now", "back to",
    "view all", "fraudulent", "site map"]

  /** `re.search(r"\b" + phrase + r"\b", s)` finds a match at `i`. */
  predicate BoundedAt(s: string, phrase: string, i: int) {
    OccursAt(s, phrase, i) && WordBoundary(s, i) && WordBoundary(s, i + |phrase|)
  }

  /** Some noise pattern matches the (lower-cased) line. */
  predicate IsNoise(lower: string) {
    exists k, i :: 0 <= k < |NoisePhrases| && 0 <= i <= |lower| && BoundedAt(lower, NoisePhrases[k], i)
  }

  // ---------------------------------------------------------------------
  // E-mail addresses
  // ---------------------------------------------------------------------

  /** The class `[\w\.-]`. */
  predicate IsEmailChar(c: char) { IsWordChar(c) || c == '.' || c == '-' }

  /**
   * The last offset `d` with `lo <= d < hi - 1`, `s[d] == '.'` and a word
   * character after it: where the backtracking `[\w\.-]+\.\w+` splits the
   * domain from its last label.
   */
  function LastDot(s: string, lo: nat, hi: nat): (r: Option<nat>)
    requires hi <= |s|
    ensures r.Some? ==> lo <= r.value && r.value + 1 < hi && s[r.value] == '.' && IsWordChar(s[r.value + 1])
    ensures r.Some? ==> forall d :: r.value < d && d + 1 < hi ==> !(s[d] == '.' && IsWordChar(s[d + 1]))
    ensures r.None? ==> forall d :: lo <= d && d + 1 < hi ==> !(s[d] == '.' && IsWordChar(s[d + 1]))
    decreases hi
  {
    if hi < lo + 2 then None
    else if s[hi - 2] == '.' && IsWordChar(s[hi - 1]) then Some(hi - 2)
    else LastDot(s, lo, hi - 1)
  }

  /**
   * Where the e-mail pattern matches at `i`, if it does. The local part is
   * the whole `[\w\.-]` run from `i` (it must be followed by `@`); the
   * domain, at least one character, backtracks to its last `.` followed by
   * a word character, and the final `\w+` is that word run, after which
   * `\b` always holds.
   */
  function EmailMatchEnd(s: string, i: nat): (r: Option<nat>)
    requires i < |s|
    ensures r.Some? ==> i < r.value <= |s|
    ensures r.Some? ==> exists a :: i < a < r.value && s[a] == '@'
  {
    if !WordBoundary(s, i) then None
    else
      var a := RunEnd(s, i, IsEmailChar);
      if a == i || a == |s| || s[a] != '@' then None
      else
        var e := RunEnd(s, a + 1, IsEmailChar);
        match LastDot(s, a + 2, e)
        case None => None
        case Some(d) =>
          var f := RunEnd(s, d + 1, IsWordChar);
          Some(f)
  }

  // ---------------------------------------------------------------------
  // URLs
  // ---------------------------------------------------------------------

  /** `p` occurs at `i` ignoring case and at least one non-space follows it. */
  predicate PrefixThenNonSpace(s: string, p: string, i: nat) {
    OccursAtIgnoreCase(s, p, i) && i + |p| < |s| && !IsSpace(s[i + |p|])
  }

  /**
   * Where the URL pattern matches at `i`, if it does: `http://`, `https://`
   * or `www.` (any case) at a word boundary, then the whole run of
   * non-whitespace. The optional `s` of `https?` is tried first; without it
   * the `s` would have to be a `:`, so at most one prefix applies.
   */
  function UrlMatchEnd(s: string, i: nat): (r: Option<nat>)
    requires i < |s|
    ensures r.Some? ==> i < r.value <= |s|
    ensures r.Some? ==> exists p :: p in UrlPrefixes && OccursAtIgnoreCase(s, p, i)
  {
    if !WordBoundary(s, i) then None
    else if PrefixThenNonSpace(s, "https://", i) then Some(RunEnd(s, i + 8, c => !IsSpace(c)))
    else if PrefixThenNonSpace(s, "http://", i) then Some(RunEnd(s, i + 7, c => !IsSpace(c)))
    else if PrefixThenNonSpace(s, "www.", i) then Some(RunEnd(s, i + 4, c => !IsSpace(c)))
    else None
  }

  const UrlPrefixes: set<string> := {"https://", "http://", "www."}

  // ---------------------------------------------------------------------
  // Substitution
  // ---------------------------------------------------------------------

  datatype Pattern = Email | Url

  function MatchEnd(p: Pattern, s: string, i: nat): (r: Option<nat>)
    requires i < |s|
    ensures r.Some? ==> i < r.value <= |s|
  {
    match p
    case Email => EmailMatchEnd(s, i)
    case Url => UrlMatchEnd(s, i)
  }

  /**
   * `re.sub(pattern, " ", s)` from offset `i`: at each offset the leftmost
   * match is replaced by one space and scanning resumes after it; where
   * nothing matches the character is copied.
   */
  function SubFrom(p: Pattern, s: string, i: nat): (r: string)
    requires i <= |s|
    ensures |r| <= |s| - i
    decreases |s| - i
  {
    if i == |s| then []
    else
      match MatchEnd(p, s, i)
      case Some(e) => " " + SubFrom(p, s, e)
      case None => [s[i]] + SubFrom(p, s, i + 1)
  }

  function Sub(p: Pattern, s: string): (r: string)
    ensures |r| <= |s|
  {
    SubFrom(p, s, 0)
  }

  /** Where the pattern matches nowhere, substitution leaves the text unchanged. */
  lemma {:induction false} SubFromUnchanged(p: Pattern, s: string, i: nat)
    requires i <= |s|
    requires forall k :: i <= k < |s| ==> MatchEnd(p, s, k).None?
    ensures SubFrom(p, s, i) == s[i..]
    decreases |s| - i
  {
    if i < |s| {
      SubFromUnchanged(p, s, i + 1);
      assert s[i..] == [s[i]] + s[i + 1..];
    }
  }

  /** A text without `@` contains no e-mail address: removing them changes nothing. */
  lemma EmailSubWithoutAt(s: string)
    requires '@' !in s
    ensures Sub(Email, s) == s
  {
    assert forall a :: 0 <= a < |s| ==> s[a] != '@';
    SubFromUnchanged(Email, s, 0);
  }

  /**
   * A text in which none of the URL prefixes occurs (in any case) contains
   * no URL: removing them changes nothing.
   */
  lemma UrlSubWithoutPrefix(s: string)
    requires forall k, p :: 0 <= k < |s| && p in UrlPrefixes ==> !OccursAtIgnoreCase(s, p, k)
    ensures Sub(Url, s) == s
  {
    SubFromUnchanged(Url, s, 0);
  }

  /**
   * A matched e-mail address is a non-empty local part, `@`, a non-empty
   * domain, a `.` and a word character.
   */
  lemma EmailMatchShape(s: string, i: nat)
    requires i < |s|
    ensures EmailMatchEnd(s, i).Some? ==> exists a, d ::
              && i < a && a + 1 < d && d + 1 < EmailMatchEnd(s, i).value
              && s[a] == '@' && s[d] == '.' && IsWordChar(s[d + 1])
  {
    if EmailMatchEnd(s, i).Some? {
      var a := RunEnd(s, i, IsEmailChar);
      var e := RunEnd(s, a + 1, IsEmailChar);
      var d := LastDot(s, a + 2, e).value;
      assert a + 1 < d;
    }
  }

  /** The domain cannot be empty: in `x@.com` nothing matches, so it is kept. */
  lemma EmptyDomainKept()
    ensures forall i :: 0 <= i < |"x@.com"| ==> EmailMatchEnd("x@.com", i).None?
    ensures Sub(Email, "x@.com") == "x@.com"
  {
    var s := "x@.com";
    forall i | 0 <= i < |s|
      ensures EmailMatchEnd(s, i).None?
    {
      EmailMatchShape(s, i);
    }
    SubFromUnchanged(Email, s, 0);
  }
}
