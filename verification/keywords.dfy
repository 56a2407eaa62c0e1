/**
 * Keyword extraction from cleaned job text: lexicon hits found with a
 * boundary-aware matcher and ordered by offset, frequency tokens that pass
 * the junk filters ranked by count, and the merge that lists hits first,
 * drops repeats and truncates.
 */
module JobKeywords {

  import opened Wrappers
  import opened Text
  import opened Seqs
  import opened JobPatterns
  import opened Profiles
  import opened JobLoader

  // ---------------------------------------------------------------------
  // Lexicon hits
  // ---------------------------------------------------------------------

  /**
   * `(?<![a-z0-9])term(?![a-z0-9])` under IGNORECASE matches at `i`: the
   * term occurs there ignoring case, with no ASCII letter or digit
   * immediately before or after it.
   */
  predicate SingleHitAt(text: string, term: string, i: int) {
    && OccursAtIgnoreCase(text, term, i)
    && (i == 0 || !IsAlnum(text[i - 1]))
    && (i + |term| == |text| || !IsAlnum(text[i + |term|]))
  }

  /** The first offset from `from` on where the single-word pattern matches. */
  function FirstSingleHit(text: string, term: string, from: nat): (r: Option<nat>)
    ensures r.Some? ==> from <= r.value && SingleHitAt(text, term, r.value)
    ensures r.Some? ==> forall j :: from <= j < r.value ==> !SingleHitAt(text, term, j)
    ensures r.None? ==> forall j :: from <= j ==> !SingleHitAt(text, term, j)
    decreases |text| - from
  {
    if from + |term| > |text| then None
    else if SingleHitAt(text, term, from) then Some(from)
    else FirstSingleHit(text, term, from + 1)
  }

  /**
   * Where a term first hits: empty terms never do, a term containing a
   * space is found as a plain substring, any other term needs the
   * letter-or-digit boundaries.
   */
  function HitOffset(text: string, term: string): Option<nat> {
    if term == [] then None
    else if ' ' in term then Find(text, term)
    else FirstSingleHit(text, term, 0)
  }

  /** The term hits the text somewhere, by the rule for its shape. */
  predicate Hits(text: string, term: string) {
    && term != []
    && (if ' ' in term then Contains(text, term)
        else exists i :: 0 <= i <= |text| && SingleHitAt(text, term, i))
  }

  lemma HitOffsetSome(text: string, term: string)
    ensures HitOffset(text, term).Some? <==> Hits(text, term)
  {
    if term != [] && ' ' !in term {
      var r := FirstSingleHit(text, term, 0);
      if r.Some? {
        assert SingleHitAt(text, term, r.value);
      }
    }
  }

  /**
   * `e` records a hitting term: the term at lexicon position `e.rank`, keyed
   * by the negated offset of its first hit so that a higher key sorts first.
   */
  predicate HitRecord(text: string, terms: seq<string>, e: Ranked<string>) {
    && e.rank < |terms|
    && e.item == terms[e.rank]
    && HitOffset(text, e.item).Some?
    && e.key == -(HitOffset(text, e.item).value as int)
  }

  /** The record of every hitting term from position `k` of the lexicon on, in lexicon order. */
  function RankedHits(text: string, terms: seq<string>, k: nat): seq<Ranked<string>>
    requires k <= |terms|
    decreases |terms| - k
  {
    if k == |terms| then []
    else
      var rest := RankedHits(text, terms, k + 1);
      match HitOffset(text, terms[k])
      case Some(o) => [Ranked(terms[k], -(o as int), k)] + rest
      case None => rest
  }

  /** Every record is a hit record from position `k` on, and positions strictly increase. */
  lemma {:induction false} RankedHitsSpec(text: string, terms: seq<string>, k: nat)
    requires k <= |terms|
    ensures forall e :: e in RankedHits(text, terms, k) ==> k <= e.rank && HitRecord(text, terms, e)
    ensures forall i, j :: 0 <= i < j < |RankedHits(text, terms, k)| ==>
      RankedHits(text, terms, k)[i].rank < RankedHits(text, terms, k)[j].rank
    decreases |terms| - k
  {
    if k < |terms| {
      RankedHitsSpec(text, terms, k + 1);
    }
  }

  /** Every hitting term is recorded from its lexicon position; `i` is where. */
  lemma {:induction false} RankedHitsComplete(text: string, terms: seq<string>, k: nat, m: nat) returns (i: nat)
    requires k <= m < |terms| && HitOffset(text, terms[m]).Some?
    ensures i < |RankedHits(text, terms, k)| && RankedHits(text, terms, k)[i].rank == m
    decreases m - k
  {
    var rest := RankedHits(text, terms, k + 1);
    match HitOffset(text, terms[k])
    case Some(o) =>
      assert RankedHits(text, terms, k) == [Ranked(terms[k], -(o as int), k)] + rest;
      if k == m {
        i := 0;
      } else {
        var j := RankedHitsComplete(text, terms, k + 1, m);
        i := j + 1;
      }
    case None =>
      i := RankedHitsComplete(text, terms, k + 1, m);
  }

  /** A hit record is determined by its lexicon position. */
  lemma HitRecordByRank(text: string, terms: seq<string>, a: Ranked<string>, b: Ranked<string>)
    requires HitRecord(text, terms, a) && HitRecord(text, terms, b)
    ensures a.rank == b.rank ==> a == b
  {
  }

  /**
   * `_find_lexicon_hits`: the hitting terms, stably sorted by the offset of
   * their first hit (a higher key is a smaller offset).
   */
  function FindLexiconHits(text: string, terms: seq<string>): seq<string> {
    Items(SortDesc(RankedHits(text, terms, 0)))
  }

  /** Every sorted record is a hit record. */
  lemma SortedHitsRecords(text: string, terms: seq<string>)
    ensures forall e :: e in SortDesc(RankedHits(text, terms, 0)) ==> HitRecord(text, terms, e)
  {
    RankedHitsSpec(text, terms, 0);
    SortDescElems(RankedHits(text, terms, 0));
  }

  /** No record is sorted in twice. */
  lemma SortedHitsDistinct(text: string, terms: seq<string>)
    ensures Distinct(SortDesc(RankedHits(text, terms, 0)))
  {
    var rs := RankedHits(text, terms, 0);
    RankedHitsSpec(text, terms, 0);
    assert Distinct(rs) by {
      forall i, j | 0 <= i < j < |rs|
        ensures rs[i] != rs[j]
      {
        assert rs[i].rank < rs[j].rank;
      }
    }
    SortDescDistinct(rs);
  }

  /** A term is a lexicon hit iff it is in the lexicon and hits the text. */
  lemma LexiconHitsExact(text: string, terms: seq<string>, x: string)
    ensures x in FindLexiconHits(text, terms) <==> x in terms && Hits(text, x)
  {
    HitOffsetSome(text, x);
    SortedHitsRecords(text, terms);
    var rs := RankedHits(text, terms, 0);
    var sorted := SortDesc(rs);
    var hits := Items(sorted);
    if x in hits {
      var i := IndexOf(hits, x);
      assert HitRecord(text, terms, sorted[i]);
    }
    if x in terms && Hits(text, x) {
      var m := IndexOf(terms, x);
      var at := RankedHitsComplete(text, terms, 0, m);
      var e := rs[at];
      assert e in multiset(rs);
      assert e in multiset(sorted);
      var i := IndexOf(sorted, e);
      assert hits[i] == x;
    }
  }

  /** Both terms hit, `a` no later than `b`. */
  predicate HitNoLater(text: string, a: string, b: string) {
    HitOffset(text, a).Some? && HitOffset(text, b).Some? &&
    HitOffset(text, a).value <= HitOffset(text, b).value
  }

  /** Both terms are in the lexicon, and on a tie `a` is listed first. */
  predicate ListedFirstOnTie(text: string, terms: seq<string>, a: string, b: string) {
    a in terms && b in terms &&
    (HitOffset(text, a) == HitOffset(text, b) ==> IndexOf(terms, a) < IndexOf(terms, b))
  }

  /** Two positions of the hit list, compared by offset and by lexicon position. */
  lemma HitPair(text: string, terms: seq<string>, hits: seq<string>, i: nat, j: nat)
    requires hits == FindLexiconHits(text, terms)
    requires i < j < |hits|
    ensures HitNoLater(text, hits[i], hits[j])
    ensures Distinct(terms) ==> ListedFirstOnTie(text, terms, hits[i], hits[j])
  {
    SortedHitsRecords(text, terms);
    SortedHitsDistinct(text, terms);
    var sorted := SortDesc(RankedHits(text, terms, 0));
    var x, y := sorted[i], sorted[j];
    assert HitRecord(text, terms, x) && HitRecord(text, terms, y);
    assert Precedes(x, y);
    HitRecordByRank(text, terms, x, y);
    if Distinct(terms) {
      IndexOfUnique(terms, x.item, x.rank);
      IndexOfUnique(terms, y.item, y.rank);
    }
  }

  /** Hits come in order of offset; equal offsets keep lexicon order. */
  lemma LexiconHitsOrdered(text: string, terms: seq<string>)
    ensures forall i, j :: 0 <= i < j < |FindLexiconHits(text, terms)| ==>
      HitNoLater(text, FindLexiconHits(text, terms)[i], FindLexiconHits(text, terms)[j])
    ensures Distinct(terms) ==> forall i, j :: 0 <= i < j < |FindLexiconHits(text, terms)| ==>
      ListedFirstOnTie(text, terms, FindLexiconHits(text, terms)[i], FindLexiconHits(text, terms)[j])
  {
    var hits := FindLexiconHits(text, terms);
    forall i, j | 0 <= i < j < |hits|
      ensures HitNoLater(text, hits[i], hits[j])
      ensures Distinct(terms) ==> ListedFirstOnTie(text, terms, hits[i], hits[j])
    {
      HitPair(text, terms, hits, i, j);
    }
  }

  /** A lexicon without repeats gives hits without repeats. */
  lemma LexiconHitsDistinct(text: string, terms: seq<string>)
    requires Distinct(terms)
    ensures Distinct(FindLexiconHits(text, terms))
  {
    SortedHitsRecords(text, terms);
    SortedHitsDistinct(text, terms);
    var sorted := SortDesc(RankedHits(text, terms, 0));
    var hits := Items(sorted);
    forall i, j | 0 <= i < j < |hits|
      ensures hits[i] != hits[j]
    {
      assert HitRecord(text, terms, sorted[i]) && HitRecord(text, terms, sorted[j]);
      HitRecordByRank(text, terms, sorted[i], sorted[j]);
    }
  }

  // ---------------------------------------------------------------------
  // Tokens
  // ---------------------------------------------------------------------

  /** The class `[a-zA-Z0-9\+\#\.\-/]`. */
  predicate IsTokenChar(c: char) {
    IsLetter(c) || IsDigit(c) || c == '+' || c == '#' || c == '.' || c == '-' || c == '/'
  }

  /**
   * `re.findall(r"[a-zA-Z][a-zA-Z0-9\+\#\.\-/]*", text)` from offset `i`:
   * each token starts at a letter and takes the whole run of token
   * characters after it.
   */
  function TokensFrom(text: string, i: nat): (ts: seq<string>)
    requires i <= |text|
    ensures forall t :: t in ts ==> t != [] && IsLetter(t[0]) && forall k :: 0 <= k < |t| ==> IsTokenChar(t[k])
    decreases |text| - i
  {
    if i == |text| then []
    else if IsLetter(text[i]) then
      var j := RunEnd(text, i + 1, IsTokenChar);
      [text[i..j]] + TokensFrom(text, j)
    else TokensFrom(text, i + 1)
  }

  function Tokens(text: string): seq<string> {
    TokensFrom(text, 0)
  }

  /** Where a match lies in the text: `text[start..end]`. */
  datatype Span = Span(start: nat, end: nat)

  /**
   * A whole token sits at `sp`: it starts at a letter, holds only token
   * characters, and is not followed by another token character.
   */
  predicate TokenAt(text: string, sp: Span) {
    && sp.start < sp.end <= |text|
    && IsLetter(text[sp.start])
    && (forall q :: sp.start <= q < sp.end ==> IsTokenChar(text[q]))
    && (sp.end == |text| || !IsTokenChar(text[sp.end]))
  }

  /** The spans of the tokens `TokensFrom` reports, by the same scan. */
  function TokenSpans(text: string, i: nat): (sp: seq<Span>)
    requires i <= |text|
    ensures forall k :: 0 <= k < |sp| ==> i <= sp[k].start < sp[k].end <= |text|
    decreases |text| - i
  {
    if i == |text| then []
    else if IsLetter(text[i]) then
      var j := RunEnd(text, i + 1, IsTokenChar);
      [Span(i, j)] + TokenSpans(text, j)
    else TokenSpans(text, i + 1)
  }

  /** Every span from `i` holds a whole token. */
  lemma {:induction false} TokenSpansWhole(text: string, i: nat)
    requires i <= |text|
    ensures forall k :: 0 <= k < |TokenSpans(text, i)| ==> TokenAt(text, TokenSpans(text, i)[k])
    decreases |text| - i
  {
    if i < |text| {
      if IsLetter(text[i]) {
        TokenSpansWhole(text, RunEnd(text, i + 1, IsTokenChar));
      } else {
        TokenSpansWhole(text, i + 1);
      }
    }
  }

  /** The spans come in order and do not overlap. */
  lemma {:induction false} TokenSpansOrdered(text: string, i: nat)
    requires i <= |text|
    ensures forall k, l :: 0 <= k < l < |TokenSpans(text, i)| ==>
      TokenSpans(text, i)[k].end <= TokenSpans(text, i)[l].start
    decreases |text| - i
  {
    if i < |text| {
      if IsLetter(text[i]) {
        TokenSpansOrdered(text, RunEnd(text, i + 1, IsTokenChar));
      } else {
        TokenSpansOrdered(text, i + 1);
      }
    }
  }

  /** Every letter from `i` on lies inside some span. */
  lemma {:induction false} TokenSpansCover(text: string, i: nat, p: nat) returns (k: nat)
    requires i <= p < |text| && IsLetter(text[p])
    ensures k < |TokenSpans(text, i)| && TokenSpans(text, i)[k].start <= p < TokenSpans(text, i)[k].end
    decreases |text| - i
  {
    if IsLetter(text[i]) {
      var j := RunEnd(text, i + 1, IsTokenChar);
      if p < j {
        k := 0;
      } else {
        var k' := TokenSpansCover(text, j, p);
        k := k' + 1;
      }
    } else {
      k := TokenSpansCover(text, i + 1, p);
    }
  }

  /** Each token is the text at its span. */
  lemma {:induction false} TokensAtSpans(text: string, i: nat)
    requires i <= |text|
    ensures |TokensFrom(text, i)| == |TokenSpans(text, i)|
    ensures forall k :: 0 <= k < |TokensFrom(text, i)| ==>
      TokensFrom(text, i)[k] == text[TokenSpans(text, i)[k].start..TokenSpans(text, i)[k].end]
    decreases |text| - i
  {
    if i < |text| {
      if IsLetter(text[i]) {
        var j := RunEnd(text, i + 1, IsTokenChar);
        TokensAtSpans(text, j);
        var ts, sp := TokensFrom(text, j), TokenSpans(text, j);
        assert TokensFrom(text, i) == [text[i..j]] + ts;
        assert TokenSpans(text, i) == [Span(i, j)] + sp;
        forall k | 0 < k < |TokensFrom(text, i)|
          ensures TokensFrom(text, i)[k] == text[TokenSpans(text, i)[k].start..TokenSpans(text, i)[k].end]
        {
          assert TokensFrom(text, i)[k] == ts[k - 1] && TokenSpans(text, i)[k] == sp[k - 1];
        }
      } else {
        TokensAtSpans(text, i + 1);
        assert TokensFrom(text, i) == TokensFrom(text, i + 1);
        assert TokenSpans(text, i) == TokenSpans(text, i + 1);
      }
    }
  }

  /**
   * `findall` of the token pattern: the tokens are the texts of whole,
   * non-overlapping tokens in order, and every letter lies in one of them.
   */
  lemma TokensExact(text: string)
    ensures |Tokens(text)| == |TokenSpans(text, 0)|
    ensures forall k :: 0 <= k < |Tokens(text)| ==>
      TokenAt(text, TokenSpans(text, 0)[k]) &&
      Tokens(text)[k] == text[TokenSpans(text, 0)[k].start..TokenSpans(text, 0)[k].end]
    ensures forall k, l :: 0 <= k < l < |TokenSpans(text, 0)| ==>
      TokenSpans(text, 0)[k].end <= TokenSpans(text, 0)[l].start
    ensures forall p :: 0 <= p < |text| && IsLetter(text[p]) ==>
      exists k :: 0 <= k < |TokenSpans(text, 0)| && TokenSpans(text, 0)[k].start <= p < TokenSpans(text, 0)[k].end
  {
    TokenSpansWhole(text, 0);
    TokenSpansOrdered(text, 0);
    TokensAtSpans(text, 0);
    forall p | 0 <= p < |text| && IsLetter(text[p])
      ensures exists k :: 0 <= k < |TokenSpans(text, 0)| && TokenSpans(text, 0)[k].start <= p < TokenSpans(text, 0)[k].end
    {
      var k := TokenSpansCover(text, 0, p);
    }
  }

  /** `t.strip("._-/").lower()` */
  function CleanToken(t: string): string {
    Lower(StripChars(t, {'.', '_', '-', '/'}))
  }

  const Stopwords: set<string> := {
    "the", "and", "or", "to", "of", "in", "for", "with", "on", "at", "is", "are",
    "as", "an", "a", "by", "this", "that", "will", "be", "you", "your", "we", "our",
    "us", "from", "they", "their", "it", "about", "role", "team", "work", "working",
    "ability", "skills", "experience", "required", "preferred", "responsibilities",
    "qualifications", "including", "within", "across"}

  /** Tokens the junk filter would drop but the source tries to keep anyway. */
  const Rescued: set<string> := {"k8s", "c++", "c#"}

  /** Generic words removed after ranking. */
  const SoftWords: set<string> := {"team", "work", "role", "great", "able"}

  /** `^\d+$` */
  predicate AllDigits(t: string) {
    t != [] && forall i :: 0 <= i < |t| ==> IsDigit(t[i])
  }

  /** `k` letters, then three or more digits, to the end. */
  predicate LettersThenDigits(t: string, k: nat) {
    && k + 3 <= |t|
    && (forall i :: 0 <= i < k ==> IsLetter(t[i]))
    && (forall i :: k <= i < |t| ==> IsDigit(t[i]))
  }

  /** `^[a-z]{1,2}\d{3,}$` ignoring case: one or two letters, then three or more digits. */
  predicate IdLike(t: string) {
    LettersThenDigits(t, 1) || LettersThenDigits(t, 2)
  }

  /** `^\w{12,}$` */
  predicate LongWord(t: string) {
    |t| >= 12 && forall i :: 0 <= i < |t| ==> IsWordChar(t[i])
  }

  predicate Junk(t: string) { AllDigits(t) || IdLike(t) || LongWord(t) }

  /** `re.search(r"[aeiou]", t)` */
  predicate HasVowel(t: string) {
    exists i :: 0 <= i < |t| && t[i] in {'a', 'e', 'i', 'o', 'u'}
  }

  /** The filters that run before the junk patterns, in the source's order. */
  predicate PassesEarlyFilters(t: string) {
    && t != []
    && '@' !in t
    && !StartsWith(t, "http") && !StartsWith(t, "www")
    && t !in Stopwords
    && |t| > 2
    && |t| <= 32
  }

  /** Whether a cleaned token is counted, branch for branch as the source decides. */
  predicate Admitted(t: string) {
    if !PassesEarlyFilters(t) then false
    else if Junk(t) then t in Rescued
    else !(|t| >= 12 && !HasVowel(t))
  }

  /** The counted tokens of the text, in order of occurrence. */
  function CandidateTokens(text: string): seq<string> {
    Filter(Map(CleanToken, Tokens(text)), Admitted)
  }

  /**
   * The rescue of `k8s`, `c++` and `c#` never fires: `c#` is already too
   * short, and the other two match no junk pattern.
   */
  lemma RescueUnreachable(t: string)
    requires PassesEarlyFilters(t) && Junk(t)
    ensures t !in Rescued
  {
    assert "k8s"[0] == 'k' && "k8s"[2] == 's';
    assert "c++"[0] == 'c' && "c++"[1] == '+';
  }

  /**
   * So a token is admitted iff it passes the early filters, matches no
   * junk pattern and is not a long token without vowels.
   */
  lemma AdmittedExact(t: string)
    ensures Admitted(t) <==> PassesEarlyFilters(t) && !Junk(t) && !(|t| >= 12 && !HasVowel(t))
  {
    if PassesEarlyFilters(t) && Junk(t) {
      RescueUnreachable(t);
    }
  }

  /**
   * The vowel test only ever sees tokens with punctuation: an admitted
   * token of twelve or more characters that is all letters and digits
   * would have been dropped as `^\w{12,}$` junk.
   */
  lemma VowelTestSeesPunctuation(t: string)
    requires PassesEarlyFilters(t) && !Junk(t) && |t| >= 12
    ensures exists i :: 0 <= i < |t| && !IsWordChar(t[i])
  {
  }

  // ---------------------------------------------------------------------
  // Frequency ranking
  // ---------------------------------------------------------------------

  /** Each distinct token with its count as key and its first-seen position as rank. */
  function RankByCount(tokens: seq<string>, distinct: seq<string>): (rs: seq<Ranked<string>>)
    ensures |rs| == |distinct|
    ensures forall k :: 0 <= k < |rs| ==> rs[k] == Ranked(distinct[k], Count(tokens, distinct[k]), k)
  {
    seq(|distinct|, k requires 0 <= k < |distinct| => Ranked(distinct[k], Count(tokens, distinct[k]), k))
  }

  /** Every distinct token's record, stably sorted by descending count. */
  function CountRanking(tokens: seq<string>): seq<Ranked<string>> {
    SortDesc(RankByCount(tokens, Dedup(tokens)))
  }

  /** `Counter(tokens).most_common(n)`: by count, ties in first-seen order. */
  function MostCommon(tokens: seq<string>, n: nat): seq<string> {
    Items(Take(CountRanking(tokens), n))
  }

  predicate NotSoft(w: string) { w !in SoftWords }

  /** `_frequency_keywords(text_lower, max_candidates)` */
  function FrequencyKeywords(text: string, maxCandidates: nat): seq<string> {
    Filter(MostCommon(CandidateTokens(text), maxCandidates), NotSoft)
  }

  /** `a` ranks before `b`: counted more often, or as often and seen first. */
  predicate CountsBefore(tokens: seq<string>, a: string, b: string) {
    a in tokens && b in tokens &&
    (Count(tokens, a) > Count(tokens, b) ||
     (Count(tokens, a) == Count(tokens, b) && IndexOf(tokens, a) < IndexOf(tokens, b)))
  }

  /** The ranking lists each distinct token once; `p` is where `w` is listed. */
  lemma CountRankingHas(tokens: seq<string>, w: string) returns (p: nat)
    requires w in tokens
    ensures |CountRanking(tokens)| == |Dedup(tokens)|
    ensures p < |CountRanking(tokens)| && CountRanking(tokens)[p].item == w
  {
    var d := Dedup(tokens);
    DedupElems(tokens);
    var rs := RankByCount(tokens, d);
    var sorted := CountRanking(tokens);
    assert |multiset(sorted)| == |multiset(rs)|;
    var k := IndexOf(d, w);
    assert rs[k] in rs;
    SortDescElems(rs);
    p := IndexOf(sorted, rs[k]);
  }

  /** Any two listed tokens are ranked by count, ties in first-seen order. */
  lemma CountRankingPair(tokens: seq<string>, i: nat, j: nat)
    requires i < j < |CountRanking(tokens)|
    ensures CountsBefore(tokens, CountRanking(tokens)[i].item, CountRanking(tokens)[j].item)
  {
    var d := Dedup(tokens);
    DedupElems(tokens);
    DedupOrder(tokens);
    var rs := RankByCount(tokens, d);
    var sorted := CountRanking(tokens);
    SortDescElems(rs);
    assert Distinct(rs);
    SortDescDistinct(rs);
    var a, b := sorted[i], sorted[j];
    assert a in rs && b in rs;
    assert a != b;
    assert a.rank != b.rank;
    assert a.item == d[a.rank] && b.item == d[b.rank];
    if a.key == b.key {
      assert a.rank < b.rank;
    }
  }

  /**
   * The most common tokens: as many as `n` allows, each a counted token,
   * in ranking order, and no token left out ranks before one taken.
   */
  lemma MostCommonSpec(tokens: seq<string>, n: nat)
    ensures |MostCommon(tokens, n)| == if n <= |Dedup(tokens)| then n else |Dedup(tokens)|
    ensures Distinct(MostCommon(tokens, n))
    ensures forall w :: w in MostCommon(tokens, n) ==> w in tokens
    ensures forall i, j :: 0 <= i < j < |MostCommon(tokens, n)| ==>
      CountsBefore(tokens, MostCommon(tokens, n)[i], MostCommon(tokens, n)[j])
    ensures forall w, v :: w in tokens && w !in MostCommon(tokens, n) && v in MostCommon(tokens, n) ==>
      CountsBefore(tokens, v, w)
  {
    MostCommonLength(tokens, n);
    MostCommonOrdered(tokens, n);
    MostCommonComplete(tokens, n);
  }

  /** `most_common(n)` lists `n` tokens, or every distinct token when there are fewer. */
  lemma MostCommonLength(tokens: seq<string>, n: nat)
    ensures |MostCommon(tokens, n)| == if n <= |Dedup(tokens)| then n else |Dedup(tokens)|
  {
    if tokens != [] {
      var _ := CountRankingHas(tokens, tokens[0]);
    } else {
      assert Dedup(tokens) == [];
    }
  }

  /** The listed tokens are counted tokens, each once, in ranking order. */
  lemma MostCommonOrdered(tokens: seq<string>, n: nat)
    ensures Distinct(MostCommon(tokens, n))
    ensures forall w :: w in MostCommon(tokens, n) ==> w in tokens
    ensures forall i, j :: 0 <= i < j < |MostCommon(tokens, n)| ==>
      CountsBefore(tokens, MostCommon(tokens, n)[i], MostCommon(tokens, n)[j])
  {
    var sorted := CountRanking(tokens);
    var r := MostCommon(tokens, n);
    forall i, j | 0 <= i < j < |r|
      ensures r[i] != r[j] && CountsBefore(tokens, r[i], r[j])
    {
      CountRankingPair(tokens, i, j);
    }
    CountRankingTokens(tokens);
    forall w | w in r
      ensures w in tokens
    {
      var i :| 0 <= i < |r| && r[i] == w;
      assert sorted[i] in sorted;
    }
  }

  /** A token left out ranks after every token taken. */
  lemma MostCommonComplete(tokens: seq<string>, n: nat)
    ensures forall w, v :: w in tokens && w !in MostCommon(tokens, n) && v in MostCommon(tokens, n) ==>
      CountsBefore(tokens, v, w)
  {
    var r := MostCommon(tokens, n);
    forall w, v | w in tokens && w !in r && v in r
      ensures CountsBefore(tokens, v, w)
    {
      var p := CountRankingHas(tokens, w);
      var i :| 0 <= i < |r| && r[i] == v;
      assert p >= |r|;
      CountRankingPair(tokens, i, p);
    }
  }

  /** The ranking lists only tokens. */
  lemma CountRankingTokens(tokens: seq<string>)
    ensures forall e :: e in CountRanking(tokens) ==> e.item in tokens
  {
    var d := Dedup(tokens);
    DedupElems(tokens);
    SortDescElems(RankByCount(tokens, d));
  }

  /**
   * Every frequency keyword is an admitted token that is not a soft word;
   * they are distinct, at most `maxCandidates` of them, ranked by count
   * with ties in order of first appearance.
   */
  lemma FrequencyKeywordsSpec(text: string, maxCandidates: nat)
    ensures |FrequencyKeywords(text, maxCandidates)| <= maxCandidates
    ensures Distinct(FrequencyKeywords(text, maxCandidates))
    ensures forall w :: w in FrequencyKeywords(text, maxCandidates) ==>
      Admitted(w) && w !in SoftWords && w in CandidateTokens(text)
    ensures forall i, j :: 0 <= i < j < |FrequencyKeywords(text, maxCandidates)| ==>
      CountsBefore(CandidateTokens(text), FrequencyKeywords(text, maxCandidates)[i], FrequencyKeywords(text, maxCandidates)[j])
    ensures forall w, v ::
      (w in CandidateTokens(text) && NotSoft(w) && w !in FrequencyKeywords(text, maxCandidates) &&
       v in FrequencyKeywords(text, maxCandidates)) ==> CountsBefore(CandidateTokens(text), v, w)
    ensures |Dedup(CandidateTokens(text))| <= maxCandidates ==>
      forall w :: w in CandidateTokens(text) && NotSoft(w) ==> w in FrequencyKeywords(text, maxCandidates)
  {
    FrequencyKeywordsMembers(text, maxCandidates);
    FrequencyKeywordsRanked(text, maxCandidates);
    FrequencyKeywordsComplete(text, maxCandidates);
  }

  /**
   * A non-soft counted token missing from the frequency keywords ranks
   * after every one of them; with few enough distinct tokens none is missing.
   */
  lemma FrequencyKeywordsComplete(text: string, maxCandidates: nat)
    ensures forall w, v ::
      (w in CandidateTokens(text) && NotSoft(w) && w !in FrequencyKeywords(text, maxCandidates) &&
       v in FrequencyKeywords(text, maxCandidates)) ==> CountsBefore(CandidateTokens(text), v, w)
    ensures |Dedup(CandidateTokens(text))| <= maxCandidates ==>
      forall w :: w in CandidateTokens(text) && NotSoft(w) ==> w in FrequencyKeywords(text, maxCandidates)
  {
    NonSoftComplete(CandidateTokens(text), maxCandidates);
  }

  /** `FrequencyKeywordsComplete` for any token sequence. */
  lemma NonSoftComplete(toks: seq<string>, n: nat)
    ensures forall w, v ::
      (w in toks && NotSoft(w) && w !in Filter(MostCommon(toks, n), NotSoft) &&
       v in Filter(MostCommon(toks, n), NotSoft)) ==> CountsBefore(toks, v, w)
    ensures |Dedup(toks)| <= n ==> forall w :: w in toks && NotSoft(w) ==> w in Filter(MostCommon(toks, n), NotSoft)
  {
    var mc := MostCommon(toks, n);
    MostCommonComplete(toks, n);
    FilterElems(mc, NotSoft);
    if |Dedup(toks)| <= n {
      forall w | w in toks && NotSoft(w)
        ensures w in Filter(mc, NotSoft)
      {
        var p := CountRankingHas(toks, w);
        assert mc[p] == w;
      }
    }
  }

  /** Frequency keywords are counted tokens that are not soft words. */
  lemma FrequencyKeywordsMembers(text: string, maxCandidates: nat)
    ensures forall w :: w in FrequencyKeywords(text, maxCandidates) ==>
      Admitted(w) && w !in SoftWords && w in CandidateTokens(text)
  {
    var toks := CandidateTokens(text);
    var mc := MostCommon(toks, maxCandidates);
    MostCommonSpec(toks, maxCandidates);
    FilterElems(mc, NotSoft);
    FilterElems(Map(CleanToken, Tokens(text)), Admitted);
    forall w | w in FrequencyKeywords(text, maxCandidates)
      ensures Admitted(w) && w !in SoftWords && w in toks
    {
      assert w in mc && NotSoft(w);
      assert w in toks;
    }
  }

  /** Frequency keywords are few enough, distinct, and in count order. */
  lemma FrequencyKeywordsRanked(text: string, maxCandidates: nat)
    ensures |FrequencyKeywords(text, maxCandidates)| <= maxCandidates
    ensures Distinct(FrequencyKeywords(text, maxCandidates))
    ensures forall i, j :: 0 <= i < j < |FrequencyKeywords(text, maxCandidates)| ==>
      CountsBefore(CandidateTokens(text), FrequencyKeywords(text, maxCandidates)[i], FrequencyKeywords(text, maxCandidates)[j])
  {
    var toks := CandidateTokens(text);
    var mc := MostCommon(toks, maxCandidates);
    MostCommonSpec(toks, maxCandidates);
    FilterDistinct(mc, NotSoft);
    FilterKeepsPairs(mc, NotSoft, (a, b) => CountsBefore(toks, a, b));
  }

  /** What every frequency keyword looks like, in the source's own terms. */
  lemma FrequencyKeywordShape(text: string, maxCandidates: nat, w: string)
    requires w in FrequencyKeywords(text, maxCandidates)
    ensures 3 <= |w| <= 32
    ensures w !in Stopwords && w !in SoftWords
    ensures '@' !in w && !StartsWith(w, "http") && !StartsWith(w, "www")
    ensures !LongWord(w) && !AllDigits(w) && !IdLike(w)
    ensures |w| >= 12 ==> HasVowel(w)
  {
    FrequencyKeywordsSpec(text, maxCandidates);
    AdmittedExact(w);
  }

  // ---------------------------------------------------------------------
  // Merging
  // ---------------------------------------------------------------------

  /** Candidate list size of the frequency ranking. */
  const MaxCandidates: nat := 80

  /**
   * The keywords the merge produces: the first `maxKeywords` distinct
   * entries of the lexicon hits followed by the frequency keywords, or
   * none when `maxKeywords` is not positive.
   */
  function Keywords(hits: seq<string>, freq: seq<string>, maxKeywords: int): seq<string> {
    if maxKeywords <= 0 then [] else Take(Dedup(hits + freq), maxKeywords)
  }

  /**
   * `_extract_keywords`: the lexicon hits and the frequency keywords of the
   * lower-cased text, merged.
   */
  method ExtractKeywords(cleanedText: string, lexiconTerms: seq<string>, maxKeywords: int) returns (out: seq<string>)
    ensures out == Keywords(FindLexiconHits(Lower(cleanedText), lexiconTerms),
                            FrequencyKeywords(Lower(cleanedText), MaxCandidates), maxKeywords)
  {
    var textLower := Lower(cleanedText);
    out := MergeKeywords(FindLexiconHits(textLower, lexiconTerms), FrequencyKeywords(textLower, MaxCandidates), maxKeywords);
  }

  /**
   * The merge loops of `_extract_keywords`: the lexicon hits, then the
   * frequency keywords, each loop stopping as soon as `maxKeywords`
   * entries are collected, and the final Python slice `out[:max_keywords]`.
   */
  method MergeKeywords(hits: seq<string>, freq: seq<string>, maxKeywords: int) returns (out: seq<string>)
    ensures out == Keywords(hits, freq, maxKeywords)
  {
    ghost var all := hits + freq;
    assert all[..0] == [];
    assert all[0..|hits|] == hits;
    assert all[|hits|..|hits| + |freq|] == freq;
    var seen: set<string>;
    var stopped: bool;
    out, seen, stopped := MergeLoop(all, 0, hits, [], {}, maxKeywords);
    if stopped {
      return SliceTo(out, maxKeywords);
    }
    out, seen, stopped := MergeLoop(all, |hits|, freq, out, seen, maxKeywords);
    if stopped {
      return SliceTo(out, maxKeywords);
    }
    MergeStop(all, |all|, out, maxKeywords);
    out := SliceTo(out, maxKeywords);
  }

  /**
   * One merge loop over `xs`, the candidates at positions `base` onwards
   * of `all`: each new candidate is appended, and the loop stops (and the
   * caller returns) once `maxKeywords` entries are collected.
   */
  method MergeLoop(ghost all: seq<string>, ghost base: nat, xs: seq<string>,
                   out0: seq<string>, seen0: set<string>, maxKeywords: int)
    returns (out: seq<string>, seen: set<string>, stopped: bool)
    requires base + |xs| <= |all| && all[base..base + |xs|] == xs
    requires out0 == Dedup(all[..base])
    requires forall x :: x in seen0 <==> x in out0
    requires maxKeywords > 0 ==> |out0| < maxKeywords
    requires maxKeywords <= 0 ==> out0 == []
    ensures stopped ==> SliceTo(out, maxKeywords) == if maxKeywords <= 0 then [] else Take(Dedup(all), maxKeywords)
    ensures !stopped ==> out == Dedup(all[..base + |xs|])
    ensures !stopped ==> forall x :: x in seen <==> x in out
    ensures !stopped ==> (maxKeywords > 0 ==> |out| < maxKeywords)
    ensures !stopped ==> (maxKeywords <= 0 ==> out == [])
  {
    out, seen := out0, seen0;
    var i := 0;
    while i < |xs|
      invariant 0 <= i <= |xs|
      invariant out == Dedup(all[..base + i])
      invariant forall x :: x in seen <==> x in out
      invariant maxKeywords > 0 ==> |out| < maxKeywords
      invariant maxKeywords <= 0 ==> out == []
    {
      var k := xs[i];
      assert k == all[base + i];
      ghost var out1, seen1 := out, seen;
      if k !in seen {
        seen := seen + {k};
        out := out + [k];
      }
      MergeStep(all, base + i, out1, seen1, out, seen);
      if |out| >= maxKeywords {
        MergeStop(all, base + i + 1, out, maxKeywords);
        return out, seen, true;
      }
      i := i + 1;
    }
    return out, seen, false;
  }

  /**
   * Meeting one more candidate either keeps the list or appends the
   * newcomer, and `seen` goes on holding exactly the listed keywords.
   */
  lemma MergeStep(all: seq<string>, n: nat, out: seq<string>, seen: set<string>,
                  out': seq<string>, seen': set<string>)
    requires n < |all| && out == Dedup(all[..n])
    requires forall x :: x in seen <==> x in out
    requires out' == if all[n] in seen then out else out + [all[n]]
    requires seen' == if all[n] in seen then seen else seen + {all[n]}
    ensures out' == Dedup(all[..n + 1])
    ensures forall x :: x in seen' <==> x in out'
    ensures |out'| <= |out| + 1
  {
    assert all[..n + 1] == all[..n] + [all[n]];
    DedupSnoc(all[..n], all[n]);
  }

  /**
   * Stopping once `maxKeywords` entries are collected, or when the
   * candidates run out, gives the first `maxKeywords` distinct candidates;
   * a bound that is not positive gives none, because the loop stops after
   * at most one entry.
   */
  lemma MergeStop(all: seq<string>, n: nat, out: seq<string>, maxKeywords: int)
    requires n <= |all| && out == Dedup(all[..n])
    requires n < |all| ==> |out| >= maxKeywords
    requires maxKeywords > 0 ==> |out| <= maxKeywords
    requires maxKeywords <= 0 ==> |out| <= 1
    ensures SliceTo(out, maxKeywords) == if maxKeywords <= 0 then [] else Take(Dedup(all), maxKeywords)
  {
    assert all == all[..n] + all[n..];
    DedupPrefix(all[..n], all[n..]);
    if n == |all| {
      assert all[..n] == all;
    }
  }

  /**
   * The merged keywords are distinct, at most `maxKeywords` of them, each a
   * lexicon hit or a frequency keyword, and no frequency keyword comes
   * before a lexicon hit.
   */
  lemma KeywordsSpec(hits: seq<string>, freq: seq<string>, maxKeywords: int)
    ensures Distinct(Keywords(hits, freq, maxKeywords))
    ensures |Keywords(hits, freq, maxKeywords)| <= if maxKeywords <= 0 then 0 else maxKeywords
    ensures forall w :: w in Keywords(hits, freq, maxKeywords) ==> w in hits || w in freq
    ensures forall i, j :: 0 <= i < j < |Keywords(hits, freq, maxKeywords)| ==>
      Keywords(hits, freq, maxKeywords)[j] in hits ==> Keywords(hits, freq, maxKeywords)[i] in hits
  {
    if maxKeywords > 0 {
      var d := Dedup(hits + freq);
      var r := Keywords(hits, freq, maxKeywords);
      DedupDistinct(hits + freq);
      DedupElems(hits + freq);
      DedupPrefix(hits, freq);
      var m := |Dedup(hits)|;
      DedupElems(hits);
      forall i, j | 0 <= i < j < |r| && r[j] in hits
        ensures r[i] in hits
      {
        PrefixPosition(d, Dedup(hits), j);
        assert d[i] == Dedup(hits)[i];
      }
      forall w | w in r
        ensures w in hits || w in freq
      {
        var i :| 0 <= i < |r| && r[i] == w;
        assert d[i] == w && w in hits + freq;
      }
    }
  }

  /** In a duplicate-free sequence, an element of a prefix sits inside that prefix. */
  lemma PrefixPosition(d: seq<string>, p: seq<string>, j: nat)
    requires Distinct(d) && |p| <= |d| && d[..|p|] == p && j < |d|
    ensures d[j] in p ==> j < |p|
  {
    if d[j] in p {
      var k := IndexOf(p, d[j]);
      assert d[k] == d[j];
    }
  }

  // ---------------------------------------------------------------------
  // Assembling the job
  // ---------------------------------------------------------------------

  /** The lexicon terms of the first lexicon file found, or none when there is none. */
  function LexiconFrom(source: Option<string>): seq<string> {
    match source
    case None => []
    case Some(text) => ParseLexicon(text)
  }

  /**
   * `load_job` once the job file and the lexicon file (if any) have been
   * read: the raw text, its cleaned form, and the keywords extracted from
   * the cleaned form.
   */
  function BuildJob(rawText: string, lexiconSource: Option<string>, maxKeywords: int): (job: Job)
    ensures job.rawText == rawText
    ensures job.cleanedText == Cleaned(rawText)
    ensures NoEdgeSpace(job.cleanedText) && NoDoubleSpace(job.cleanedText)
    ensures job.keywords == Keywords(FindLexiconHits(Lower(job.cleanedText), LexiconFrom(lexiconSource)),
                                     FrequencyKeywords(Lower(job.cleanedText), MaxCandidates), maxKeywords)
    ensures Distinct(job.keywords)
    ensures |job.keywords| <= if maxKeywords <= 0 then 0 else maxKeywords
  {
    var cleaned := Cleaned(rawText);
    var text := Lower(cleaned);
    var hits := FindLexiconHits(text, LexiconFrom(lexiconSource));
    var freq := FrequencyKeywords(text, MaxCandidates);
    KeywordsSpec(hits, freq, maxKeywords);
    Job(rawText, cleaned, Keywords(hits, freq, maxKeywords))
  }

  /** An empty lexicon hits nothing. */
  lemma EmptyLexiconNoHits(text: string)
    ensures FindLexiconHits(text, []) == []
  {
    assert RankedHits(text, [], 0) == [];
  }

  /** With no lexicon hits, the keywords are the leading frequency keywords. */
  lemma KeywordsWithoutHits(freq: seq<string>, maxKeywords: int)
    requires Distinct(freq)
    ensures Keywords([], freq, maxKeywords) == if maxKeywords <= 0 then [] else Take(freq, maxKeywords)
  {
    assert [] + freq == freq;
    DedupOfDistinct(freq);
  }

  /**
   * Without a lexicon file the job still loads, and its keywords are the
   * leading frequency keywords.
   */
  lemma NoLexiconFrequencyOnly(rawText: string, maxKeywords: int)
    ensures BuildJob(rawText, None, maxKeywords).keywords ==
      if maxKeywords <= 0 then []
      else Take(FrequencyKeywords(Lower(Cleaned(rawText)), MaxCandidates), maxKeywords)
  {
    var text := Lower(Cleaned(rawText));
    EmptyLexiconNoHits(text);
    FrequencyKeywordsSpec(text, MaxCandidates);
    KeywordsWithoutHits(FrequencyKeywords(text, MaxCandidates), maxKeywords);
  }
}
