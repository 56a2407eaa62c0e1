/**
 * Job-text cleaning and lexicon parsing: the line filter that drops page
 * chrome, scrubs e-mail addresses and URLs and normalises whitespace, and
 * the comment-aware parser of the newline-delimited keyword lexicon.
 */
module JobLoader {

  import opened Wrappers
  import opened Text
  import opened Seqs
  import opened JobPatterns

  // ---------------------------------------------------------------------
  // Cleaning
  // ---------------------------------------------------------------------

  /** Zero-width space and byte-order mark become ordinary spaces. */
  function ReplaceInvisible(s: string): (r: string)
    ensures |r| == |s|
    ensures forall i :: 0 <= i < |s| ==>
      r[i] == (if s[i] == '\U{200B}' || s[i] == '\U{FEFF}' then ' ' else s[i])
  {
    seq(|s|, i requires 0 <= i < |s| =>
      if s[i] == '\U{200B}' || s[i] == '\U{FEFF}' then ' ' else s[i])
  }

  /**
   * A line survives when, once stripped, it is non-blank, longer than three
   * characters and free of every noise phrase (compared lower-cased).
   */
  predicate Survives(line: string) {
    var s := Strip(line);
    s != [] && |Lower(s)| > 3 && !IsNoise(Lower(s))
  }

  /** A surviving line with its e-mail addresses, then its URLs, replaced by spaces. */
  function Scrub(line: string): string {
    Sub(Url, Sub(Email, Strip(line)))
  }

  /** What one line contributes to the kept list. */
  function Contribution(line: string): seq<string> {
    if Survives(line) then [Scrub(line)] else []
  }

  /** The kept, scrubbed lines, in order. */
  function KeptLines(lines: seq<string>): seq<string>
    decreases |lines|
  {
    if lines == [] then []
    else KeptLines(lines[..|lines| - 1]) + Contribution(lines[|lines| - 1])
  }

  /** A line is kept iff it survives; it is kept scrubbed. */
  lemma {:induction false} KeptLinesExact(lines: seq<string>, x: string)
    ensures x in KeptLines(lines) <==> exists k :: 0 <= k < |lines| && Survives(lines[k]) && x == Scrub(lines[k])
    decreases |lines|
  {
    if lines != [] {
      var init := lines[..|lines| - 1];
      KeptLinesExact(init, x);
      if x in KeptLines(lines) && x !in KeptLines(init) {
        assert Survives(lines[|lines| - 1]) && x == Scrub(lines[|lines| - 1]);
      }
      if exists k :: 0 <= k < |lines| && Survives(lines[k]) && x == Scrub(lines[k]) {
        var k :| 0 <= k < |lines| && Survives(lines[k]) && x == Scrub(lines[k]);
        if k < |lines| - 1 {
          assert init[k] == lines[k];
        }
      }
    }
  }

  /** The normalised text: kept lines joined by spaces, whitespace collapsed. */
  function Cleaned(text: string): string {
    Collapse(Join(KeptLines(SplitLines(ReplaceInvisible(text))), " "))
  }

  /**
   * `_clean_text`, line by line as the source loops: the result is the
   * kept lines joined and collapsed, with no whitespace at either end and
   * never two whitespace characters in a row.
   */
  method CleanText(text: string) returns (cleaned: string)
    ensures cleaned == Cleaned(text)
    ensures NoEdgeSpace(cleaned) && NoDoubleSpace(cleaned) && OnlyPlainSpaces(cleaned)
  {
    var lines := SplitLines(ReplaceInvisible(text));
    var kept: seq<string> := [];
    var i := 0;
    while i < |lines|
      invariant 0 <= i <= |lines|
      invariant kept == KeptLines(lines[..i])
    {
      assert lines[..i + 1][..i] == lines[..i];
      var s := Strip(lines[i]);
      if s == [] {
      } else if |Lower(s)| <= 3 {
      } else if IsNoise(Lower(s)) {
      } else {
        s := Sub(Email, s);
        s := Sub(Url, s);
        kept := kept + [s];
      }
      i := i + 1;
    }
    assert lines[..i] == lines;
    cleaned := Collapse(Join(kept, " "));
  }

  // ---------------------------------------------------------------------
  // Lexicon parsing
  // ---------------------------------------------------------------------

  /**
   * The term a lexicon line holds, if any: blank lines and lines starting
   * with `#` hold none; otherwise everything from the first `#` on is a
   * comment, and a line left empty holds none.
   */
  function LexiconEntry(raw: string): (r: Option<string>)
    ensures r.Some? ==> r.value != [] && NoEdgeSpace(r.value) && '#' !in r.value
  {
    EntryOfLine(Strip(raw))
  }

  /** `LexiconEntry` once the line is stripped. */
  function EntryOfLine(line: string): (r: Option<string>)
    requires NoEdgeSpace(line)
    ensures r.Some? ==> r.value != [] && NoEdgeSpace(r.value) && '#' !in r.value
  {
    if line == [] || line[0] == '#' then None
    else
      var cut := if '#' in line then Strip(line[..IndexOfChar(line, '#')]) else line;
      assert '#' in line ==> forall c :: c in cut ==> c in line[..IndexOfChar(line, '#')];
      if cut == [] then None else Some(cut)
  }

  /**
   * A line holds a term exactly when something other than whitespace comes
   * before its first `#` (at `hash`, or the end of the line). The term then
   * starts at the line's first non-whitespace character `i`, and only
   * whitespace lies between it and `hash`.
   */
  lemma LexiconEntryPlace(raw: string) returns (entry: Option<string>, i: nat, hash: nat)
    ensures entry == LexiconEntry(raw) && hash == IndexOfChar(raw, '#')
    ensures entry.None? <==> AllSpace(raw[..hash])
    ensures entry.Some? ==>
      && OccursAt(raw, entry.value, i)
      && AllSpace(raw[..i])
      && i + |entry.value| <= hash
      && AllSpace(raw[i + |entry.value|..hash])
  {
    var line := Strip(raw);
    var h;
    entry, h := EntryOfLinePlace(line);
    var n := if entry.Some? then |entry.value| else 0;
    var pre, post := StripParts(raw);
    i := |pre|;
    hash := PadShift(raw, pre, line, post, n, h);
  }

  /**
   * `LexiconEntryPlace` on the stripped line: the term, if any, is the
   * line's start, followed only by whitespace up to the first `#` at `h`.
   */
  lemma EntryOfLinePlace(line: string) returns (entry: Option<string>, h: nat)
    requires NoEdgeSpace(line)
    ensures entry == EntryOfLine(line) && h == IndexOfChar(line, '#')
    ensures entry.None? <==> AllSpace(line[..h])
    ensures entry.Some? ==> |entry.value| <= h && line[..|entry.value|] == entry.value
    ensures entry.Some? ==> AllSpace(line[|entry.value|..h])
  {
    entry := EntryOfLine(line);
    h := IndexOfChar(line, '#');
    if line != [] && line[0] != '#' {
      assert line[..h][0] == line[0];
      if '#' in line {
        var seg := line[..h];
        LeadingTerm(seg);
        assert line[..|entry.value|] == seg[..|entry.value|];
        assert line[|entry.value|..h] == seg[|entry.value|..];
      } else {
        assert line[..|line|] == line;
      }
    }
  }

  /**
   * Padding shifts positions by the lead: the first `#` of `raw`, a prefix
   * of its core `line`, and the whitespace after that prefix up to the `#`
   * all sit `|pre|` characters further on.
   */
  lemma PadShift(raw: string, pre: string, line: string, post: string, n: nat, h: nat) returns (hash: nat)
    requires raw == pre + line + post && AllSpace(pre) && AllSpace(post)
    requires h == IndexOfChar(line, '#') && n <= h
    ensures hash == IndexOfChar(raw, '#') && |pre| + n <= hash
    ensures AllSpace(raw[..|pre|])
    ensures AllSpace(line[..h]) <==> AllSpace(raw[..hash])
    ensures OccursAt(raw, line[..n], |pre|)
    ensures AllSpace(line[n..h]) ==> AllSpace(raw[|pre| + n..hash])
  {
    assert raw[..|pre|] == pre;
    assert raw[|pre|..|pre| + n] == line[..n];
    if '#' in line {
      HashInRaw(raw, pre, line, post, h);
      hash := |pre| + h;
      HashShift(raw, pre, line, post, n, h);
    } else {
      NoHashInRaw(raw, pre, line, post);
      hash := |raw|;
      TailShift(raw, pre, line, post, n);
    }
  }

  /** A line is its leading whitespace, its stripped text and its trailing whitespace. */
  lemma StripParts(raw: string) returns (pre: string, post: string)
    ensures raw == pre + Strip(raw) + post && |pre| == LeadCount(raw)
    ensures AllSpace(pre) && AllSpace(post)
  {
    var line := Strip(raw);
    var a := LeadCount(raw);
    var b := a + |line|;
    pre, post := raw[..a], raw[b..];
    assert raw[a..b] == line;
    assert raw == raw[..a] + raw[a..b] + raw[b..];
    assert forall k :: 0 <= k < |pre| ==> pre[k] == raw[k];
    assert forall k :: 0 <= k < |post| ==> post[k] == raw[b + k];
  }

  /** `PadShift` when the core holds a `#` at `h`. */
  lemma HashShift(raw: string, pre: string, line: string, post: string, n: nat, h: nat)
    requires raw == pre + line + post && AllSpace(pre) && n <= h < |line|
    ensures AllSpace(line[..h]) <==> AllSpace(raw[..|pre| + h])
    ensures AllSpace(line[n..h]) ==> AllSpace(raw[|pre| + n..|pre| + h])
  {
    assert raw[..|pre| + h] == pre + line[..h];
    AllSpaceConcat(pre, line[..h]);
    assert raw[|pre| + n..|pre| + h] == line[n..h];
  }

  /** `PadShift` when the core holds no `#`: only whitespace follows it. */
  lemma TailShift(raw: string, pre: string, line: string, post: string, n: nat)
    requires raw == pre + line + post && AllSpace(pre) && AllSpace(post) && n <= |line|
    ensures AllSpace(line[..|line|]) <==> AllSpace(raw[..|raw|])
    ensures AllSpace(line[n..|line|]) ==> AllSpace(raw[|pre| + n..|raw|])
  {
    assert raw[..|raw|] == raw && line[..|line|] == line;
    AllSpaceConcat(pre, line);
    AllSpaceConcat(pre + line, post);
    assert raw[|pre| + n..|raw|] == line[n..] + post;
    AllSpaceConcat(line[n..], post);
  }

  /** The first `#` of the padded line is the first `#` of its core, shifted by the lead. */
  lemma HashInRaw(raw: string, pre: string, line: string, post: string, h: nat)
    requires raw == pre + line + post && AllSpace(pre) && '#' in line && h == IndexOfChar(line, '#')
    ensures IndexOfChar(raw, '#') == |pre| + h
  {
    assert !IsSpace('#');
    forall j | 0 <= j < |pre| + h
      ensures raw[j] != '#'
    {
      if j >= |pre| {
        assert raw[j] == line[..h][j - |pre|];
      }
    }
    IndexOfCharAt(raw, '#', |pre| + h);
  }

  /** A stripped line without `#` comes from a raw line without `#`. */
  lemma NoHashInRaw(raw: string, pre: string, line: string, post: string)
    requires raw == pre + line + post && AllSpace(pre) && AllSpace(post) && '#' !in line
    ensures IndexOfChar(raw, '#') == |raw|
  {
    assert !IsSpace('#');
    assert '#' !in pre && '#' !in post;
  }

  /** A segment starting with a non-space strips to a non-empty prefix of itself. */
  lemma LeadingTerm(seg: string)
    requires seg != [] && !IsSpace(seg[0])
    ensures Strip(seg) != [] && Strip(seg) == seg[..|Strip(seg)|]
    ensures AllSpace(seg[|Strip(seg)|..])
  {
    assert LeadCount(seg) == 0;
  }

  /**
   * A term padded with whitespace reads back as the term, and so does one
   * followed by an inline comment.
   */
  lemma LexiconEntryRoundTrip(pre: string, t: string, post: string, comment: string)
    requires AllSpace(pre) && AllSpace(post)
    requires t != [] && NoEdgeSpace(t) && '#' !in t
    ensures LexiconEntry(pre + t + post) == Some(t)
    ensures LexiconEntry(pre + t + post + "#" + comment) == Some(t)
  {
    StripPadded(pre, t, post);
    CommentedEntry(pre, t, post, comment);
  }

  /** The commented half of `LexiconEntryRoundTrip`. */
  lemma CommentedEntry(pre: string, t: string, post: string, comment: string)
    requires AllSpace(pre) && AllSpace(post)
    requires t != [] && NoEdgeSpace(t) && '#' !in t
    ensures LexiconEntry(pre + t + post + "#" + comment) == Some(t)
  {
    var u := t + post + "#";
    assert !IsSpace('#') && u[0] == t[0];
    assert pre + t + post + "#" + comment == pre + u + comment;
    var line := StrippedPrefix(pre, u, comment);
    CommentedLine(line, t, post);
  }

  /** Stripping a line whose padding is followed by `u` keeps `u` at the start. */
  lemma StrippedPrefix(pre: string, u: string, rest: string) returns (r: string)
    requires AllSpace(pre) && u != [] && !IsSpace(u[0]) && !IsSpace(u[|u| - 1])
    ensures r == Strip(pre + u + rest)
    ensures |u| <= |r| && r[..|u|] == u
  {
    var y := pre + u + rest;
    r := Strip(y);
    LeadCountOfPadded(pre, u, rest);
    var a := |pre|;
    assert y[a + |u| - 1] == u[|u| - 1];
    assert a + |u| - 1 < a + |r|;
    assert r[..|u|] == y[a..a + |u|] == u;
  }

  /** A stripped line that starts with the term, padding and a `#` holds the term. */
  lemma CommentedLine(line: string, t: string, post: string)
    requires NoEdgeSpace(line) && AllSpace(post)
    requires t != [] && NoEdgeSpace(t) && '#' !in t
    requires |t| + |post| < |line| && line[..|t| + |post| + 1] == t + post + "#"
    ensures EntryOfLine(line) == Some(t)
  {
    var h := |t| + |post|;
    assert !IsSpace('#') && '#' !in post;
    assert line[0] == t[0] && line[h] == '#';
    assert line[..h] == t + post;
    IndexOfCharAt(line, '#', h);
    StripPadded([], t, post);
    assert [] + t + post == t + post;
  }

  /** `_norm_term`: strip, lower-case, collapse whitespace runs. */
  function NormTerm(term: string): string {
    SquashSpaces(Lower(Strip(term)))
  }

  /** The terms of the lexicon lines, normalised, before deduplication. */
  function LexiconTerms(lines: seq<string>): seq<string>
    decreases |lines|
  {
    if lines == [] then []
    else
      LexiconTerms(lines[..|lines| - 1])
      + match LexiconEntry(lines[|lines| - 1])
        case Some(v) => [NormTerm(v)]
        case None => []
  }

  /** The lexicon read from its text: each term once, at its first occurrence. */
  function ParseLexicon(text: string): seq<string> {
    Dedup(LexiconTerms(SplitLines(text)))
  }

  /** A normalised term: non-empty, lower-case, single plain spaces, no comment. */
  ghost predicate IsNormTerm(t: string) {
    && t != []
    && NoEdgeSpace(t) && NoDoubleSpace(t) && OnlyPlainSpaces(t)
    && '#' !in t
    && forall i :: 0 <= i < |t| ==> !IsUpper(t[i])
  }

  /** Lower-casing keeps whitespace where it was and introduces no `#`. */
  lemma LowerKeepsShape(s: string)
    ensures forall i :: 0 <= i < |s| ==> (IsSpace(Lower(s)[i]) <==> IsSpace(s[i]))
    ensures forall i :: 0 <= i < |s| ==> !IsUpper(Lower(s)[i])
    ensures '#' in Lower(s) ==> '#' in s
  {
    var l := Lower(s);
    if '#' in l {
      var i := IndexOfChar(l, '#');
      assert s[i] == '#';
    }
  }

  /** Normalising a lexicon entry yields a normalised term. */
  lemma NormTermShape(v: string)
    requires v != [] && NoEdgeSpace(v) && '#' !in v
    ensures IsNormTerm(NormTerm(v))
  {
    StripNoEdge(v);
    var l := Lower(v);
    LowerKeepsShape(v);
    var q := SquashSpaces(l);
    SquashSpacesEdges(l);
    SquashSpacesSingle(l);
    SquashSpacesChars(l);
    forall i | 0 <= i < |q|
      ensures !IsUpper(q[i])
    {
      assert q[i] in q;
      if q[i] != ' ' {
        var k := IndexOfChar(l, q[i]);
        assert l[k] == q[i];
      }
    }
  }

  /** Every raw term is normalised. */
  lemma {:induction false} LexiconTermsShape(lines: seq<string>)
    ensures forall t :: t in LexiconTerms(lines) ==> IsNormTerm(t)
    decreases |lines|
  {
    if lines != [] {
      LexiconTermsShape(lines[..|lines| - 1]);
      var e := LexiconEntry(lines[|lines| - 1]);
      if e.Some? {
        NormTermShape(e.value);
      }
    }
  }

  /** A term is in the raw list iff some line holds an entry normalising to it. */
  lemma {:induction false} LexiconTermsExact(lines: seq<string>, t: string)
    ensures t in LexiconTerms(lines) <==>
      exists k :: 0 <= k < |lines| && LexiconEntry(lines[k]).Some? && NormTerm(LexiconEntry(lines[k]).value) == t
    decreases |lines|
  {
    if lines != [] {
      var init, last := lines[..|lines| - 1], lines[|lines| - 1];
      LexiconTermsExact(init, t);
      if t in LexiconTerms(lines) {
        if t in LexiconTerms(init) {
          var k :| 0 <= k < |init| && LexiconEntry(init[k]).Some? && NormTerm(LexiconEntry(init[k]).value) == t;
          assert lines[k] == init[k];
        } else {
          assert LexiconEntry(last).Some? && NormTerm(LexiconEntry(last).value) == t;
        }
      }
      if exists k :: 0 <= k < |lines| && LexiconEntry(lines[k]).Some? && NormTerm(LexiconEntry(lines[k]).value) == t {
        var k :| 0 <= k < |lines| && LexiconEntry(lines[k]).Some? && NormTerm(LexiconEntry(lines[k]).value) == t;
        if k < |lines| - 1 {
          assert init[k] == lines[k];
        }
      }
    }
  }

  /**
   * The parsed lexicon has each term once, every term normalised, and holds
   * exactly the normalised entries of the lexicon lines, in the order of
   * their first occurrence.
   */
  lemma ParseLexiconSpec(text: string)
    ensures Distinct(ParseLexicon(text))
    ensures forall t :: t in ParseLexicon(text) ==> IsNormTerm(t)
    ensures forall t :: t in ParseLexicon(text) <==> t in LexiconTerms(SplitLines(text))
    ensures forall i, j :: 0 <= i < j < |ParseLexicon(text)| ==>
      IndexOf(LexiconTerms(SplitLines(text)), ParseLexicon(text)[i])
      < IndexOf(LexiconTerms(SplitLines(text)), ParseLexicon(text)[j])
  {
    var raw := LexiconTerms(SplitLines(text));
    DedupDistinct(raw);
    DedupElems(raw);
    DedupOrder(raw);
    LexiconTermsShape(SplitLines(text));
  }

  /** Comment lines and blank lines contribute no term. */
  lemma CommentLinesIgnored(raw: string)
    requires Strip(raw) == [] || Strip(raw)[0] == '#'
    ensures LexiconEntry(raw).None?
  {
  }
}
