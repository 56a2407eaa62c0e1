/**
 * Characters and strings as Python's `str` methods see them.
 *
 * Whitespace is exactly the set of code points for which Python's
 * `str.isspace()` holds, line boundaries are exactly those of
 * `str.splitlines()`; case mapping and the regex class `\w` are modelled
 * on ASCII only.
 */
module Text {

  import opened Wrappers

  // ---------------------------------------------------------------------
  // Character classes
  // ---------------------------------------------------------------------

  /** Python `str.isspace()` on a single code point (also regex `\s`). */
  predicate IsSpace(c: char) {
    || c == ' ' || c == '\t' || c == '\n' || c == '\r'
    || c == '\U{000B}' || c == '\U{000C}'
    || ('\U{001C}' <= c <= '\U{001F}')
    || c == '\U{0085}' || c == '\U{00A0}' || c == '\U{1680}'
    || ('\U{2000}' <= c <= '\U{200A}')
    || c == '\U{2028}' || c == '\U{2029}' || c == '\U{202F}'
    || c == '\U{205F}' || c == '\U{3000}'
  }

  /** A line boundary of `str.splitlines()` (`\r\n` is handled by the splitter). */
  predicate IsLineBreak(c: char) {
    || c == '\n' || c == '\r' || c == '\U{000B}' || c == '\U{000C}'
    || c == '\U{001C}' || c == '\U{001D}' || c == '\U{001E}'
    || c == '\U{0085}' || c == '\U{2028}' || c == '\U{2029}'
  }

  predicate IsUpper(c: char) { 'A' <= c <= 'Z' }
  predicate IsLower(c: char) { 'a' <= c <= 'z' }
  predicate IsLetter(c: char) { IsUpper(c) || IsLower(c) }
  predicate IsDigit(c: char) { '0' <= c <= '9' }
  predicate IsAlnum(c: char) { IsLetter(c) || IsDigit(c) }

  /** Regex `\w` (ASCII): letters, digits and underscore. */
  predicate IsWordChar(c: char) { IsAlnum(c) || c == '_' }

  function LowerChar(c: char): char {
    if IsUpper(c) then (c as int + 32) as char else c
  }

  function UpperChar(c: char): char {
    if IsLower(c) then (c as int - 32) as char else c
  }

  /** `str.lower()` */
  function Lower(s: string): (r: string)
    ensures |r| == |s|
    ensures forall i :: 0 <= i < |s| ==> r[i] == LowerChar(s[i])
  {
    seq(|s|, i requires 0 <= i < |s| => LowerChar(s[i]))
  }

  /** `str.upper()` */
  function Upper(s: string): (r: string)
    ensures |r| == |s|
    ensures forall i :: 0 <= i < |s| ==> r[i] == UpperChar(s[i])
  {
    seq(|s|, i requires 0 <= i < |s| => UpperChar(s[i]))
  }

  /** Case-insensitive equality of two characters (regex IGNORECASE, ASCII). */
  predicate SameLetter(a: char, b: char) { LowerChar(a) == LowerChar(b) }

  // ---------------------------------------------------------------------
  // Prefixes, suffixes and substrings
  // ---------------------------------------------------------------------

  predicate StartsWith(s: string, p: string) { |p| <= |s| && s[..|p|] == p }

  predicate EndsWith(s: string, p: string) { |p| <= |s| && s[|s| - |p|..] == p }

  /** `p` occurs in `s` at offset `i`. */
  predicate OccursAt(s: string, p: string, i: int) {
    0 <= i && i + |p| <= |s| && s[i..i + |p|] == p
  }

  /** `p` occurs in `s` at offset `i`, comparing letters without case. */
  predicate OccursAtIgnoreCase(s: string, p: string, i: int) {
    0 <= i && i + |p| <= |s| && forall k :: 0 <= k < |p| ==> SameLetter(s[i + k], p[k])
  }

  /** Python `p in s`. */
  predicate Contains(s: string, p: string) {
    exists i :: 0 <= i <= |s| && OccursAt(s, p, i)
  }

  /** Python `s.find(p)` from offset `from`, as an option instead of -1. */
  function FindFrom(s: string, p: string, from: nat): (r: Option<nat>)
    ensures r.Some? ==> from <= r.value && OccursAt(s, p, r.value)
    ensures r.Some? ==> forall j :: from <= j < r.value ==> !OccursAt(s, p, j)
    ensures r.None? ==> forall j :: from <= j ==> !OccursAt(s, p, j)
    decreases |s| - from
  {
    if from + |p| > |s| then None
    else if s[from..from + |p|] == p then Some(from)
    else FindFrom(s, p, from + 1)
  }

  /** Python `s.find(p)`: the first offset of `p`, if any. */
  function Find(s: string, p: string): (r: Option<nat>)
    ensures r.Some? <==> Contains(s, p)
    ensures r.Some? ==> OccursAt(s, p, r.value) && forall j :: 0 <= j < r.value ==> !OccursAt(s, p, j)
  {
    FindFrom(s, p, 0)
  }

  predicate HasChar(s: string, c: char) { c in s }

  /** Index of the first `c` in `s`, or `|s|`. */
  function IndexOfChar(s: string, c: char): (i: nat)
    ensures i <= |s|
    ensures c !in s[..i]
    ensures i < |s| ==> s[i] == c
    ensures i == |s| <==> c !in s
  {
    if s == [] then 0
    else if s[0] == c then 0
    else 1 + IndexOfChar(s[1..], c)
  }

  /** The first `c` is at `k` when `c` is at `k` and not before it. */
  lemma IndexOfCharAt(s: string, c: char, k: nat)
    requires k < |s| && s[k] == c
    requires forall j :: 0 <= j < k ==> s[j] != c
    ensures IndexOfChar(s, c) == k
  {
    forall m | k < m <= |s|
      ensures c in s[..m]
    {
      assert s[..m][k] == c;
    }
  }

  // ---------------------------------------------------------------------
  // Stripping (`str.strip()`, `str.strip(chars)`)
  // ---------------------------------------------------------------------

  /** Every character of `s` is whitespace. */
  predicate AllSpace(s: string) { forall i :: 0 <= i < |s| ==> IsSpace(s[i]) }

  /** Neither the first nor the last character is whitespace. */
  predicate NoEdgeSpace(s: string) {
    s == [] || (!IsSpace(s[0]) && !IsSpace(s[|s| - 1]))
  }

  /** No two adjacent characters are both whitespace. */
  ghost predicate NoDoubleSpace(s: string) {
    forall i, j :: 0 <= i < j < |s| && j == i + 1 ==> !(IsSpace(s[i]) && IsSpace(s[j]))
  }

  /** The only whitespace character in `s` is the plain space. */
  predicate OnlyPlainSpaces(s: string) {
    forall i :: 0 <= i < |s| && IsSpace(s[i]) ==> s[i] == ' '
  }

  /** Number of leading whitespace characters. */
  function LeadCount(s: string): (n: nat)
    ensures n <= |s|
    ensures forall i :: 0 <= i < n ==> IsSpace(s[i])
    ensures n < |s| ==> !IsSpace(s[n])
  {
    if s == [] || !IsSpace(s[0]) then 0 else 1 + LeadCount(s[1..])
  }

  /** Number of trailing whitespace characters. */
  function TrailCount(s: string): (n: nat)
    ensures n <= |s|
    ensures forall i :: |s| - n <= i < |s| ==> IsSpace(s[i])
    ensures n < |s| ==> !IsSpace(s[|s| - 1 - n])
  {
    if s == [] || !IsSpace(s[|s| - 1]) then 0 else 1 + TrailCount(s[..|s| - 1])
  }

  function TrimStart(s: string): (r: string)
    ensures r == s[LeadCount(s)..]
    ensures r == [] || !IsSpace(r[0])
  {
    s[LeadCount(s)..]
  }

  function TrimEnd(s: string): (r: string)
    ensures r == s[..|s| - TrailCount(s)]
    ensures r == [] || !IsSpace(r[|r| - 1])
  {
    s[..|s| - TrailCount(s)]
  }

  /** `str.strip()`: the slice of `s` left after removing whitespace at both ends. */
  function Strip(s: string): (r: string)
    ensures NoEdgeSpace(r)
    ensures LeadCount(s) + |r| <= |s|
    ensures r == s[LeadCount(s)..LeadCount(s) + |r|]
    ensures forall i :: 0 <= i < LeadCount(s) ==> IsSpace(s[i])
    ensures forall i :: LeadCount(s) + |r| <= i < |s| ==> IsSpace(s[i])
  {
    var a := LeadCount(s);
    var t := s[a..];
    var b := |t| - TrailCount(t);
    assert t[..b] == s[a..a + b];
    assert s[a + b..] == t[b..];
    t[..b]
  }

  /** A non-space character is first found in `s` where it is first found in `Strip(s)`. */
  lemma IndexOfCharStripped(s: string, c: char) returns (a: nat, h: nat)
    requires !IsSpace(c) && c in Strip(s)
    ensures a == LeadCount(s) && h == IndexOfChar(Strip(s), c)
    ensures a + h < |s| && IndexOfChar(s, c) == a + h
  {
    a, h := StrippedCharFirst(s, c);
    IndexOfCharAt(s, c, a + h);
  }

  /** `IndexOfCharStripped`, up to the first occurrence in `s`. */
  lemma StrippedCharFirst(s: string, c: char) returns (a: nat, h: nat)
    requires !IsSpace(c) && c in Strip(s)
    ensures a == LeadCount(s) && h == IndexOfChar(Strip(s), c)
    ensures a + h < |s| && s[a + h] == c
    ensures forall k :: 0 <= k < a + h ==> s[k] != c
  {
    a := LeadCount(s);
    var r := Strip(s);
    assert a + |r| <= |s|;
    h := IndexOfChar(r, c);
    assert h < |r|;
    assert s[a + h] == r[h];
    forall k | 0 <= k < a + h
      ensures s[k] != c
    {
      if k >= a {
        assert s[k] == r[k - a] == r[..h][k - a];
      }
    }
  }

  /** Number of leading characters that belong to `cs`. */
  function LeadIn(s: string, cs: set<char>): (n: nat)
    ensures n <= |s|
    ensures forall i :: 0 <= i < n ==> s[i] in cs
    ensures n < |s| ==> s[n] !in cs
  {
    if s == [] || s[0] !in cs then 0 else 1 + LeadIn(s[1..], cs)
  }

  /** Number of trailing characters that belong to `cs`. */
  function TrailIn(s: string, cs: set<char>): (n: nat)
    ensures n <= |s|
    ensures forall i :: |s| - n <= i < |s| ==> s[i] in cs
    ensures n < |s| ==> s[|s| - 1 - n] !in cs
  {
    if s == [] || s[|s| - 1] !in cs then 0 else 1 + TrailIn(s[..|s| - 1], cs)
  }

  /** `str.strip(chars)`: remove characters of `cs` at both ends. */
  function StripChars(s: string, cs: set<char>): (r: string)
    ensures LeadIn(s, cs) + |r| <= |s|
    ensures r == s[LeadIn(s, cs)..LeadIn(s, cs) + |r|]
    ensures r == [] || (r[0] !in cs && r[|r| - 1] !in cs)
  {
    var a := LeadIn(s, cs);
    var t := s[a..];
    var b := |t| - TrailIn(t, cs);
    assert t[..b] == s[a..a + b];
    t[..b]
  }

  // ---------------------------------------------------------------------
  // Whitespace collapsing (`re.sub(r"\s+", " ", s)`) and words
  // ---------------------------------------------------------------------

  /** `re.sub(r"\s+", " ", s)`: every maximal whitespace run becomes one space. */
  function SquashSpaces(s: string): string
    decreases |s|
  {
    if s == [] then []
    else if IsSpace(s[0]) then " " + SquashSpaces(TrimStart(s))
    else [s[0]] + SquashSpaces(s[1..])
  }

  /** Squashing never lengthens a string. */
  lemma {:induction false} SquashSpacesLength(s: string)
    ensures |SquashSpaces(s)| <= |s|
    decreases |s|
  {
    if s != [] {
      if IsSpace(s[0]) {
        SquashSpacesLength(TrimStart(s));
      } else {
        SquashSpacesLength(s[1..]);
      }
    }
  }

  /** Squashing keeps emptiness and whether each end is whitespace. */
  lemma {:induction false} SquashSpacesEdges(s: string)
    ensures s == [] <==> SquashSpaces(s) == []
    ensures s != [] ==> (IsSpace(SquashSpaces(s)[0]) <==> IsSpace(s[0]))
    ensures s != [] ==> (IsSpace(SquashSpaces(s)[|SquashSpaces(s)| - 1]) <==> IsSpace(s[|s| - 1]))
    decreases |s|
  {
    if s != [] {
      if IsSpace(s[0]) {
        var t := TrimStart(s);
        SquashSpacesEdges(t);
        assert t != [] ==> t[|t| - 1] == s[|s| - 1];
      } else {
        SquashSpacesEdges(s[1..]);
      }
    }
  }

  /** After squashing, whitespace is single plain spaces. */
  lemma {:induction false} SquashSpacesSingle(s: string)
    ensures NoDoubleSpace(SquashSpaces(s))
    ensures OnlyPlainSpaces(SquashSpaces(s))
    decreases |s|
  {
    if s != [] {
      var r := SquashSpaces(s);
      var c, rest;
      if IsSpace(s[0]) {
        var t := TrimStart(s);
        SquashSpacesSingle(t);
        SquashSpacesEdges(t);
        c, rest := ' ', SquashSpaces(t);
      } else {
        SquashSpacesSingle(s[1..]);
        c, rest := s[0], SquashSpaces(s[1..]);
      }
      assert r == [c] + rest;
      assert forall i :: 1 <= i < |r| ==> r[i] == rest[i - 1];
    }
  }

  /** Squashing only introduces plain spaces; every other character comes from the input. */
  lemma {:induction false} SquashSpacesChars(s: string)
    ensures forall c :: c in SquashSpaces(s) ==> c == ' ' || c in s
    decreases |s|
  {
    if s != [] {
      if IsSpace(s[0]) {
        var t := TrimStart(s);
        SquashSpacesChars(t);
        assert forall c :: c in t ==> c in s;
      } else {
        SquashSpacesChars(s[1..]);
        assert forall c :: c in s[1..] ==> c in s;
      }
    }
  }

  /** A string already free of edge whitespace is its own strip. */
  lemma StripNoEdge(s: string)
    requires NoEdgeSpace(s)
    ensures Strip(s) == s
  {
    if s != [] {
      assert LeadCount(s) == 0;
      assert !IsSpace(s[|s| - 1]);
    }
  }

  /** Python `re.sub(r"\s+", " ", s).strip()`. */
  function Collapse(s: string): (r: string)
    ensures |r| <= |s|
    ensures NoEdgeSpace(r)
    ensures NoDoubleSpace(r)
    ensures OnlyPlainSpaces(r)
  {
    var q := SquashSpaces(s);
    SquashSpacesLength(s);
    SquashSpacesSingle(s);
    var r := Strip(q);
    var a := LeadCount(q);
    assert forall i :: 0 <= i < |r| ==> r[i] == q[a + i];
    r
  }

  /** Length of the leading run of non-whitespace characters. */
  function WordLen(s: string): (n: nat)
    ensures n <= |s|
    ensures forall i :: 0 <= i < n ==> !IsSpace(s[i])
    ensures n < |s| ==> IsSpace(s[n])
  {
    if s == [] || IsSpace(s[0]) then 0 else 1 + WordLen(s[1..])
  }

  /**
   * The whitespace-separated words of `s` (Python `s.split()`): a reference
   * definition that states what whitespace normalisation must preserve.
   */
  function Words(s: string): seq<string>
    decreases |s|
  {
    var t := TrimStart(s);
    if t == [] then []
    else
      var n := WordLen(t);
      [t[..n]] + Words(t[n..])
  }

  /** Each word is a non-empty run of non-whitespace characters. */
  ghost predicate AreWords(ws: seq<string>) {
    forall k :: 0 <= k < |ws| ==> ws[k] != [] && forall i :: 0 <= i < |ws[k]| ==> !IsSpace(ws[k][i])
  }

  lemma {:induction false} WordsAreWords(s: string)
    ensures AreWords(Words(s))
    decreases |s|
  {
    var t := TrimStart(s);
    if t != [] {
      var n := WordLen(t);
      WordsAreWords(t[n..]);
    }
  }

  function Join(xs: seq<string>, sep: string): (r: string)
    ensures xs == [] ==> r == []
    ensures |xs| == 1 ==> r == xs[0]
  {
    if |xs| == 0 then []
    else if |xs| == 1 then xs[0]
    else xs[0] + sep + Join(xs[1..], sep)
  }

  /** A single space when `s` starts with whitespace. */
  function LeadPad(s: string): string {
    if s != [] && IsSpace(s[0]) then " " else ""
  }

  /** A single space when `s` ends with whitespace after at least one word. */
  function TrailPad(s: string): string {
    if Words(s) != [] && IsSpace(s[|s| - 1]) then " " else ""
  }

  /** Squashing a string that starts with a word emits that word verbatim. */
  lemma {:induction false} SquashWordPrefix(t: string)
    requires t != [] && !IsSpace(t[0])
    ensures SquashSpaces(t) == t[..WordLen(t)] + SquashSpaces(t[WordLen(t)..])
    decreases |t|
  {
    var n := WordLen(t);
    var u := t[1..];
    assert SquashSpaces(t) == [t[0]] + SquashSpaces(u);
    assert n == 1 + WordLen(u);
    if u != [] && !IsSpace(u[0]) {
      SquashWordPrefix(u);
      PrefixCons(t, n, SquashSpaces(u), SquashSpaces(t[n..]));
    } else {
      assert t[..1] == [t[0]];
    }
  }

  /** Putting the first character back in front of the rest of a word. */
  lemma PrefixCons(t: string, n: nat, su: string, b: string)
    requires 1 <= n <= |t|
    requires su == t[1..][..n - 1] + SquashSpaces(t[1..][n - 1..])
    requires b == SquashSpaces(t[n..])
    ensures [t[0]] + su == t[..n] + b
  {
    assert t[1..][n - 1..] == t[n..];
    assert [t[0]] + t[1..][..n - 1] == t[..n];
  }

  /** Regrouping a five-part concatenation. */
  lemma ConcatRegroup(a: string, b: string, c: string, d: string, e: string)
    ensures a + (b + (c + d + e)) == a + (b + c + d) + e
  {
  }

  /** A string with no words is all whitespace. */
  lemma NoWordsAllSpace(s: string)
    requires Words(s) == []
    ensures AllSpace(s)
  {
    assert TrimStart(s) == [];
    assert s[..LeadCount(s)] == s;
  }

  /** The first word of `s`, after its leading whitespace. */
  function FirstWord(s: string): string {
    var t := TrimStart(s);
    t[..WordLen(t)]
  }

  /** What follows the first word of `s`. */
  function AfterWord(s: string): string {
    var t := TrimStart(s);
    t[WordLen(t)..]
  }

  /** `Words` peels off the first word. */
  lemma WordsStep(s: string)
    requires TrimStart(s) != []
    ensures Words(s) == [FirstWord(s)] + Words(AfterWord(s))
    ensures FirstWord(s) != [] && !IsSpace(FirstWord(s)[|FirstWord(s)| - 1])
    ensures AfterWord(s) == [] || IsSpace(AfterWord(s)[0])
    ensures |AfterWord(s)| < |s|
  {
  }

  /** Squashing emits the leading pad, then the first word verbatim. */
  lemma SquashStep(s: string)
    requires TrimStart(s) != []
    ensures SquashSpaces(s) == LeadPad(s) + (FirstWord(s) + SquashSpaces(AfterWord(s)))
  {
    var t := TrimStart(s);
    if !IsSpace(s[0]) {
      assert LeadCount(s) == 0;
      assert t == s;
    }
    SquashWordPrefix(t);
  }

  /** The trailing pad of `s` is decided by what follows its first word. */
  lemma TrailPadStep(s: string)
    requires TrimStart(s) != []
    ensures Words(AfterWord(s)) != [] ==> TrailPad(s) == TrailPad(AfterWord(s))
    ensures Words(AfterWord(s)) == [] ==> SquashSpaces(AfterWord(s)) == TrailPad(s)
  {
    AfterWordLast(s);
    var rest := AfterWord(s);
    if rest != [] && Words(rest) == [] {
      NoWordsAllSpace(rest);
      SquashAllSpace(rest);
    }
  }

  /** `s` has a word, and ends where what follows its first word ends, or with that word. */
  lemma AfterWordLast(s: string)
    requires TrimStart(s) != []
    ensures Words(s) != []
    ensures AfterWord(s) == [] ==> !IsSpace(s[|s| - 1])
    ensures AfterWord(s) != [] ==> s[|s| - 1] == AfterWord(s)[|AfterWord(s)| - 1]
  {
    var w, rest := FirstWord(s), AfterWord(s);
    WordsStep(s);
    assert s[LeadCount(s) + |w|..] == rest;
    if rest == [] {
      assert s[|s| - 1] == w[|w| - 1];
    }
  }

  /** A non-empty all-whitespace string squashes to one space. */
  lemma SquashAllSpace(s: string)
    requires s != [] && AllSpace(s)
    ensures SquashSpaces(s) == " "
  {
    assert LeadCount(s) == |s|;
  }

  /** Joining a first word onto the rest. */
  lemma JoinCons(w: string, ws: seq<string>, sep: string)
    requires ws != []
    ensures Join([w] + ws, sep) == w + sep + Join(ws, sep)
  {
    assert ([w] + ws)[1..] == ws;
  }

  /**
   * `re.sub(r"\s+", " ", s)` is the words of `s` joined by single spaces,
   * plus one space for leading and one for trailing whitespace.
   */
  lemma {:induction false} SquashShape(s: string)
    ensures SquashSpaces(s) == LeadPad(s) + Join(Words(s), " ") + TrailPad(s)
    decreases |s|
  {
    if TrimStart(s) == [] {
      if s != [] {
        NoWordsAllSpace(s);
        SquashAllSpace(s);
      }
    } else {
      var w, rest := FirstWord(s), AfterWord(s);
      WordsStep(s);
      SquashStep(s);
      TrailPadStep(s);
      SquashShape(rest);
      if Words(rest) == [] {
        AssembleLast(SquashSpaces(s), LeadPad(s), w, SquashSpaces(rest), TrailPad(s), Words(s));
      } else {
        assert LeadPad(rest) == " ";
        AssembleMore(SquashSpaces(s), LeadPad(s), w, SquashSpaces(rest), TrailPad(s), Words(s), Words(rest));
      }
    }
  }

  /** Assembling the squashed form when the first word is the last one. */
  lemma AssembleLast(sq: string, lp: string, w: string, sqr: string, tp: string, ws: seq<string>)
    requires sq == lp + (w + sqr) && sqr == tp && ws == [w]
    ensures sq == lp + Join(ws, " ") + tp
  {
  }

  /** Assembling the squashed form when more words follow the first. */
  lemma AssembleMore(sq: string, lp: string, w: string, sqr: string, tp: string, ws: seq<string>, wsr: seq<string>)
    requires sq == lp + (w + sqr) && sqr == " " + Join(wsr, " ") + tp
    requires ws == [w] + wsr && wsr != []
    ensures sq == lp + Join(ws, " ") + tp
  {
    JoinCons(w, wsr, " ");
    ConcatRegroup(lp, w, " ", Join(wsr, " "), tp);
  }

  /** Words joined by single spaces neither start nor end with whitespace. */
  lemma {:induction false} JoinWordsEdges(ws: seq<string>)
    requires AreWords(ws)
    ensures NoEdgeSpace(Join(ws, " "))
    ensures ws != [] ==> Join(ws, " ") != []
    decreases |ws|
  {
    if |ws| > 1 {
      JoinWordsEdges(ws[1..]);
      var j := Join(ws[1..], " ");
      assert Join(ws, " ") == ws[0] + " " + j;
      assert (ws[0] + " " + j)[0] == ws[0][0];
      assert (ws[0] + " " + j)[|ws[0]| + 1 + |j| - 1] == j[|j| - 1];
    }
  }

  /** Whitespace-only on both sides exactly when whitespace-only as a whole. */
  lemma AllSpaceConcat(a: string, b: string)
    ensures AllSpace(a + b) <==> AllSpace(a) && AllSpace(b)
  {
    if AllSpace(a) && AllSpace(b) {
      forall k | 0 <= k < |a + b|
        ensures IsSpace((a + b)[k])
      {
        if k < |a| {
          assert (a + b)[k] == a[k];
        } else {
          assert (a + b)[k] == b[k - |a|];
        }
      }
    }
    if AllSpace(a + b) {
      assert forall k :: 0 <= k < |a| ==> a[k] == (a + b)[k];
      assert forall k :: 0 <= k < |b| ==> b[k] == (a + b)[|a| + k];
    }
  }

  /** Leading whitespace is exactly the padding in front of a non-blank core. */
  lemma LeadCountOfPadded(pre: string, x: string, post: string)
    requires AllSpace(pre) && x != [] && !IsSpace(x[0])
    ensures LeadCount(pre + x + post) == |pre|
  {
    var y := pre + x + post;
    assert forall i :: 0 <= i < |pre| ==> IsSpace(y[i]);
    assert !IsSpace(y[|pre|]);
  }

  /** Stripping whitespace padding returns the padded core. */
  lemma StripPadded(pre: string, x: string, post: string)
    requires AllSpace(pre) && AllSpace(post) && NoEdgeSpace(x)
    ensures Strip(pre + x + post) == x
  {
    var y := pre + x + post;
    var r := Strip(y);
    if x == [] {
      assert forall i :: 0 <= i < |y| ==> IsSpace(y[i]);
    } else {
      LeadCountOfPadded(pre, x, post);
      var a := |pre|;
      assert !IsSpace(y[a + |x| - 1]);
      assert forall i :: a + |x| <= i < |y| ==> IsSpace(y[i]);
      assert |r| == |x|;
      assert y[a..a + |x|] == x;
    }
  }

  /**
   * Python's `re.sub(r"\s+", " ", s).strip()` is the words of `s` joined by
   * single spaces: whitespace normalisation keeps every word and its order.
   */
  lemma CollapseIsJoinedWords(s: string)
    ensures Collapse(s) == Join(Words(s), " ")
  {
    SquashShape(s);
    WordsAreWords(s);
    JoinWordsEdges(Words(s));
    StripPadded(LeadPad(s), Join(Words(s), " "), TrailPad(s));
  }

  // ---------------------------------------------------------------------
  // Lines (`str.splitlines()`)
  // ---------------------------------------------------------------------

  /** Length of the first line: the index of the first line boundary, or `|s|`. */
  function LineLen(s: string): (n: nat)
    ensures n <= |s|
    ensures forall i :: 0 <= i < n ==> !IsLineBreak(s[i])
    ensures n < |s| ==> IsLineBreak(s[n])
  {
    if s == [] || IsLineBreak(s[0]) then 0 else 1 + LineLen(s[1..])
  }

  /** Width of the line boundary at the start of `s`: 2 for `\r\n`, else 1. */
  function BreakWidth(s: string): (w: nat)
    requires s != [] && IsLineBreak(s[0])
    ensures 1 <= w <= |s|
  {
    if s[0] == '\r' && |s| > 1 && s[1] == '\n' then 2 else 1
  }

  /** `str.splitlines()`: lines without their boundaries, no trailing empty line. */
  function SplitLines(s: string): (ls: seq<string>)
    ensures forall k :: 0 <= k < |ls| ==> forall i :: 0 <= i < |ls[k]| ==> !IsLineBreak(ls[k][i])
    decreases |s|
  {
    if s == [] then []
    else
      var n := LineLen(s);
      if n == |s| then [s]
      else [s[..n]] + SplitLines(s[n + BreakWidth(s[n..])..])
  }

  // ---------------------------------------------------------------------
  // Decimal rendering of naturals (Python `str(n)` / f-string `{n}`)
  // ---------------------------------------------------------------------

  function DigitChar(d: nat): (c: char)
    requires d < 10
    ensures IsDigit(c)
  {
    (48 + d) as char
  }

  function DigitValue(c: char): nat
    requires IsDigit(c)
  {
    c as int - 48
  }

  function NatToString(n: nat): (r: string)
    ensures r != []
    ensures forall i :: 0 <= i < |r| ==> IsDigit(r[i])
    decreases n
  {
    if n < 10 then [DigitChar(n)] else NatToString(n / 10) + [DigitChar(n % 10)]
  }

  /** Reads a string of decimal digits back as a natural number. */
  function ParseDigits(s: string): nat
    requires forall i :: 0 <= i < |s| ==> IsDigit(s[i])
    decreases |s|
  {
    if s == [] then 0 else 10 * ParseDigits(s[..|s| - 1]) + DigitValue(s[|s| - 1])
  }

  /** Rendering a count in decimal loses nothing: it reads back as the same number. */
  lemma {:induction false} NatToStringRoundTrip(n: nat)
    ensures ParseDigits(NatToString(n)) == n
    decreases n
  {
    if n >= 10 {
      NatToStringRoundTrip(n / 10);
      var r := NatToString(n);
      assert r[..|r| - 1] == NatToString(n / 10);
    }
  }

  /** Distinct numbers are rendered as distinct strings. */
  lemma NatToStringInjective(m: nat, n: nat)
    requires NatToString(m) == NatToString(n)
    ensures m == n
  {
    NatToStringRoundTrip(m);
    NatToStringRoundTrip(n);
  }
}
