/**
 * Character classes and small text operations shared by the browser client and
 * the Python engine: the regex classes `\d`, `\w` and `\s`, ASCII case folding,
 * trimming, splitting on a separator and decimal numerals.
 */
module Text {
  import opened Wire

  // ---------------------------------------------------------------- classes

  /** Regex `\d`, ASCII digits. */
  predicate IsDigit(c: char) {
    '0' <= c <= '9'
  }

  /** Regex `\w`, ASCII letters, digits and the underscore. */
  predicate IsWordChar(c: char) {
    'a' <= c <= 'z' || 'A' <= c <= 'Z' || IsDigit(c) || c == '_'
  }

  /** JavaScript's `\s`, which is also the set `String.prototype.trim` removes:
      ECMAScript WhiteSpace and LineTerminator. */
  predicate IsJsSpace(c: char) {
    c == '\t' || c == '\n' || c == '\U{0B}' || c == '\U{0C}' || c == '\r' || c == ' '
    || c == '\U{A0}' || c == '\U{1680}' || ('\U{2000}' <= c <= '\U{200A}')
    || c == '\U{2028}' || c == '\U{2029}' || c == '\U{202F}' || c == '\U{205F}'
    || c == '\U{3000}' || c == '\U{FEFF}'
  }

  /** Python's `str.isspace`, the set `str.strip()` removes and `\s` matches in `re`. */
  predicate IsPySpace(c: char) {
    ('\t' <= c <= '\r') || ('\U{1C}' <= c <= ' ') || c == '\U{85}' || c == '\U{A0}'
    || c == '\U{1680}' || ('\U{2000}' <= c <= '\U{200A}') || c == '\U{2028}'
    || c == '\U{2029}' || c == '\U{202F}' || c == '\U{205F}' || c == '\U{3000}'
  }

  predicate AllDigits(d: string) {
    forall k :: 0 <= k < |d| ==> IsDigit(d[k])
  }

  // ---------------------------------------------------------------- case

  function LowerChar(c: char): char {
    if 'A' <= c <= 'Z' then (c as int + 32) as char else c
  }

  /** ASCII lower-casing, standing for JavaScript's and Python's `lower`. */
  function Lower(s: string): (t: string)
    ensures |t| == |s|
    ensures forall k :: 0 <= k < |s| ==> t[k] == LowerChar(s[k])
  {
    seq(|s|, k requires 0 <= k < |s| => LowerChar(s[k]))
  }

  /** The lower-case keyword `kw` occurs at index `i` of `s`, ignoring ASCII case. */
  predicate KeywordAt(s: string, i: nat, kw: string) {
    i + |kw| <= |s| && Lower(s[i..i + |kw|]) == kw
  }

  predicate StartsWith(s: string, prefix: string) {
    |prefix| <= |s| && s[..|prefix|] == prefix
  }

  predicate OccursAt(needle: string, hay: string, k: nat) {
    k + |needle| <= |hay| && hay[k..k + |needle|] == needle
  }

  /** Python's `needle in hay` on strings. */
  predicate IsSubstring(needle: string, hay: string) {
    exists k :: 0 <= k <= |hay| && OccursAt(needle, hay, k)
  }

  // ---------------------------------------------------------------- runs

  /** The end of the longest run of characters satisfying `p` that starts at `i`:
      what a greedy `p*` reaches from `i`. */
  function RunEnd(s: string, i: nat, p: char -> bool): (j: nat)
    requires i <= |s|
    ensures i <= j <= |s|
    ensures forall k :: i <= k < j ==> p(s[k])
    ensures j < |s| ==> !p(s[j])
    decreases |s| - i
  {
    if i < |s| && p(s[i]) then RunEnd(s, i + 1, p) else i
  }

  // ---------------------------------------------------------------- global search

  /** `end(p)` tells where a match of a pattern that starts at index `p` of a
      text of length `n` ends, or None when no match starts there; every match
      is non-empty, so a global search always moves forward. */
  ghost predicate Advances(n: nat, end: nat -> Option<nat>) {
    forall p: nat :: p < n && end(p).Some? ==> p < end(p).value <= n
  }

  /** No match starts in `lo..hi`. */
  ghost predicate NoMatchIn(end: nat -> Option<nat>, lo: nat, hi: nat) {
    forall p: nat :: lo <= p < hi ==> end(p).None?
  }

  /** Where a match that starts at `p` ends. */
  function EndOf(end: nat -> Option<nat>, p: nat): nat {
    match end(p)
    case Some(e) => e
    case None => p + 1
  }

  /** Where a global search from `i` looks for match `k` of `ps`: at `i` for
      the first one, and where the previous one ended after that. */
  function ResumeAt(i: nat, end: nat -> Option<nat>, ps: seq<nat>, k: nat): nat
    requires k <= |ps|
  {
    if k == 0 then i else EndOf(end, ps[k - 1])
  }

  /** Match `k` of `ps` is the leftmost one at or after the place where the
      search for it resumed. */
  ghost predicate MatchFound(n: nat, i: nat, end: nat -> Option<nat>, ps: seq<nat>, k: nat)
    requires k < |ps|
  {
    && ResumeAt(i, end, ps, k) <= ps[k] < n && end(ps[k]).Some?
    && NoMatchIn(end, ResumeAt(i, end, ps, k), ps[k])
  }

  /** `ps` are the starts of the matches a global search (`re.findall`, a `/g`
      regex) finds from `i` in a text of length `n`: each one is the leftmost
      match at or after the place where the previous one ended, and after the
      last one no match starts. */
  ghost predicate LeftmostMatches(n: nat, i: nat, end: nat -> Option<nat>, ps: seq<nat>) {
    && (forall k :: 0 <= k < |ps| ==> MatchFound(n, i, end, ps, k))
    && NoMatchIn(end, ResumeAt(i, end, ps, |ps|), n)
  }

  lemma {:induction false} ResumeCons(i: nat, e: nat, end: nat -> Option<nat>, rest: seq<nat>, k: nat)
    requires end(i) == Some(e) && 1 <= k <= |rest| + 1
    ensures ResumeAt(i, end, [i] + rest, k) == ResumeAt(e, end, rest, k - 1)
  {
    if k >= 2 {
      assert ([i] + rest)[k - 1] == rest[k - 2];
    }
  }

  /** A match at `i` followed by the matches from where it ends. */
  lemma {:induction false} LeftmostCons(n: nat, i: nat, e: nat, end: nat -> Option<nat>, rest: seq<nat>)
    requires i < n && end(i) == Some(e) && LeftmostMatches(n, e, end, rest)
    ensures LeftmostMatches(n, i, end, [i] + rest)
  {
    var ps := [i] + rest;
    forall k | 0 <= k < |ps|
      ensures MatchFound(n, i, end, ps, k)
    {
      if k > 0 {
        ResumeCons(i, e, end, rest, k);
        assert ps[k] == rest[k - 1];
        assert MatchFound(n, e, end, rest, k - 1);
      }
    }
    ResumeCons(i, e, end, rest, |ps|);
  }

  /** The matches from `i + 1` are those from `i` when none starts at `i`. */
  lemma {:induction false} LeftmostSkip(n: nat, i: nat, end: nat -> Option<nat>, ps: seq<nat>)
    requires i < n && end(i).None? && LeftmostMatches(n, i + 1, end, ps)
    ensures LeftmostMatches(n, i, end, ps)
  {
    forall k | 0 <= k < |ps|
      ensures MatchFound(n, i, end, ps, k)
    {
      assert MatchFound(n, i + 1, end, ps, k);
    }
    assert |ps| > 0 ==> ResumeAt(i, end, ps, |ps|) == ResumeAt(i + 1, end, ps, |ps|);
  }

  /** The starts of the matches a global search from `i` finds. */
  ghost function MatchStarts(n: nat, i: nat, end: nat -> Option<nat>): (ps: seq<nat>)
    requires i <= n && Advances(n, end)
    ensures LeftmostMatches(n, i, end, ps)
    decreases n - i
  {
    if i == n then []
    else match end(i)
      case Some(e) =>
        var rest := MatchStarts(n, e, end);
        LeftmostCons(n, i, e, end, rest);
        [i] + rest
      case None =>
        var rest := MatchStarts(n, i + 1, end);
        LeftmostSkip(n, i, end, rest);
        rest
  }

  /** After the first match, the rest are the matches from where it ends. */
  lemma {:induction false} LeftmostTail(n: nat, i: nat, e: nat, end: nat -> Option<nat>, ps: seq<nat>)
    requires LeftmostMatches(n, i, end, ps) && |ps| > 0 && ps[0] == i && end(i) == Some(e)
    ensures LeftmostMatches(n, e, end, ps[1..])
  {
    var rest := ps[1..];
    assert ps == [i] + rest;
    forall k | 0 <= k < |rest|
      ensures MatchFound(n, e, end, rest, k)
    {
      ResumeCons(i, e, end, rest, k + 1);
      assert rest[k] == ps[k + 1];
      assert MatchFound(n, i, end, ps, k + 1);
    }
    ResumeCons(i, e, end, rest, |ps|);
  }

  /** The matches from `i` are those from `i + 1` when none starts at `i`. */
  lemma {:induction false} LeftmostUnskip(n: nat, i: nat, end: nat -> Option<nat>, ps: seq<nat>)
    requires i < n && end(i).None? && LeftmostMatches(n, i, end, ps)
    ensures LeftmostMatches(n, i + 1, end, ps)
  {
    if |ps| > 0 {
      assert ps[0] != i by {
        assert MatchFound(n, i, end, ps, 0);
      }
    }
    var next := i + 1;
    forall k | 0 <= k < |ps|
      ensures MatchFound(n, next, end, ps, k)
    {
      assert MatchFound(n, i, end, ps, k);
    }
    assert |ps| > 0 ==> ResumeAt(i, end, ps, |ps|) == ResumeAt(i + 1, end, ps, |ps|);
  }

  /** The matches a global search finds are determined: any sequence of starts
      with the leftmost-match property is the one `MatchStarts` computes. */
  lemma {:induction false} LeftmostMatchesUnique(n: nat, i: nat, end: nat -> Option<nat>, ps: seq<nat>)
    requires i <= n && Advances(n, end) && LeftmostMatches(n, i, end, ps)
    ensures ps == MatchStarts(n, i, end)
    decreases n - i
  {
    if i == n {
      assert |ps| > 0 ==> MatchFound(n, i, end, ps, 0);
    } else if end(i).Some? {
      var e := end(i).value;
      assert !NoMatchIn(end, i, n);
      assert ResumeAt(i, end, ps, 0) == i;
      assert ps[0] == i by {
        assert MatchFound(n, i, end, ps, 0);
      }
      LeftmostTail(n, i, e, end, ps);
      LeftmostMatchesUnique(n, e, end, ps[1..]);
      assert ps == [i] + ps[1..];
    } else {
      LeftmostUnskip(n, i, end, ps);
      LeftmostMatchesUnique(n, i + 1, end, ps);
    }
  }

  /** The start of the longest run of characters satisfying `p` that ends at `j`,
      not going below `lo`. */
  function RunStart(s: string, j: nat, lo: nat, p: char -> bool): (i: nat)
    requires lo <= j <= |s|
    ensures lo <= i <= j
    ensures forall k :: i <= k < j ==> p(s[k])
    ensures i > lo ==> !p(s[i - 1])
    decreases j
  {
    if j > lo && p(s[j - 1]) then RunStart(s, j - 1, lo, p) else j
  }

  /** A run is determined by its two ends. */
  lemma {:induction false} RunEndIs(s: string, i: nat, j: nat, p: char -> bool)
    requires i <= j <= |s|
    requires forall k :: i <= k < j ==> p(s[k])
    requires j == |s| || !p(s[j])
    ensures RunEnd(s, i, p) == j
    decreases j - i
  {
    if i < j {
      RunEndIs(s, i + 1, j, p);
    }
  }

  /** `t` is `s` with `a` characters satisfying `space` removed at its start
      and only such characters removed at its end. */
  predicate TrimmedAt(s: string, t: string, a: nat, space: char -> bool) {
    a + |t| <= |s| && t == s[a..a + |t|]
    && (forall k :: 0 <= k < a ==> space(s[k]))
    && (forall k :: a + |t| <= k < |s| ==> space(s[k]))
  }

  /** Strips the characters satisfying `space` from both ends. */
  function TrimBy(s: string, space: char -> bool): (t: string)
    ensures t == [] <==> forall k :: 0 <= k < |s| ==> space(s[k])
    ensures t != [] ==> !space(t[0]) && !space(t[|t| - 1])
    ensures exists a: nat :: TrimmedAt(s, t, a, space)
  {
    var a := RunEnd(s, 0, space);
    var b := RunStart(s, |s|, a, space);
    assert TrimmedAt(s, s[a..b], a, space);
    s[a..b]
  }

  /** JavaScript's `String.prototype.trim`. */
  function JsTrim(s: string): string {
    TrimBy(s, IsJsSpace)
  }

  /** Python's `str.strip()` with no argument. */
  function PyStrip(s: string): string {
    TrimBy(s, IsPySpace)
  }

  // ---------------------------------------------------------------- split

  /** `s.split(sep)` in JavaScript and in Python (a single-character separator):
      one piece more than there are separators, and no piece holds one. */
  function Split(s: string, sep: char): (parts: seq<string>)
    ensures |parts| == multiset(s)[sep] + 1
    ensures forall k :: 0 <= k < |parts| ==> sep !in parts[k]
    decreases |s|
  {
    if s == [] then [[]]
    else
      var rest := Split(s[1..], sep);
      assert s == [s[0]] + s[1..];
      assert multiset(s) == multiset([s[0]]) + multiset(s[1..]);
      if s[0] == sep then [[]] + rest
      else [[s[0]] + rest[0]] + rest[1..]
  }

  /** Puts `sep` between consecutive pieces. */
  function Join(parts: seq<string>, sep: char): string
    requires |parts| >= 1
  {
    if |parts| == 1 then parts[0] else parts[0] + [sep] + Join(parts[1..], sep)
  }

  /** Splitting loses nothing: joining the pieces back gives the text. */
  lemma {:induction false} JoinSplit(s: string, sep: char)
    ensures Join(Split(s, sep), sep) == s
    decreases |s|
  {
    if s != [] {
      JoinSplit(s[1..], sep);
      assert s == [s[0]] + s[1..];
      if s[0] == sep {
        JoinSplitAtSeparator(s, sep);
      } else {
        JoinSplitInsidePiece(s, sep);
      }
    }
  }

  /** A leading separator starts with an empty piece. */
  lemma JoinSplitAtSeparator(s: string, sep: char)
    requires s != [] && s[0] == sep
    requires Join(Split(s[1..], sep), sep) == s[1..]
    ensures Join(Split(s, sep), sep) == s
  {
    var rest := Split(s[1..], sep);
    SplitAtSeparator(s, sep);
    var parts := [[]] + rest;
    assert parts[1..] == rest;
    calc {
      Join(parts, sep);
      parts[0] + [sep] + Join(rest, sep);
      [sep] + s[1..];
      s;
    }
  }

  /** One unfolding of `Split` at a leading separator. */
  lemma SplitAtSeparator(s: string, sep: char)
    requires s != [] && s[0] == sep
    ensures Split(s, sep) == [[]] + Split(s[1..], sep)
  {
  }

  /** Any other first character joins the first piece. */
  lemma JoinSplitInsidePiece(s: string, sep: char)
    requires s != [] && s[0] != sep
    requires Join(Split(s[1..], sep), sep) == s[1..]
    ensures Join(Split(s, sep), sep) == s
  {
    var rest := Split(s[1..], sep);
    var parts := Split(s, sep);
    assert s == [s[0]] + s[1..];
    if |rest| == 1 {
      assert parts == [[s[0]] + rest[0]];
    } else {
      assert parts == [[s[0]] + rest[0]] + rest[1..];
      JoinCons(s[0], rest, sep);
    }
  }

  /** Putting a character in front of the first piece puts it in front of
      the joined text. */
  lemma JoinCons(c: char, parts: seq<string>, sep: char)
    requires |parts| >= 2
    ensures Join([[c] + parts[0]] + parts[1..], sep) == [c] + Join(parts, sep)
  {
    var longer := [[c] + parts[0]] + parts[1..];
    assert longer[1..] == parts[1..];
    calc {
      Join(longer, sep);
      ([c] + parts[0]) + [sep] + Join(parts[1..], sep);
      [c] + (parts[0] + [sep] + Join(parts[1..], sep));
    }
  }

  // ---------------------------------------------------------------- numerals

  /** Python's `int(digits)` on a non-empty run of ASCII digits. */
  function DigitsValue(d: string): nat
    requires AllDigits(d)
  {
    if d == [] then 0 else 10 * DigitsValue(d[..|d| - 1]) + (d[|d| - 1] as int - '0' as int)
  }

  function DigitChar(k: nat): (c: char)
    requires k < 10
    ensures IsDigit(c)
  {
    ('0' as int + k) as char
  }

  /** The decimal numeral of `n`, without leading zeros. */
  function Decimal(n: nat): (d: string)
    ensures |d| >= 1 && AllDigits(d)
    ensures d[0] == '0' ==> n == 0
    ensures DigitsValue(d) == n
  {
    if n < 10 then [DigitChar(n)]
    else
      var d := Decimal(n / 10) + [DigitChar(n % 10)];
      assert d[..|d| - 1] == Decimal(n / 10);
      d
  }

  /** JavaScript's `String(n)` for an integer-valued number. */
  function IntText(n: int): string {
    if n < 0 then "-" + Decimal(-n) else Decimal(n)
  }
}
