/**
 * The engine's `_extract_line_number(message, code)`: a prioritised search for
 * the line a bug message is about. It returns the number after the first
 * `line N`; failing that the number of the first `N line` / `N ln` / `N l.`;
 * failing that the 1-based index of the first code line containing the first
 * quoted snippet that occurs anywhere in the code; failing that the same for
 * the words of four or more word characters; and otherwise nothing.
 */
module LineExtraction {
  import opened Wire
  import opened Text
  import opened Patterns

  predicate IsQuote(c: char) {
    c == '\'' || c == '"'
  }

  predicate NotQuote(c: char) {
    !IsQuote(c)
  }

  predicate AllWordChars(w: string) {
    forall k :: 0 <= k < |w| ==> IsWordChar(w[k])
  }

  predicate NoQuotes(w: string) {
    forall k :: 0 <= k < |w| ==> NotQuote(w[k])
  }

  /** A match of `SNIPPET_PATTERN`, `['"]([^'"]{5,})['"]`, starts at index
      `p`: a quote of either kind, at least five characters that are not
      quotes, and a closing quote. Backtracking cannot help the greedy run: a
      shorter one is followed by a character that is not a quote. */
  predicate SnippetAt(s: string, p: nat) {
    p < |s| && IsQuote(s[p]) && QuoteClose(s, p) < |s| && QuoteClose(s, p) - p > 5
  }

  /** Where the run of characters that are not quotes after index `p` ends. */
  function QuoteClose(s: string, p: nat): (j: nat)
    requires p < |s|
    ensures p < j <= |s|
    ensures NoQuotes(s[p + 1..j])
  {
    var j := RunEnd(s, p + 1, NotQuote);
    j
  }

  /** Where a snippet match starting at `p` ends: after its closing quote. */
  function SnippetEnd(s: string, p: nat): (r: Option<nat>)
    ensures r.Some? ==> p + 7 <= r.value <= |s|
  {
    if SnippetAt(s, p) then Some(QuoteClose(s, p) + 1) else None
  }

  function SnippetEnds(s: string): (end: nat -> Option<nat>)
    ensures forall p: nat :: end(p) == SnippetEnd(s, p)
    ensures Advances(|s|, end)
  {
    (p: nat) => SnippetEnd(s, p)
  }

  /** `r` are the texts between the quotes of the snippet matches at `ps`. */
  predicate SnippetTexts(s: string, ps: seq<nat>, r: seq<string>) {
    && |r| == |ps|
    && forall k :: 0 <= k < |r| ==> SnippetAt(s, ps[k]) && r[k] == s[ps[k] + 1..QuoteClose(s, ps[k])]
  }

  lemma SnippetTextsCons(s: string, p: nat, ps: seq<nat>, r: seq<string>)
    requires SnippetAt(s, p) && SnippetTexts(s, ps, r)
    ensures SnippetTexts(s, [p] + ps, [s[p + 1..QuoteClose(s, p)]] + r)
  {
    var ps', r' := [p] + ps, [s[p + 1..QuoteClose(s, p)]] + r;
    forall k | 1 <= k < |r'|
      ensures SnippetAt(s, ps'[k]) && r'[k] == s[ps'[k] + 1..QuoteClose(s, ps'[k])]
    {
      assert ps'[k] == ps[k - 1] && r'[k] == r[k - 1];
    }
  }

  /** `SNIPPET_PATTERN.findall` from index `i`: the group of each match of the
      global search, the text between the quotes; a closing quote is consumed
      and cannot open the next snippet. */
  function SnippetsFrom(s: string, i: nat): (r: seq<string>)
    requires i <= |s|
    ensures SnippetTexts(s, MatchStarts(|s|, i, SnippetEnds(s)), r)
    decreases |s| - i
  {
    if i == |s| then []
    else if SnippetAt(s, i) then
      var j := QuoteClose(s, i);
      var rest := SnippetsFrom(s, j + 1);
      assert SnippetEnds(s)(i) == Some(j + 1);
      SnippetTextsCons(s, i, MatchStarts(|s|, j + 1, SnippetEnds(s)), rest);
      [s[i + 1..j]] + rest
    else
      assert SnippetEnds(s)(i).None?;
      SnippetsFrom(s, i + 1)
  }

  /** Every snippet has at least five characters and no quote. */
  lemma SnippetShape(s: string, i: nat)
    requires i <= |s|
    ensures forall k :: 0 <= k < |SnippetsFrom(s, i)| ==>
              |SnippetsFrom(s, i)[k]| >= 5 && NoQuotes(SnippetsFrom(s, i)[k])
  {
  }

  function Snippets(message: string): seq<string> {
    SnippetsFrom(message, 0)
  }

  /** A match of `\b\w{4,}\b` starts at index `p`: a word character at a word
      boundary, beginning a run of at least four word characters. The greedy
      run ends at a boundary, and no shorter one does. */
  predicate LongWordAt(s: string, p: nat) {
    && p < |s| && IsWordChar(s[p]) && (p == 0 || !IsWordChar(s[p - 1]))
    && RunEnd(s, p, IsWordChar) - p >= 4
  }

  /** Where a word match starting at `p` ends: after the whole run. */
  function WordEnd(s: string, p: nat): (r: Option<nat>)
    ensures r.Some? ==> p + 4 <= r.value <= |s|
  {
    if LongWordAt(s, p) then Some(RunEnd(s, p, IsWordChar)) else None
  }

  function WordEnds(s: string): (end: nat -> Option<nat>)
    ensures forall p: nat :: end(p) == WordEnd(s, p)
    ensures Advances(|s|, end)
  {
    (p: nat) => WordEnd(s, p)
  }

  /** `r` are the texts of the word matches at `ps`. */
  predicate WordTexts(s: string, ps: seq<nat>, r: seq<string>) {
    && |r| == |ps|
    && forall k :: 0 <= k < |r| ==> LongWordAt(s, ps[k]) && r[k] == s[ps[k]..RunEnd(s, ps[k], IsWordChar)]
  }

  lemma WordTextsCons(s: string, p: nat, ps: seq<nat>, r: seq<string>)
    requires LongWordAt(s, p) && WordTexts(s, ps, r)
    ensures WordTexts(s, [p] + ps, [s[p..RunEnd(s, p, IsWordChar)]] + r)
  {
    var ps', r' := [p] + ps, [s[p..RunEnd(s, p, IsWordChar)]] + r;
    forall k | 1 <= k < |r'|
      ensures LongWordAt(s, ps'[k]) && r'[k] == s[ps'[k]..RunEnd(s, ps'[k], IsWordChar)]
    {
      assert ps'[k] == ps[k - 1] && r'[k] == r[k - 1];
    }
  }

  /** `re.findall(r'\b\w{4,}\b', message)` from index `i`: the text of each
      match of the global search, that is every maximal run of word characters
      at least four long, in order. */
  function WordsFrom(s: string, i: nat): (r: seq<string>)
    requires i <= |s|
    ensures WordTexts(s, MatchStarts(|s|, i, WordEnds(s)), r)
    decreases |s| - i
  {
    if i == |s| then []
    else if LongWordAt(s, i) then
      var j := RunEnd(s, i, IsWordChar);
      var rest := WordsFrom(s, j);
      assert WordEnds(s)(i) == Some(j);
      WordTextsCons(s, i, MatchStarts(|s|, j, WordEnds(s)), rest);
      [s[i..j]] + rest
    else
      assert WordEnds(s)(i).None?;
      WordsFrom(s, i + 1)
  }

  /** Every word has at least four characters, all of them word characters. */
  lemma WordShape(s: string, i: nat)
    requires i <= |s|
    ensures forall k :: 0 <= k < |WordsFrom(s, i)| ==>
              |WordsFrom(s, i)[k]| >= 4 && AllWordChars(WordsFrom(s, i)[k])
  {
  }

  function Words(message: string): seq<string> {
    WordsFrom(message, 0)
  }

  /** `needle.lower() in line.lower()`. */
  predicate Mentions(line: string, needle: string) {
    IsSubstring(Lower(needle), Lower(line))
  }

  /** The 1-based index of the first line at or after index `k` that mentions
      `needle`. */
  function FindLineFrom(lines: seq<string>, needle: string, k: nat): (r: Option<nat>)
    requires k <= |lines|
    ensures r.Some? ==> k < r.value <= |lines| && Mentions(lines[r.value - 1], needle)
                        && forall m :: k <= m < r.value - 1 ==> !Mentions(lines[m], needle)
    ensures r.None? ==> forall m :: k <= m < |lines| ==> !Mentions(lines[m], needle)
    decreases |lines| - k
  {
    if k == |lines| then None
    else if Mentions(lines[k], needle) then Some(k + 1)
    else FindLineFrom(lines, needle, k + 1)
  }

  function FindLine(lines: seq<string>, needle: string): Option<nat> {
    FindLineFrom(lines, needle, 0)
  }

  /** The line of the first needle, in order, that some line mentions. */
  function FirstHit(needles: seq<string>, lines: seq<string>): (r: Option<nat>)
    ensures r.Some? ==> 1 <= r.value <= |lines|
    ensures r.Some? ==> exists k :: 0 <= k < |needles| && FindLine(lines, needles[k]) == r
                                    && forall j :: 0 <= j < k ==> FindLine(lines, needles[j]).None?
    ensures r.None? ==> forall k :: 0 <= k < |needles| ==> FindLine(lines, needles[k]).None?
  {
    if needles == [] then None
    else
      var here := FindLine(lines, needles[0]);
      if here.Some? then here
      else
        var r := FirstHit(needles[1..], lines);
        assert forall k :: 1 <= k < |needles| ==> needles[k] == needles[1..][k - 1];
        r
  }

  /** Searching a concatenation of needle lists is searching the first list
      and, only when it finds nothing, the second. */
  lemma {:induction false} FirstHitAppend(a: seq<string>, b: seq<string>, lines: seq<string>)
    ensures FirstHit(a + b, lines)
            == if FirstHit(a, lines).Some? then FirstHit(a, lines) else FirstHit(b, lines)
  {
    if a != [] {
      assert (a + b)[0] == a[0];
      assert (a + b)[1..] == a[1..] + b;
      FirstHitAppend(a[1..], b, lines);
    } else {
      assert a + b == b;
    }
  }

  /** What `_extract_line_number` returns. A number read from the text may be
      any natural number; a line found by snippet or word is a valid 1-based
      index into the code's lines; None means no search found anything. */
  function LineNumberOf(message: string, code: string): (r: Option<nat>)
    ensures Search(LineThenNumber(Python), message, 0).Some?
            ==> r == Some(DigitsValue(Search(LineThenNumber(Python), message, 0).value))
    ensures Search(LineThenNumber(Python), message, 0).None? && Search(NumberThenLine(Python), message, 0).Some?
            ==> r == Some(DigitsValue(Search(NumberThenLine(Python), message, 0).value))
    ensures Search(LineThenNumber(Python), message, 0).None? && Search(NumberThenLine(Python), message, 0).None?
            ==> r == FirstHit(Snippets(message) + Words(message), Split(code, '\n'))
    ensures r.Some? && Search(LineThenNumber(Python), message, 0).None?
            && Search(NumberThenLine(Python), message, 0).None?
            ==> 1 <= r.value <= |Split(code, '\n')|
    ensures r.None? <==>
            && Search(LineThenNumber(Python), message, 0).None?
            && Search(NumberThenLine(Python), message, 0).None?
            && (forall k :: 0 <= k < |Snippets(message)| ==> FindLine(Split(code, '\n'), Snippets(message)[k]).None?)
            && (forall k :: 0 <= k < |Words(message)| ==> FindLine(Split(code, '\n'), Words(message)[k]).None?)
  {
    match Search(LineThenNumber(Python), message, 0)
    case Some(d) => Some(DigitsValue(d))
    case None =>
      match Search(NumberThenLine(Python), message, 0)
      case Some(d) => Some(DigitsValue(d))
      case None =>
        var lines := Split(code, '\n');
        var bySnippet := FirstHit(Snippets(message), lines);
        FirstHitAppend(Snippets(message), Words(message), lines);
        if bySnippet.Some? then bySnippet else FirstHit(Words(message), lines)
  }

  /** The nested loops of `_extract_line_number`: each needle in order, each
      line in order, returning at the first line that mentions the needle. */
  method SearchLines(needles: seq<string>, lines: seq<string>) returns (r: Option<nat>)
    ensures r == FirstHit(needles, lines)
  {
    var a := 0;
    while a < |needles|
      invariant 0 <= a <= |needles|
      invariant FirstHit(needles, lines) == FirstHit(needles[a..], lines)
    {
      var needleLower := Lower(needles[a]);
      var idx := 0;
      while idx < |lines|
        invariant 0 <= idx <= |lines|
        invariant FindLine(lines, needles[a]) == FindLineFrom(lines, needles[a], idx)
      {
        if IsSubstring(needleLower, Lower(lines[idx])) {
          return Some(idx + 1);
        }
        idx := idx + 1;
      }
      assert needles[a..][1..] == needles[a + 1..];
      a := a + 1;
    }
    return None;
  }

  /** `_extract_line_number(message, code)`. */
  method ExtractLineNumber(message: string, code: string) returns (r: Option<nat>)
    ensures r == LineNumberOf(message, code)
  {
    var lineMatch := Search(LineThenNumber(Python), message, 0);
    if lineMatch.Some? {
      return Some(DigitsValue(lineMatch.value));
    }
    var explicitMatch := Search(NumberThenLine(Python), message, 0);
    if explicitMatch.Some? {
      return Some(DigitsValue(explicitMatch.value));
    }
    var codeLines := Split(code, '\n');
    r := SearchLines(Snippets(message), codeLines);
    if r.Some? {
      return;
    }
    r := SearchLines(Words(message), codeLines);
  }

  /** A `line N` mention wins whatever the code holds, and N is unbounded: every
      natural number is the answer for some message. */
  lemma LineMentionWins(n: nat, code: string)
    ensures LineNumberOf("line " + Decimal(n), code) == Some(n)
  {
    var m := "line " + Decimal(n);
    assert m == [] + "line " + Decimal(n) + [];
    LineMentionFound(Python, [], n, []);
  }

  /** "N line", "N ln" or "N l." opening a message with no other digit
      yields N whatever the code, through the second pattern. */
  lemma NumberMentionWins(n: nat, kw: string, rest: string, code: string)
    requires LineWord(Python, kw)
    requires forall k :: 0 <= k < |rest| ==> !IsDigit(rest[k])
    ensures LineNumberOf(Decimal(n) + " " + kw + rest, code) == Some(n)
  {
    NumberMentionFound(Python, n, kw, rest);
  }
}
