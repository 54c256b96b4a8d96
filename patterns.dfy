/**
 * The regular expressions both programs use to read a line number out of a
 * bug message, written as scanners:
 *
 *   `line\s+(\d+)`                    (case-insensitive, client and engine)
 *   `\b(\d+)\s*(?:line|ln)`           (case-insensitive, client)
 *   `\b(\d+)\s*(?:line|ln|l\.)`       (case-insensitive, engine)
 *
 * A search returns the digits captured by the leftmost match. The two regex
 * engines differ in what `\s` matches, hence the dialect.
 */
module Patterns {
  import opened Wire
  import opened Text

  datatype Dialect = JavaScript | Python

  /** The `\s` of a dialect. */
  function SpaceClass(d: Dialect): char -> bool {
    match d
    case JavaScript => IsJsSpace
    case Python => IsPySpace
  }

  datatype Pattern =
    | LineThenNumber(dialect: Dialect)   // line\s+(\d+)
    | NumberThenLine(dialect: Dialect)   // \b(\d+)\s*(?:line|ln) and, for Python, |l\.

  /** The digits a match of `p` starting exactly at index `i` captures, or None
      when `p` does not match there. The greedy runs `\s+`, `\s*` and `\d+` are
      taken to their longest: handing back a space or a digit never lets the
      rest of the pattern match, so the regex engine's backtracking changes
      nothing. `\b` before a digit holds when no word character precedes it. */
  function MatchAt(p: Pattern, s: string, i: nat): (r: Option<string>)
    ensures r.Some? ==> i < |s| && |r.value| >= 1 && AllDigits(r.value)
  {
    match p
    case LineThenNumber(d) => LineThenNumberAt(d, s, i)
    case NumberThenLine(d) => NumberThenLineAt(d, s, i)
  }

  function LineThenNumberAt(d: Dialect, s: string, i: nat): (r: Option<string>)
    ensures r.Some? ==> i < |s| && |r.value| >= 1 && AllDigits(r.value)
  {
    if !KeywordAt(s, i, "line") then None
    else
      var w := RunEnd(s, i + 4, SpaceClass(d));
      var e := RunEnd(s, w, IsDigit);
      if w > i + 4 && e > w then Some(s[w..e]) else None
  }

  function NumberThenLineAt(d: Dialect, s: string, i: nat): (r: Option<string>)
    ensures r.Some? ==> i < |s| && |r.value| >= 1 && AllDigits(r.value)
  {
    if i >= |s| || !IsDigit(s[i]) || (i > 0 && IsWordChar(s[i - 1])) then None
    else
      var e := RunEnd(s, i, IsDigit);
      var w := RunEnd(s, e, SpaceClass(d));
      if KeywordAt(s, w, "line") || KeywordAt(s, w, "ln") || (d == Python && KeywordAt(s, w, "l."))
      then Some(s[i..e])
      else None
  }

  /** `re.search` / `String.prototype.match` without the global flag: the
      capture of the leftmost match at or after `from`. */
  function Search(p: Pattern, s: string, from: nat): (r: Option<string>)
    ensures r.Some? ==> exists i :: from <= i < |s| && MatchAt(p, s, i) == r
                                    && forall j :: from <= j < i ==> MatchAt(p, s, j).None?
    ensures r.None? ==> forall i :: from <= i ==> MatchAt(p, s, i).None?
    decreases |s| - from
  {
    if from >= |s| then
      assert forall i :: from <= i ==> MatchAt(p, s, i).None?;
      None
    else if MatchAt(p, s, from).Some? then MatchAt(p, s, from)
    else Search(p, s, from + 1)
  }

  /** Positions where nothing matches can be skipped. */
  lemma {:induction false} SearchSkips(p: Pattern, s: string, from: nat, to: nat)
    requires from <= to
    requires forall j :: from <= j < to ==> MatchAt(p, s, j).None?
    ensures Search(p, s, from) == Search(p, s, to)
    decreases (to as int) - (from as int)
  {
    if from < to && from < |s| {
      SearchSkips(p, s, from + 1, to);
    }
  }

  /** Both patterns capture at least one digit, so a message without digits
      never yields a line number. */
  lemma NoDigitsNoMatch(p: Pattern, s: string)
    requires forall k :: 0 <= k < |s| ==> !IsDigit(s[k])
    ensures Search(p, s, 0).None?
  {
    forall i: nat
      ensures MatchAt(p, s, i).None?
    {
    }
    SearchSkips(p, s, 0, |s|);
  }

  /** A numeral followed by no digit is one whole run of digits. */
  lemma NumeralRun(a: string, num: string, rest: string)
    requires |num| >= 1 && AllDigits(num)
    requires rest == [] || !IsDigit(rest[0])
    ensures RunEnd(a + num + rest, |a|, IsDigit) == |a| + |num|
    ensures (a + num + rest)[|a|..|a| + |num|] == num
  {
    var s := a + num + rest;
    assert forall k :: |a| <= k < |a| + |num| ==> s[k] == num[k - |a|];
    if rest != [] {
      assert s[|a| + |num|] == rest[0];
    }
    RunEndIs(s, |a|, |a| + |num|, IsDigit);
  }

  /** "line", a space and the numeral of `n`, followed by no digit, match
      where "line" starts and capture the numeral. */
  lemma LineMatchHere(d: Dialect, prefix: string, n: nat, rest: string)
    requires rest == [] || !IsDigit(rest[0])
    ensures MatchAt(LineThenNumber(d), prefix + "line " + Decimal(n) + rest, |prefix|) == Some(Decimal(n))
  {
    var num := Decimal(n);
    var a := prefix + "line ";
    var s := a + num + rest;
    var i := |prefix|;
    assert s[i..i + 4] == "line";
    assert s[i + 4] == ' ';
    assert s[i + 5] == num[0];
    RunEndIs(s, i + 4, i + 5, SpaceClass(d));
    NumeralRun(a, num, rest);
  }

  /** A message whose first mention of "line" (any case) is followed by spaces
      and the numeral of `n` yields that numeral, whatever comes after it. */
  lemma LineMentionFound(d: Dialect, prefix: string, n: nat, rest: string)
    requires forall j :: 0 <= j < |prefix| ==> !KeywordAt(prefix + "line " + Decimal(n) + rest, j, "line")
    requires rest == [] || !IsDigit(rest[0])
    ensures Search(LineThenNumber(d), prefix + "line " + Decimal(n) + rest, 0) == Some(Decimal(n))
  {
    var s := prefix + "line " + Decimal(n) + rest;
    LineMatchHere(d, prefix, n, rest);
    forall j | 0 <= j < |prefix|
      ensures MatchAt(LineThenNumber(d), s, j).None?
    {
    }
    SearchSkips(LineThenNumber(d), s, 0, |prefix|);
  }

  /** The words `\b(\d+)\s*(?:line|ln)` accepts after the numeral; the
      engine's pattern also takes "l.". */
  predicate LineWord(d: Dialect, kw: string) {
    kw == "line" || kw == "ln" || (d == Python && kw == "l.")
  }

  /** A text that is digits up to `p` and has no digit after it holds no
      `line\s+(\d+)` match: "line" cannot start on a digit, and no digit
      follows any later "line". */
  lemma NoLineBeforeDigits(d: Dialect, s: string, p: nat)
    requires p <= |s|
    requires forall k :: 0 <= k < p ==> IsDigit(s[k])
    requires forall k :: p <= k < |s| ==> !IsDigit(s[k])
    ensures Search(LineThenNumber(d), s, 0).None?
  {
    forall j: nat
      ensures MatchAt(LineThenNumber(d), s, j).None?
    {
      if j < p && j + 4 <= |s| {
        assert Lower(s[j..j + 4])[0] == LowerChar(s[j]) == s[j];
      }
    }
    SearchSkips(LineThenNumber(d), s, 0, |s|);
  }

  /** The line words are already lower case. */
  lemma LineWordLower(d: Dialect, kw: string)
    requires LineWord(d, kw)
    ensures Lower(kw) == kw && |kw| >= 2 && kw[0] == 'l'
  {
  }

  /** Digits up to `e`, one space, then a line word: the second pattern
      matches at the start of the text and captures the digits. */
  lemma NumberThenLineAtStart(d: Dialect, s: string, e: nat, kw: string)
    requires 1 <= e && e + 1 + |kw| <= |s|
    requires forall k :: 0 <= k < e ==> IsDigit(s[k])
    requires s[e] == ' ' && LineWord(d, kw) && KeywordAt(s, e + 1, kw)
    ensures MatchAt(NumberThenLine(d), s, 0) == Some(s[..e])
  {
    LineWordLower(d, kw);
    RunEndIs(s, 0, e, IsDigit);
    assert LowerChar(s[e + 1]) == Lower(s[e + 1..e + 1 + |kw|])[0] == 'l';
    assert SpaceClass(d)(s[e]) && !SpaceClass(d)(s[e + 1]);
    RunEndIs(s, e, e + 1, SpaceClass(d));
  }

  /** A numeral, a space and a line word match the second pattern at the
      start of the text, capturing the numeral. */
  lemma NumberThenLineHere(d: Dialect, num: string, kw: string, rest: string)
    requires |num| >= 1 && AllDigits(num) && LineWord(d, kw)
    ensures MatchAt(NumberThenLine(d), num + " " + kw + rest, 0) == Some(num)
  {
    LineWordLower(d, kw);
    var s := num + " " + kw + rest;
    var e := |num|;
    assert s[..e] == num;
    assert s[e] == ' ';
    assert s[e + 1..e + 1 + |kw|] == kw;
    NumberThenLineAtStart(d, s, e, kw);
  }

  /** In a numeral, a space, a line word and a digit-free rest, the digits are
      exactly the numeral's. */
  lemma MentionDigits(d: Dialect, num: string, kw: string, rest: string)
    requires AllDigits(num) && LineWord(d, kw)
    requires forall k :: 0 <= k < |rest| ==> !IsDigit(rest[k])
    ensures forall k :: 0 <= k < |num + " " + kw + rest| ==>
              (k < |num| <==> IsDigit((num + " " + kw + rest)[k]))
  {
    var s := num + " " + kw + rest;
    forall k | 0 <= k < |s|
      ensures k < |num| <==> IsDigit(s[k])
    {
      if k < |num| {
        assert s[k] == num[k];
      } else if k == |num| {
        assert s[k] == ' ';
      } else if k <= |num| + |kw| {
        assert s[k] == kw[k - |num| - 1];
      } else {
        assert s[k] == rest[k - |num| - 1 - |kw|];
      }
    }
  }

  /** Any numeral, a space and a line word, with no digit after them: the
      first pattern fails and the second captures the numeral. */
  lemma NumeralMentionFound(d: Dialect, num: string, kw: string, rest: string)
    requires |num| >= 1 && AllDigits(num) && LineWord(d, kw)
    requires forall k :: 0 <= k < |rest| ==> !IsDigit(rest[k])
    ensures Search(LineThenNumber(d), num + " " + kw + rest, 0).None?
    ensures Search(NumberThenLine(d), num + " " + kw + rest, 0) == Some(num)
  {
    MentionDigits(d, num, kw, rest);
    NoLineBeforeDigits(d, num + " " + kw + rest, |num|);
    NumberThenLineHere(d, num, kw, rest);
  }

  /** A message that opens with the numeral of `n`, a space and a line word,
      and has no other digit, fails `line\s+(\d+)` and gives the numeral to
      the second pattern. */
  lemma NumberMentionFound(d: Dialect, n: nat, kw: string, rest: string)
    requires LineWord(d, kw)
    requires forall k :: 0 <= k < |rest| ==> !IsDigit(rest[k])
    ensures Search(LineThenNumber(d), Decimal(n) + " " + kw + rest, 0).None?
    ensures Search(NumberThenLine(d), Decimal(n) + " " + kw + rest, 0) == Some(Decimal(n))
  {
    NumeralMentionFound(d, Decimal(n), kw, rest);
  }
}
