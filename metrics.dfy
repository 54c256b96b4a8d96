/**
 * The browser client's code metrics and editor: the line count, the
 * Low/Medium/High complexity label from keyword counts, the line-number
 * gutter, and the Tab key replacing the selection by two spaces.
 */
module ClientMetrics {
  import opened Wire
  import opened Text

  /** `code.split('\n').length`. */
  function LineCount(code: string): (n: nat)
    ensures n == multiset(code)['\n'] + 1
    ensures n >= 1
  {
    |Split(code, '\n')|
  }

  // ------------------------------------------------------------ keywords

  predicate NonEmptyWords(kws: seq<string>) {
    forall k :: 0 <= k < |kws| ==> |kws[k]| >= 1
  }

  /** The length of the first alternative of `kw1|kw2|...` (case-insensitive)
      that matches at index `i`: alternatives are tried in the order listed,
      and the first that matches is taken even when a later one is longer. */
  function FirstAlternative(s: string, i: nat, kws: seq<string>): (r: Option<nat>)
    requires NonEmptyWords(kws)
    ensures r.Some? ==> r.value >= 1 && i + r.value <= |s|
    ensures r.Some? ==> exists k :: 0 <= k < |kws| && KeywordAt(s, i, kws[k]) && r.value == |kws[k]|
                                    && forall j :: 0 <= j < k ==> !KeywordAt(s, i, kws[j])
    ensures r.None? <==> forall k :: 0 <= k < |kws| ==> !KeywordAt(s, i, kws[k])
  {
    if kws == [] then None
    else if KeywordAt(s, i, kws[0]) then Some(|kws[0]|)
    else
      var r := FirstAlternative(s, i, kws[1..]);
      assert forall k :: 1 <= k < |kws| ==> kws[k] == kws[1..][k - 1];
      r
  }

  /** Where a match of `/kw1|kw2|.../i` that starts at index `p` ends. */
  function KeywordEnd(s: string, kws: seq<string>, p: nat): (r: Option<nat>)
    requires NonEmptyWords(kws)
    ensures r.Some? ==> p < r.value <= |s|
  {
    if p < |s| then
      match FirstAlternative(s, p, kws)
      case Some(len) => Some(p + len)
      case None => None
    else None
  }

  function KeywordEnds(s: string, kws: seq<string>): (end: nat -> Option<nat>)
    requires NonEmptyWords(kws)
    ensures forall p: nat :: end(p) == KeywordEnd(s, kws, p)
    ensures Advances(|s|, end)
  {
    (p: nat) => KeywordEnd(s, kws, p)
  }

  /** The number of matches of the global pattern `/kw1|kw2|.../gi` at or after
      index `i`, that is the length of the array `match` returns: after a
      match the search resumes where it ended. */
  function CountFrom(s: string, i: nat, kws: seq<string>): (n: nat)
    requires i <= |s| && NonEmptyWords(kws)
    ensures n == |MatchStarts(|s|, i, KeywordEnds(s, kws))|
    ensures n <= |s| - i
    decreases |s| - i
  {
    if i == |s| then 0
    else match KeywordEnd(s, kws, i)
      case Some(e) =>
        assert KeywordEnds(s, kws)(i) == Some(e);
        1 + CountFrom(s, e, kws)
      case None =>
        assert KeywordEnds(s, kws)(i).None?;
        CountFrom(s, i + 1, kws)
  }

  const LoopWords := ["for", "while", "foreach"]
  const ConditionWords := ["if", "else", "switch", "case"]

  function Loops(code: string): nat {
    CountFrom(code, 0, LoopWords)
  }

  function Conditions(code: string): nat {
    CountFrom(code, 0, ConditionWords)
  }

  /** A keyword that starts with another is found wherever the longer one is. */
  lemma KeywordPrefix(s: string, i: nat, kw: string, pre: string)
    requires KeywordAt(s, i, kw) && |pre| <= |kw| && kw[..|pre|] == pre
    ensures KeywordAt(s, i, pre)
  {
    var short := Lower(s[i..i + |pre|]);
    var long := Lower(s[i..i + |kw|]);
    forall k | 0 <= k < |pre|
      ensures short[k] == pre[k]
    {
      assert short[k] == LowerChar(s[i + k]) == long[k];
      assert kw[..|pre|][k] == kw[k];
    }
    assert short == pre;
  }

  /** Where "foreach" matches, "for" matches too, so the alternation finds
      the same thing with or without it. */
  lemma LoopAlternativeSame(s: string, i: nat)
    ensures FirstAlternative(s, i, LoopWords) == FirstAlternative(s, i, ["for", "while"])
  {
    assert LoopWords[1..] == ["while", "foreach"];
    assert ["while", "foreach"][1..] == ["foreach"];
    assert ["for", "while"][1..] == ["while"];
    assert ["foreach"][1..] == [] && ["while"][1..] == [];
    if KeywordAt(s, i, "foreach") {
      KeywordPrefix(s, i, "foreach", "for");
    }
  }

  lemma LoopEndSame(s: string, i: nat)
    ensures KeywordEnd(s, LoopWords, i) == KeywordEnd(s, ["for", "while"], i)
  {
    LoopAlternativeSame(s, i);
  }

  /** "foreach" is never what the loop pattern matches: "for", tried first,
      matches wherever it would, so the count is that of `for|while`. */
  lemma {:induction false} ForeachNeverCounted(s: string, i: nat)
    requires i <= |s|
    ensures CountFrom(s, i, LoopWords) == CountFrom(s, i, ["for", "while"])
    decreases |s| - i
  {
    if i < |s| {
      LoopEndSame(s, i);
      match KeywordEnd(s, LoopWords, i)
      case Some(e) =>
        ForeachNeverCounted(s, e);
        assert CountFrom(s, i, LoopWords) == 1 + CountFrom(s, e, LoopWords);
      case None =>
        ForeachNeverCounted(s, i + 1);
        assert CountFrom(s, i, LoopWords) == CountFrom(s, i + 1, LoopWords);
    }
  }

  // ------------------------------------------------------------ label

  /** The label shown for loops plus conditions. */
  function ComplexityLabel(loops: nat, conditions: nat): (tag: string)
    ensures tag == "Low" || tag == "Medium" || tag == "High"
    ensures tag == "High" <==> loops + conditions > 10
    ensures tag == "Low" <==> loops + conditions <= 5
  {
    var complexity := loops + conditions;
    if complexity > 10 then "High"
    else if complexity > 5 then "Medium"
    else "Low"
  }

  function Rank(tag: string): nat {
    if tag == "High" then 2 else if tag == "Medium" then 1 else 0
  }

  /** More loops or conditions never lower the label. */
  lemma LabelMonotone(l1: nat, c1: nat, l2: nat, c2: nat)
    requires l1 + c1 <= l2 + c2
    ensures Rank(ComplexityLabel(l1, c1)) <= Rank(ComplexityLabel(l2, c2))
  {
  }

  /** The metrics panel: lines, characters and the complexity label (the
      function count is not part of this model). */
  datatype Metrics = Metrics(lines: nat, chars: nat, complexity: string)

  /** `updateMetrics` on the editor's text. */
  function MetricsOf(code: string): (m: Metrics)
    ensures m.lines == multiset(code)['\n'] + 1
    ensures m.chars == |code|
    ensures m.complexity == "High" <==> Loops(code) + Conditions(code) > 10
    ensures m.complexity == "Low" <==> Loops(code) + Conditions(code) <= 5
  {
    Metrics(LineCount(code), |code|, ComplexityLabel(Loops(code), Conditions(code)))
  }

  // ------------------------------------------------------------ gutter

  /** The gutter the editor should show: the numbers 1 to the line count. */
  function Gutter(value: string): (g: seq<string>)
    ensures |g| == LineCount(value)
    ensures forall k :: 0 <= k < |g| ==> AllDigits(g[k]) && DigitsValue(g[k]) == k + 1
  {
    seq(LineCount(value), k requires 0 <= k => Decimal(k + 1))
  }

  /** `updateLineNumbers`: one element per line, numbered from 1. */
  method LineNumbers(value: string) returns (gutter: seq<string>)
    ensures gutter == Gutter(value)
  {
    var lines := LineCount(value);
    gutter := [];
    var i := 1;
    while i <= lines
      invariant 1 <= i <= lines + 1
      invariant |gutter| == i - 1
      invariant forall k :: 0 <= k < i - 1 ==> gutter[k] == Decimal(k + 1)
    {
      gutter := gutter + [Decimal(i)];
      i := i + 1;
    }
  }

  // ------------------------------------------------------------ editor

  /** The code editor: its text, its selection and its gutter. */
  class Editor {
    var value: string
    var selectionStart: nat
    var selectionEnd: nat
    var gutter: seq<string>

    predicate Valid()
      reads this
    {
      selectionStart <= selectionEnd <= |value|
    }

    constructor (text: string)
      ensures value == text && selectionStart == 0 && selectionEnd == 0
      ensures Valid()
    {
      value := text;
      selectionStart := 0;
      selectionEnd := 0;
      gutter := [];
    }

    /** The Tab key: the selection becomes two spaces, the caret goes after
        them, and the gutter is redrawn. */
    method InsertTab()
      requires Valid()
      modifies this
      ensures value == old(value[..selectionStart]) + "  " + old(value[selectionEnd..])
      ensures selectionStart == selectionEnd == old(selectionStart) + 2
      ensures gutter == Gutter(value)
      ensures Valid()
    {
      var start := selectionStart;
      var end := selectionEnd;
      value := value[..start] + "  " + value[end..];
      selectionStart := start + 2;
      selectionEnd := start + 2;
      gutter := LineNumbers(value);
    }
  }

  /** Replacing a selection by two spaces removes exactly the line breaks it
      held, so the line count drops by that many. */
  lemma TabLineCount(value: string, start: nat, end: nat)
    requires start <= end <= |value|
    ensures LineCount(value[..start] + "  " + value[end..])
            == LineCount(value) - multiset(value[start..end])['\n']
  {
    assert value == value[..start] + value[start..end] + value[end..];
    assert multiset("  ")['\n'] == 0;
  }
}
