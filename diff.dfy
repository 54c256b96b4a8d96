/**
 * The browser client's line-by-line diff of the editor's code against the
 * fixed (or optimised) code: line i of each side is compared, a missing line
 * counts as empty, and each pair gives a neutral row, or a removed row and an
 * added row, leaving out empty lines. Line text is HTML-escaped.
 */
module ClientDiff {
  import opened Text

  datatype DiffRow = Removed(text: string) | Added(text: string) | Neutral(text: string)

  // ------------------------------------------------------------ escaping

  /** How one character of a text node is serialised by `innerHTML`. */
  function EscapeChar(c: char): string {
    if c == '&' then "&amp;"
    else if c == '<' then "&lt;"
    else if c == '>' then "&gt;"
    else if c == '\U{A0}' then "&nbsp;"
    else [c]
  }

  /** `escapeHtml`: the `innerHTML` of an element whose text is `t`. */
  function EscapeHtml(t: string): (r: string)
    ensures '<' !in r && '>' !in r
    ensures |r| >= |t|
  {
    if t == [] then [] else EscapeChar(t[0]) + EscapeHtml(t[1..])
  }

  /** The character references EscapeHtml writes, read back as characters:
      the inverse of EscapeHtml (EscapeRoundTrip). An HTML parser also turns
      "\r" and "\r\n" into "\n" and drops NUL; that is not modelled here. */
  function UnescapeHtml(s: string): string
    decreases |s|
  {
    if s == [] then []
    else if StartsWith(s, "&amp;") then "&" + UnescapeHtml(s[5..])
    else if StartsWith(s, "&lt;") then "<" + UnescapeHtml(s[4..])
    else if StartsWith(s, "&gt;") then ">" + UnescapeHtml(s[4..])
    else if StartsWith(s, "&nbsp;") then "\U{A0}" + UnescapeHtml(s[6..])
    else [s[0]] + UnescapeHtml(s[1..])
  }

  lemma UnescapeAmp(rest: string)
    ensures UnescapeHtml("&amp;" + rest) == "&" + UnescapeHtml(rest)
  {
    var e := "&amp;" + rest;
    assert e[..5] == "&amp;" && e[5..] == rest;
  }

  lemma UnescapeLt(rest: string)
    ensures UnescapeHtml("&lt;" + rest) == "<" + UnescapeHtml(rest)
  {
    var e := "&lt;" + rest;
    assert e[1] == 'l';
    assert e[..4] == "&lt;" && e[4..] == rest;
  }

  lemma UnescapeGt(rest: string)
    ensures UnescapeHtml("&gt;" + rest) == ">" + UnescapeHtml(rest)
  {
    var e := "&gt;" + rest;
    assert e[1] == 'g';
    assert e[..4] == "&gt;" && e[4..] == rest;
  }

  lemma UnescapeNbsp(rest: string)
    ensures UnescapeHtml("&nbsp;" + rest) == "\U{A0}" + UnescapeHtml(rest)
  {
    var e := "&nbsp;" + rest;
    assert e[1] == 'n';
    assert e[..6] == "&nbsp;" && e[6..] == rest;
  }

  /** Every entity starts with an ampersand; any other character is read as itself. */
  lemma UnescapePlain(c: char, rest: string)
    requires c != '&'
    ensures UnescapeHtml([c] + rest) == [c] + UnescapeHtml(rest)
  {
    var e := [c] + rest;
    assert e[0] == c && e[1..] == rest;
  }

  /** One escaped character reads back as itself, whatever follows it. */
  lemma UnescapeStep(c: char, rest: string)
    ensures UnescapeHtml(EscapeChar(c) + rest) == [c] + UnescapeHtml(rest)
  {
    if c == '&' {
      UnescapeAmp(rest);
    } else if c == '<' {
      UnescapeLt(rest);
    } else if c == '>' {
      UnescapeGt(rest);
    } else if c == '\U{A0}' {
      UnescapeNbsp(rest);
    } else {
      UnescapePlain(c, rest);
    }
  }

  /** Escaping loses nothing: the page shows exactly the line's text. */
  lemma {:induction false} EscapeRoundTrip(t: string)
    ensures UnescapeHtml(EscapeHtml(t)) == t
  {
    if t != [] {
      EscapeRoundTrip(t[1..]);
      UnescapeStep(t[0], EscapeHtml(t[1..]));
      assert t == [t[0]] + t[1..];
    }
  }

  // ------------------------------------------------------------ rows

  /** `lines[i] || ''`. */
  function LineAt(lines: seq<string>, i: nat): string {
    if i < |lines| then lines[i] else ""
  }

  /** A line as it can appear in the view: an empty line never does. */
  function Shown(line: string): seq<string> {
    if line != "" then [line] else []
  }

  /** The rows one pair of lines gives: a changed pair is shown as the removed
      original line followed by the added fixed line, an unchanged one as one
      neutral line, and an empty line is never shown. */
  function DiffAt(o: string, f: string): (r: seq<DiffRow>)
    ensures o != f && o != "" && f != "" ==> r == [Removed(o), Added(f)]
    ensures o != f && o == "" ==> r == [Added(f)]
    ensures o != f && f == "" ==> r == [Removed(o)]
    ensures o == f && o != "" ==> r == [Neutral(o)]
    ensures o == f == "" ==> r == []
  {
    if o != f then IfShown(Removed(o)) + IfShown(Added(f))
    else IfShown(Neutral(o))
  }

  /** A row is only emitted for a non-empty line. */
  function IfShown(row: DiffRow): (r: seq<DiffRow>)
    ensures |r| <= 1
  {
    if row.text != "" then [row] else []
  }

  /** Each pair shows its original line (if not empty) once on the old side
      and its fixed line (if not empty) once on the new side. */
  lemma DiffAtSides(o: string, f: string)
    ensures OldSide(DiffAt(o, f)) == Shown(o)
    ensures NewSide(DiffAt(o, f)) == Shown(f)
  {
    assert OldSide([Removed(o)]) == [o] && NewSide([Removed(o)]) == [];
    assert OldSide([Added(f)]) == [] && NewSide([Added(f)]) == [f];
    assert OldSide([Neutral(o)]) == [o] && NewSide([Neutral(o)]) == [o];
    OldSideAppend(IfShown(Removed(o)), IfShown(Added(f)));
    NewSideAppend(IfShown(Removed(o)), IfShown(Added(f)));
  }

  /** The texts of the rows that show the original side. */
  function OldSide(rows: seq<DiffRow>): seq<string> {
    if rows == [] then []
    else (if rows[0].Added? then [] else [rows[0].text]) + OldSide(rows[1..])
  }

  /** The texts of the rows that show the new side. */
  function NewSide(rows: seq<DiffRow>): seq<string> {
    if rows == [] then []
    else (if rows[0].Removed? then [] else [rows[0].text]) + NewSide(rows[1..])
  }

  lemma {:induction false} OldSideAppend(a: seq<DiffRow>, b: seq<DiffRow>)
    ensures OldSide(a + b) == OldSide(a) + OldSide(b)
  {
    if a == [] {
      assert a + b == b;
    } else {
      assert (a + b)[0] == a[0];
      assert (a + b)[1..] == a[1..] + b;
      OldSideAppend(a[1..], b);
    }
  }

  lemma {:induction false} NewSideAppend(a: seq<DiffRow>, b: seq<DiffRow>)
    ensures NewSide(a + b) == NewSide(a) + NewSide(b)
  {
    if a == [] {
      assert a + b == b;
    } else {
      assert (a + b)[0] == a[0];
      assert (a + b)[1..] == a[1..] + b;
      NewSideAppend(a[1..], b);
    }
  }

  function Max(a: nat, b: nat): nat {
    if a < b then b else a
  }

  /** The rows of the diff view of `original` against `fixed`. The diff loses
      no line and invents none: read through the removed and neutral rows it
      is the original's non-empty lines in order, and through the added and
      neutral rows the fixed code's. */
  function Diff(original: string, fixed: string): (r: seq<DiffRow>)
    ensures OldSide(r) == Kept(Split(original, '\n'), |Split(original, '\n')|)
    ensures NewSide(r) == Kept(Split(fixed, '\n'), |Split(fixed, '\n')|)
  {
    var origLines := Split(original, '\n');
    var fixedLines := Split(fixed, '\n');
    var n := Max(|origLines|, |fixedLines|);
    KeptPadding(origLines, n);
    KeptPadding(fixedLines, n);
    DiffRows(origLines, fixedLines, n)
  }

  /** The non-empty ones among the first `n` lines, padding with empty lines. */
  function Kept(lines: seq<string>, n: nat): seq<string> {
    if n == 0 then []
    else Kept(lines, n - 1) + Shown(LineAt(lines, n - 1))
  }

  lemma {:induction false} KeptPadding(lines: seq<string>, n: nat)
    requires n >= |lines|
    ensures Kept(lines, n) == Kept(lines, |lines|)
  {
    if n > |lines| {
      KeptPadding(lines, n - 1);
    }
  }

  /** The rows for the first `n` line pairs. Read through the removed and
      neutral rows they are the non-empty ones among the first `n` original
      lines, in order, and through the added and neutral rows those among the
      first `n` fixed lines. */
  function DiffRows(origLines: seq<string>, fixedLines: seq<string>, n: nat): (r: seq<DiffRow>)
    ensures |r| <= 2 * n
    ensures OldSide(r) == Kept(origLines, n)
    ensures NewSide(r) == Kept(fixedLines, n)
  {
    if n == 0 then []
    else
      var before := DiffRows(origLines, fixedLines, n - 1);
      var here := DiffAt(LineAt(origLines, n - 1), LineAt(fixedLines, n - 1));
      DiffAtSides(LineAt(origLines, n - 1), LineAt(fixedLines, n - 1));
      OldSideAppend(before, here);
      NewSideAppend(before, here);
      before + here
  }

  predicate AllNeutral(rows: seq<DiffRow>) {
    forall k :: 0 <= k < |rows| ==> rows[k].Neutral?
  }

  lemma NeutralAppend(a: seq<DiffRow>, b: seq<DiffRow>)
    requires AllNeutral(a) && AllNeutral(b)
    ensures AllNeutral(a + b)
  {
    forall k | |a| <= k < |a + b|
      ensures (a + b)[k].Neutral?
    {
      assert (a + b)[k] == b[k - |a|];
    }
  }

  lemma {:induction false} IdenticalRowsNeutral(lines: seq<string>, n: nat)
    ensures AllNeutral(DiffRows(lines, lines, n))
  {
    if n > 0 {
      IdenticalRowsNeutral(lines, n - 1);
      var line := LineAt(lines, n - 1);
      assert AllNeutral(DiffAt(line, line));
      NeutralAppend(DiffRows(lines, lines, n - 1), DiffAt(line, line));
    }
  }

  /** Comparing code with itself shows no change. */
  lemma IdenticalNoChange(code: string)
    ensures AllNeutral(Diff(code, code))
  {
    var lines := Split(code, '\n');
    IdenticalRowsNeutral(lines, Max(|lines|, |lines|));
  }

  // ------------------------------------------------------------ markup

  const Open := "<div class=\"diff-container\">"
  const Close := "</div>"

  function RowHtml(row: DiffRow): string {
    match row
    case Removed(t) => "<div class=\"diff-line diff-removed\">- " + EscapeHtml(t) + "</div>"
    case Added(t) => "<div class=\"diff-line diff-added\">+ " + EscapeHtml(t) + "</div>"
    case Neutral(t) => "<div class=\"diff-line diff-neutral\">  " + EscapeHtml(t) + "</div>"
  }

  function RenderRows(rows: seq<DiffRow>): string {
    if rows == [] then "" else RowHtml(rows[0]) + RenderRows(rows[1..])
  }

  lemma {:induction false} RenderAppend(a: seq<DiffRow>, b: seq<DiffRow>)
    ensures RenderRows(a + b) == RenderRows(a) + RenderRows(b)
  {
    if a == [] {
      assert a + b == b;
    } else {
      assert (a + b)[1..] == a[1..] + b;
      RenderAppend(a[1..], b);
    }
  }

  lemma RenderShown(row: DiffRow)
    ensures RenderRows(IfShown(row)) == if row.text != "" then RowHtml(row) else ""
  {
    assert [row][1..] == [];
  }

  /** The markup the loop body of `generateDiffView` appends for a pair of
      different lines. */
  method ChangedHtml(origLine: string, fixedLine: string) returns (step: string)
    requires origLine != fixedLine
    ensures step == RenderRows(DiffAt(origLine, fixedLine))
  {
    RenderShown(Removed(origLine));
    RenderShown(Added(fixedLine));
    RenderAppend(IfShown(Removed(origLine)), IfShown(Added(fixedLine)));
    step := "";
    if origLine != "" {
      step := step + RowHtml(Removed(origLine));
    }
    assert step == RenderRows(IfShown(Removed(origLine)));
    if fixedLine != "" {
      step := step + RowHtml(Added(fixedLine));
    }
  }

  /** The markup the loop body of `generateDiffView` appends for one pair. */
  method PairHtml(origLine: string, fixedLine: string) returns (step: string)
    ensures step == RenderRows(DiffAt(origLine, fixedLine))
  {
    if origLine != fixedLine {
      step := ChangedHtml(origLine, fixedLine);
    } else if origLine != "" {
      RenderShown(Neutral(origLine));
      step := RowHtml(Neutral(origLine));
    } else {
      step := "";
    }
  }

  /** Appending text to the markup so far extends what follows the head. */
  lemma AppendAfterHead(head: string, x: string, y: string, html: string)
    requires html == head + x
    ensures html + y == head + (x + y)
  {
    assert (head + x) + y == head + (x + y);
  }

  /** `generateDiffView(original, fixed)`: the container, then the rows of
      each line pair in order. */
  method GenerateDiffView(original: string, fixed: string) returns (html: string)
    ensures html == Open + RenderRows(Diff(original, fixed)) + Close
  {
    var origLines := Split(original, '\n');
    var fixedLines := Split(fixed, '\n');
    html := Open;
    var maxLines := Max(|origLines|, |fixedLines|);
    var i := 0;
    while i < maxLines
      invariant 0 <= i <= maxLines
      invariant html == Open + RenderRows(DiffRows(origLines, fixedLines, i))
    {
      var origLine := LineAt(origLines, i);
      var fixedLine := LineAt(fixedLines, i);
      var step := PairHtml(origLine, fixedLine);
      RenderAppend(DiffRows(origLines, fixedLines, i), DiffAt(origLine, fixedLine));
      AppendAfterHead(Open, RenderRows(DiffRows(origLines, fixedLines, i)), step, html);
      html := html + step;
      i := i + 1;
    }
    html := html + Close;
  }
}
