/**
 * How the browser client turns the "bugs" of an analysis into table rows:
 * the line cell (the given line, else a number read from the message with the
 * client's own two patterns, else a dimmed "-"), the type label and its
 * colour, the message, and the single "No bugs detected." row.
 */
module ClientBugTable {
  import opened Wire
  import opened Text
  import opened Patterns

  /** The first cell of a bug row: a given line (in bold), digits read from
      the message (full opacity), or "-" at half opacity. */
  datatype LineCell = Explicit(text: string) | Recovered(digits: string) | Placeholder

  datatype Row =
    | BugRow(line: LineCell, typeLabel: string, color: string, message: string)
    | EmptyRow(colSpan: nat, text: string)

  const DefaultColor := "#888888"
  const NoBugsText := "No bugs detected."

  /** `TYPE_COLORS`. */
  const TypeColors: map<string, string> := map[
    "Syntax" := "#ff6b6b",
    "Logic" := "#ffd93d",
    "Performance" := "#6bcf7f",
    "Style" := "#a78bfa",
    "Other" := "#888888"]

  /** The text of the line cell; `None` stands for the TypeError raised by
      `bug.message.match` when the line is missing and the message is null
      or missing. */
  function LineCellOf(b: Bug): (r: Option<LineCell>)
    ensures r.None? <==> LineMissing(b) && !b.message.Present?
    ensures b.line.Present? ==> r == Some(Explicit(IntText(b.line.value)))
    ensures r.Some? && r.value.Recovered? ==>
              LineMissing(b) && |r.value.digits| >= 1 && AllDigits(r.value.digits)
    ensures LineMissing(b) && b.message.Present? && Search(LineThenNumber(JavaScript), b.message.value, 0).Some?
            ==> r == Some(Recovered(Search(LineThenNumber(JavaScript), b.message.value, 0).value))
    ensures LineMissing(b) && b.message.Present? && Search(LineThenNumber(JavaScript), b.message.value, 0).None?
            && Search(NumberThenLine(JavaScript), b.message.value, 0).Some?
            ==> r == Some(Recovered(Search(NumberThenLine(JavaScript), b.message.value, 0).value))
    ensures r == Some(Placeholder) <==>
              LineMissing(b) && b.message.Present?
              && Search(LineThenNumber(JavaScript), b.message.value, 0).None?
              && Search(NumberThenLine(JavaScript), b.message.value, 0).None?
  {
    if !LineMissing(b) then Some(Explicit(IntText(b.line.value)))
    else if !b.message.Present? then None
    else
      match Search(LineThenNumber(JavaScript), b.message.value, 0)
      case Some(d) => Some(Recovered(d))
      case None =>
        match Search(NumberThenLine(JavaScript), b.message.value, 0)
        case Some(d) => Some(Recovered(d))
        case None => Some(Placeholder)
  }

  /** `bug.type || "Info"`. */
  function TypeLabel(kind: Field<string>): (t: string)
    ensures kind.Present? && kind.value != "" ==> t == kind.value
    ensures !kind.Present? || kind.value == "" ==> t == "Info"
  {
    if kind.Present? && kind.value != "" then kind.value else "Info"
  }

  /** `TYPE_COLORS[bug.type] || "#888888"`. */
  function TypeColor(kind: Field<string>): (c: string)
    ensures kind.Present? && kind.value in TypeColors ==> c == TypeColors[kind.value]
    ensures !(kind.Present? && kind.value in TypeColors) ==> c == DefaultColor
    ensures c in TypeColors.Values
  {
    assert TypeColors["Other"] == DefaultColor;
    if kind.Present? && kind.value in TypeColors then TypeColors[kind.value] else DefaultColor
  }

  /** The row for one bug, None where building it raises. */
  function RowFor(b: Bug): (r: Option<Row>)
    ensures r.None? <==> LineMissing(b) && !b.message.Present?
    ensures r.Some? ==> r.value.BugRow? && Some(r.value.line) == LineCellOf(b)
                        && r.value.typeLabel == TypeLabel(b.kind) && r.value.color == TypeColor(b.kind)
                        && r.value.message == (if b.message.Present? then b.message.value else "")
  {
    match LineCellOf(b)
    case None => None
    case Some(cell) =>
      Some(BugRow(cell, TypeLabel(b.kind), TypeColor(b.kind),
                  if b.message.Present? then b.message.value else ""))
  }

  /** All rows, or None when some bug's row raises (the fragment holding the
      rows built so far is then never attached). */
  function RowsFor(bugs: Field<seq<Bug>>): (r: Option<seq<Row>>)
    ensures !bugs.Present? || bugs.value == [] ==> r == Some([EmptyRow(4, NoBugsText)])
    ensures bugs.Present? && bugs.value != [] ==>
              (r.Some? <==> forall k :: 0 <= k < |bugs.value| ==> RowFor(bugs.value[k]).Some?)
    ensures bugs.Present? && bugs.value != [] && r.Some? ==>
              |r.value| == |bugs.value|
              && forall k :: 0 <= k < |bugs.value| ==> r.value[k] == RowFor(bugs.value[k]).value
  {
    if !bugs.Present? || bugs.value == [] then Some([EmptyRow(4, NoBugsText)])
    else RowsOf(bugs.value)
  }

  function RowsOf(bs: seq<Bug>): (r: Option<seq<Row>>)
    ensures r.Some? <==> forall k :: 0 <= k < |bs| ==> RowFor(bs[k]).Some?
    ensures r.Some? ==> |r.value| == |bs| && forall k :: 0 <= k < |bs| ==> r.value[k] == RowFor(bs[k]).value
  {
    if bs == [] then Some([])
    else
      var rest := RowsOf(bs[1..]);
      assert forall k :: 1 <= k < |bs| ==> bs[k] == bs[1..][k - 1];
      if RowFor(bs[0]).None? || rest.None? then None
      else Some([RowFor(bs[0]).value] + rest.value)
  }

  /** The loop building the table body, stopping where a row raises. */
  method RenderBugRows(bugs: Field<seq<Bug>>) returns (rows: Option<seq<Row>>)
    ensures rows == RowsFor(bugs)
  {
    if !bugs.Present? || |bugs.value| == 0 {
      return Some([EmptyRow(4, NoBugsText)]);
    }
    var list := bugs.value;
    var fragment: seq<Row> := [];
    var i := 0;
    while i < |list|
      invariant 0 <= i <= |list|
      invariant |fragment| == i
      invariant forall k :: 0 <= k < i ==> RowFor(list[k]).Some? && fragment[k] == RowFor(list[k]).value
    {
      var row := RowFor(list[i]);
      if row.None? {
        RowsOfFails(list, i);
        return None;
      }
      fragment := fragment + [row.value];
      i := i + 1;
    }
    RowsOfAll(list, fragment);
    return Some(fragment);
  }

  /** One row that raises makes the whole list raise. */
  lemma RowsOfFails(bs: seq<Bug>, i: nat)
    requires i < |bs| && RowFor(bs[i]).None?
    ensures RowsOf(bs).None?
  {
  }

  /** Rows built one per bug, in order, are the list's rows. */
  lemma RowsOfAll(bs: seq<Bug>, rows: seq<Row>)
    requires |rows| == |bs|
    requires forall k :: 0 <= k < |bs| ==> RowFor(bs[k]).Some? && rows[k] == RowFor(bs[k]).value
    ensures RowsOf(bs) == Some(rows)
  {
    assert RowsOf(bs).value == rows;
  }

  /** A bug without a line whose message mentions "line N" is shown with N,
      whatever else the message says after it. */
  lemma {:induction false} MentionedLineShown(kind: Field<string>, prefix: string, n: nat, rest: string)
    requires forall j :: 0 <= j < |prefix| ==> !KeywordAt(prefix + "line " + Decimal(n) + rest, j, "line")
    requires rest == [] || !IsDigit(rest[0])
    ensures LineCellOf(Bug(Null, kind, Present(prefix + "line " + Decimal(n) + rest)))
            == Some(Recovered(Decimal(n)))
  {
    LineMentionFound(JavaScript, prefix, n, rest);
  }

  /** A bug without a line whose message opens with "N line" or "N ln", and
      has no other digit, is shown with N: the first pattern finds nothing and
      the second captures the numeral. */
  lemma NumberedLineShown(kind: Field<string>, n: nat, kw: string, rest: string)
    requires LineWord(JavaScript, kw)
    requires forall k :: 0 <= k < |rest| ==> !IsDigit(rest[k])
    ensures LineCellOf(Bug(Null, kind, Present(Decimal(n) + " " + kw + rest)))
            == Some(Recovered(Decimal(n)))
  {
    NumberMentionFound(JavaScript, n, kw, rest);
  }

  /** A bug without a line whose message has no digits gets the placeholder. */
  lemma NoDigitsPlaceholder(kind: Field<string>, message: string)
    requires forall k :: 0 <= k < |message| ==> !IsDigit(message[k])
    ensures LineCellOf(Bug(Null, kind, Present(message))) == Some(Placeholder)
  {
    NoDigitsNoMatch(LineThenNumber(JavaScript), message);
    NoDigitsNoMatch(NumberThenLine(JavaScript), message);
  }
}
