/**
 * How the engine's output and the browser client's rendering fit together.
 */
module Agreement {
  import opened Wire
  import opened Text
  import opened Patterns
  import opened LineExtraction
  import opened Engine
  import opened ClientBugTable
  import opened ClientAnalysis

  predicate DigitFree(s: string) {
    forall k :: 0 <= k < |s| ==> !IsDigit(s[k])
  }

  lemma DigitFreeAppend(a: string, b: string)
    requires DigitFree(a) && DigitFree(b)
    ensures DigitFree(a + b)
  {
    forall k | 0 <= k < |a + b|
      ensures !IsDigit((a + b)[k])
    {
      if k >= |a| {
        assert (a + b)[k] == b[k - |a|];
      }
    }
  }

  lemma HeadDigitFree()
    ensures DigitFree("Groq key missing \U{2014} ")
  {
  }

  lemma MiddleDigitFree()
    ensures DigitFree("no real AI output. ")
  {
  }

  lemma TailDigitFree()
    ensures DigitFree("Only basic checks done.")
  {
  }

  /** The offline bug message holds no digit. */
  lemma OfflineMessageHasNoDigits()
    ensures DigitFree(OfflineBugMessage)
  {
    HeadDigitFree();
    MiddleDigitFree();
    TailDigitFree();
    DigitFreeAppend("Groq key missing \U{2014} ", "no real AI output. ");
    DigitFreeAppend("Groq key missing \U{2014} " + "no real AI output. ", "Only basic checks done.");
  }

  /** The offline result is shown as one "Info" row in the default colour,
      with a dimmed "-" for its line, since its message holds no digits. */
  lemma OfflineRendered(code: string)
    ensures RowsFor(OfflineAnalysis(code).bugs)
            == Some([BugRow(Placeholder, "Info", DefaultColor, OfflineBugMessage)])
  {
    var bugs := OfflineAnalysis(code).bugs.value;
    OfflineMessageHasNoDigits();
    NoDigitsPlaceholder(Present("Info"), OfflineBugMessage);
    assert "Info" !in TypeColors;
    assert bugs == [Bug(Null, Present("Info"), Present(OfflineBugMessage))];
    assert RowFor(bugs[0]) == Some(BugRow(Placeholder, "Info", DefaultColor, OfflineBugMessage));
    var rows := RowsFor(OfflineAnalysis(code).bugs);
    assert rows.Some? && |rows.value| == 1;
    assert rows.value == [rows.value[0]];
  }

  /** Received from the engine, the offline result is saved and reported
      with the engine's message. */
  lemma OfflineOutcome(language: string, input: string, code: string, typeErrorText: string)
    requires RequestFor(language, input).Some?
    ensures OutcomeOf(language, input, Responded(200, Data(OfflineAnalysis(code))), typeErrorText)
            == Sent(RequestFor(language, input).value, Shown(OfflineMessage, InfoStatus),
                    Some(OfflineAnalysis(code)),
                    [BugRow(Placeholder, "Info", DefaultColor, OfflineBugMessage)])
  {
    OfflineRendered(code);
  }

  /** A line the engine filled in is shown in bold as that number. */
  lemma FilledLineShown(b: Bug, code: string)
    requires FilledBug(b, code).Some? && FilledBug(b, code).value != b
    ensures exists n: nat :: n >= 1 && LineNumberOf(b.message.value, code) == Some(n)
                             && LineCellOf(FilledBug(b, code).value) == Some(Explicit(Decimal(n)))
  {
  }

  const Abbreviated := "12 l."

  /** "12 l." holds no "line" followed by a number, in either dialect. */
  lemma AbbreviationHasNoLineWord(d: Dialect)
    ensures Search(LineThenNumber(d), Abbreviated, 0).None?
  {
    var s := Abbreviated;
    forall i: nat
      ensures MatchAt(LineThenNumber(d), s, i).None?
    {
      if i + 4 <= |s| {
        assert Lower(s[i..i + 4])[0] != 'l';
      }
    }
    SearchSkips(LineThenNumber(d), s, 0, |s|);
  }

  /** The engine's pattern, which accepts "l.", matches "12 l." at its start. */
  lemma EngineMatchesAbbreviation()
    ensures Search(NumberThenLine(Python), Abbreviated, 0) == Some("12")
  {
    var s := Abbreviated;
    RunEndIs(s, 0, 2, IsDigit);
    RunEndIs(s, 2, 3, IsPySpace);
    assert Lower(s[3..5]) == "l.";
    assert s[0..2] == "12";
    assert NumberThenLineAt(Python, s, 0) == Some("12");
  }

  /** The client's pattern, which lacks "l.", matches nowhere in "12 l.". */
  lemma ClientMissesAbbreviation()
    ensures Search(NumberThenLine(JavaScript), Abbreviated, 0).None?
  {
    var s := Abbreviated;
    RunEndIs(s, 0, 2, IsDigit);
    RunEndIs(s, 2, 3, IsJsSpace);
    assert Lower(s[3..5])[1] == '.';
    forall i: nat
      ensures MatchAt(NumberThenLine(JavaScript), s, i).None?
    {
      if i == 0 {
        assert !KeywordAt(s, 3, "ln");
        assert !KeywordAt(s, 3, "line");
      }
    }
    SearchSkips(NumberThenLine(JavaScript), s, 0, |s|);
  }

  /** The engine reads "12 l." as line 12, whatever the code. */
  lemma ServerReadsAbbreviation(code: string)
    ensures LineNumberOf(Abbreviated, code) == Some(12)
  {
    AbbreviationHasNoLineWord(Python);
    EngineMatchesAbbreviation();
    assert "12"[..1] == "1" && "1"[..0] == "";
    assert DigitsValue("12") == 12;
  }

  /** The client does not recover a line from "12 l.": the row shows "-". */
  lemma ClientIgnoresAbbreviation(kind: Field<string>)
    ensures LineCellOf(Bug(Null, kind, Present(Abbreviated))) == Some(Placeholder)
  {
    AbbreviationHasNoLineWord(JavaScript);
    ClientMissesAbbreviation();
  }
}
