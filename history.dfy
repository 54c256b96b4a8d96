/**
 * The browser client's analysis history: a list of at most twenty entries,
 * newest first, each holding a short preview of the analysed code. An entry
 * is found again by the id written into its "Load" button.
 */
module ClientHistory {
  import opened Wire
  import opened Text

  const MaxEntries := 20
  const PreviewLength := 100

  datatype Entry = Entry(
    id: int,
    timestamp: string,
    language: string,
    code: string,
    fullCode: string,
    bugCount: nat)

  /** The stored preview: the first hundred characters, with "..." appended
      when the code was longer. */
  function Preview(code: string): (p: string)
    ensures |code| <= PreviewLength ==> p == code
    ensures |code| > PreviewLength ==> |p| == PreviewLength + 3 && p[..PreviewLength] == code[..PreviewLength]
                                       && p[PreviewLength..] == "..."
  {
    if |code| > PreviewLength then code[..PreviewLength] + "..." else code
  }

  /** `result.bugs?.length || 0`. */
  function BugCount(bugs: Field<seq<Bug>>): (n: nat)
    ensures bugs.Present? ==> n == |bugs.value|
    ensures !bugs.Present? ==> n == 0
  {
    if bugs.Present? then |bugs.value| else 0
  }

  /** The entry `saveToHistory` builds; the clock's `id` and `timestamp` are
      parameters. */
  function MakeEntry(id: int, timestamp: string, language: string, code: string, result: Analysis): (e: Entry)
    ensures e.fullCode == code && e.language == language && e.id == id
    ensures e.code == Preview(code) && e.bugCount == BugCount(result.bugs)
  {
    Entry(id, timestamp, language, Preview(code), code, BugCount(result.bugs))
  }

  function Min(a: int, b: int): int {
    if a < b then a else b
  }

  /** `unshift` followed by `slice(0, 20)`: the new entry first, then the old
      list in order, losing its oldest entries beyond the limit. */
  function Inserted(h: seq<Entry>, e: Entry): (r: seq<Entry>)
    ensures |r| == Min(|h| + 1, MaxEntries)
    ensures r[0] == e
    ensures r[1..] == h[..|r| - 1]
  {
    ([e] + h)[..Min(|h| + 1, MaxEntries)]
  }

  /** A full list loses exactly its oldest entry. */
  lemma InsertIntoFull(h: seq<Entry>, e: Entry)
    requires |h| == MaxEntries
    ensures Inserted(h, e) == [e] + h[..MaxEntries - 1]
  {
    var r := Inserted(h, e);
    assert r == [r[0]] + r[1..];
  }

  /** Inserting entries one after another, in order. */
  function InsertAll(h: seq<Entry>, es: seq<Entry>): seq<Entry>
    decreases |es|
  {
    if es == [] then h else InsertAll(Inserted(h, es[0]), es[1..])
  }

  function Reversed(es: seq<Entry>): (r: seq<Entry>)
    ensures |r| == |es|
    ensures forall k :: 0 <= k < |es| ==> r[k] == es[|es| - 1 - k]
  {
    if es == [] then [] else Reversed(es[1..]) + [es[0]]
  }

  /** After any series of saves the list holds the twenty most recent entries,
      newest first, followed by as many of the older ones as still fit. */
  lemma {:induction false} InsertAllKeepsNewest(h: seq<Entry>, es: seq<Entry>)
    requires |h| <= MaxEntries
    ensures InsertAll(h, es) == (Reversed(es) + h)[..Min(|es| + |h|, MaxEntries)]
    decreases |es|
  {
    if es != [] {
      var h1 := Inserted(h, es[0]);
      InsertAllKeepsNewest(h1, es[1..]);
      var n := Min(|es| + |h|, MaxEntries);
      var rev := Reversed(es[1..]);
      assert Reversed(es) == rev + [es[0]];
      assert |h1| == Min(|h| + 1, MaxEntries);
      assert Min(|es[1..]| + |h1|, MaxEntries) == n;
      var lhs := (rev + h1)[..n];
      var rhs := (Reversed(es) + h)[..n];
      assert |lhs| == |rhs|;
      forall k | 0 <= k < n
        ensures lhs[k] == rhs[k]
      {
        if k < |rev| {
        } else if k == |rev| {
          assert h1[0] == es[0];
        } else {
          assert h1[k - |rev|] == h1[1..][k - |rev| - 1];
        }
      }
      assert lhs == rhs;
      assert InsertAll(h, es) == InsertAll(h1, es[1..]);
      assert InsertAll(h1, es[1..]) == lhs;
    }
  }

  /** `history.find(h => h.id === id)`. */
  function Find(h: seq<Entry>, id: int): (r: Option<Entry>)
    ensures r.Some? ==> exists k :: 0 <= k < |h| && h[k] == r.value && r.value.id == id
                                    && forall j :: 0 <= j < k ==> h[j].id != id
    ensures r.None? <==> forall k :: 0 <= k < |h| ==> h[k].id != id
  {
    if h == [] then None
    else if h[0].id == id then Some(h[0])
    else
      var r := Find(h[1..], id);
      assert forall k :: 1 <= k < |h| ==> h[k] == h[1..][k - 1];
      r
  }

  /** The entry just saved is the one its id finds. */
  lemma FindInserted(h: seq<Entry>, e: Entry)
    ensures Find(Inserted(h, e), e.id) == Some(e)
  {
  }

  /** The digits `parseInt` reads after a "0x" or "0X" prefix. */
  predicate IsHexDigit(c: char) {
    IsDigit(c) || 'a' <= c <= 'f' || 'A' <= c <= 'F'
  }

  function HexDigitValue(c: char): (v: nat)
    requires IsHexDigit(c)
    ensures v < 16
    ensures IsDigit(c) ==> v == c as int - '0' as int
  {
    if IsDigit(c) then c as int - '0' as int
    else if 'a' <= c <= 'f' then c as int - 'a' as int + 10
    else c as int - 'A' as int + 10
  }

  /** The value of a run of hexadecimal digits, most significant first. */
  function HexValue(d: string): nat
    requires forall k :: 0 <= k < |d| ==> IsHexDigit(d[k])
  {
    if d == [] then 0 else 16 * HexValue(d[..|d| - 1]) + HexDigitValue(d[|d| - 1])
  }

  /** "0x" or "0X" at j: with no radix given, `parseInt` reads base 16 after it. */
  predicate HexPrefixAt(s: string, j: nat) {
    j + 1 < |s| && s[j] == '0' && (s[j + 1] == 'x' || s[j + 1] == 'X')
  }

  /** `parseInt` with no radix on the text of a "Load" button's data
      attribute: optional leading white space and an optional sign; then,
      after a "0x"/"0X" prefix, the longest run of hexadecimal digits, and
      otherwise the longest run of decimal digits. None stands for NaN (an
      empty run), which no id equals. */
  function ParseInt(s: string): (r: Option<int>)
    ensures r.Some? ==> exists k :: 0 <= k < |s| && IsDigit(s[k])
    ensures |s| > 0 && IsDigit(s[0]) && !HexPrefixAt(s, 0) ==> r.Some?
    ensures |s| > 0 && IsDigit(s[0]) && r.Some? ==> r.value >= 0
    ensures HexPrefixAt(s, 0) ==> (r.Some? <==> 2 < |s| && IsHexDigit(s[2]))
  {
    var i := RunEnd(s, 0, IsJsSpace);
    var negative := i < |s| && s[i] == '-';
    var j := if i < |s| && (s[i] == '-' || s[i] == '+') then i + 1 else i;
    if HexPrefixAt(s, j) then
      var e := RunEnd(s, j + 2, IsHexDigit);
      if e == j + 2 then None
      else
        assert IsDigit(s[j]);
        var magnitude: int := HexValue(s[j + 2..e]);
        Some(if negative then -magnitude else magnitude)
    else
      var e := RunEnd(s, j, IsDigit);
      if e == j then None
      else
        assert IsDigit(s[j]);
        var magnitude: int := DigitsValue(s[j..e]);
        Some(if negative then -magnitude else magnitude)
  }

  /** A "0x" prefix followed by hexadecimal digits reads them in base 16. */
  lemma ParseHexText(d: string)
    requires |d| > 0 && forall k :: 0 <= k < |d| ==> IsHexDigit(d[k])
    ensures ParseInt("0x" + d) == Some(HexValue(d))
  {
    var s := "0x" + d;
    assert s[0] == '0' && s[1] == 'x';
    assert !IsJsSpace(s[0]);
    RunEndIs(s, 0, 0, IsJsSpace);
    assert HexPrefixAt(s, 0);
    assert s[2..] == d;
    assert forall k :: 2 <= k < |s| ==> s[k] == d[k - 2];
    RunEndIs(s, 2, |s|, IsHexDigit);
    assert s[2..|s|] == d;
  }

  /** The text an id is written as parses back to the id. */
  lemma ParseIntText(n: int)
    ensures ParseInt(IntText(n)) == Some(n)
  {
    var s := IntText(n);
    var d := Decimal(if n < 0 then -n else n);
    RunEndIs(s, 0, 0, IsJsSpace);
    if n < 0 {
      assert s == "-" + d;
      assert s[1..|s|] == d;
      assert !IsJsSpace(s[0]) && s[0] == '-';
      RunEndIs(s, 1, |s|, IsDigit);
      assert DigitsValue(s[1..|s|]) == -n;
    } else {
      assert s == d;
      assert IsDigit(s[0]);
      RunEndIs(s, 0, |s|, IsDigit);
      assert s[0..|s|] == d;
    }
  }

  /** What the "Load" button of the entry at index k loads: the first entry
      with the same id, which is that entry itself when ids are unique. */
  function LoadTarget(h: seq<Entry>, k: nat): (r: Option<Entry>)
    requires k < |h|
    ensures r.Some? ==> r.value.id == h[k].id && exists j :: 0 <= j <= k && h[j] == r.value
  {
    ParseIntText(h[k].id);
    match ParseInt(IntText(h[k].id))
    case Some(id) => Find(h, id)
    case None => None
  }

  lemma LoadFindsEntry(h: seq<Entry>, k: nat)
    requires k < |h|
    ensures LoadTarget(h, k).Some? && LoadTarget(h, k).value.id == h[k].id
    ensures (forall j :: 0 <= j < k ==> h[j].id != h[k].id) ==> LoadTarget(h, k) == Some(h[k])
  {
    ParseIntText(h[k].id);
  }

  /** The stored history list. */
  class History {
    var entries: seq<Entry>

    constructor (stored: seq<Entry>)
      ensures entries == stored
    {
      entries := stored;
    }

    /** `saveToHistory(language, code, result)`: builds the entry, puts it
        first and cuts the list to twenty. */
    method Save(language: string, code: string, result: Analysis, id: int, timestamp: string)
      modifies this
      ensures entries == Inserted(old(entries), MakeEntry(id, timestamp, language, code, result))
      ensures |old(entries)| <= MaxEntries ==> |entries| <= MaxEntries
    {
      var entry := MakeEntry(id, timestamp, language, code, result);
      entries := [entry] + entries;
      entries := entries[..Min(|entries|, MaxEntries)];
    }

    /** The clear-history handler; nothing happens unless the user confirms. */
    method Clear(confirmed: bool)
      modifies this
      ensures confirmed ==> entries == []
      ensures !confirmed ==> entries == old(entries)
    {
      if confirmed {
        entries := [];
      }
    }
  }
}
