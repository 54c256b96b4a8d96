/**
 * The engine's `analyze_code(language, code)`: the offline fallback result when
 * no model client is configured; otherwise the model's reply is trimmed, freed
 * of a Markdown code fence, cut down to the outermost braces, parsed as JSON
 * (a canned result stands in when parsing fails), every bug without a line
 * gets one from `_extract_line_number` when that finds a non-zero one, and the
 * result is stamped as coming from the model.
 */
module Engine {
  import opened Wire
  import opened Text
  import opened Patterns
  import opened LineExtraction

  const OfflineMessage := "Groq API not configured. Running simple offline analysis."
  const OfflineBugMessage := "Groq key missing \U{2014} " + "no real AI output. " + "Only basic checks done."
  const ModelMessage := "Groq AI analysis successful."

  // ------------------------------------------------------------ offline

  /** The result returned when the model client is unavailable. */
  function OfflineAnalysis(code: string): (r: Analysis)
    ensures r.usingAi == Present(false)
    ensures r.fixedCode == Present(code) && r.optimizedCode == Present(code)
    ensures r.bugs.Present? && |r.bugs.value| == 1
    ensures r.bugs.value[0] == Bug(Null, Present("Info"), Present(OfflineBugMessage))
  {
    Analysis(
      usingAi := Present(false),
      message := Present(OfflineMessage),
      bugs := Present([Bug(Null, Present("Info"), Present(OfflineBugMessage))]),
      explanation := Present("This is an offline fallback response."),
      fixedCode := Present(code),
      optimizedCode := Present(code),
      complexity := Present(Complexity("Unknown", "Unknown")),
      tests := Present([TestCase("Basic offline test", "sample", "sample")]))
  }

  // ------------------------------------------------------------ fences

  /** Where the optional tag of an opening fence ends: after "```json" when
      the text goes on with "json" (case-sensitive), else after "```". */
  function FenceTagEnd(t: string): (k: nat)
    requires StartsWith(t, "```")
    ensures 3 <= k <= |t|
  {
    if StartsWith(t[3..], "json") then 7 else 3
  }

  /** `MARKDOWN_START.sub('', t)` with `^```(?:json)?\s*`: an opening fence, an
      optional (case-sensitive) `json` tag and the whole run of Python spaces
      after them are removed; what is left is a suffix that does not start
      with a space. */
  function StripFenceStart(t: string): (r: string)
    ensures !StartsWith(t, "```") ==> r == t
    ensures StartsWith(t, "```") ==> |r| <= |t| - 3 && r == t[|t| - |r|..]
    ensures StartsWith(t, "```") ==>
              FenceTagEnd(t) <= |t| - |r|
              && (forall j :: FenceTagEnd(t) <= j < |t| - |r| ==> IsPySpace(t[j]))
              && (r == [] || !IsPySpace(r[0]))
  {
    if !StartsWith(t, "```") then t
    else
      var afterFence := t[3..];
      var afterTag := if StartsWith(afterFence, "json") then afterFence[4..] else afterFence;
      assert afterTag == t[FenceTagEnd(t)..];
      var k := RunEnd(afterTag, 0, IsPySpace);
      assert forall j :: FenceTagEnd(t) <= j < FenceTagEnd(t) + k ==> t[j] == afterTag[j - FenceTagEnd(t)];
      assert afterTag[k..] == t[FenceTagEnd(t) + k..];
      afterTag[k..]
  }

  /** Where a match of `\s*```$` starting at index `i` ends, if one does: the
      spaces run to a closing fence that ends the text, or that only a final
      line break follows (Python's `$` matches there too). */
  function FenceEndAt(s: string, i: nat): (r: Option<nat>)
    requires i <= |s|
    ensures r.Some? ==> i < r.value <= |s|
  {
    var w := RunEnd(s, i, IsPySpace);
    if s[w..] == "```" then Some(|s|)
    else if s[w..] == "```\n" then Some(|s| - 1)
    else None
  }

  /** The leftmost match of `\s*```$` at or after `from`, as (start, end). */
  function FenceEndSearch(s: string, from: nat): (r: Option<(nat, nat)>)
    requires from <= |s|
    ensures r.Some? ==> from <= r.value.0 < r.value.1 <= |s| && FenceEndAt(s, r.value.0) == Some(r.value.1)
                        && forall j :: from <= j < r.value.0 ==> FenceEndAt(s, j).None?
    ensures r.None? ==> forall j :: from <= j <= |s| ==> FenceEndAt(s, j).None?
    decreases |s| - from
  {
    match FenceEndAt(s, from)
    case Some(e) => Some((from, e))
    case None => if from == |s| then None else FenceEndSearch(s, from + 1)
  }

  /** `MARKDOWN_END.sub('', t)`. No match starts at or after the end of the
      first (FenceEndIsLast), so one replacement is all `sub` makes. A text with no
      closing fence (a reply cut short, say) comes back unchanged; otherwise
      the leftmost match, from its start a to its end b, is cut out. */
  function StripFenceEnd(t: string): (r: string)
    ensures |r| <= |t|
    ensures (forall j :: 0 <= j <= |t| ==> FenceEndAt(t, j).None?) ==> r == t
    ensures (exists j :: 0 <= j <= |t| && FenceEndAt(t, j).Some?) ==>
              exists a: nat, b: nat :: a < b <= |t| && FenceEndAt(t, a) == Some(b)
                                     && (forall j :: 0 <= j < a ==> FenceEndAt(t, j).None?)
                                     && r == t[..a] + t[b..]
  {
    match FenceEndSearch(t, 0)
    case Some((a, b)) =>
      var r := t[..a] + t[b..];
      assert FenceEndAt(t, a) == Some(b) && r == t[..a] + t[b..];
      r
    case None => t
  }

  /** A closing fence ends the text or stops just before its final line
      break, so no other match can start at or after its end. */
  lemma FenceEndIsLast(t: string, a: nat)
    requires a <= |t| && FenceEndAt(t, a).Some?
    ensures forall j :: FenceEndAt(t, a).value <= j <= |t| ==> FenceEndAt(t, j).None?
  {
    var b := FenceEndAt(t, a).value;
    assert b == |t| || (b == |t| - 1 && t[|t| - 1] == '\n') by {
      var w := RunEnd(t, a, IsPySpace);
      if t[w..] != "```" {
        assert t[w..] == "```\n";
        assert t[|t| - 1] == t[w..][3];
      }
    }
    forall j | b <= j <= |t|
      ensures FenceEndAt(t, j).None?
    {
      var w := RunEnd(t, j, IsPySpace);
      assert w == |t| by {
        if j < |t| {
          assert IsPySpace(t[j]);
          RunEndIs(t, j, |t|, IsPySpace);
        }
      }
    }
  }

  /** The fence removal of `analyze_code`, run only on a reply that starts
      with three backticks. */
  function Unfenced(t: string): (r: string)
    ensures !StartsWith(t, "```") ==> r == t
    ensures |r| <= |t|
  {
    if StartsWith(t, "```") then StripFenceEnd(StripFenceStart(t)) else t
  }

  // ------------------------------------------------------------ braces

  predicate HasBracePair(u: string) {
    exists p, q :: 0 <= p < q < |u| && u[p] == '{' && u[q] == '}'
  }

  /** The last index in [lo, j) holding `c`, scanning down from `j`. */
  function LastIndexBelow(s: string, c: char, lo: nat, j: nat): (r: Option<nat>)
    requires lo <= j <= |s|
    ensures r.Some? ==> lo <= r.value < j && s[r.value] == c && forall m :: r.value < m < j ==> s[m] != c
    ensures r.None? ==> forall m :: lo <= m < j ==> s[m] != c
    decreases j
  {
    if j == lo then None
    else if s[j - 1] == c then Some(j - 1)
    else LastIndexBelow(s, c, lo, j - 1)
  }

  /** A match of `\{.*\}` (with DOTALL) starting at `i` ends at the last `}`
      after `i`: `.*` first takes everything and then gives back characters
      until a `}` follows it. */
  function BraceMatchAt(s: string, i: nat): (r: Option<nat>)
    requires i < |s|
    ensures r.Some? ==> s[i] == '{' && i < r.value < |s| && s[r.value] == '}'
                        && forall m :: r.value < m < |s| ==> s[m] != '}'
    ensures r.None? ==> s[i] != '{' || forall m :: i < m < |s| ==> s[m] != '}'
  {
    if s[i] == '{' then LastIndexBelow(s, '}', i + 1, |s|) else None
  }

  /** `JSON_PATTERN.search(s)` from index `from`, as (start, index of the final `}`). */
  function BraceSearch(s: string, from: nat): (r: Option<(nat, nat)>)
    requires from <= |s|
    ensures r.Some? ==> from <= r.value.0 < |s| && BraceMatchAt(s, r.value.0) == Some(r.value.1)
                        && forall j :: from <= j < r.value.0 ==> BraceMatchAt(s, j).None?
    ensures r.None? ==> forall j :: from <= j < |s| ==> BraceMatchAt(s, j).None?
    decreases |s| - from
  {
    if from == |s| then None
    else match BraceMatchAt(s, from)
      case Some(e) => Some((from, e))
      case None => BraceSearch(s, from + 1)
  }

  /** What the leftmost match of `\{.*\}` says about the text: it starts at the
      first `{` and ends at the last `}`, and there is none exactly when no `{`
      comes before a `}`. */
  lemma BraceSearchFinds(u: string)
    ensures BraceSearch(u, 0).None? <==> !HasBracePair(u)
    ensures BraceSearch(u, 0).Some? ==>
              var (a, b) := BraceSearch(u, 0).value;
              0 <= a < b < |u| && u[a] == '{' && (forall m :: 0 <= m < a ==> u[m] != '{')
              && u[b] == '}' && (forall m :: b < m < |u| ==> u[m] != '}')
  {
    match BraceSearch(u, 0)
    case Some((a, b)) =>
      forall m | 0 <= m < a
        ensures u[m] != '{'
      {
        assert BraceMatchAt(u, m).None?;
        assert u[b] == '}' && m < b;
      }
    case None =>
      forall p, q | 0 <= p < q < |u|
        ensures !(u[p] == '{' && u[q] == '}')
      {
        assert BraceMatchAt(u, p).None?;
      }
  }

  /** The JSON extraction of `analyze_code`: when some `{` comes before some
      `}`, the text from the first `{` through the last `}`; otherwise the text
      unchanged. */
  function BraceSpan(u: string): (r: string)
    ensures !HasBracePair(u) ==> r == u
    ensures HasBracePair(u) ==>
              exists a, b :: 0 <= a < b < |u| && r == u[a..b + 1]
                             && u[a] == '{' && (forall m :: 0 <= m < a ==> u[m] != '{')
                             && u[b] == '}' && (forall m :: b < m < |u| ==> u[m] != '}')
  {
    BraceSearchFinds(u);
    var found := BraceSearch(u, 0);
    if found.Some? then u[found.value.0..found.value.1 + 1] else u
  }

  /** The text opens with `{` and closes with `}`. */
  predicate Braced(r: string) {
    |r| >= 2 && r[0] == '{' && r[|r| - 1] == '}'
  }

  /** The span of a text with a brace pair opens and closes with a brace. */
  lemma BraceSpanBraces(u: string)
    ensures HasBracePair(u) ==> Braced(BraceSpan(u))
  {
    BraceSearchFinds(u);
    if HasBracePair(u) {
      var (a, b) := BraceSearch(u, 0).value;
      var r := u[a..b + 1];
      assert BraceSpan(u) == r;
      assert r[0] == u[a] && r[|r| - 1] == u[b];
    }
  }

  /** Everything `analyze_code` does to the reply text before parsing it. */
  function CleanedReply(raw: string): (r: string)
    ensures var u := Unfenced(PyStrip(raw));
            && (HasBracePair(u) ==> Braced(r))
            && (!HasBracePair(u) ==> r == u)
  {
    BraceSpanBraces(Unfenced(PyStrip(raw)));
    BraceSpan(Unfenced(PyStrip(raw)))
  }

  /** `JSON_PATTERN.search` and the slice of its match. */
  method ExtractJson(u: string) returns (r: string)
    ensures r == BraceSpan(u)
  {
    r := u;
    var jsonMatch := BraceSearch(u, 0);
    if jsonMatch.Some? {
      r := u[jsonMatch.value.0..jsonMatch.value.1 + 1];
    }
  }

  /** The step-by-step clean-up of `cleaned_raw` in `analyze_code`. */
  method CleanReply(raw: string) returns (cleaned: string)
    ensures cleaned == CleanedReply(raw)
    ensures !StartsWith(PyStrip(raw), "```") ==> cleaned == BraceSpan(PyStrip(raw))
  {
    cleaned := PyStrip(raw);
    if StartsWith(cleaned, "```") {
      cleaned := StripFenceStart(cleaned);
      cleaned := StripFenceEnd(cleaned);
    }
    cleaned := ExtractJson(cleaned);
  }

  /** Text with no space at either end is left alone by stripping. */
  lemma StripKeeps(s: string, space: char -> bool)
    requires s != [] ==> !space(s[0]) && !space(s[|s| - 1])
    ensures TrimBy(s, space) == s
  {
    var t := TrimBy(s, space);
    var a: nat :| TrimmedAt(s, t, a, space);
    if s != [] {
      assert a == 0;
      assert a + |t| == |s|;
    }
  }

  /** The opening fence and its `json` tag come off, with the line break. */
  lemma FenceStartOfReply(body: string)
    requires body != [] && !IsPySpace(body[0])
    ensures StripFenceStart("```json\n" + body + "\n```") == body + "\n```"
  {
    var raw := "```json\n" + body + "\n```";
    assert raw[..3] == "```";
    var afterFence := raw[3..];
    assert afterFence == "json\n" + body + "\n```";
    assert afterFence[..4] == "json";
    var afterTag := afterFence[4..];
    assert afterTag == "\n" + body + "\n```";
    RunEndIs(afterTag, 0, 1, IsPySpace);
    assert afterTag[1..] == body + "\n```";
  }

  /** A bare opening fence comes off with the whole run of spaces after it,
      which is all `^```(?:json)?\s*` can take when no "json" follows. */
  lemma BareFenceStripped(spaces: string, body: string)
    requires forall k :: 0 <= k < |spaces| ==> IsPySpace(spaces[k])
    requires body != [] && !IsPySpace(body[0])
    requires spaces != [] || !StartsWith(body, "json")
    ensures StripFenceStart("```" + spaces + body) == body
  {
    var t := "```" + spaces + body;
    var w := 3 + |spaces|;
    assert t[..3] == "```";
    assert t[3..] == spaces + body;
    assert FenceTagEnd(t) == 3 by {
      if spaces != [] {
        assert t[3] == spaces[0];
      } else {
        assert t[3..] == body;
      }
    }
    assert forall j :: 3 <= j < w ==> t[j] == spaces[j - 3];
    assert t[w] == body[0];
    assert t[w..] == body;
    var r := StripFenceStart(t);
    var v := |t| - |r|;
    assert r != [] ==> r[0] == t[v];
    SpaceRunEnd(t, 3, v, w);
  }

  /** Two runs of spaces from k that each stop before a non-space (or at the
      end) are the same run. */
  lemma SpaceRunEnd(t: string, k: nat, v: nat, w: nat)
    requires k <= v <= |t| && k <= w <= |t|
    requires forall j :: k <= j < v ==> IsPySpace(t[j])
    requires v == |t| || !IsPySpace(t[v])
    requires forall j :: k <= j < w ==> IsPySpace(t[j])
    requires w == |t| || !IsPySpace(t[w])
    ensures v == w
  {
  }

  /** A closing fence on its own last line comes off, with the line break,
      when the text before it does not end in a space. */
  lemma FenceEndOfReply(body: string)
    requires body != [] && !IsPySpace(body[|body| - 1])
    ensures StripFenceEnd(body + "\n```") == body
  {
    var inner := body + "\n```";
    var n := |body|;
    assert inner[n - 1] == body[n - 1];
    forall j | 0 <= j < n
      ensures FenceEndAt(inner, j).None?
    {
      var w := RunEnd(inner, j, IsPySpace);
      assert w <= n - 1;
      assert inner[w..][n - 1 - w] == body[n - 1];
    }
    RunEndIs(inner, n, n + 1, IsPySpace);
    assert inner[n + 1..] == "```";
    assert FenceEndAt(inner, n) == Some(|inner|);
    FenceEndSearchSkips(inner, 0, n);
    assert inner[..n] + inner[|inner|..] == body;
  }

  /** A text that starts with `{` and ends with `}` is its own brace span. */
  lemma BraceSpanWhole(body: string)
    requires |body| >= 2 && body[0] == '{' && body[|body| - 1] == '}'
    ensures BraceSpan(body) == body
  {
    BraceSearchFinds(body);
    assert HasBracePair(body) by {
      assert 0 < |body| - 1 && body[0] == '{' && body[|body| - 1] == '}';
    }
    assert body[0..|body|] == body;
  }

  /** The reply the prompt asks for, a JSON object in a ```json fence, is
      cleaned down to exactly the object. */
  lemma FencedReplyCleans(body: string)
    requires |body| >= 2 && body[0] == '{' && body[|body| - 1] == '}'
    ensures CleanedReply("```json\n" + body + "\n```") == body
  {
    var raw := "```json\n" + body + "\n```";
    assert raw[0] == '`' && raw[|raw| - 1] == '`';
    StripKeeps(raw, IsPySpace);
    assert raw[..3] == "```";
    FenceStartOfReply(body);
    FenceEndOfReply(body);
    calc {
      CleanedReply(raw);
      BraceSpan(Unfenced(PyStrip(raw)));
      BraceSpan(Unfenced(raw));
      BraceSpan(StripFenceEnd(StripFenceStart(raw)));
      BraceSpan(StripFenceEnd(body + "\n```"));
      BraceSpan(body);
      { BraceSpanWhole(body); }
      body;
    }
  }

  /** Positions where no closing fence starts can be skipped. */
  lemma {:induction false} FenceEndSearchSkips(s: string, from: nat, to: nat)
    requires from <= to <= |s|
    requires forall j :: from <= j < to ==> FenceEndAt(s, j).None?
    ensures FenceEndSearch(s, from) == FenceEndSearch(s, to)
    decreases (to as int) - (from as int)
  {
    if from < to {
      FenceEndSearchStep(s, from);
      FenceEndSearchSkips(s, from + 1, to);
    }
  }

  /** One position without a closing fence is passed over. */
  lemma FenceEndSearchStep(s: string, from: nat)
    requires from < |s| && FenceEndAt(s, from).None?
    ensures FenceEndSearch(s, from) == FenceEndSearch(s, from + 1)
  {
  }

  // ------------------------------------------------------------ bugs

  /** The post-processing of one bug: a bug whose line is missing or null and
      that has a "message" key gets the extracted line when it is truthy (not
      None and not 0). None stands for the TypeError raised when that message
      is null. */
  function FilledBug(b: Bug, code: string): (r: Option<Bug>)
    ensures r.None? <==> LineMissing(b) && b.message.Null?
    ensures r.Some? ==> r.value.kind == b.kind && r.value.message == b.message
    ensures !LineMissing(b) || b.message.Absent? ==> r == Some(b)
    ensures r.Some? && r.value != b ==>
              LineMissing(b) && b.message.Present?
              && exists n: nat :: n >= 1 && LineNumberOf(b.message.value, code) == Some(n)
                                 && r.value.line == Present(n)
    ensures LineMissing(b) && b.message.Present? && LineNumberOf(b.message.value, code).Some?
            && LineNumberOf(b.message.value, code).value >= 1
            ==> r == Some(b.(line := Present(LineNumberOf(b.message.value, code).value)))
  {
    if !LineMissing(b) || b.message.Absent? then Some(b)
    else if b.message.Null? then None
    else
      match LineNumberOf(b.message.value, code)
      case Some(n) => if n != 0 then Some(b.(line := Present(n))) else Some(b)
      case None => Some(b)
  }

  /** The post-processing of a bug list, all or nothing. */
  function FilledBugs(bugs: seq<Bug>, code: string): (r: Option<seq<Bug>>)
    ensures r.Some? <==> forall k :: 0 <= k < |bugs| ==> FilledBug(bugs[k], code).Some?
    ensures r.Some? ==> |r.value| == |bugs|
                        && forall k :: 0 <= k < |bugs| ==> r.value[k] == FilledBug(bugs[k], code).value
  {
    if bugs == [] then Some([])
    else
      var first := FilledBug(bugs[0], code);
      var rest := FilledBugs(bugs[1..], code);
      assert forall k :: 1 <= k < |bugs| ==> bugs[k] == bugs[1..][k - 1];
      if first.None? || rest.None? then None else Some([first.value] + rest.value)
  }

  /** The loop of `analyze_code` over `data["bugs"]`, updating the bug objects
      in place; it stops with `false` where a null message raises. */
  method FillMissingLines(bugs: array<Bug>, code: string) returns (ok: bool)
    modifies bugs
    ensures ok <==> forall k :: 0 <= k < bugs.Length ==> FilledBug(old(bugs[k]), code).Some?
    ensures ok ==> forall k :: 0 <= k < bugs.Length ==> bugs[k] == FilledBug(old(bugs[k]), code).value
  {
    var i := 0;
    while i < bugs.Length
      invariant 0 <= i <= bugs.Length
      invariant forall k :: 0 <= k < i ==> FilledBug(old(bugs[k]), code).Some?
                                           && bugs[k] == FilledBug(old(bugs[k]), code).value
      invariant forall k :: i <= k < bugs.Length ==> bugs[k] == old(bugs[k])
    {
      var bug := bugs[i];
      if LineMissing(bug) && !bug.message.Absent? {
        if bug.message.Null? {
          return false;
        }
        var extracted := ExtractLineNumber(bug.message.value, code);
        if extracted.Some? && extracted.value != 0 {
          bugs[i] := bug.(line := Present(extracted.value));
        }
      }
      i := i + 1;
    }
    return true;
  }

  // ------------------------------------------------------------ analyze_code

  /** What the model path makes of the parsed (or canned) data: bugs filled
      in, then "using_ai" and "message" overwritten. None stands for the
      TypeError of a null bug message. */
  function ProcessReply(code: string, data: Analysis): (r: Option<Analysis>)
    ensures r.Some? ==> r.value.usingAi == Present(true) && r.value.message == Present(ModelMessage)
    ensures r.Some? ==> r.value.(usingAi := data.usingAi, message := data.message, bugs := data.bugs) == data
    ensures !data.bugs.Present? ==> r.Some? && r.value.bugs == data.bugs
    ensures data.bugs.Present? ==> (r.Some? <==> FilledBugs(data.bugs.value, code).Some?)
    ensures data.bugs.Present? && r.Some? ==> r.value.bugs == Present(FilledBugs(data.bugs.value, code).value)
  {
    var filled :=
      if data.bugs.Present? then
        match FilledBugs(data.bugs.value, code)
        case Some(bs) => Some(data.(bugs := Present(bs)))
        case None => None
      else Some(data);
    if filled.None? then None
    else Some(filled.value.(usingAi := Present(true), message := Present(ModelMessage)))
  }

  /** The model path of `analyze_code` after parsing: the bug list is copied
      into an array and post-processed in place, then the two keys are set. */
  method ProcessData(code: string, data: Analysis) returns (r: Option<Analysis>)
    ensures r == ProcessReply(code, data)
  {
    var result := data;
    if data.bugs.Present? {
      var list := data.bugs.value;
      var bugs := new Bug[|list|](k requires 0 <= k < |list| => list[k]);
      assert bugs[..] == list;
      var ok := FillMissingLines(bugs, code);
      if !ok {
        return None;
      }
      assert FilledBugs(list, code).Some?;
      assert bugs[..] == FilledBugs(list, code).value;
      result := result.(bugs := Present(bugs[..]));
    }
    result := result.(usingAi := Present(true), message := Present(ModelMessage));
    return Some(result);
  }

  /** `analyze_code`. Whether the model client is configured, the model's
      reply text, `json.loads` (None when it raises) and the canned result used
      when it raises are parameters. None stands for an exception escaping. */
  method AnalyzeCode(code: string, modelAvailable: bool, reply: string,
                     parse: string -> Option<Analysis>, canned: Analysis)
    returns (r: Option<Analysis>)
    ensures !modelAvailable ==> r == Some(OfflineAnalysis(code))
    ensures modelAvailable ==>
              r == ProcessReply(code, match parse(CleanedReply(reply)) case Some(d) => d case None => canned)
  {
    if !modelAvailable {
      return Some(OfflineAnalysis(code));
    }
    var cleaned := CleanReply(reply);
    var parsed := parse(cleaned);
    var data := if parsed.Some? then parsed.value else canned;
    r := ProcessData(code, data);
  }

  /** A bug without a line whose message starts with "line N", N at least 1
      and not followed by another digit, gets line N, whatever the code. */
  lemma MentionedLineFilled(b: Bug, n: nat, rest: string, code: string)
    requires LineMissing(b) && n >= 1
    requires b.message == Present("line " + Decimal(n) + rest)
    requires rest == [] || !IsDigit(rest[0])
    ensures FilledBug(b, code) == Some(b.(line := Present(n)))
  {
    var m := "line " + Decimal(n) + rest;
    assert m == [] + "line " + Decimal(n) + rest;
    LineMentionFound(Python, [], n, rest);
    assert LineNumberOf(m, code) == Some(n);
  }

  /** A "line 0" message is read as line 0, which is falsy, so the bug keeps
      its null line: the snippet and word searches are never tried. */
  lemma LineZeroLeavesBugUnchanged(kind: Field<string>, code: string)
    ensures FilledBug(Bug(Null, kind, Present("line 0")), code) == Some(Bug(Null, kind, Present("line 0")))
  {
    assert Decimal(0) == "0";
    assert "line " + Decimal(0) == "line 0";
    LineMentionWins(0, code);
    assert LineNumberOf("line 0", code) == Some(0);
  }
}
