/**
 * The browser client's `analyzeCode`: the editor's text is trimmed and, when
 * nothing is left, an error is shown and nothing else happens. Otherwise the
 * button is disabled, earlier results are cleared, the request is sent, and
 * the reply decides the status line, whether the analysis is saved to the
 * history and which bug rows are shown; the button is enabled again at the
 * end. The network reply, the clock values and the text of a TypeError are
 * parameters.
 */
module ClientAnalysis {
  import opened Wire
  import opened Text
  import opened ClientHistory
  import opened ClientBugTable

  datatype StatusKind = InfoStatus | ErrorStatus

  /** The status box: hidden, or showing a text with the "info" or "error" class. */
  datatype Status = Hidden | Shown(text: string, kind: StatusKind)

  /** The body of the POST to the analysis endpoint. */
  datatype Request = Request(language: string, code: string)

  /** What `res.json()` gives: it throws, it yields a falsy value, or an analysis. */
  datatype Body = Unreadable(reason: string) | Falsy | Data(analysis: Analysis)

  /** What `fetch` gives: it rejects, or a response with its HTTP status. */
  datatype Reply = Failed(reason: string) | Responded(httpStatus: int, body: Body)

  const EmptyInputMessage := "Please enter some code before analyzing."
  const AnalyzingMessage := "Analyzing code, please wait..."
  const CompleteMessage := "Analysis complete."
  const NoDataMessage := "No response data received"

  /** The request for the editor's text, None when the text is blank. */
  function RequestFor(language: string, input: string): (r: Option<Request>)
    ensures r.None? <==> forall k :: 0 <= k < |input| ==> IsJsSpace(input[k])
    ensures r.Some? ==> r.value.language == language && r.value.code == JsTrim(input)
    ensures r.Some? ==> r.value.code != [] && !IsJsSpace(r.value.code[0])
                        && !IsJsSpace(r.value.code[|r.value.code| - 1])
  {
    var code := JsTrim(input);
    if code == [] then None else Some(Request(language, code))
  }

  /** `res.ok`. */
  predicate Ok(httpStatus: int) {
    200 <= httpStatus <= 299
  }

  /** `data.message || "Analysis complete."`. */
  function MessageOr(message: Field<string>): (t: string)
    ensures message.Present? && message.value != "" ==> t == message.value
    ensures !message.Present? || message.value == "" ==> t == CompleteMessage
  {
    if message.Present? && message.value != "" then message.value else CompleteMessage
  }

  /** The analysis the reply delivers, if any. */
  function Delivered(reply: Reply): (r: Option<Analysis>)
    ensures r.Some? <==> reply.Responded? && Ok(reply.httpStatus) && reply.body.Data?
    ensures r.Some? ==> r.value == reply.body.analysis
  {
    if reply.Responded? && Ok(reply.httpStatus) && reply.body.Data? then Some(reply.body.analysis)
    else None
  }

  /** The error a reply that delivers no analysis raises, as shown after "Error: ". */
  function ReplyError(reply: Reply): (r: string)
    requires Delivered(reply).None?
    ensures reply.Failed? ==> r == reply.reason
    ensures reply.Responded? && !Ok(reply.httpStatus) ==> r == "HTTP error! status: " + IntText(reply.httpStatus)
    ensures reply.Responded? && Ok(reply.httpStatus) && reply.body.Unreadable? ==> r == reply.body.reason
    ensures reply.Responded? && Ok(reply.httpStatus) && reply.body.Falsy? ==> r == NoDataMessage
  {
    match reply
    case Failed(reason) => reason
    case Responded(httpStatus, body) =>
      if !Ok(httpStatus) then "HTTP error! status: " + IntText(httpStatus)
      else if body.Unreadable? then body.reason
      else NoDataMessage
  }

  /** What one call of `analyzeCode` leads to. */
  datatype Outcome =
    | Rejected(status: Status)
    | Sent(request: Request, status: Status, saved: Option<Analysis>, rows: seq<Row>)

  function OutcomeOf(language: string, input: string, reply: Reply, typeErrorText: string): (o: Outcome)
    ensures o.Rejected? <==> forall k :: 0 <= k < |input| ==> IsJsSpace(input[k])
    ensures o.Rejected? ==> o.status == Shown(EmptyInputMessage, ErrorStatus)
    ensures o.Sent? ==> Some(o.request) == RequestFor(language, input)
    ensures o.Sent? ==> o.saved == Delivered(reply)
    ensures o.Sent? ==> o.status.Shown?
    ensures o.Sent? ==> (o.status.kind == InfoStatus <==> o.saved.Some? && RowsFor(o.saved.value.bugs).Some?)
    ensures o.Sent? && o.status.kind == InfoStatus ==>
              o.status.text == MessageOr(o.saved.value.message) && o.rows == RowsFor(o.saved.value.bugs).value
    ensures o.Sent? && o.status.kind == ErrorStatus ==> o.rows == []
  {
    match RequestFor(language, input)
    case None => Rejected(Shown(EmptyInputMessage, ErrorStatus))
    case Some(request) =>
      match Delivered(reply)
      case None => Sent(request, Shown("Error: " + ReplyError(reply), ErrorStatus), None, [])
      case Some(data) =>
        match RowsFor(data.bugs)
        case Some(rows) => Sent(request, Shown(MessageOr(data.message), InfoStatus), Some(data), rows)
        case None => Sent(request, Shown("Error: " + typeErrorText, ErrorStatus), Some(data), [])
  }

  /** The page around the editor. */
  class Playground {
    var input: string
    var language: string
    var status: Status
    var rows: seq<Row>
    var analyzeEnabled: bool
    var requests: seq<Request>
    const history: History

    constructor (h: History)
      ensures history == h && input == "" && status == Hidden && rows == []
      ensures analyzeEnabled && requests == []
    {
      input := "";
      language := "";
      status := Hidden;
      rows := [];
      analyzeEnabled := true;
      requests := [];
      history := h;
    }

    /** `analyzeCode()`, with the network's reply, the clock's `id` and
        `timestamp` and the text of a TypeError as parameters. */
    method AnalyzeCode(reply: Reply, id: int, timestamp: string, typeErrorText: string)
      modifies this, history
      ensures input == old(input) && language == old(language)
      ensures OutcomeOf(language, input, reply, typeErrorText).Rejected? ==>
                && status == OutcomeOf(language, input, reply, typeErrorText).status
                && rows == old(rows) && requests == old(requests)
                && analyzeEnabled == old(analyzeEnabled)
                && history.entries == old(history.entries)
      ensures OutcomeOf(language, input, reply, typeErrorText).Sent? ==>
                var o := OutcomeOf(language, input, reply, typeErrorText);
                && status == o.status && rows == o.rows && analyzeEnabled
                && requests == old(requests) + [o.request]
                && history.entries == if o.saved.Some?
                                      then Inserted(old(history.entries),
                                                    MakeEntry(id, timestamp, language, o.request.code, o.saved.value))
                                      else old(history.entries)
    {
      var code := JsTrim(input);
      if code == [] {
        status := Shown(EmptyInputMessage, ErrorStatus);
        return;
      }
      analyzeEnabled := false;
      rows := [];
      status := Shown(AnalyzingMessage, InfoStatus);
      requests := requests + [Request(language, code)];
      var data := Delivered(reply);
      if data.None? {
        status := Shown("Error: " + ReplyError(reply), ErrorStatus);
      } else {
        status := Shown(MessageOr(data.value.message), InfoStatus);
        history.Save(language, code, data.value, id, timestamp);
        var built := RenderBugRows(data.value.bugs);
        if built.None? {
          status := Shown("Error: " + typeErrorText, ErrorStatus);
        } else {
          rows := built.value;
        }
      }
      analyzeEnabled := true;
    }
  }

  /** A blank editor never reaches the network or the history. */
  lemma BlankInputRejected(language: string, input: string, reply: Reply, typeErrorText: string)
    requires forall k :: 0 <= k < |input| ==> IsJsSpace(input[k])
    ensures OutcomeOf(language, input, reply, typeErrorText) == Rejected(Shown(EmptyInputMessage, ErrorStatus))
  {
  }

  /** An analysis whose rows cannot be built is still saved to the history,
      since saving comes first. */
  lemma SavedEvenWhenRowsFail(language: string, input: string, data: Analysis, typeErrorText: string)
    requires RequestFor(language, input).Some?
    requires RowsFor(data.bugs).None?
    ensures OutcomeOf(language, input, Responded(200, Data(data)), typeErrorText)
            == Sent(RequestFor(language, input).value, Shown("Error: " + typeErrorText, ErrorStatus), Some(data), [])
  {
  }
}
