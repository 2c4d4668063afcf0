/**
 The `POST /api/summarize` handler as a pure decision: from whether the server
 has its API key, the request body and the text summarizer's settlement to the
 status and JSON body of the reply. It is split into the decision taken before
 the summarizer is awaited (reply now, or call it with the text) and the reply
 once it settles.
 */
module Route {
  import opened Js

  const StatusOk := 200
  const StatusBadRequest := 400
  const StatusServerError := 500

  const MissingKeyError := "Missing API Key"
  const MissingKeyDetails := "The GEMINI_API_KEY environment variable is not set on the server."
  const MissingTextError := "Text content is required"
  const SummaryFailedError := "Failed to generate summary."
  const UnknownError := "An unknown error occurred"

  /** The request body as `request.json()` sees it. */
  datatype RequestBody =
    | Malformed            // not JSON: `request.json()` rejects
    | NullBody             // the JSON value `null`: destructuring `{ text }` throws
    | Parsed(text: JsonValue)  // any other JSON value; `Absent` when it has no `text` member

  /** The JSON body of a reply. */
  datatype ReplyBody =
    | SummaryJson(summary: string)
    | ErrorJson(error: string, details: Option<string>)

  /**
   A reply, or an exception escaping the handler (thrown outside its `try`),
   which the framework turns into its own error response.
   */
  datatype Reply = Respond(status: nat, body: ReplyBody) | Unhandled

  /** Before the summarizer: reply at once, let an exception escape, or call it with the text. */
  datatype Decision = Early(reply: Reply) | CallSummarizer(text: JsonValue)

  /**
   The checks in order: the API key (before the body is read), then a body
   that can be destructured, then a truthy `text`. Only a request that passes
   all three reaches the summarizer, and it receives exactly the `text` sent.
   */
  function Decide(apiKey: Option<string>, body: RequestBody): (d: Decision)
    ensures !Truthy(apiKey) ==> d == Early(Respond(StatusServerError, ErrorJson(MissingKeyError, Some(MissingKeyDetails))))
    ensures Truthy(apiKey) && !body.Parsed? ==> d == Early(Unhandled)
    ensures Truthy(apiKey) && body.Parsed? && !TruthyJson(body.text) ==>
      d == Early(Respond(StatusBadRequest, ErrorJson(MissingTextError, None)))
    ensures d.CallSummarizer? <==> Truthy(apiKey) && body.Parsed? && TruthyJson(body.text)
    ensures d.CallSummarizer? ==> d.text == body.text
  {
    if !Truthy(apiKey) then Early(Respond(StatusServerError, ErrorJson(MissingKeyError, Some(MissingKeyDetails))))
    else match body
      case Malformed => Early(Unhandled)
      case NullBody => Early(Unhandled)
      case Parsed(text) =>
        if !TruthyJson(text) then Early(Respond(StatusBadRequest, ErrorJson(MissingTextError, None)))
        else CallSummarizer(text)
  }

  /**
   The reply once the summarizer settles: its summary alone with the default
   status, or a server error naming the failure with the thrown message as details.
   */
  function Finish(outcome: Outcome<string>): (r: Reply)
    ensures r.Respond?
    ensures outcome.Returned? ==> r == Respond(StatusOk, SummaryJson(outcome.value))
    ensures outcome.Threw? ==>
      r == Respond(StatusServerError, ErrorJson(SummaryFailedError, Some(MessageOf(outcome.thrown, UnknownError))))
  {
    match outcome
    case Returned(summary) => Respond(StatusOk, SummaryJson(summary))
    case Threw(e) => Respond(StatusServerError, ErrorJson(SummaryFailedError, Some(MessageOf(e, UnknownError))))
  }

  /**
   The whole handler: an exception escapes exactly when the key is present and
   the body cannot be destructured, and the reply carries a summary exactly
   when every check passed and the summarizer returned, with status 200 and
   the summarizer's own text.
   */
  function Post(apiKey: Option<string>, body: RequestBody, outcome: Outcome<string>): (r: Reply)
    ensures r.Unhandled? <==> Truthy(apiKey) && !body.Parsed?
    ensures r.Respond? && r.body.SummaryJson? <==>
      Truthy(apiKey) && body.Parsed? && TruthyJson(body.text) && outcome.Returned?
    ensures r.Respond? && r.body.SummaryJson? ==> r.status == StatusOk && r.body.summary == outcome.value
  {
    match Decide(apiKey, body)
    case Early(r) => r
    case CallSummarizer(_) => Finish(outcome)
  }

  /**
   Strict precedence. A missing key decides the reply whatever the body and the
   summarizer would do; with the key present, a missing text decides it whatever
   the summarizer would do; only then does the summarizer's settlement matter.
   */
  lemma Precedence(apiKey: Option<string>, body: RequestBody, body2: RequestBody,
                   outcome: Outcome<string>, outcome2: Outcome<string>)
    ensures !Truthy(apiKey) ==> Post(apiKey, body, outcome) == Post(apiKey, body2, outcome2)
    ensures Truthy(apiKey) && !(body.Parsed? && TruthyJson(body.text)) ==>
      Post(apiKey, body, outcome) == Post(apiKey, body, outcome2)
    ensures Truthy(apiKey) && body.Parsed? && TruthyJson(body.text) ==> Post(apiKey, body, outcome) == Finish(outcome)
  {
  }

  /** Every reply the handler writes itself is a 200 with a summary or a 400/500 with an error. */
  lemma ReplyShape(apiKey: Option<string>, body: RequestBody, outcome: Outcome<string>)
    ensures var r := Post(apiKey, body, outcome);
      r.Respond? ==>
        && (r.status == StatusOk <==> r.body.SummaryJson?)
        && (r.status == StatusOk || r.status == StatusBadRequest || r.status == StatusServerError)
    ensures Post(apiKey, body, outcome).Respond? && Post(apiKey, body, outcome).body.SummaryJson? ==>
      outcome.Returned? && Post(apiKey, body, outcome).body.summary == outcome.value
  {
  }
}
