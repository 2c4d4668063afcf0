/**
 The content script talking to the summarize route: what the page's text
 becomes as a request, and what the route's reply becomes on screen.
 */
module EndToEnd {
  import opened Js
  import Overlay
  import Route

  /** The body `JSON.stringify({ text: pageText })` posts, as the route parses it. */
  function RequestOf(plan: Overlay.FetchPlan): Route.RequestBody
    requires plan.PostText?
  {
    Route.Parsed(JString(plan.text))
  }

  /**
   The reply as the content script's `fetch` sees it; `ok` means a 2xx status.
   The request is assumed to reach the handler, so a transport failure (for
   instance a refused cross-origin request) never appears here.
   */
  function Deliver(reply: Route.Reply, statusText: string): Overlay.Reply {
    match reply
    case Unhandled => Overlay.Response(false, statusText, Overlay.NotJson(""))
    case Respond(status, body) =>
      Overlay.Response(200 <= status < 300, statusText,
        match body
        case SummaryJson(s) => Overlay.Json(Overlay.Payload(None, None, Some(s)))
        case ErrorJson(e, d) => Overlay.Json(Overlay.Payload(Some(e), d, None)))
  }

  /**
   Whenever the overlay posts and the server has its key, the route hands the
   text the overlay read to the summarizer, unchanged.
   */
  lemma PostedTextReachesSummarizer(pageText: string, apiKey: Option<string>)
    requires Overlay.PlanFetch(pageText).PostText? && Truthy(apiKey)
    ensures Route.Decide(apiKey, RequestOf(Overlay.PlanFetch(pageText))) == Route.CallSummarizer(JString(pageText))
  {
  }

  /**
   The overlay shows the rendered summary when the route succeeds and the bare
   server-error text otherwise: every error reply of the route has a non-2xx
   status, so its `error` and `details` fields are never read, and a missing
   API key or a failed summary look the same on the page.
   */
  lemma RouteErrorsShowStatusOnly(apiKey: Option<string>, body: Route.RequestBody,
                                  outcome: Outcome<string>, statusText: string)
    ensures var reply := Route.Post(apiKey, body, outcome);
      Overlay.ShowReply(Deliver(reply, statusText)) ==
        if reply.Respond? && reply.body.SummaryJson? then Overlay.Html(Overlay.Render(reply.body.summary))
        else Overlay.Failure(Overlay.ServerErrorPrefix + statusText)
  {
  }
}
