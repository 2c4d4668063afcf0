/**
 The web-page summarizer component: the summarize handler, which wraps the URL
 in a fixed prompt for the text summarizer, the length-change handler (only the
 no-summary guard, no URL-field check), and the effect that submits an initial
 URL on mount. URL well-formedness (`z.string().url()`) is an opaque input.
 */
module PageSummarizer {
  import opened Js
  import opened Strings
  import opened Session

  const PromptPrefix := "Please summarize the content of the webpage at this URL: "
  const SummarizeFailedMessage := "Failed to summarize the web page. Please check the URL and try again."

  /** The text sent to the summarizer for a page URL. */
  function Prompt(url: string): (t: string)
    ensures IsPrefix(PromptPrefix, t) && |t| == |PromptPrefix| + |url|
  {
    PromptPrefix + url
  }

  /** Recovers the URL from a prompt; the partner of `Prompt`. */
  function UrlOfPrompt(t: string): (u: Option<string>)
    ensures u.Some? <==> IsPrefix(PromptPrefix, t)
  {
    if IsPrefix(PromptPrefix, t) then Some(t[|PromptPrefix|..]) else None
  }

  /** Every prompt names its URL, and every text of the prompt's shape is the prompt of one URL. */
  lemma PromptRoundTrip(url: string, t: string)
    ensures UrlOfPrompt(Prompt(url)) == Some(url)
    ensures UrlOfPrompt(t).Some? ==> Prompt(UrlOfPrompt(t).value) == t
  {
  }

  /** Distinct URLs give distinct prompts. */
  lemma PromptInjective(a: string, b: string)
    requires Prompt(a) == Prompt(b)
    ensures a == b
  {
  }

  /** The state set before the summarizer is awaited, with the text sent to it. */
  datatype Started = Started(state: State, request: string)

  /**
   Begins a summarize: sets the loading flag, drops summary, original text and
   error, resets the length to medium, and asks for the prompt built from the URL.
   */
  function BeginSummarize(s: State, url: string): (r: Started)
    ensures r.state.isLoading && r.state.isAdjusting == s.isAdjusting
    ensures r.state.summary.None? && r.state.originalText.None? && r.state.error.None?
    ensures r.state.currentLength == Medium
    ensures UrlOfPrompt(r.request) == Some(url)
  {
    PromptRoundTrip(url, "");
    Started(s.(isLoading := true, summary := None, originalText := None, error := None,
               currentLength := Medium),
            Prompt(url))
  }

  /**
   Settles a summarize: a returned summary becomes both the displayed summary
   and the text later adjustments start from; a throw keeps what is held (the
   begin step already cleared it) and reports the fixed message. The loading
   flag is cleared on both paths and the length is not touched.
   */
  function FinishSummarize(s: State, outcome: Outcome<string>): (r: Reaction)
    ensures !r.state.isLoading && r.state.isAdjusting == s.isAdjusting
    ensures r.state.currentLength == s.currentLength
    ensures outcome.Returned? ==>
      && r.state.summary == Some(outcome.value) && r.state.originalText == r.state.summary
      && r.state.error == s.error && r.toast.None?
    ensures outcome.Threw? ==>
      && r.state.summary == s.summary && r.state.originalText == s.originalText
      && r.state.error == Some(SummarizeFailedMessage)
      && r.toast == Some(FailureToast(outcome.thrown))
  {
    match outcome
    case Returned(text) =>
      Reaction(s.(originalText := Some(text), summary := Some(text), isLoading := false), None)
    case Threw(e) =>
      Reaction(s.(error := Some(SummarizeFailedMessage), isLoading := false), Some(FailureToast(e)))
  }

  /**
   `handleSummarize` as one atomic call: whatever the session held is replaced
   by the returned summary, or by nothing and the fixed error with the failure
   toast; the length is back at medium either way.
   */
  function Summarize(s: State, url: string, outcome: Outcome<string>): (r: Reaction)
    ensures !r.state.isLoading && r.state.isAdjusting == s.isAdjusting && r.state.currentLength == Medium
    ensures outcome.Returned? ==>
      && r.state.summary == Some(outcome.value) && r.state.originalText == Some(outcome.value)
      && r.state.error.None? && r.toast.None?
    ensures outcome.Threw? ==>
      && r.state.summary.None? && r.state.originalText.None?
      && r.state.error == Some(SummarizeFailedMessage) && r.toast == Some(FailureToast(outcome.thrown))
  {
    FinishSummarize(BeginSummarize(s, url).state, outcome)
  }

  /**
   A summarize run replaces whatever the session held: afterwards it holds
   exactly the returned summary (as both summary and original text, at the
   medium length, with no error), or nothing and the fixed error message.
   */
  lemma SummarizeOutcome(s: State, url: string, outcome: Outcome<string>)
    requires Settled(s)
    ensures var r := Summarize(s, url, outcome).state;
      && Settled(r) && r.currentLength == Medium
      && (outcome.Returned? ==> r.originalText == r.summary == Some(outcome.value) && r.error.None?)
      && (outcome.Threw? ==>
            r.summary.None? && r.originalText.None? && r.error == Some(SummarizeFailedMessage))
  {
  }

  /**
   `handleLengthChange`: only the shared no-summary guard stands in front of
   the adjustment, whatever the URL field holds.
   */
  lemma LengthChangeGuard(s: State, newLength: Length, outcome: Outcome<string>)
    ensures BeginAdjust(s, newLength).Refuse? <==> !HasSummary(s)
    ensures !HasSummary(s) ==> ChangeLength(s, newLength, outcome) == Reaction(s, Some(Toast(NoSummaryTitle, NoSummaryDescription)))
    ensures HasSummary(s) && outcome.Returned? ==>
      var r := ChangeLength(s, newLength, outcome).state;
      r.summary == Some(outcome.value) && r.currentLength == newLength && !r.isAdjusting
    ensures HasSummary(s) && outcome.Threw? ==>
      var r := ChangeLength(s, newLength, outcome).state;
      && r.summary == s.summary && r.currentLength == s.currentLength
      && r.error == Some(AdjustFailedMessage) && !r.isAdjusting
  {
  }

  /**
   The mount effect: a truthy initial URL is put in the form and submitted
   once, without going through the form validation.
   */
  function OnMount(initialUrl: Option<string>): (u: Option<string>)
    ensures u.Some? <==> Truthy(initialUrl)
    ensures u.Some? ==> u == initialUrl
  {
    if Truthy(initialUrl) then initialUrl else None
  }

  /** A user interaction with the component, with the settlement of the call it makes. */
  datatype Action =
    | Submit(url: string, urlWellFormed: bool, result: Outcome<string>)
    | PickLength(newLength: Length, result: Outcome<string>)

  /** One interaction; a submission the form refuses makes no call. */
  function Step(s: State, a: Action): State {
    match a
    case Submit(url, wf, result) => if wf then Summarize(s, url, result).state else s
    case PickLength(l, result) => ChangeLength(s, l, result).state
  }

  /** The interactions of a session, in order. */
  function Run(s: State, actions: seq<Action>): State
    decreases |actions|
  {
    if |actions| == 0 then s else Run(Step(s, actions[0]), actions[1..])
  }

  /**
   Every session stays settled whatever the user does and however the
   external calls settle: no flag is left set, a summary is held exactly when
   its original text is, and only the two fixed error messages are shown.
   */
  lemma {:induction false} RunStaysSettled(s: State, actions: seq<Action>)
    requires Settled(s) && KnownError(s.error, SummarizeFailedMessage)
    ensures Settled(Run(s, actions)) && KnownError(Run(s, actions).error, SummarizeFailedMessage)
    decreases |actions|
  {
    if |actions| > 0 {
      var a := actions[0];
      match a {
        case Submit(url, wf, result) =>
          if wf { SummarizeOutcome(s, url, result); }
        case PickLength(l, result) =>
          ChangeLengthKeepsSummary(s, l, result);
      }
      RunStaysSettled(Step(s, a), actions[1..]);
    }
  }

  /**
   A session opened with a truthy initial URL summarizes exactly that URL
   once, by sending its prompt, before any interaction.
   */
  lemma MountSummarizesOnce(initialUrl: string, first: Outcome<string>)
    requires initialUrl != ""
    ensures OnMount(Some(initialUrl)) == Some(initialUrl)
    ensures BeginSummarize(Initial, initialUrl).request == PromptPrefix + initialUrl
    ensures Settled(Summarize(Initial, initialUrl, first).state)
  {
  }
}
