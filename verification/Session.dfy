/**
 The state both summarizer components (page and video) keep, and the length
 adjustment they share. The two components hold the same six pieces of React
 state and run the same adjustment code; they differ in how a summary is first
 produced and in the guard in front of an adjustment.

 The adjustment service is external: its settlement is passed in as an
 `Outcome`. A handler is split into a begin step (the state set before the
 `await`) and a finish step (the state set after it settles, including the
 `finally` clause).
 */
module Session {
  import opened Js

  /** The length categories the adjustment service and the forms accept. */
  datatype Length = Short | Medium | Long

  /** The wire spelling of a length. */
  function LengthName(l: Length): string {
    match l
    case Short => "short"
    case Medium => "medium"
    case Long => "long"
  }

  /** `z.enum(['short', 'medium', 'long'])` applied to a submitted string. */
  function ParseLength(s: string): (r: Option<Length>)
    ensures r.Some? <==> s in {"short", "medium", "long"}
  {
    if s == "short" then Some(Short)
    else if s == "medium" then Some(Medium)
    else if s == "long" then Some(Long)
    else None
  }

  /** Parsing inverts spelling, and only spellings parse. */
  lemma LengthNameRoundTrip(l: Length, s: string)
    ensures ParseLength(LengthName(l)) == Some(l)
    ensures ParseLength(s) == Some(l) ==> LengthName(l) == s
  {
  }

  /** `{originalText, summary, isLoading, isAdjusting, error, currentLength}` */
  datatype State = State(
    originalText: Option<string>,
    summary: Option<string>,
    isLoading: bool,
    isAdjusting: bool,
    error: Option<string>,
    currentLength: Length)

  /** The `useState` initial values. */
  const Initial := State(None, None, false, false, None, Medium)

  /** A fresh session holds nothing, runs nothing and is at the medium length. */
  lemma InitialState()
    ensures Initial.originalText.None? && Initial.summary.None? && Initial.error.None?
    ensures !Initial.isLoading && !Initial.isAdjusting && Initial.currentLength == Medium
    ensures Settled(Initial) && !HasSummary(Initial)
  {
  }

  /** A destructive toast shown to the user. */
  datatype Toast = Toast(title: string, description: string)

  /** The state after a finish step, with the toast it raised, if any. */
  datatype Reaction = Reaction(state: State, toast: Option<Toast>)

  /** The request handed to the length-adjustment service. */
  datatype AdjustRequest = AdjustRequest(text: string, summary: string, length: Length)

  const ErrorToastTitle := "An error occurred"
  const UnknownErrorMessage := "An unknown error occurred."
  const AdjustFailedMessage := "Failed to adjust summary length. Please try again."
  const NoSummaryTitle := "No summary available"
  const NoSummaryDescription := "Please generate a summary first before changing its length."

  /** The toast raised when an awaited call throws `e`. */
  function FailureToast(e: Thrown): (t: Toast)
    ensures t.title == ErrorToastTitle
    ensures e.ErrorInstance? ==> t.description == e.message
    ensures e.NonError? ==> t.description == UnknownErrorMessage
  {
    Toast(ErrorToastTitle, MessageOf(e, UnknownErrorMessage))
  }

  /** The session holds a summary that can be adjusted: both strings are truthy. */
  predicate HasSummary(s: State) {
    Truthy(s.summary) && Truthy(s.originalText)
  }

  /**
   Either the refusal toast of the adjustment guard, or the request to send
   with the state set just before the call.
   */
  datatype AdjustDecision = Refuse(toast: Toast) | Adjust(started: State, request: AdjustRequest)

  /**
   Begins an adjustment once the component's own guard has passed: refuses
   without touching the state when there is no summary, otherwise marks the
   session as adjusting and clears the error.
   */
  function BeginAdjust(s: State, newLength: Length): (d: AdjustDecision)
    ensures d.Refuse? <==> !HasSummary(s)
    ensures d.Refuse? ==> d.toast == Toast(NoSummaryTitle, NoSummaryDescription)
    ensures d.Adjust? ==>
      && d.request == AdjustRequest(s.originalText.value, s.summary.value, newLength)
      && d.started == s.(isAdjusting := true, error := None)
  {
    if !HasSummary(s) then Refuse(Toast(NoSummaryTitle, NoSummaryDescription))
    else Adjust(s.(isAdjusting := true, error := None),
                AdjustRequest(s.originalText.value, s.summary.value, newLength))
  }

  /**
   Settles an adjustment: a returned summary replaces the current one and the
   length becomes the requested one; a throw keeps both and reports the error.
   Either way the adjusting flag is cleared and the original text is kept.
   */
  function FinishAdjust(s: State, newLength: Length, outcome: Outcome<string>): (r: Reaction)
    ensures !r.state.isAdjusting
    ensures r.state.originalText == s.originalText
    ensures r.state.isLoading == s.isLoading
    ensures outcome.Returned? ==>
      && r.state.summary == Some(outcome.value)
      && r.state.currentLength == newLength
      && r.state.error == s.error
      && r.toast.None?
    ensures outcome.Threw? ==>
      && r.state.summary == s.summary
      && r.state.currentLength == s.currentLength
      && r.state.error == Some(AdjustFailedMessage)
      && r.toast == Some(FailureToast(outcome.thrown))
  {
    match outcome
    case Returned(adjusted) =>
      Reaction(s.(summary := Some(adjusted), currentLength := newLength, isAdjusting := false), None)
    case Threw(e) =>
      Reaction(s.(error := Some(AdjustFailedMessage), isAdjusting := false), Some(FailureToast(e)))
  }

  /**
   The shape every settled session keeps: no call in flight, and a summary is
   held exactly when the text it was derived from is held.
   */
  predicate Settled(s: State) {
    !s.isLoading && !s.isAdjusting && (s.summary.Some? <==> s.originalText.Some?)
  }

  /** The error a session shows is none, the component's own summarize failure, or the adjust failure. */
  predicate KnownError(e: Option<string>, summarizeFailed: string) {
    e.None? || e.value in {summarizeFailed, AdjustFailedMessage}
  }

  /**
   A whole adjustment, begin then finish, as one atomic handler call: without a
   summary only the refusal toast appears; otherwise the adjusted summary and
   length replace the old ones, or the failure keeps them and reports the error.
   */
  function ChangeLength(s: State, newLength: Length, outcome: Outcome<string>): (r: Reaction)
    ensures !HasSummary(s) ==> r == Reaction(s, Some(Toast(NoSummaryTitle, NoSummaryDescription)))
    ensures HasSummary(s) ==>
      && !r.state.isAdjusting && r.state.isLoading == s.isLoading && r.state.originalText == s.originalText
    ensures HasSummary(s) && outcome.Returned? ==>
      && r.state.summary == Some(outcome.value) && r.state.currentLength == newLength
      && r.state.error.None? && r.toast.None?
    ensures HasSummary(s) && outcome.Threw? ==>
      && r.state.summary == s.summary && r.state.currentLength == s.currentLength
      && r.state.error == Some(AdjustFailedMessage) && r.toast == Some(FailureToast(outcome.thrown))
  {
    match BeginAdjust(s, newLength)
    case Refuse(t) => Reaction(s, Some(t))
    case Adjust(started, _) => FinishAdjust(started, newLength, outcome)
  }

  /**
   An adjustment never loses the last good summary: a refused one changes
   nothing, a failed one keeps summary, text and length, and a successful one
   keeps the text the summary was derived from. A settled session stays settled.
   */
  lemma ChangeLengthKeepsSummary(s: State, newLength: Length, outcome: Outcome<string>)
    requires Settled(s)
    ensures Settled(ChangeLength(s, newLength, outcome).state)
    ensures !HasSummary(s) ==> ChangeLength(s, newLength, outcome).state == s
    ensures outcome.Threw? ==>
      var r := ChangeLength(s, newLength, outcome).state;
      r.summary == s.summary && r.originalText == s.originalText && r.currentLength == s.currentLength
    ensures HasSummary(s) && outcome.Returned? ==>
      var r := ChangeLength(s, newLength, outcome).state;
      r.summary == Some(outcome.value) && r.originalText == s.originalText && r.currentLength == newLength
  {
  }
}
