/**
 The YouTube summarizer component: its form validation, the summarize handler
 (begin before the awaited video summarizer, finish after it settles), the
 length-change handler with its URL-field guard, and the effect that submits
 an initial URL on mount.

 URL well-formedness (`z.string().url()`) and the form library's record of
 whether the URL field is invalid are opaque inputs here.
 */
module VideoSummarizer {
  import opened Js
  import opened Strings
  import opened Session

  /** The form values handed to the video summarizer. */
  datatype Values = Values(videoUrl: string, length: Length)

  const InvalidUrlMessage := "Please enter a valid YouTube URL."
  const SummarizeFailedMessage := "Failed to summarize the video. Please check the URL and try again."
  const MissingUrlTitle := "Missing URL"
  const MissingUrlDescription := "Please enter a valid YouTube video URL first."

  /** The host check of the form schema: the URL mentions a YouTube host. */
  predicate IsYouTubeUrl(url: string) {
    Contains(url, "youtube.com") || Contains(url, "youtu.be")
  }

  /** Why the form refused a submission. */
  datatype FieldError = UrlError(message: string) | LengthError

  datatype Validation = Valid(values: Values) | Invalid(error: FieldError)

  /**
   The form schema: the URL must be well formed and name a YouTube host (both
   checks report the same message, URL first), and the length must be one of
   the three categories.
   */
  function Validate(videoUrl: string, urlWellFormed: bool, lengthText: string): (v: Validation)
    ensures v.Valid? <==>
      && urlWellFormed
      && (exists i :: OccursAt(videoUrl, "youtube.com", i) || OccursAt(videoUrl, "youtu.be", i))
      && ParseLength(lengthText).Some?
    ensures v.Valid? ==> v.values.videoUrl == videoUrl && LengthName(v.values.length) == lengthText
    ensures v.Invalid? && !(urlWellFormed && IsYouTubeUrl(videoUrl)) ==> v.error == UrlError(InvalidUrlMessage)
  {
    ContainsIffOccurs(videoUrl, "youtube.com");
    ContainsIffOccurs(videoUrl, "youtu.be");
    if !urlWellFormed || !IsYouTubeUrl(videoUrl) then Invalid(UrlError(InvalidUrlMessage))
    else match ParseLength(lengthText)
      case None => Invalid(LengthError)
      case Some(l) =>
        LengthNameRoundTrip(l, lengthText);
        Valid(Values(videoUrl, l))
  }

  /** The state set before the video summarizer is awaited. */
  function BeginSummarize(s: State): (r: State)
    ensures r.isLoading && r.error.None? && r.summary.None? && r.originalText.None?
    ensures r.isAdjusting == s.isAdjusting && r.currentLength == s.currentLength
  {
    s.(isLoading := true, error := None, summary := None, originalText := None)
  }

  /**
   The state set once the video summarizer settles. A returned summary becomes
   both the displayed summary and the text later adjustments start from, at the
   requested length; a throw clears the summary and reports the fixed message.
   The loading flag is cleared on both paths.
   */
  function FinishSummarize(s: State, values: Values, outcome: Outcome<string>): (r: Reaction)
    ensures !r.state.isLoading && r.state.isAdjusting == s.isAdjusting
    ensures outcome.Returned? ==>
      && r.state.summary == Some(outcome.value) && r.state.originalText == r.state.summary
      && r.state.currentLength == values.length && r.state.error == s.error && r.toast.None?
    ensures outcome.Threw? ==>
      && r.state.summary.None? && r.state.originalText == s.originalText
      && r.state.currentLength == s.currentLength
      && r.state.error == Some(SummarizeFailedMessage)
      && r.toast == Some(FailureToast(outcome.thrown))
  {
    match outcome
    case Returned(text) =>
      Reaction(s.(originalText := Some(text), summary := Some(text), currentLength := values.length,
                  isLoading := false), None)
    case Threw(e) =>
      Reaction(s.(error := Some(SummarizeFailedMessage), summary := None, isLoading := false),
               Some(FailureToast(e)))
  }

  /**
   `handleSummarize` as one atomic call: whatever the session held is replaced
   by the returned summary at the requested length, or by nothing and the fixed
   error with the failure toast.
   */
  function Summarize(s: State, values: Values, outcome: Outcome<string>): (r: Reaction)
    ensures !r.state.isLoading && r.state.isAdjusting == s.isAdjusting
    ensures outcome.Returned? ==>
      && r.state.summary == Some(outcome.value) && r.state.originalText == Some(outcome.value)
      && r.state.currentLength == values.length && r.state.error.None? && r.toast.None?
    ensures outcome.Threw? ==>
      && r.state.summary.None? && r.state.originalText.None? && r.state.currentLength == s.currentLength
      && r.state.error == Some(SummarizeFailedMessage) && r.toast == Some(FailureToast(outcome.thrown))
  {
    FinishSummarize(BeginSummarize(s), values, outcome)
  }

  /**
   A summarize run replaces whatever the session held: afterwards it holds
   exactly the returned summary (as both summary and original text, at the
   requested length, with no error), or nothing and the fixed error message.
   */
  lemma SummarizeOutcome(s: State, values: Values, outcome: Outcome<string>)
    requires Settled(s)
    ensures var r := Summarize(s, values, outcome).state;
      && Settled(r)
      && (outcome.Returned? ==>
            r.originalText == r.summary == Some(outcome.value) && r.currentLength == values.length
            && r.error.None?)
      && (outcome.Threw? ==>
            r.summary.None? && r.originalText.None? && r.error == Some(SummarizeFailedMessage))
  {
  }

  /**
   `handleLengthChange` up to the awaited call: refuses with a toast when the
   URL field is invalid or empty (checked first), otherwise applies the shared
   no-summary guard and begins the adjustment.
   */
  function BeginLengthChange(s: State, newLength: Length, currentUrl: string, urlFieldInvalid: bool)
    : (d: AdjustDecision)
    ensures (urlFieldInvalid || currentUrl == "") ==> d == Refuse(Toast(MissingUrlTitle, MissingUrlDescription))
    ensures d.Adjust? <==> !urlFieldInvalid && currentUrl != "" && HasSummary(s)
    ensures d.Adjust? ==>
      && d.request == AdjustRequest(s.originalText.value, s.summary.value, newLength)
      && d.started.isAdjusting && d.started.error.None?
      && d.started.summary == s.summary && d.started.originalText == s.originalText
  {
    if urlFieldInvalid || currentUrl == "" then Refuse(Toast(MissingUrlTitle, MissingUrlDescription))
    else BeginAdjust(s, newLength)
  }

  /** `handleLengthChange` as one atomic call; a refusal leaves the state as it was. */
  function LengthChange(s: State, newLength: Length, currentUrl: string, urlFieldInvalid: bool,
                        outcome: Outcome<string>): (r: Reaction)
    ensures urlFieldInvalid || currentUrl == "" ==> r == Reaction(s, Some(Toast(MissingUrlTitle, MissingUrlDescription)))
    ensures !urlFieldInvalid && currentUrl != "" ==> r == ChangeLength(s, newLength, outcome)
  {
    match BeginLengthChange(s, newLength, currentUrl, urlFieldInvalid)
    case Refuse(t) => Reaction(s, Some(t))
    case Adjust(started, _) => FinishAdjust(started, newLength, outcome)
  }

  /**
   A length change with a missing URL or without a held summary changes
   nothing; otherwise it agrees with the shared adjustment.
   */
  lemma LengthChangeGuarded(s: State, newLength: Length, currentUrl: string, urlFieldInvalid: bool,
                            outcome: Outcome<string>)
    ensures (urlFieldInvalid || currentUrl == "" || !HasSummary(s)) ==>
      LengthChange(s, newLength, currentUrl, urlFieldInvalid, outcome).state == s
    ensures (!urlFieldInvalid && currentUrl != "") ==>
      LengthChange(s, newLength, currentUrl, urlFieldInvalid, outcome).state
        == ChangeLength(s, newLength, outcome).state
  {
  }

  /**
   The mount effect: a truthy initial URL is put in the form and submitted
   once, at the default length, without going through the form validation.
   */
  function OnMount(initialUrl: Option<string>): (v: Option<Values>)
    ensures v.Some? <==> Truthy(initialUrl)
    ensures v.Some? ==> v.value == Values(initialUrl.value, Medium)
  {
    if Truthy(initialUrl) then Some(Values(initialUrl.value, Medium)) else None
  }

  /** The mount effect can submit a URL the form itself would refuse. */
  lemma MountSkipsHostCheck()
    ensures OnMount(Some("https://example.com/")).Some?
    ensures Validate("https://example.com/", true, "medium").Invalid?
  {
    ExampleIsNotYouTube();
  }

  lemma ExampleIsNotYouTube()
    ensures !IsYouTubeUrl("https://example.com/")
  {
    NoOccurrence("https://example.com/", "youtube.com", 'y');
    NoOccurrence("https://example.com/", "youtu.be", 'y');
  }


  /** A user interaction with the component, with the settlement of the call it makes. */
  datatype Action =
    | Submit(videoUrl: string, urlWellFormed: bool, lengthText: string, result: Outcome<string>)
    | PickLength(newLength: Length, currentUrl: string, urlFieldInvalid: bool, result: Outcome<string>)

  /** One interaction; a submission the form refuses makes no call. */
  function Step(s: State, a: Action): State {
    match a
    case Submit(url, wf, lt, result) =>
      (match Validate(url, wf, lt)
       case Invalid(_) => s
       case Valid(values) => Summarize(s, values, result).state)
    case PickLength(l, url, invalid, result) => LengthChange(s, l, url, invalid, result).state
  }

  /** A session: the mount effect (if any), then the interactions in order. */
  function Run(s: State, actions: seq<Action>): State
    decreases |actions|
  {
    if |actions| == 0 then s else Run(Step(s, actions[0]), actions[1..])
  }

  /**
   Every session that starts from the initial state stays settled whatever the
   user does and however the external calls settle: no flag is left set, a
   summary is held exactly when its original text is, and the only error ever
   shown is one of the two fixed messages.
   */
  lemma {:induction false} RunStaysSettled(s: State, actions: seq<Action>)
    requires Settled(s) && KnownError(s.error, SummarizeFailedMessage)
    ensures Settled(Run(s, actions)) && KnownError(Run(s, actions).error, SummarizeFailedMessage)
    decreases |actions|
  {
    if |actions| > 0 {
      var a := actions[0];
      match a {
        case Submit(url, wf, lt, result) =>
          match Validate(url, wf, lt) {
            case Invalid(_) =>
            case Valid(values) => SummarizeOutcome(s, values, result);
          }
        case PickLength(l, url, invalid, result) =>
          LengthChangeGuarded(s, l, url, invalid, result);
          ChangeLengthKeepsSummary(s, l, result);
      }
      RunStaysSettled(Step(s, a), actions[1..]);
    }
  }

  /** The session opened with an initial URL obeys the same invariant. */
  lemma MountedRunStaysSettled(initialUrl: Option<string>, first: Outcome<string>, actions: seq<Action>)
    ensures var s0 := match OnMount(initialUrl)
                      case None => Initial
                      case Some(v) => Summarize(Initial, v, first).state;
      Settled(Run(s0, actions)) && KnownError(Run(s0, actions).error, SummarizeFailedMessage)
  {
    var s0 := match OnMount(initialUrl)
              case None => Initial
              case Some(v) => Summarize(Initial, v, first).state;
    if v :| OnMount(initialUrl) == Some(v) {
      SummarizeOutcome(Initial, v, first);
    }
    RunStaysSettled(s0, actions);
  }
}
