# Summarist decision logic in Dafny

Summarist is a browser extension and a companion Next.js web application that
summarize a web page or a YouTube video with a large language model and let the
user re-ask for a shorter or longer summary. Most of it is plumbing around the
model, React rendering and the Chrome extension APIs. This project models the
decision logic inside that plumbing and proves properties of it:

- **Summarizer sessions** (`Session`, `VideoSummarizer`, `PageSummarizer`): the
  six pieces of React state `{originalText, summary, isLoading, isAdjusting,
  error, currentLength}` and the transitions the two form components apply to
  them. Each handler is a begin step (what is set before the `await`) and a
  finish step (what is set once the external call settles, `finally` included).
  The external call's settlement is an `Outcome`: a returned value, or a thrown
  `Error` or other value. The page and video variants share the
  length-adjustment code (`Session.BeginAdjust`, `Session.FinishAdjust`). They
  differ in their guards: the video variant also refuses when its URL field is
  invalid or empty. A session is a sequence of atomic handler calls. The
  invariant `Settled` holds over every such sequence: no flag is left set, a
  summary is held exactly when its original text is, and only the fixed error
  messages appear.
- **Content-script overlay** (`Overlay`): the page's body as a sequence of
  element ids. On it, the single-modal invariant is proved over any sequence of
  activations and close clicks. The module also models the 100-code-unit
  trimmed-text gate before any network call and the mapping from each way the
  `fetch` can settle to the text shown. Last comes the fixed rewriting chain:
  three heading markers become `<strong>` text, then every newline becomes
  `<br />`.
- **Summarize route** (`Route`): `POST /api/summarize` as a total function. Its
  inputs are the API key (present or not), the request body and the
  summarizer's settlement; its output is a status and a JSON body. The
  precedence is strict: missing key, then unreadable body, then missing text,
  then the summarizer's result.
- **Background worker** (`Background`): the injection routine's URL guard and
  the ordered effects it performs, plus the icon and context-menu triggers.
- **End to end** (`EndToEnd`): the overlay's request fed to the route, and the
  route's reply fed back to the overlay, assuming the browser delivers both.

JavaScript semantics the source relies on are written out in `Js` and
`Strings`:
- truthiness, where `""` counts as absent, so an empty summary cannot be
  adjusted;
- `e instanceof Error ? e.message : fallback`;
- `includes` and `startsWith`;
- `trim` over the ECMAScript whitespace and line-terminator set;
- `length` in UTF-16 code units, where a character outside the Basic
  Multilingual Plane counts twice;
- global literal `replace`.

The web app's `initialUrl` never reaches the summarizers:
`src/components/summarizer/Summarizer.tsx` renders both components without
props. Their mount effects (`VideoSummarizer.OnMount`, `PageSummarizer.OnMount`)
are modelled as the components define them.

## Model

| member | source | states |
|---|---|---|
| `Strings.ContainsIffOccurs` | src/components/summarizer/VideoSummarizer.tsx:34 | `includes` holds exactly when the pattern occurs at some index, both directions |
| `Strings.TrimStart` | extension/content.js:33 | trimming the start drops exactly a whitespace-only prefix, and the rest starts with non-whitespace |
| `Strings.TrimEnd` | extension/content.js:33 | trimming the end drops exactly a whitespace-only suffix, and the rest ends with non-whitespace |
| `Strings.TrimIsInnerSlice` | extension/content.js:33 | the trimmed text is the slice between a whitespace-only prefix and suffix, bordered by non-whitespace |
| `Strings.TrimIdempotent` | extension/content.js:33 | trimming twice is trimming once |
| `Strings.Trim` | extension/content.js:33 | `trim()` never lengthens the text, and gives the empty string exactly when the page text is all whitespace |
| `Strings.Utf16Length` | extension/content.js:33 | `length` lies between the character count and twice it, and equals the character count for BMP-only text |
| `Strings.ReplaceAll` | extension/content.js:60-63 | a global literal replace keeps the length when pattern and replacement are equally long and never shortens text when the replacement is at least as long |
| `Strings.ReplaceAllAbsent` | extension/content.js:60-62 | a global replace leaves text without the pattern untouched |
| `Strings.ReplaceAllSkip` | extension/content.js:60-63 | a prefix in which no occurrence of the pattern begins is copied unchanged, and the scan continues after it |
| `Strings.ReplaceFirstOccurrence` | extension/content.js:60-63 | the first occurrence of a multi-character pattern is replaced in place: the text before it is kept and the scan resumes after it |
| `Strings.ReplaceCharRemovesIt` | extension/content.js:63 | replacing a character by text lacking it leaves no occurrence of it |
| `Strings.ReplaceCharIsMap` | extension/content.js:63 | the left-to-right replace of one character agrees with a per-character reference map |
| `Strings.ReplaceLoneChar` | extension/content.js:63 | a single newline between newline-free texts becomes the replacement in place |
| `Session.ParseLength` | src/components/summarizer/VideoSummarizer.tsx:37 | the length field accepts exactly `short`, `medium` and `long` |
| `Session.LengthNameRoundTrip` | src/components/summarizer/VideoSummarizer.tsx:37 | parsing inverts the wire spelling of a length, and only spellings parse |
| `Session.InitialState` | src/components/summarizer/VideoSummarizer.tsx:43-48 | a new session holds no text, summary or error, runs nothing, is at medium length and is settled |
| `Session.FailureToast` | src/components/summarizer/VideoSummarizer.tsx:120-128 | a thrown `Error` shows its message, anything else the unknown-error text, under the fixed title |
| `Session.BeginAdjust` | src/components/summarizer/PageSummarizer.tsx:81-96 | an adjustment is refused, with the no-summary toast, exactly when summary or original text is falsy; otherwise it sends the original text, current summary and new length |
| `Session.FinishAdjust` | src/components/summarizer/VideoSummarizer.tsx:112-131 | success replaces the summary and length; failure keeps both and sets the fixed error; the adjusting flag is always cleared and the original text is never touched |
| `Session.ChangeLength` | src/components/summarizer/PageSummarizer.tsx:79-113 | without a truthy summary and text only the refusal toast appears and nothing changes; a returned adjustment replaces summary and length and clears the error; a throw keeps both, sets the fixed error and raises the failure toast; the original text is never touched |
| `Session.ChangeLengthKeepsSummary` | src/components/summarizer/PageSummarizer.tsx:79-113 | an adjustment never loses the last good summary and keeps a settled session settled |
| `VideoSummarizer.Validate` | src/components/summarizer/VideoSummarizer.tsx:30-38 | a submission is accepted exactly when the URL is well formed, mentions `youtube.com` or `youtu.be`, and the length is one of the three |
| `VideoSummarizer.BeginSummarize` | src/components/summarizer/VideoSummarizer.tsx:61-64 | starting a summarize sets loading and drops summary, original text and error |
| `VideoSummarizer.FinishSummarize` | src/components/summarizer/VideoSummarizer.tsx:66-84 | success makes the result both summary and original text at the requested length; failure leaves no summary and the fixed error; loading always ends |
| `VideoSummarizer.Summarize` | src/components/summarizer/VideoSummarizer.tsx:59-87 | a returned summary becomes both summary and original text at the requested length with no error; a throw leaves neither, the fixed error and the failure toast; loading always ends |
| `VideoSummarizer.SummarizeOutcome` | src/components/summarizer/VideoSummarizer.tsx:59-87 | a whole summarize replaces whatever the session held and leaves it settled |
| `VideoSummarizer.BeginLengthChange` | src/components/summarizer/VideoSummarizer.tsx:89-111 | an invalid or empty URL field refuses first with its own toast; the adjustment goes ahead exactly when the URL is present and a summary is held |
| `VideoSummarizer.LengthChange` | src/components/summarizer/VideoSummarizer.tsx:89-134 | an invalid or empty URL field gives only its own toast and changes nothing; otherwise the handler is exactly the shared adjustment |
| `VideoSummarizer.LengthChangeGuarded` | src/components/summarizer/VideoSummarizer.tsx:89-108 | a refused length change leaves the state unchanged; an accepted one is the shared adjustment |
| `VideoSummarizer.OnMount` | src/components/summarizer/VideoSummarizer.tsx:136-141 | a truthy initial URL is submitted exactly once, at medium length |
| `VideoSummarizer.MountSkipsHostCheck` | src/components/summarizer/VideoSummarizer.tsx:136-141 | the mount effect submits a URL the form's host check refuses |
| `VideoSummarizer.RunStaysSettled` | src/components/summarizer/VideoSummarizer.tsx:59-134 | any sequence of submissions and length changes, however the calls settle, keeps the session settled with only the fixed errors |
| `VideoSummarizer.MountedRunStaysSettled` | src/components/summarizer/VideoSummarizer.tsx:136-141 | a session opened by the mount effect obeys the same invariant |
| `PageSummarizer.Prompt` | src/components/summarizer/PageSummarizer.tsx:59 | the text sent is the fixed prefix followed by the URL |
| `PageSummarizer.UrlOfPrompt` | src/components/summarizer/PageSummarizer.tsx:59 | a URL is recovered exactly from texts that start with the fixed prefix |
| `PageSummarizer.PromptRoundTrip` | src/components/summarizer/PageSummarizer.tsx:59 | building a prompt and reading its URL back are inverse in both directions |
| `PageSummarizer.PromptInjective` | src/components/summarizer/PageSummarizer.tsx:59 | distinct URLs give distinct prompts |
| `PageSummarizer.BeginSummarize` | src/components/summarizer/PageSummarizer.tsx:53-59 | starting a summarize sets loading, drops summary, original text and error, resets the length to medium, and sends the prompt naming the URL |
| `PageSummarizer.FinishSummarize` | src/components/summarizer/PageSummarizer.tsx:58-74 | success makes the result both summary and original text; failure sets the fixed page error; loading always ends and the length is untouched |
| `PageSummarizer.Summarize` | src/components/summarizer/PageSummarizer.tsx:51-77 | at medium length, a returned summary becomes both summary and original text with no error; a throw leaves neither, the fixed page error and the failure toast; loading always ends |
| `PageSummarizer.SummarizeOutcome` | src/components/summarizer/PageSummarizer.tsx:51-77 | a whole summarize leaves a settled session at medium length holding the result or nothing |
| `PageSummarizer.LengthChangeGuard` | src/components/summarizer/PageSummarizer.tsx:79-110 | only the no-summary guard stands before an adjustment, whatever the URL field holds; success and failure as in the shared adjustment |
| `PageSummarizer.OnMount` | src/components/summarizer/PageSummarizer.tsx:115-120 | a truthy initial URL is submitted exactly once |
| `PageSummarizer.MountSummarizesOnce` | src/components/summarizer/PageSummarizer.tsx:115-120 | the mount submission sends the prompt for exactly that URL and settles |
| `PageSummarizer.RunStaysSettled` | src/components/summarizer/PageSummarizer.tsx:51-113 | any sequence of submissions and length changes keeps the session settled with only the fixed errors |
| `Overlay.RemoveFirst` | extension/content.js:4-7 | removing by id takes away one element carrying it, if any, and keeps all others in order |
| `Overlay.RemoveFirstTakesFirst` | extension/content.js:4-7 | the element removed is the first one carrying the id, as `getElementById` finds it, and the elements before and after it stay |
| `Overlay.Activate` | extension/content.js:2-23 | from at most one modal, activation leaves exactly one modal, it is the last child, and the page's other elements are unchanged |
| `Overlay.Close` | extension/content.js:26-28 | from at most one modal, the close button leaves no modal and the page's other elements unchanged |
| `Overlay.SingleModal` | extension/content.js:2-28 | over any sequence of activations and closes there is never more than one modal, and exactly one after an activation |
| `Overlay.PlanFetch` | extension/content.js:31-45 | no request is made when the text is empty or its trimmed UTF-16 length is under 100; otherwise the untrimmed text is posted to the endpoint |
| `Overlay.FetchThreshold` | extension/content.js:32-36 | a read text under fifty characters or all whitespace is never sent; one of a hundred trimmed BMP characters always is |
| `Overlay.AstralTextPasses` | extension/content.js:33 | fifty emoji pass the hundred-unit threshold |
| `Overlay.ShowReply` | extension/content.js:47-68 | non-ok status, rejected fetch, bad JSON, error payload (details before error) and missing summary each give their own failure text; only a summary reaches `innerHTML`, rendered and free of newlines |
| `Overlay.GetSummary` | extension/content.js:31-69 | below the threshold the not-enough-text notice is shown; otherwise the shown text is determined by the reply |
| `Overlay.GetSummaryShape` | extension/content.js:31-69 | the paragraph always ends as the notice, a failure text, or newline-free HTML, and a short page ignores the reply |
| `Overlay.Render` | extension/content.js:59-63 | no newline survives the rendering: each became a line break |
| `Overlay.RenderIsMap` | extension/content.js:59-63 | after the headings are bolded, rendering rewrites the text character by character, turning each newline into a line break and keeping every other character |
| `Overlay.RenderPlainPrefix` | extension/content.js:59-63 | text without `#` and newlines is copied unchanged, and what follows is rendered on its own |
| `Overlay.RenderCoreMarker` | extension/content.js:60 | `# Core Message` after such text becomes `<strong>Core Message</strong>`, and what follows is rendered on its own |
| `Overlay.RenderKeyMarker` | extension/content.js:61 | `## Key Points` after such text passes the first step untouched and becomes `<strong>Key Points</strong>` |
| `Overlay.RenderTasksMarker` | extension/content.js:62 | `## Actionable Tasks` after such text passes the first two steps untouched and becomes `<strong>Actionable Tasks</strong>` |
| `Overlay.RenderNewline` | extension/content.js:63 | a newline after such text becomes `<br />`, and what follows is rendered on its own |
| `Overlay.RenderLeavesPlainText` | extension/content.js:59-63 | a summary with no marker and no newline is rendered unchanged |
| `Overlay.RenderPlain` | extension/content.js:59-63 | text without `#` and newlines is rendered exactly as it is |
| `Overlay.RenderExample` | extension/content.js:59-63 | `# Core Message`, a newline and plain text render as `<strong>Core Message</strong><br />` followed by the text |
| `Route.Decide` | src/app/api/summarize/route.ts:8-22 | missing key gives 500 before the body is read; an unreadable body escapes; a falsy text gives 400; only a truthy text reaches the summarizer, unchanged |
| `Route.Post` | src/app/api/summarize/route.ts:6-32 | an exception escapes exactly when the key is present and the body cannot be destructured; the reply carries a summary exactly when the key and a truthy text are present and the summarizer returned, and then with status 200 and the summarizer's own text |
| `Route.Finish` | src/app/api/summarize/route.ts:24-31 | success replies with the summary alone and the default status; failure gives 500 with the thrown message as details |
| `Route.Precedence` | src/app/api/summarize/route.ts:6-32 | a missing key decides the reply whatever follows; a missing text decides it whatever the summarizer does |
| `Route.ReplyShape` | src/app/api/summarize/route.ts:6-32 | status 200 exactly for a summary reply, which carries the summarizer's own summary; errors are 400 or 500 |
| `Background.Inject` | extension/background.js:10-30 | internal pages are only logged; the style sheet goes in first, the script only after it succeeds, and a failure is logged once |
| `Background.InjectOrder` | extension/background.js:10-30 | no internal page is touched, the script never precedes the style sheet, and no step or error log happens twice |
| `Background.OnIconClick` | extension/background.js:33-37 | the icon injects exactly when the tab has a truthy id |
| `Background.OnMenuClick` | extension/background.js:40-44 | the menu injects exactly for the `summarizePage` entry and a tab with a truthy id |
| `Background.TriggersConverge` | extension/background.js:2-8 | the installed menu entry is the one the listener accepts, and both triggers then pick the same tab |
| `EndToEnd.PostedTextReachesSummarizer` | extension/content.js:39-45 | a posted page text reaches the route's summarizer unchanged when the key is present |
| `EndToEnd.RouteErrorsShowStatusOnly` | extension/content.js:47-54 | every error reply of the route is non-2xx, so the overlay shows only the status text and never the route's `error` or `details` |

## Left out

- The language-model flows (`src/ai/flows/*.ts`, `src/ai/dev.ts`) are not
  modelled. Each call to them is an uninterpreted `Outcome` parameter. The text
  summarizer's own source is not part of this model.
- URL well-formedness (`z.string().url()`) and react-hook-form's record of
  whether the URL field is invalid are opaque boolean inputs. `form.trigger`
  and `form.setValue` are not modelled.
- The zod message for an invalid length is not modelled (`LengthError`). The UI
  offers no way to send one.
- Not modelled: rendering (JSX, `marked`, skeletons), toasts beyond their
  title and description, `console` logging, `Header.tsx`, and the tab layout.
- Async interleaving is not modelled. Each handler is an atomic begin step plus
  an atomic finish step, and a session is a sequence of whole handler calls.
  The UI disables the relevant buttons while a call is in flight. Still, the
  submit button stays enabled while an adjustment runs, so the real components
  can interleave a summarize with an adjustment. `Settled` is proved only for
  atomic handlers, and interleaved it can fail: a page summarize starts while
  an adjustment runs, the adjustment settles first, and the summarize then
  throws. The catch at `src/components/summarizer/PageSummarizer.tsx:63-71`
  does not clear the summary, so the session ends holding the adjusted summary
  without an original text, and every later adjustment is refused. Stale React
  closures and a previous activation's `fetch` writing into a newer modal are
  also out.
- The DOM is the sequence of the body's child ids. The close handler removes
  the modal it belongs to; this is modelled as removing the one modal, which
  is exact under the single-modal invariant. The modal's inner markup is not
  modelled.
- `Overlay.ShowReply`: a payload whose `error`, `details` or `summary` is a
  non-string JSON value, or a `null` payload, is not modelled. Payload fields
  are optional strings. The message of a rejected `fetch` or `response.json()`
  is an input. The `TypeError` for a missing `summary` uses V8's wording,
  because the extension runs in Chrome.
- `Overlay.PlanFetch`: `pageText` is `document.body.innerText`, read after the
  modal has been appended, so it includes the overlay's own words ("Page
  Summary", "×", "Fetching summary..."). The model takes the text as an input
  and does not derive it from the DOM sequence of `Overlay.Activate`. The
  threshold lemmas and the end-to-end lemmas speak of that text, not of the
  page's own content alone.
- `Route.Decide`: an exception escaping the handler (unparsable or `null` body)
  is `Unhandled`. The framework's own error response for it is not modelled.
- `Overlay.Render`: the marker lemmas describe texts in which every `#` begins
  one of the three markers. A stray `#` elsewhere is covered only by
  `Overlay.RenderLeavesPlainText`, for text that contains no marker at all.
- `EndToEnd.Deliver`: the transport is assumed to deliver. It hands the content
  script's request to the route and the route's own reply back. The route sets
  no CORS headers and has no `OPTIONS` handler, and the request is a
  cross-origin JSON `POST`. A browser that applies the page's CORS policy
  would fail the request before the handler runs: that is
  `Overlay.NetworkFailure`, which `Deliver` never produces. The end-to-end
  lemmas hold only under this assumption.
- `Route.Finish`: the summarizer's result is taken as a string, as its output
  schema requires.
- `Background.Inject`: `${err}` is an input string, and `chrome.scripting`
  calls are `Outcome` inputs. Context-menu creation is modelled only as the
  entry it installs (`Background.InstalledMenu`).
- `EndToEnd.RouteErrorsShowStatusOnly`: the HTTP status text is an input,
  since it depends on the HTTP version.
