/**
 The content script: the summary modal it places on the page, the minimum
 amount of page text it requires before calling the summarize endpoint, the
 message it shows for each way that call can settle, and the fixed rewriting
 that turns the summary's heading markers into bold text.

 The page's DOM is modelled as the sequence of ids of the body's children, in
 document order; `fetch`, `response.json()` and `innerText` are inputs.
 */
module Overlay {
  import opened Js
  import opened Strings

  const ModalId := "summarist-modal"
  const Endpoint := "http://localhost:9002/api/summarize"
  const MinTextLength := 100
  const NotEnoughTextMessage := "Could not find enough text on this page to summarize."
  const FailurePrefix := "Failed to fetch summary. "
  const ServerErrorPrefix := "Server error: "
  /** What V8 throws when a payload has no `summary` to call `replace` on. */
  const MissingSummaryError := "Cannot read properties of undefined (reading 'replace')"

  /** How many elements carry `id`. */
  function Count(dom: seq<string>, id: string): nat
    decreases |dom|
  {
    if |dom| == 0 then 0 else (if dom[0] == id then 1 else 0) + Count(dom[1..], id)
  }

  /** The elements other than those carrying `id`, in order. */
  function Others(dom: seq<string>, id: string): (r: seq<string>)
    ensures id !in r
    decreases |dom|
  {
    if |dom| == 0 then [] else (if dom[0] == id then [] else [dom[0]]) + Others(dom[1..], id)
  }

  lemma {:induction false} CountZeroIffAbsent(dom: seq<string>, id: string)
    ensures Count(dom, id) == 0 <==> id !in dom
    decreases |dom|
  {
    if |dom| > 0 {
      CountZeroIffAbsent(dom[1..], id);
      assert dom == [dom[0]] + dom[1..];
    }
  }

  lemma {:induction false} CountAppend(a: seq<string>, b: seq<string>, id: string)
    ensures Count(a + b, id) == Count(a, id) + Count(b, id)
    ensures Others(a + b, id) == Others(a, id) + Others(b, id)
    decreases |a|
  {
    if |a| > 0 {
      assert (a + b)[1..] == a[1..] + b;
      CountAppend(a[1..], b, id);
    } else {
      assert a + b == b;
    }
  }

  /** `document.getElementById(id)?.remove()`: removes the first element carrying `id`. */
  function RemoveFirst(dom: seq<string>, id: string): (r: seq<string>)
    ensures id !in dom ==> r == dom
    ensures id in dom ==> Count(r, id) + 1 == Count(dom, id)
    ensures Others(r, id) == Others(dom, id)
    decreases |dom|
  {
    if |dom| == 0 then dom
    else if dom[0] == id then dom[1..]
    else
      var r := [dom[0]] + RemoveFirst(dom[1..], id);
      assert r[1..] == RemoveFirst(dom[1..], id);
      r
  }

  /** `dom[i]` is the first element carrying `id`. */
  ghost predicate FirstCarrierAt(dom: seq<string>, id: string, i: int) {
    0 <= i < |dom| && dom[i] == id && id !in dom[..i]
  }

  /** Removing index `j` of the tail is removing index `j + 1` of the whole. */
  lemma ShiftCarrier(x: string, t: seq<string>, id: string, j: int)
    requires x != id && FirstCarrierAt(t, id, j)
    ensures FirstCarrierAt([x] + t, id, j + 1)
    ensures [x] + (t[..j] + t[j + 1..]) == ([x] + t)[..j + 1] + ([x] + t)[j + 2..]
  {
    var d := [x] + t;
    assert d[..j + 1] == [x] + t[..j];
    assert d[j + 2..] == t[j + 1..];
  }

  /** The element removed is the first one carrying `id`; everything before and after it stays. */
  lemma {:induction false} RemoveFirstTakesFirst(dom: seq<string>, id: string)
    requires id in dom
    ensures exists i :: FirstCarrierAt(dom, id, i) && RemoveFirst(dom, id) == dom[..i] + dom[i + 1..]
    decreases |dom|
  {
    if dom[0] == id {
      assert dom[..0] + dom[1..] == dom[1..];
      assert FirstCarrierAt(dom, id, 0);
    } else {
      var t := dom[1..];
      assert id in t;
      assert dom == [dom[0]] + t;
      RemoveFirstTakesFirst(t, id);
      var j :| FirstCarrierAt(t, id, j) && RemoveFirst(t, id) == t[..j] + t[j + 1..];
      ShiftCarrier(dom[0], t, id, j);
    }
  }

  /**
   Activation: any modal already on the page is removed, then a fresh one is
   appended to the body. Starting from at most one modal, exactly one remains,
   it is the last child, and every other element is kept in order.
   */
  function Activate(dom: seq<string>): (r: seq<string>)
    ensures |r| > 0 && r[|r| - 1] == ModalId
    ensures Count(dom, ModalId) <= 1 ==> Count(r, ModalId) == 1
    ensures Others(r, ModalId) == Others(dom, ModalId)
  {
    var kept := RemoveFirst(dom, ModalId);
    CountAppend(kept, [ModalId], ModalId);
    CountZeroIffAbsent(dom, ModalId);
    CountZeroIffAbsent(kept, ModalId);
    kept + [ModalId]
  }

  /** The close button: the modal it belongs to is removed; nothing else changes. */
  function Close(dom: seq<string>): (r: seq<string>)
    ensures Count(dom, ModalId) <= 1 ==> Count(r, ModalId) == 0
    ensures Others(r, ModalId) == Others(dom, ModalId)
  {
    CountZeroIffAbsent(dom, ModalId);
    var r := RemoveFirst(dom, ModalId);
    CountZeroIffAbsent(r, ModalId);
    r
  }

  datatype DomEvent = Activation | CloseClick

  function Replay(dom: seq<string>, events: seq<DomEvent>): seq<string>
    decreases |events|
  {
    if |events| == 0 then dom
    else Replay(if events[0].Activation? then Activate(dom) else Close(dom), events[1..])
  }

  /**
   However often the script is activated and the modal closed, the page never
   holds two modals, the page's own elements are untouched, and right after an
   activation exactly one modal is shown.
   */
  lemma {:induction false} SingleModal(dom: seq<string>, events: seq<DomEvent>)
    requires Count(dom, ModalId) <= 1
    ensures Count(Replay(dom, events), ModalId) <= 1
    ensures Others(Replay(dom, events), ModalId) == Others(dom, ModalId)
    ensures |events| > 0 && events[|events| - 1].Activation? ==> Count(Replay(dom, events), ModalId) == 1
    decreases |events|
  {
    if |events| > 0 {
      var next := if events[0].Activation? then Activate(dom) else Close(dom);
      SingleModal(next, events[1..]);
      if |events| == 1 {
        assert Replay(dom, events) == Replay(next, []) == next;
      } else {
        assert events[1..][|events[1..]| - 1] == events[|events| - 1];
      }
    }
  }

  /** Whether `getSummary` calls the endpoint, and with what. */
  datatype FetchPlan = NotEnoughText | PostText(url: string, text: string)

  /**
   The text gate: an empty page, or one whose trimmed text is shorter than the
   threshold (in UTF-16 code units), makes no call; otherwise the whole,
   untrimmed text is posted to the endpoint.
   */
  function PlanFetch(pageText: string): (p: FetchPlan)
    ensures p.NotEnoughText? <==> pageText == "" || Utf16Length(Trim(pageText)) < MinTextLength
    ensures p.PostText? ==> p.url == Endpoint && p.text == pageText
  {
    if pageText == "" || Utf16Length(Trim(pageText)) < MinTextLength then NotEnoughText
    else PostText(Endpoint, pageText)
  }

  /**
   A text of fewer than fifty characters, or of only whitespace, is never
   sent; a text whose trimmed form is at least a hundred characters of the
   Basic Multilingual Plane always is. The text is the body's rendered text,
   overlay included.
   */
  lemma FetchThreshold(pageText: string)
    ensures |pageText| < MinTextLength / 2 ==> PlanFetch(pageText).NotEnoughText?
    ensures AllWhitespace(pageText) ==> PlanFetch(pageText).NotEnoughText?
    ensures (forall i :: 0 <= i < |pageText| ==> pageText[i] as int <= 0xFFFF) && |Trim(pageText)| >= MinTextLength
      ==> PlanFetch(pageText).PostText?
  {
  }

  /** Fifty emoji fill the hundred-unit threshold: JavaScript counts each twice. */
  lemma AstralTextPasses()
    ensures PlanFetch(seq(50, _ => '\U{1F600}')).PostText?
  {
    var s := seq(50, _ => '\U{1F600}');
    assert !IsJsWhitespace(s[0]) && !IsJsWhitespace(s[49]);
    assert TrimStart(s) == s;
    assert Trim(s) == s;
    AstralLength(s);
  }

  lemma {:induction false} AstralLength(s: string)
    requires forall i :: 0 <= i < |s| ==> s[i] as int > 0xFFFF
    ensures Utf16Length(s) == 2 * |s|
    decreases |s|
  {
    if |s| > 0 {
      AstralLength(s[1..]);
    }
  }

  /** What the summary paragraph shows: set through `innerText` or through `innerHTML`. */
  datatype Display = Text(text: string) | Html(markup: string)

  /** The fields of the parsed response body the script looks at. */
  datatype Payload = Payload(error: Option<string>, details: Option<string>, summary: Option<string>)

  /** The response body: parsed JSON, or the error `response.json()` rejected with. */
  datatype Body = Json(payload: Payload) | NotJson(parseError: string)

  /** How the `fetch` settled. */
  datatype Reply = NetworkFailure(message: string) | Response(ok: bool, statusText: string, body: Body)

  /** The bold heading markers, in the order they are rewritten. */
  const CoreMarker := "# Core Message"
  const KeyMarker := "## Key Points"
  const TasksMarker := "## Actionable Tasks"
  const CoreBold := "<strong>Core Message</strong>"
  const KeyBold := "<strong>Key Points</strong>"
  const TasksBold := "<strong>Actionable Tasks</strong>"
  const LineBreak := "<br />"

  /** The heading steps: each marker in turn becomes its bold text. */
  function BoldHeadings(summary: string): string {
    ReplaceAll(ReplaceAll(ReplaceAll(summary, CoreMarker, CoreBold), KeyMarker, KeyBold), TasksMarker, TasksBold)
  }

  /** The summary as HTML: the three markers become bold text, then every newline a line break. */
  function Render(summary: string): (h: string)
    ensures '\n' !in h
  {
    assert "\n" == ['\n'];
    ReplaceCharRemovesIt(BoldHeadings(summary), '\n', LineBreak);
    ReplaceAll(BoldHeadings(summary), "\n", LineBreak)
  }

  /** Rendering rewrites the bolded text one character at a time: each newline becomes a line break. */
  lemma RenderIsMap(summary: string)
    ensures Render(summary) == MapChar(BoldHeadings(summary), '\n', LineBreak)
  {
    assert "\n" == ['\n'];
    ReplaceCharIsMap(BoldHeadings(summary), '\n', LineBreak);
  }

  /** Text with no marker and no newline is rendered exactly as it is. */
  lemma RenderLeavesPlainText(summary: string)
    requires !Contains(summary, CoreMarker) && !Contains(summary, KeyMarker)
    requires !Contains(summary, TasksMarker) && '\n' !in summary
    ensures Render(summary) == summary
  {
    ReplaceAllAbsent(summary, CoreMarker, CoreBold);
    ReplaceAllAbsent(summary, KeyMarker, KeyBold);
    ReplaceAllAbsent(summary, TasksMarker, TasksBold);
    assert "\n" == ['\n'];
    ReplaceCharIsMap(summary, '\n', LineBreak);
    MapCharAbsent(summary, '\n', LineBreak);
  }

  /** The heading steps leave a prefix without `#` alone. */
  lemma HeadingsKeepPrefix(a: string, b: string)
    requires '#' !in a
    ensures BoldHeadings(a + b) == a + BoldHeadings(b)
  {
    var b1 := ReplaceAll(b, CoreMarker, CoreBold);
    var b2 := ReplaceAll(b1, KeyMarker, KeyBold);
    FirstCharAbsent(a, b, CoreMarker);
    ReplaceAllSkip(a, b, CoreMarker, CoreBold);
    FirstCharAbsent(a, b1, KeyMarker);
    ReplaceAllSkip(a, b1, KeyMarker, KeyBold);
    FirstCharAbsent(a, b2, TasksMarker);
    ReplaceAllSkip(a, b2, TasksMarker, TasksBold);
  }

  /** The key and tasks steps leave a prefix without `#` alone. */
  lemma LaterHeadingsKeepPrefix(a: string, b: string)
    requires '#' !in a
    ensures ReplaceAll(ReplaceAll(a + b, KeyMarker, KeyBold), TasksMarker, TasksBold)
         == a + ReplaceAll(ReplaceAll(b, KeyMarker, KeyBold), TasksMarker, TasksBold)
  {
    var b1 := ReplaceAll(b, KeyMarker, KeyBold);
    FirstCharAbsent(a, b, KeyMarker);
    ReplaceAllSkip(a, b, KeyMarker, KeyBold);
    FirstCharAbsent(a, b1, TasksMarker);
    ReplaceAllSkip(a, b1, TasksMarker, TasksBold);
  }

  /** The line-break step leaves a prefix without newlines alone. */
  lemma BreaksKeepPrefix(a: string, b: string)
    requires '\n' !in a
    ensures ReplaceAll(a + b, "\n", LineBreak) == a + ReplaceAll(b, "\n", LineBreak)
  {
    FirstCharAbsent(a, b, "\n");
    ReplaceAllSkip(a, b, "\n", LineBreak);
  }

  /** Once the heading steps have turned `s` into `x` followed by those of `b`, only `b` is left to render. */
  lemma RenderAfterHeadings(s: string, x: string, b: string)
    requires '\n' !in x && BoldHeadings(s) == x + BoldHeadings(b)
    ensures Render(s) == x + Render(b)
  {
    BreaksKeepPrefix(x, BoldHeadings(b));
  }

  /** Text without `#` and newlines is copied, and the rest is rendered after it. */
  lemma RenderPlainPrefix(a: string, b: string)
    requires '#' !in a && '\n' !in a
    ensures Render(a + b) == a + Render(b)
  {
    HeadingsKeepPrefix(a, b);
    RenderAfterHeadings(a + b, a, b);
  }

  /**
   A marker `m` beginning with two `#` holds no start of another heading
   pattern `p`: the starts at its first two characters mismatch at the offsets
   `k0` and `k1`, and `p` begins with a character absent from the rest.
   */
  lemma MarkerHidesStart(a: string, m: string, b: string, p: string, k0: nat, k1: nat)
    requires |p| > 0 && |m| >= 2
    requires p[0] !in a && p[0] !in m[2..]
    requires k0 < |p| && k0 < |m| && m[k0] != p[k0]
    requires k1 < |p| && 1 + k1 < |m| && m[1 + k1] != p[k1]
    ensures NoStartIn(a + m, b, p)
  {
    var s := a + m + b;
    forall i | 0 <= i < |a + m|
      ensures !OccursAt((a + m) + b, p, i)
    {
      if i < |a| {
        assert s[i] == a[i];
        Mismatch(s, p, i, 0);
      } else if i == |a| {
        assert s[i + k0] == m[k0];
        Mismatch(s, p, i, k0);
      } else if i == |a| + 1 {
        assert s[i + k1] == m[1 + k1];
        Mismatch(s, p, i, k1);
      } else {
        assert s[i] == m[2..][i - |a| - 2];
        Mismatch(s, p, i, 0);
      }
    }
  }

  /** No start of `# Core Message` lies inside `## Key Points`. */
  lemma KeyHidesCore(a: string, b: string)
    requires '#' !in a
    ensures NoStartIn(a + KeyMarker, b, CoreMarker)
  {
    assert CoreMarker[0] == '#' && CoreMarker[1] == ' ' && CoreMarker[2] == 'C';
    assert KeyMarker[1] == '#' && KeyMarker[3] == 'K';
    assert '#' !in KeyMarker[2..];
    MarkerHidesStart(a, KeyMarker, b, CoreMarker, 1, 2);
  }

  /** No start of `# Core Message` lies inside `## Actionable Tasks`. */
  lemma TasksHidesCore(a: string, b: string)
    requires '#' !in a
    ensures NoStartIn(a + TasksMarker, b, CoreMarker)
  {
    assert CoreMarker[0] == '#' && CoreMarker[1] == ' ' && CoreMarker[2] == 'C';
    assert TasksMarker[1] == '#' && TasksMarker[3] == 'A';
    assert '#' !in TasksMarker[2..];
    MarkerHidesStart(a, TasksMarker, b, CoreMarker, 1, 2);
  }

  /** No start of `## Key Points` lies inside `## Actionable Tasks`. */
  lemma TasksHidesKey(a: string, b: string)
    requires '#' !in a
    ensures NoStartIn(a + TasksMarker, b, KeyMarker)
  {
    assert KeyMarker[0] == '#' && KeyMarker[1] == '#' && KeyMarker[3] == 'K';
    assert TasksMarker[2] == ' ' && TasksMarker[3] == 'A';
    assert '#' !in TasksMarker[2..];
    MarkerHidesStart(a, TasksMarker, b, KeyMarker, 3, 1);
  }

  lemma CoreHeadings(a: string, b: string)
    requires '#' !in a
    ensures BoldHeadings(a + CoreMarker + b) == (a + CoreBold) + BoldHeadings(b)
  {
    FirstCharAbsent(a, CoreMarker + b, CoreMarker);
    ReplaceFirstOccurrence(a, CoreMarker, b, CoreBold);
    assert '#' !in a + CoreBold;
    LaterHeadingsKeepPrefix(a + CoreBold, ReplaceAll(b, CoreMarker, CoreBold));
  }

  /** `# Core Message` after plain text becomes its bold text, and the rest is rendered after it. */
  lemma RenderCoreMarker(a: string, b: string)
    requires '#' !in a && '\n' !in a
    ensures Render(a + CoreMarker + b) == a + CoreBold + Render(b)
  {
    CoreHeadings(a, b);
    RenderAfterHeadings(a + CoreMarker + b, a + CoreBold, b);
  }

  /** The core step passes over `## Key Points`. */
  lemma KeySkipsCore(a: string, b: string)
    requires '#' !in a
    ensures ReplaceAll(a + KeyMarker + b, CoreMarker, CoreBold) == a + KeyMarker + ReplaceAll(b, CoreMarker, CoreBold)
  {
    KeyHidesCore(a, b);
    ReplaceAllSkip(a + KeyMarker, b, CoreMarker, CoreBold);
  }

  /** The key step bolds `## Key Points`. */
  lemma KeyBolded(a: string, b: string)
    requires '#' !in a
    ensures ReplaceAll(a + KeyMarker + b, KeyMarker, KeyBold) == a + KeyBold + ReplaceAll(b, KeyMarker, KeyBold)
  {
    FirstCharAbsent(a, KeyMarker + b, KeyMarker);
    ReplaceFirstOccurrence(a, KeyMarker, b, KeyBold);
  }

  /** The tasks step leaves a prefix without `#` alone. */
  lemma TasksStepKeepsPrefix(a: string, b: string)
    requires '#' !in a
    ensures ReplaceAll(a + b, TasksMarker, TasksBold) == a + ReplaceAll(b, TasksMarker, TasksBold)
  {
    FirstCharAbsent(a, b, TasksMarker);
    ReplaceAllSkip(a, b, TasksMarker, TasksBold);
  }

  lemma KeyHeadings(a: string, b: string)
    requires '#' !in a
    ensures BoldHeadings(a + KeyMarker + b) == (a + KeyBold) + BoldHeadings(b)
  {
    var b1 := ReplaceAll(b, CoreMarker, CoreBold);
    var b2 := ReplaceAll(b1, KeyMarker, KeyBold);
    KeySkipsCore(a, b);
    KeyBolded(a, b1);
    assert ReplaceAll(ReplaceAll(a + KeyMarker + b, CoreMarker, CoreBold), KeyMarker, KeyBold) == (a + KeyBold) + b2;
    assert '#' !in a + KeyBold;
    TasksStepKeepsPrefix(a + KeyBold, b2);
  }

  /** `## Key Points` after plain text becomes its bold text, and the rest is rendered after it. */
  lemma RenderKeyMarker(a: string, b: string)
    requires '#' !in a && '\n' !in a
    ensures Render(a + KeyMarker + b) == a + KeyBold + Render(b)
  {
    KeyHeadings(a, b);
    RenderAfterHeadings(a + KeyMarker + b, a + KeyBold, b);
  }

  /** The core step passes over `## Actionable Tasks`. */
  lemma TasksSkipsCore(a: string, b: string)
    requires '#' !in a
    ensures ReplaceAll(a + TasksMarker + b, CoreMarker, CoreBold) == a + TasksMarker + ReplaceAll(b, CoreMarker, CoreBold)
  {
    TasksHidesCore(a, b);
    ReplaceAllSkip(a + TasksMarker, b, CoreMarker, CoreBold);
  }

  /** The key step passes over `## Actionable Tasks`. */
  lemma TasksSkipsKey(a: string, b: string)
    requires '#' !in a
    ensures ReplaceAll(a + TasksMarker + b, KeyMarker, KeyBold) == a + TasksMarker + ReplaceAll(b, KeyMarker, KeyBold)
  {
    TasksHidesKey(a, b);
    ReplaceAllSkip(a + TasksMarker, b, KeyMarker, KeyBold);
  }

  /** The tasks step bolds `## Actionable Tasks`. */
  lemma TasksBolded(a: string, b: string)
    requires '#' !in a
    ensures ReplaceAll(a + TasksMarker + b, TasksMarker, TasksBold) == a + TasksBold + ReplaceAll(b, TasksMarker, TasksBold)
  {
    FirstCharAbsent(a, TasksMarker + b, TasksMarker);
    ReplaceFirstOccurrence(a, TasksMarker, b, TasksBold);
  }

  lemma TasksHeadings(a: string, b: string)
    requires '#' !in a
    ensures BoldHeadings(a + TasksMarker + b) == (a + TasksBold) + BoldHeadings(b)
  {
    var b1 := ReplaceAll(b, CoreMarker, CoreBold);
    TasksSkipsCore(a, b);
    TasksSkipsKey(a, b1);
    TasksBolded(a, ReplaceAll(b1, KeyMarker, KeyBold));
  }

  /** `## Actionable Tasks` after plain text becomes its bold text, and the rest is rendered after it. */
  lemma RenderTasksMarker(a: string, b: string)
    requires '#' !in a && '\n' !in a
    ensures Render(a + TasksMarker + b) == a + TasksBold + Render(b)
  {
    TasksHeadings(a, b);
    RenderAfterHeadings(a + TasksMarker + b, a + TasksBold, b);
  }

  /** A newline after plain text becomes a line break, and the rest is rendered after it. */
  lemma RenderNewline(a: string, b: string)
    requires '#' !in a && '\n' !in a
    ensures Render(a + "\n" + b) == a + LineBreak + Render(b)
  {
    HeadingsKeepPrefix(a + "\n", b);
    BreakAt(a, BoldHeadings(b));
  }

  /** The line-break step turns a newline after newline-free text into a line break. */
  lemma BreakAt(a: string, h: string)
    requires '\n' !in a
    ensures ReplaceAll(a + "\n" + h, "\n", LineBreak) == a + LineBreak + ReplaceAll(h, "\n", LineBreak)
  {
    FirstCharAbsent(a, "\n" + h, "\n");
    ReplaceFirstOccurrence(a, "\n", h, LineBreak);
  }

  /** A core-message heading line followed by plain text renders as bold text, a line break and the text. */
  lemma RenderExample(text: string)
    requires '#' !in text && '\n' !in text
    ensures Render(CoreMarker + "\n" + text) == CoreBold + LineBreak + text
  {
    assert CoreMarker + "\n" + text == "" + CoreMarker + ("" + "\n" + text);
    RenderCoreMarker("", "" + "\n" + text);
    RenderNewline("", text);
    RenderPlain(text);
  }

  /** Text without `#` and newlines is rendered as it is. */
  lemma RenderPlain(text: string)
    requires '#' !in text && '\n' !in text
    ensures Render(text) == text
  {
    RenderPlainPrefix(text, "");
    RenderEmpty();
    assert text + "" == text;
  }

  lemma RenderEmpty()
    ensures Render("") == ""
  {
  }

  /** The failure text for a thrown message. */
  function Failure(message: string): (d: Display)
    ensures d.Text? && IsPrefix(FailurePrefix, d.text) && d.text[|FailurePrefix|..] == message
  {
    Text(FailurePrefix + message)
  }

  /**
   The paragraph after the call settles: a rejected fetch, a non-ok status (the
   body is not read), an unparsable body, a payload carrying an error (its
   details if truthy, else the error), and a payload without a summary all end
   in the failure text; only a summary reaches `innerHTML`, rendered.
   */
  function ShowReply(reply: Reply): (d: Display)
    ensures reply.NetworkFailure? ==> d == Failure(reply.message)
    ensures reply.Response? && !reply.ok ==> d == Failure(ServerErrorPrefix + reply.statusText)
    ensures reply.Response? && reply.ok && reply.body.NotJson? ==> d == Failure(reply.body.parseError)
    ensures reply.Response? && reply.ok && reply.body.Json? && Truthy(reply.body.payload.error) ==>
      d == Failure(Or(reply.body.payload.details, reply.body.payload.error).value)
    ensures d.Html? <==>
      reply.Response? && reply.ok && reply.body.Json? && !Truthy(reply.body.payload.error)
      && reply.body.payload.summary.Some?
    ensures reply.Response? && reply.ok && reply.body.Json? && !Truthy(reply.body.payload.error)
        && reply.body.payload.summary.None?
      ==> d == Failure(MissingSummaryError)
    ensures d.Html? ==> d.markup == Render(reply.body.payload.summary.value) && '\n' !in d.markup
    ensures d.Text? ==> IsPrefix(FailurePrefix, d.text)
  {
    match reply
    case NetworkFailure(m) => Failure(m)
    case Response(ok, statusText, body) =>
      if !ok then Failure(ServerErrorPrefix + statusText)
      else match body
        case NotJson(m) => Failure(m)
        case Json(p) =>
          if Truthy(p.error) then Failure(Or(p.details, p.error).value)
          else if p.summary.None? then Failure(MissingSummaryError)
          else
            Html(Render(p.summary.value))
  }

  /** `getSummary`: the gate, then the reply; a page below the threshold never looks at a reply. */
  function GetSummary(pageText: string, reply: Reply): (d: Display)
    ensures PlanFetch(pageText).NotEnoughText? ==> d == Text(NotEnoughTextMessage)
    ensures PlanFetch(pageText).PostText? ==> d == ShowReply(reply)
  {
    match PlanFetch(pageText)
    case NotEnoughText => Text(NotEnoughTextMessage)
    case PostText(_, _) => ShowReply(reply)
  }

  /**
   Whatever the reply, the paragraph ends as the not-enough-text notice, a
   failure text, or newline-free rendered HTML; a short page ignores the reply.
   */
  lemma GetSummaryShape(pageText: string, reply: Reply, other: Reply)
    ensures var d := GetSummary(pageText, reply);
      || d == Text(NotEnoughTextMessage)
      || (d.Text? && IsPrefix(FailurePrefix, d.text))
      || (d.Html? && '\n' !in d.markup)
    ensures PlanFetch(pageText).NotEnoughText? ==> GetSummary(pageText, reply) == GetSummary(pageText, other)
  {
  }
}
