/**
 The extension's background worker: the context-menu entry it installs, the
 two triggers (toolbar icon and context menu) and the injection routine they
 share. Each `chrome.scripting` call is awaited; its settlement is an input.
 The routine's observable behaviour is the ordered list of effects it performs.
 */
module Background {
  import opened Js
  import opened Strings

  const MenuItemId := "summarizePage"
  const MenuTitle := "Summarize with Summarist"
  const StyleFile := "content.css"
  const ScriptFile := "content.js"
  const InternalPageLog := "Cannot run on internal chrome pages"
  const InjectFailurePrefix := "Failed to inject content script: "

  /** The context-menu entry created on install. */
  datatype MenuItem = MenuItem(id: string, title: string, contexts: seq<string>)

  const InstalledMenu := MenuItem(MenuItemId, MenuTitle, ["page"])

  /** A tab as the listeners receive it; `url` is absent when the extension may not read it. */
  datatype Tab = Tab(id: Option<int>, url: Option<string>)

  /** A context-menu item id: Chrome allows strings and numbers. */
  datatype ItemId = StringId(s: string) | NumberId(n: int)

  datatype Effect =
    | Log(message: string)
    | ErrorLog(message: string)
    | InsertCss(tabId: Option<int>, file: string)
    | ExecuteScript(tabId: Option<int>, file: string)

  /** What one run of the injection routine did, and whether its promise rejected. */
  datatype Run = Run(effects: seq<Effect>, rejected: bool)

  /** Pages the browser reserves for itself. */
  predicate IsInternalUrl(url: string) {
    IsPrefix("chrome://", url) || IsPrefix("chrome-extension://", url)
  }

  /**
   `injectContentScript`. An unreadable URL throws before the `try` and
   rejects the promise; an internal page is only logged; otherwise the style
   sheet is inserted, and only if that succeeded is the script executed. A
   failure of either step is logged once and not retried. `err` in each outcome
   is the text `${err}` produces.
   */
  function Inject(tab: Tab, css: Outcome<()>, script: Outcome<()>, cssErr: string, scriptErr: string): (r: Run)
    ensures tab.url.None? <==> r.rejected
    ensures r.rejected ==> r.effects == []
    ensures tab.url.Some? && IsInternalUrl(tab.url.value) ==> r.effects == [Log(InternalPageLog)]
    ensures tab.url.Some? && !IsInternalUrl(tab.url.value) ==>
      && |r.effects| >= 2
      && r.effects[0] == InsertCss(tab.id, StyleFile)
      && (css.Threw? ==> r.effects == [InsertCss(tab.id, StyleFile), ErrorLog(InjectFailurePrefix + cssErr)])
      && (css.Returned? ==> r.effects[1] == ExecuteScript(tab.id, ScriptFile))
      && (css.Returned? && script.Returned? ==> |r.effects| == 2)
      && (css.Returned? && script.Threw? ==> r.effects[2..] == [ErrorLog(InjectFailurePrefix + scriptErr)])
  {
    match tab.url
    case None => Run([], true)
    case Some(url) =>
      if IsInternalUrl(url) then Run([Log(InternalPageLog)], false)
      else if css.Threw? then Run([InsertCss(tab.id, StyleFile), ErrorLog(InjectFailurePrefix + cssErr)], false)
      else if script.Threw? then
        Run([InsertCss(tab.id, StyleFile), ExecuteScript(tab.id, ScriptFile), ErrorLog(InjectFailurePrefix + scriptErr)], false)
      else Run([InsertCss(tab.id, StyleFile), ExecuteScript(tab.id, ScriptFile)], false)
  }

  /** Effect `e` touches the page. */
  predicate Injects(e: Effect) {
    e.InsertCss? || e.ExecuteScript?
  }

  datatype EffectKind = LogKind | ErrorKind | CssKind | ScriptKind

  function KindOf(e: Effect): EffectKind {
    match e
    case Log(_) => LogKind
    case ErrorLog(_) => ErrorKind
    case InsertCss(_, _) => CssKind
    case ExecuteScript(_, _) => ScriptKind
  }

  /** How many effects of kind `k` were performed. */
  function Occurrences(effects: seq<Effect>, k: EffectKind): nat
    decreases |effects|
  {
    if |effects| == 0 then 0 else (if KindOf(effects[0]) == k then 1 else 0) + Occurrences(effects[1..], k)
  }

  /**
   Independent of the settlements: an internal page is never touched; the
   script never runs unless the style sheet was inserted first; each step is
   attempted at most once and at most one error is logged.
   */
  lemma InjectOrder(tab: Tab, css: Outcome<()>, script: Outcome<()>, cssErr: string, scriptErr: string,
                    k: EffectKind)
    ensures var r := Inject(tab, css, script, cssErr, scriptErr);
      && (tab.url.Some? && IsInternalUrl(tab.url.value) ==> forall i :: 0 <= i < |r.effects| ==> !Injects(r.effects[i]))
      && (forall i :: 0 <= i < |r.effects| && r.effects[i].ExecuteScript? ==>
            0 < i && r.effects[0].InsertCss? && css.Returned?)
      && (k != LogKind ==> Occurrences(r.effects, k) <= 1)
  {
    var effects := Inject(tab, css, script, cssErr, scriptErr).effects;
    if tab.url.Some? && !IsInternalUrl(tab.url.value) && css.Returned? && script.Threw? {
      var a, b, c := InsertCss(tab.id, StyleFile), ExecuteScript(tab.id, ScriptFile), ErrorLog(InjectFailurePrefix + scriptErr);
      assert effects == [a, b, c];
      OccurrencesOfThree(a, b, c, k);
    } else if |effects| == 2 {
      assert effects == [effects[0], effects[1]];
      assert KindOf(effects[0]) != KindOf(effects[1]);
      OccurrencesOfTwo(effects[0], effects[1], k);
    } else if |effects| == 1 {
      assert effects[1..] == [];
    }
  }

  lemma OccurrencesOfTwo(a: Effect, b: Effect, k: EffectKind)
    ensures Occurrences([a, b], k) == (if KindOf(a) == k then 1 else 0) + (if KindOf(b) == k then 1 else 0)
  {
    assert [a, b][1..] == [b];
    assert [b][1..] == [];
    assert Occurrences([b], k) == (if KindOf(b) == k then 1 else 0) + Occurrences([], k);
  }

  lemma OccurrencesOfThree(a: Effect, b: Effect, c: Effect, k: EffectKind)
    ensures Occurrences([a, b, c], k)
         == (if KindOf(a) == k then 1 else 0) + (if KindOf(b) == k then 1 else 0) + (if KindOf(c) == k then 1 else 0)
  {
    assert [a, b, c][1..] == [b, c];
    assert [b, c][1..] == [c];
    assert [c][1..] == [];
    assert Occurrences([c], k) == (if KindOf(c) == k then 1 else 0) + Occurrences([], k);
    assert Occurrences([b, c], k) == (if KindOf(b) == k then 1 else 0) + Occurrences([c], k);
  }

  /** `tab?.id` is truthy: the tab exists and has a non-zero id. */
  predicate HasId(tab: Option<Tab>) {
    tab.Some? && tab.value.id.Some? && tab.value.id.value != 0
  }

  /** The toolbar icon: injects into the tab only when it has an id. */
  function OnIconClick(tab: Option<Tab>): (t: Option<Tab>)
    ensures t.Some? <==> HasId(tab)
    ensures t.Some? ==> t == tab
  {
    if HasId(tab) then tab else None
  }

  /** The context menu: injects only for this extension's entry, and only when the tab has an id. */
  function OnMenuClick(itemId: ItemId, tab: Option<Tab>): (t: Option<Tab>)
    ensures t.Some? <==> itemId == StringId(MenuItemId) && HasId(tab)
    ensures t.Some? ==> t == tab
  {
    if itemId == StringId(MenuItemId) && HasId(tab) then tab else None
  }

  /**
   The entry installed on start-up is exactly the one the menu listener
   accepts, and both triggers then converge on the same tab for injection.
   */
  lemma TriggersConverge(tab: Option<Tab>)
    ensures OnMenuClick(StringId(InstalledMenu.id), tab) == OnIconClick(tab)
  {
  }
}
