/**
 * The preview panel: a rendered preview and a source view over the current
 * version's code, with a copy button in the source view.
 */
module Preview {
  import opened Wrappers
  import UiRegistry

  datatype Tab = PreviewTab | CodeTab

  /** What the live renderer is given when there is no code yet: a welcome built from registered components. */
  const PLACEHOLDER := "<Container padding=\"md\"><Card title=\"Welcome\"><Button variant=\"primary\">Get started by describing a UI in the chat</Button></Card></Container>"

  const NO_CODE_TEXT := "// No code generated yet"

  /** The source handed to the live renderer: non-empty code inside a fragment, else the placeholder. */
  function WrappedCode(code: string): (w: string)
    ensures code == "" ==> w == PLACEHOLDER
    ensures code != "" ==> |w| == |code| + 5 && w[..2] == "<>" && w[|w| - 3..] == "</>"
  {
    if code != "" then "<>" + code + "</>" else PLACEHOLDER
  }

  /** Take the code back out of a fragment wrapper, if `wrapped` is one. */
  function Unwrap(wrapped: string): Option<string> {
    if |wrapped| >= 5 && wrapped[..2] == "<>" && wrapped[|wrapped| - 3..] == "</>"
    then Some(wrapped[2..|wrapped| - 3])
    else None
  }

  /**
   * Non-empty code round-trips through the wrapper; empty code yields the placeholder,
   * which is not a wrapped fragment, so the two cases never meet.
   */
  lemma WrapRoundTrip(code: string)
    ensures code != "" ==> Unwrap(WrappedCode(code)) == Some(code)
    ensures code == "" ==> WrappedCode(code) == PLACEHOLDER && Unwrap(WrappedCode(code)).None?
  {
    var w := WrappedCode(code);
    if code != "" {
      assert w[..2] == "<>";
      assert w[|w| - 3..] == "</>";
      assert w[2..|w| - 3] == code;
    } else {
      var n := |PLACEHOLDER|;
      assert PLACEHOLDER[n - 2] == 'r';
      assert PLACEHOLDER[n - 3..] != "</>" by { assert PLACEHOLDER[n - 3..][1] == 'r'; }
    }
  }

  /** Different code is never handed to the renderer as the same source. */
  lemma WrappedCodeInjective(a: string, b: string)
    requires WrappedCode(a) == WrappedCode(b)
    ensures a == b
  {
    WrapRoundTrip(a);
    WrapRoundTrip(b);
  }

  /** The names the renderer can resolve: the registry's keys plus `React`. */
  function Scope(): (names: set<string>)
    ensures forall n :: n in names <==> n == "React" || UiRegistry.Lookup(n).Some?
    ensures "HStack" !in names && "VStack" !in names && "Spacer" !in names
  {
    UiRegistry.StacksNotRegistered();
    UiRegistry.Keys() + {"React"}
  }

  /** The panel body: the live preview with its scope, or the source text. */
  datatype Body = LivePreview(source: string, scope: set<string>) | SourceView(text: string)

  datatype PanelView = PanelView(copyButton: Option<string>, body: Body)

  class PreviewPanel {
    var activeTab: Tab
    var copied: bool

    /** Mounted on the preview tab, nothing copied. */
    constructor ()
      ensures activeTab == PreviewTab && !copied
    {
      activeTab := PreviewTab;
      copied := false;
    }

    /** One of the two tab buttons: only the active tab changes. */
    method SelectTab(tab: Tab)
      modifies this
      ensures activeTab == tab && copied == old(copied)
    {
      activeTab := tab;
    }

    /**
     * `handleCopy`: ask for the code to be written to the clipboard. When the write
     * is accepted the clipboard holds the code (returned) and the button shows
     * "Copied!"; when it is rejected the handler stops at the write, nothing is
     * copied and `copied` keeps its value.
     */
    method Copy(code: string, accepted: bool) returns (clipboard: Option<string>)
      modifies this
      ensures clipboard.Some? <==> accepted
      ensures accepted ==> clipboard == Some(code) && copied
      ensures !accepted ==> copied == old(copied)
      ensures activeTab == old(activeTab)
    {
      if accepted {
        clipboard := Some(code);
        copied := true;
      } else {
        clipboard := None;
      }
    }

    /** The timer started by a copy fires: the acknowledgement reverts. */
    method CopyTimeout()
      modifies this
      ensures !copied && activeTab == old(activeTab)
    {
      copied := false;
    }

    /** The panel for `code`. */
    function Render(code: string): (v: PanelView)
      reads this
      ensures v.copyButton.Some? <==> activeTab == CodeTab && code != ""
      ensures v.copyButton.Some? ==> v.copyButton.value == if copied then "Copied!" else "Copy"
      ensures v.body.LivePreview? <==> activeTab == PreviewTab
      ensures v.body.LivePreview? ==> v.body == LivePreview(WrappedCode(code), Scope())
      ensures v.body.SourceView? && code != "" ==> v.body.text == code
      ensures v.body.SourceView? && code == "" ==> v.body.text == NO_CODE_TEXT
    {
      var showCopy := activeTab == CodeTab && code != "";
      PanelView(
        if showCopy then Some(if copied then "Copied!" else "Copy") else None,
        if activeTab == PreviewTab then LivePreview(WrappedCode(code), Scope())
        else SourceView(if code != "" then code else NO_CODE_TEXT))
    }
  }

  /** Clicking tabs, and clicking one twice, changes the view only through the tab. */
  method TabScenario(code: string)
  {
    var panel := new PreviewPanel();
    assert panel.Render(code).body == LivePreview(WrappedCode(code), Scope());
    panel.SelectTab(CodeTab);
    var once := panel.Render(code);
    panel.SelectTab(CodeTab);
    assert panel.Render(code) == once;
    var c := panel.Copy(code, false);
    assert c.None? && !panel.copied;
    c := panel.Copy(code, true);
    assert c == Some(code) && panel.copied;
    panel.CopyTimeout();
    panel.SelectTab(PreviewTab);
    assert !panel.copied && panel.Render(code).copyButton.None?;
  }
}
