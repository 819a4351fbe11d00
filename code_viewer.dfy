/**
 * The panel choice of the `CodeViewer` component: which of its four panels it
 * renders for the props `code`, `error` and `isGenerating`, and what the code
 * panel holds.
 */
module CodeViewer {
  import opened Wrappers
  import CodeFences
  import SyntaxHighlight

  /** JavaScript truthiness of a `string | null` prop: null and "" are falsy. */
  predicate Truthy(s: Option<string>)
  {
    s.Some? && s.value != ""
  }

  /**
   * The four renderings. The code panel carries the cleaned text (what Copy
   * and Download use) and the markup displayed for it.
   */
  datatype Panel =
    | ErrorPanel(message: string)
    | Spinner
    | Placeholder
    | CodePanel(cleanCode: string, markup: string)

  /** The early returns of the component, tried in source order. */
  function ChoosePanel(code: Option<string>, error: Option<string>, isGenerating: bool): (p: Panel)
    ensures p.ErrorPanel? <==> Truthy(error)
    ensures p.ErrorPanel? ==> p.message == error.value
    ensures p.Spinner? <==> !Truthy(error) && isGenerating
    ensures p.Placeholder? <==> !Truthy(error) && !isGenerating && !Truthy(code)
    ensures p.CodePanel? <==> !Truthy(error) && !isGenerating && Truthy(code)
    ensures p.CodePanel? ==>
      p.cleanCode == CodeFences.Clean(code.value) && p.markup == SyntaxHighlight.Highlight(p.cleanCode)
  {
    if Truthy(error) then ErrorPanel(error.value)
    else if isGenerating then Spinner
    else if !Truthy(code) then Placeholder
    else
      var clean := CodeFences.CleanCode(code);
      CodePanel(clean, SyntaxHighlight.Highlight(clean))
  }

  /** An error hides everything else, even while a request is in flight. */
  lemma ErrorWinsOverSpinner(code: Option<string>, message: string)
    requires message != ""
    ensures ChoosePanel(code, Some(message), true) == ErrorPanel(message)
  {
  }

  /** The panel shows the markup of the cleaned text, and that markup decodes to it when it is plain. */
  lemma PlainCodeShownEscaped(code: string)
    requires code != ""
    requires var c := CodeFences.Clean(code);
      SyntaxHighlight.Count(c, '"') < 2 && !SyntaxHighlight.HasSlashPair(c) &&
      SyntaxHighlight.NoWholeWord(c, SyntaxHighlight.Keywords, false) &&
      SyntaxHighlight.NoWholeWord(c, SyntaxHighlight.MqlKeywords, false)
    ensures var p := ChoosePanel(Some(code), None, false);
      p.CodePanel? && SyntaxHighlight.Unescape(p.markup) == p.cleanCode
  {
    var c := CodeFences.Clean(code);
    SyntaxHighlight.HighlightIsEscapeExactly(c);
    SyntaxHighlight.UnescapeEscape(c);
  }
}
