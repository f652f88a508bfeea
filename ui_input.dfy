/** `Input`: a labelled text field whose attributes are forwarded. */
module UiInput {
  import opened Wrappers

  datatype Props = Props(inputType: Option<string>, placeholder: Option<string>, labelText: Option<string>, value: Option<string>)

  datatype View = View(labelText: Option<string>, inputType: string, placeholder: string, defaultValue: Option<string>)

  /**
   * The rendered field: type defaults to "text", placeholder to ""; both forwarded
   * unchanged; the label element iff the label is non-empty; the value becomes the
   * field's initial value.
   */
  function Render(p: Props): (r: View)
    ensures p.inputType.None? ==> r.inputType == "text"
    ensures p.inputType.Some? ==> r.inputType == p.inputType.value
    ensures p.placeholder.None? ==> r.placeholder == ""
    ensures p.placeholder.Some? ==> r.placeholder == p.placeholder.value
    ensures r.labelText.Some? <==> p.labelText.Some? && p.labelText.value != ""
    ensures r.labelText.Some? ==> r.labelText == p.labelText
    ensures r.defaultValue == p.value
  {
    View(
      if p.labelText.Some? && p.labelText.value != "" then p.labelText else None,
      p.inputType.GetOr("text"),
      p.placeholder.GetOr(""),
      p.value)
  }
}
