/** What the layout components pass through without looking inside. */
module UiCommon {

  /** A React child: literal text, or an element the model does not render. */
  datatype Node = Text(text: string) | Element(markup: string)
}
