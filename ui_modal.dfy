/** `Modal`: nothing when closed; otherwise a dialog with a title header and the children. */
module UiModal {
  import opened Wrappers
  import opened UiCommon

  datatype Props = Props(title: Option<string>, open: Option<bool>, children: Option<Node>)

  datatype View = View(header: string, body: Option<Node>)

  /** The rendered modal: open by default, titled "Modal" by default, nothing at all when closed. */
  function Render(p: Props): (r: Option<View>)
    ensures r.None? <==> p.open == Some(false)
    ensures r.Some? ==> r.value.body == p.children
    ensures r.Some? ==> r.value.header == if p.title.Some? then p.title.value else "Modal"
  {
    if !p.open.GetOr(true) then None
    else Some(View(p.title.GetOr("Modal"), p.children))
  }
}
