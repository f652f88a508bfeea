/** `Sidebar`: a width that depends on the variant and one entry per item. */
module UiSidebar {
  import opened Wrappers

  datatype Item = Item(labelText: string, icon: Option<string>)

  datatype Props = Props(items: Option<seq<Item>>, variant: Option<string>)

  datatype View = View(widthClass: string, compact: bool, entries: seq<string>)

  /** `variant === "compact"`: every other value, and the absent default, is the default layout. */
  predicate IsCompact(variant: Option<string>) {
    variant.GetOr("default") == "compact"
  }

  /** A compact entry: the icon if it is non-empty, else the label's first character ("" for an empty label). */
  function CompactText(item: Item): (t: string)
    ensures item.icon.Some? && item.icon.value != "" ==> t == item.icon.value
    ensures !(item.icon.Some? && item.icon.value != "") ==> t == item.labelText[..if |item.labelText| > 0 then 1 else 0]
  {
    match item.icon
    case Some(icon) => if icon != "" then icon else item.labelText[..if |item.labelText| > 0 then 1 else 0]
    case None => item.labelText[..if |item.labelText| > 0 then 1 else 0]
  }

  /** A default entry: the icon and a space when the icon is non-empty, then the label. */
  function DefaultText(item: Item): (t: string)
    ensures |t| >= |item.labelText| && t[|t| - |item.labelText|..] == item.labelText
    ensures item.icon.Some? && item.icon.value != "" ==> t == item.icon.value + " " + item.labelText
    ensures !(item.icon.Some? && item.icon.value != "") ==> t == item.labelText
  {
    var prefix := if item.icon.Some? && item.icon.value != "" then item.icon.value + " " else "";
    assert (prefix + item.labelText)[|prefix|..] == item.labelText;
    prefix + item.labelText
  }

  /** The rendered sidebar: "w-16" iff compact, else "w-60"; one entry per item, in order. */
  function Render(p: Props): (r: View)
    ensures r.compact <==> IsCompact(p.variant)
    ensures r.widthClass == "w-16" <==> r.compact
    ensures !r.compact ==> r.widthClass == "w-60"
    ensures |r.entries| == |p.items.GetOr([])|
    ensures forall i :: 0 <= i < |r.entries| ==>
              r.entries[i] == if r.compact then CompactText(p.items.value[i]) else DefaultText(p.items.value[i])
  {
    var items := p.items.GetOr([]);
    var compact := IsCompact(p.variant);
    View(
      if compact then "w-16" else "w-60",
      compact,
      seq(|items|, i requires 0 <= i < |items| => if compact then CompactText(items[i]) else DefaultText(items[i])))
  }
}
