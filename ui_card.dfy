/** `Card`: a variant with a fallback, a heading only for a non-empty title, and a body for the children. */
module UiCard {
  import opened Wrappers
  import opened UiCommon

  datatype Variant = Default | Bordered | Elevated

  function VariantName(v: Variant): string {
    match v
    case Default => "default"
    case Bordered => "bordered"
    case Elevated => "elevated"
  }

  function ParseVariant(s: string): (r: Option<Variant>)
    ensures r.Some? ==> VariantName(r.value) == s
    ensures r.None? ==> forall v :: VariantName(v) != s
  {
    if s == "default" then Some(Default)
    else if s == "bordered" then Some(Bordered)
    else if s == "elevated" then Some(Elevated)
    else None
  }

  function VariantClasses(v: Variant): string {
    match v
    case Default => "bg-white border border-gray-200 rounded-xl"
    case Bordered => "bg-white border-2 border-gray-300 rounded-xl"
    case Elevated => "bg-white rounded-xl shadow-lg shadow-gray-200/50"
  }

  /** The padding every card has, whatever its variant. */
  const PADDING := "p-6"

  datatype Props = Props(title: Option<string>, variant: Option<string>, children: Option<Node>)

  datatype View = View(variant: Variant, padding: string, heading: Option<string>, body: Option<Node>)

  /** The variant whose classes apply: the named one, else default (absent or unrecognised). */
  function ResolveVariant(variant: Option<string>): (v: Variant)
    ensures forall w :: variant == Some(VariantName(w)) ==> v == w
    ensures variant.None? ==> v == Default
    ensures variant.Some? && ParseVariant(variant.value).None? ==> v == Default
  {
    ParseVariant(variant.GetOr("default")).GetOr(Default)
  }

  /** The rendered card: always padded, a heading iff the title is non-empty, the children in the body. */
  function Render(p: Props): (r: View)
    ensures r.variant == ResolveVariant(p.variant) && r.padding == PADDING
    ensures r.heading.Some? <==> p.title.Some? && p.title.value != ""
    ensures r.heading.Some? ==> r.heading == p.title
    ensures r.body == p.children
  {
    var heading := if p.title.Some? && p.title.value != "" then p.title else None;
    View(ResolveVariant(p.variant), PADDING, heading, p.children)
  }

  /** The class attribute of the card's outer element. */
  function ClassName(v: View): (c: string)
    ensures |c| == |VariantClasses(v.variant)| + 1 + |v.padding|
    ensures c[..|VariantClasses(v.variant)|] == VariantClasses(v.variant)
    ensures c[|VariantClasses(v.variant)|..] == " " + v.padding
  {
    VariantClasses(v.variant) + " " + v.padding
  }
}
