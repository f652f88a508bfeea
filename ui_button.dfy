/** `Button`: a variant and a size picked from lookup tables, with defaults and fallbacks. */
module UiButton {
  import opened Wrappers
  import opened UiCommon

  datatype Variant = Primary | Secondary | Danger | Outline | Ghost
  datatype Size = Small | Medium | Large

  function VariantName(v: Variant): string {
    match v
    case Primary => "primary"
    case Secondary => "secondary"
    case Danger => "danger"
    case Outline => "outline"
    case Ghost => "ghost"
  }

  function SizeName(s: Size): string {
    match s
    case Small => "sm"
    case Medium => "md"
    case Large => "lg"
  }

  /** The key of `variantClasses` that `s` is, if any. */
  function ParseVariant(s: string): (r: Option<Variant>)
    ensures r.Some? ==> VariantName(r.value) == s
    ensures r.None? ==> forall v :: VariantName(v) != s
  {
    if s == "primary" then Some(Primary)
    else if s == "secondary" then Some(Secondary)
    else if s == "danger" then Some(Danger)
    else if s == "outline" then Some(Outline)
    else if s == "ghost" then Some(Ghost)
    else None
  }

  /** The key of `sizeClasses` that `s` is, if any. */
  function ParseSize(s: string): (r: Option<Size>)
    ensures r.Some? ==> SizeName(r.value) == s
    ensures r.None? ==> forall z :: SizeName(z) != s
  {
    if s == "sm" then Some(Small)
    else if s == "md" then Some(Medium)
    else if s == "lg" then Some(Large)
    else None
  }

  function VariantClasses(v: Variant): string {
    match v
    case Primary => "bg-blue-600 text-white hover:bg-blue-700 shadow-sm"
    case Secondary => "bg-gray-600 text-white hover:bg-gray-700 shadow-sm"
    case Danger => "bg-red-600 text-white hover:bg-red-700 shadow-sm"
    case Outline => "border border-gray-300 text-gray-700 hover:bg-gray-50 bg-white"
    case Ghost => "text-gray-600 hover:bg-gray-100 hover:text-gray-900"
  }

  function SizeClasses(s: Size): string {
    match s
    case Small => "px-3 py-1.5 text-sm rounded-md"
    case Medium => "px-4 py-2 text-sm rounded-lg"
    case Large => "px-6 py-3 text-base rounded-lg"
  }

  const BASE_CLASSES := "inline-flex items-center justify-center font-medium transition-colors focus:outline-none focus:ring-2 focus:ring-[#D4A27F]/40 focus:ring-offset-2 cursor-pointer"

  /** The props as written in the markup; an absent prop is `None`. */
  datatype Props = Props(variant: Option<string>, size: Option<string>, children: Option<Node>)

  /** The table entries the rendered button uses, and its content. */
  datatype View = View(variant: Variant, size: Size, content: Node)

  /** The variant whose classes apply: the named one, else primary (absent or unrecognised). */
  function ResolveVariant(variant: Option<string>): (v: Variant)
    ensures forall w :: variant == Some(VariantName(w)) ==> v == w
    ensures variant.None? ==> v == Primary
    ensures variant.Some? && ParseVariant(variant.value).None? ==> v == Primary
  {
    ParseVariant(variant.GetOr("primary")).GetOr(Primary)
  }

  /** The size whose classes apply: the named one, else md (absent or unrecognised). */
  function ResolveSize(size: Option<string>): (z: Size)
    ensures forall w :: size == Some(SizeName(w)) ==> z == w
    ensures size.None? ==> z == Medium
    ensures size.Some? && ParseSize(size.value).None? ==> z == Medium
  {
    ParseSize(size.GetOr("md")).GetOr(Medium)
  }

  /** The rendered button: resolved variant and size; absent children become the text "Button". */
  function Render(p: Props): (r: View)
    ensures r.variant == ResolveVariant(p.variant) && r.size == ResolveSize(p.size)
    ensures p.children.None? ==> r.content == Text("Button")
    ensures p.children.Some? ==> r.content == p.children.value
  {
    View(ResolveVariant(p.variant), ResolveSize(p.size), p.children.GetOr(Text("Button")))
  }

  /** The class attribute of the rendered button. */
  function ClassName(v: View): (c: string)
    ensures var size := " " + SizeClasses(v.size);
            var variant := " " + VariantClasses(v.variant);
            && |c| >= |variant| + |size|
            && c[|c| - |size|..] == size
            && c[|c| - |size| - |variant|..|c| - |size|] == variant
            && c[..|c| - |size| - |variant|] == BASE_CLASSES
  {
    var size := " " + SizeClasses(v.size);
    var variant := " " + VariantClasses(v.variant);
    var c := BASE_CLASSES + variant + size;
    assert c[|c| - |size|..] == size;
    assert c[|c| - |size| - |variant|..|c| - |size|] == variant;
    assert c[..|c| - |size| - |variant|] == BASE_CLASSES;
    c
  }

  /** Each variant and each size has its own entry in the tables. */
  lemma EntriesDistinct(v: Variant, w: Variant, y: Size, z: Size)
    ensures v != w ==> VariantClasses(v) != VariantClasses(w)
    ensures y != z ==> SizeClasses(y) != SizeClasses(z)
  {
  }
}
