/** `Container`: width and padding picked from tables with literal fallbacks, and an optional grow class. */
module UiContainer {
  import opened Wrappers
  import opened UiCommon

  datatype MaxWidth = WidthSmall | WidthMedium | WidthLarge | WidthExtraLarge | WidthFull
  datatype Padding = PadNone | PadSmall | PadMedium | PadLarge

  function MaxWidthName(w: MaxWidth): string {
    match w
    case WidthSmall => "sm"
    case WidthMedium => "md"
    case WidthLarge => "lg"
    case WidthExtraLarge => "xl"
    case WidthFull => "full"
  }

  function PaddingName(p: Padding): string {
    match p
    case PadNone => "none"
    case PadSmall => "sm"
    case PadMedium => "md"
    case PadLarge => "lg"
  }

  function ParseMaxWidth(s: string): (r: Option<MaxWidth>)
    ensures r.Some? ==> MaxWidthName(r.value) == s
    ensures r.None? ==> forall w :: MaxWidthName(w) != s
  {
    if s == "sm" then Some(WidthSmall)
    else if s == "md" then Some(WidthMedium)
    else if s == "lg" then Some(WidthLarge)
    else if s == "xl" then Some(WidthExtraLarge)
    else if s == "full" then Some(WidthFull)
    else None
  }

  function ParsePadding(s: string): (r: Option<Padding>)
    ensures r.Some? ==> PaddingName(r.value) == s
    ensures r.None? ==> forall p :: PaddingName(p) != s
  {
    if s == "none" then Some(PadNone)
    else if s == "sm" then Some(PadSmall)
    else if s == "md" then Some(PadMedium)
    else if s == "lg" then Some(PadLarge)
    else None
  }

  function MaxWidthClass(w: MaxWidth): string {
    match w
    case WidthSmall => "max-w-sm"
    case WidthMedium => "max-w-2xl"
    case WidthLarge => "max-w-5xl"
    case WidthExtraLarge => "max-w-7xl"
    case WidthFull => "max-w-full"
  }

  function PaddingClass(p: Padding): string {
    match p
    case PadNone => "p-0"
    case PadSmall => "p-3"
    case PadMedium => "p-6"
    case PadLarge => "p-10"
  }

  const MAX_WIDTH_FALLBACK := "max-w-5xl"
  const PADDING_FALLBACK := "p-6"

  datatype Props = Props(maxWidth: Option<string>, padding: Option<string>, grow: Option<bool>, children: Option<Node>)

  datatype View = View(maxWidthClass: string, paddingClass: string, growClass: string, children: Option<Node>)

  /** The width class: the named entry, else "max-w-5xl", which is also lg's, the default. */
  function ResolveMaxWidth(maxWidth: Option<string>): (c: string)
    ensures forall w :: maxWidth == Some(MaxWidthName(w)) ==> c == MaxWidthClass(w)
    ensures maxWidth.None? ==> c == MaxWidthClass(WidthLarge)
    ensures maxWidth.Some? && ParseMaxWidth(maxWidth.value).None? ==> c == MAX_WIDTH_FALLBACK == MaxWidthClass(WidthLarge)
  {
    match ParseMaxWidth(maxWidth.GetOr("lg"))
    case Some(w) => MaxWidthClass(w)
    case None => MAX_WIDTH_FALLBACK
  }

  /** The padding class: the named entry, else "p-6", which is also md's, the default. */
  function ResolvePadding(padding: Option<string>): (c: string)
    ensures forall p :: padding == Some(PaddingName(p)) ==> c == PaddingClass(p)
    ensures padding.None? ==> c == PaddingClass(PadMedium)
    ensures padding.Some? && ParsePadding(padding.value).None? ==> c == PADDING_FALLBACK == PaddingClass(PadMedium)
  {
    match ParsePadding(padding.GetOr("md"))
    case Some(p) => PaddingClass(p)
    case None => PADDING_FALLBACK
  }

  /** The rendered container; "flex-1" is present iff `grow` is true, and `grow` defaults to false. */
  function Render(p: Props): (r: View)
    ensures r.maxWidthClass == ResolveMaxWidth(p.maxWidth) && r.paddingClass == ResolvePadding(p.padding)
    ensures r.growClass == "flex-1" <==> p.grow == Some(true)
    ensures r.growClass != "flex-1" ==> r.growClass == ""
    ensures r.children == p.children
  {
    View(ResolveMaxWidth(p.maxWidth), ResolvePadding(p.padding),
         if p.grow.GetOr(false) then "flex-1" else "", p.children)
  }
}
