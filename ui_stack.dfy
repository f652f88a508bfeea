/**
 * `HStack`, `VStack` and `Spacer`: flex layouts with gap, alignment and
 * justification tables. Unlike the other components there is no fallback: a
 * value that is not one of a table's own keys has no entry, which a template
 * literal renders as the text "undefined" in the class attribute (values naming
 * properties every object inherits are not modelled).
 * None of the three is registered.
 */
module UiStack {
  import opened Wrappers
  import opened UiCommon

  datatype Gap = GapNone | GapSmall | GapMedium | GapLarge
  datatype Align = AlignStart | AlignCenter | AlignEnd | AlignStretch
  datatype Justify = JustifyStart | JustifyCenter | JustifyEnd | JustifyBetween

  function GapName(g: Gap): string {
    match g
    case GapNone => "none"
    case GapSmall => "sm"
    case GapMedium => "md"
    case GapLarge => "lg"
  }

  function AlignName(a: Align): string {
    match a
    case AlignStart => "start"
    case AlignCenter => "center"
    case AlignEnd => "end"
    case AlignStretch => "stretch"
  }

  function JustifyName(j: Justify): string {
    match j
    case JustifyStart => "start"
    case JustifyCenter => "center"
    case JustifyEnd => "end"
    case JustifyBetween => "between"
  }

  function ParseGap(s: string): (r: Option<Gap>)
    ensures r.Some? ==> GapName(r.value) == s
    ensures r.None? ==> forall g :: GapName(g) != s
  {
    if s == "none" then Some(GapNone)
    else if s == "sm" then Some(GapSmall)
    else if s == "md" then Some(GapMedium)
    else if s == "lg" then Some(GapLarge)
    else None
  }

  function ParseAlign(s: string): (r: Option<Align>)
    ensures r.Some? ==> AlignName(r.value) == s
    ensures r.None? ==> forall a :: AlignName(a) != s
  {
    if s == "start" then Some(AlignStart)
    else if s == "center" then Some(AlignCenter)
    else if s == "end" then Some(AlignEnd)
    else if s == "stretch" then Some(AlignStretch)
    else None
  }

  function ParseJustify(s: string): (r: Option<Justify>)
    ensures r.Some? ==> JustifyName(r.value) == s
    ensures r.None? ==> forall j :: JustifyName(j) != s
  {
    if s == "start" then Some(JustifyStart)
    else if s == "center" then Some(JustifyCenter)
    else if s == "end" then Some(JustifyEnd)
    else if s == "between" then Some(JustifyBetween)
    else None
  }

  function GapClass(g: Gap): string {
    match g
    case GapNone => "gap-0"
    case GapSmall => "gap-2"
    case GapMedium => "gap-4"
    case GapLarge => "gap-8"
  }

  function AlignClass(a: Align): string {
    match a
    case AlignStart => "items-start"
    case AlignCenter => "items-center"
    case AlignEnd => "items-end"
    case AlignStretch => "items-stretch"
  }

  function JustifyClass(j: Justify): string {
    match j
    case JustifyStart => "justify-start"
    case JustifyCenter => "justify-center"
    case JustifyEnd => "justify-end"
    case JustifyBetween => "justify-between"
  }

  /** How a template literal renders a lookup that found nothing. */
  const UNDEFINED := "undefined"

  datatype Direction = Row | Column

  /** The props shared by both stacks; `wrap` is read by `HStack` only. */
  datatype Props = Props(gap: Option<string>, align: Option<string>, justify: Option<string>, wrap: Option<bool>, children: Option<Node>)

  datatype View = View(
    direction: Direction,
    gap: Option<Gap>,          // None: no table entry, rendered as "undefined"
    align: Option<Align>,
    justify: Option<Justify>,
    wrapClass: Option<string>, // HStack only
    children: Option<Node>)

  /** The shared defaults: gap md, align stretch, justify start. */
  function Entries(p: Props): (r: (Option<Gap>, Option<Align>, Option<Justify>))
    ensures p.gap.None? ==> r.0 == Some(GapMedium)
    ensures p.align.None? ==> r.1 == Some(AlignStretch)
    ensures p.justify.None? ==> r.2 == Some(JustifyStart)
    ensures forall g :: p.gap == Some(GapName(g)) ==> r.0 == Some(g)
    ensures forall a :: p.align == Some(AlignName(a)) ==> r.1 == Some(a)
    ensures forall j :: p.justify == Some(JustifyName(j)) ==> r.2 == Some(j)
    ensures p.gap.Some? && ParseGap(p.gap.value).None? ==> r.0.None?
    ensures p.align.Some? && ParseAlign(p.align.value).None? ==> r.1.None?
    ensures p.justify.Some? && ParseJustify(p.justify.value).None? ==> r.2.None?
  {
    (ParseGap(p.gap.GetOr("md")), ParseAlign(p.align.GetOr("stretch")), ParseJustify(p.justify.GetOr("start")))
  }

  /** `HStack`: a row that wraps iff `wrap`, which defaults to false. */
  function HStack(p: Props): (r: View)
    ensures r.direction == Row && r.children == p.children
    ensures (r.gap, r.align, r.justify) == Entries(p)
    ensures r.wrapClass == Some("flex-wrap") <==> p.wrap == Some(true)
    ensures r.wrapClass != Some("flex-wrap") ==> r.wrapClass == Some("flex-nowrap")
  {
    var e := Entries(p);
    View(Row, e.0, e.1, e.2, Some(if p.wrap.GetOr(false) then "flex-wrap" else "flex-nowrap"), p.children)
  }

  /** `VStack`: a column with the same defaults and no wrap option. */
  function VStack(p: Props): (r: View)
    ensures r.direction == Column && r.children == p.children
    ensures (r.gap, r.align, r.justify) == Entries(p)
    ensures r.wrapClass.None?
  {
    var e := Entries(p);
    View(Column, e.0, e.1, e.2, None, p.children)
  }

  /** The text an entry contributes to the class attribute: its class, or "undefined". */
  function GapText(g: Option<Gap>): string { if g.Some? then GapClass(g.value) else UNDEFINED }
  function AlignText(a: Option<Align>): string { if a.Some? then AlignClass(a.value) else UNDEFINED }
  function JustifyText(j: Option<Justify>): string { if j.Some? then JustifyClass(j.value) else UNDEFINED }

  /**
   * The class attribute of either stack: the direction, then the gap, align and
   * justify entries in that order, then the wrap class if any, then "w-full".
   */
  function ClassName(v: View): (c: string)
    ensures var d := if v.direction == Row then "flex flex-row " else "flex flex-col ";
            var entries := GapText(v.gap) + " " + AlignText(v.align) + " " + JustifyText(v.justify);
            var tail := (if v.wrapClass.Some? then " " + v.wrapClass.value else "") + " w-full";
            && |c| == |d| + |entries| + |tail|
            && c[..|d|] == d
            && c[|d|..|d| + |entries|] == entries
            && c[|d| + |entries|..] == tail
  {
    var d := if v.direction == Row then "flex flex-row " else "flex flex-col ";
    var entries := GapText(v.gap) + " " + AlignText(v.align) + " " + JustifyText(v.justify);
    var tail := (if v.wrapClass.Some? then " " + v.wrapClass.value else "") + " w-full";
    assert (d + entries + tail)[..|d|] == d;
    assert (d + entries + tail)[|d|..|d| + |entries|] == entries;
    assert (d + entries + tail)[|d| + |entries|..] == tail;
    d + entries + tail
  }

  /** `Spacer` takes no props and is always the same growing element. */
  const SPACER_CLASSES := "flex-grow min-w-4 min-h-4"

  function Spacer(): (c: string)
    ensures c == SPACER_CLASSES
  {
    SPACER_CLASSES
  }
}
