/** `Grid`: a column count clamped into the table's range, and a gap with a fallback. */
module UiGrid {
  import opened Wrappers
  import opened UiCommon

  datatype Gap = GapNone | GapSmall | GapMedium | GapLarge

  function GapName(g: Gap): string {
    match g
    case GapNone => "none"
    case GapSmall => "sm"
    case GapMedium => "md"
    case GapLarge => "lg"
  }

  function ParseGap(s: string): (r: Option<Gap>)
    ensures r.Some? ==> GapName(r.value) == s
    ensures r.None? ==> forall g :: GapName(g) != s
  {
    if s == "none" then Some(GapNone)
    else if s == "sm" then Some(GapSmall)
    else if s == "md" then Some(GapMedium)
    else if s == "lg" then Some(GapLarge)
    else None
  }

  function GapClass(g: Gap): string {
    match g
    case GapNone => "gap-0"
    case GapSmall => "gap-2"
    case GapMedium => "gap-4"
    case GapLarge => "gap-8"
  }

  /** The literal used when the gap is not a key of the table. */
  const GAP_FALLBACK := "gap-4"

  /** `gridColsMap`. */
  const GridColsMap: map<int, string> :=
    map[1 := "grid-cols-1", 2 := "grid-cols-2", 3 := "grid-cols-3",
        4 := "grid-cols-4", 5 := "grid-cols-5", 6 := "grid-cols-6"]

  /** `Math.min(Math.max(columns, 1), 6)`. */
  function Clamp(columns: int): (cols: int)
    ensures 1 <= cols <= 6
    ensures 1 <= columns <= 6 ==> cols == columns
    ensures columns < 1 ==> cols == 1
    ensures columns > 6 ==> cols == 6
  {
    var atLeastOne := if columns > 1 then columns else 1;
    if atLeastOne < 6 then atLeastOne else 6
  }

  /** Clamping twice is clamping once. */
  lemma ClampIdempotent(columns: int)
    ensures Clamp(Clamp(columns)) == Clamp(columns)
  {
  }

  /** Every clamped count has a class in the table, and it is the one for that count. */
  lemma ClampedHasClass(columns: int)
    ensures Clamp(columns) in GridColsMap
  {
  }

  datatype Props = Props(columns: Option<int>, gap: Option<string>, children: Option<Node>)

  datatype View = View(columns: int, columnsClass: string, gapClass: string, children: Option<Node>)

  /** The gap class: the named entry, else "gap-4" (absent means md, which is also "gap-4"). */
  function ResolveGap(gap: Option<string>): (c: string)
    ensures forall g :: gap == Some(GapName(g)) ==> c == GapClass(g)
    ensures gap.None? ==> c == GapClass(GapMedium)
    ensures gap.Some? && ParseGap(gap.value).None? ==> c == GAP_FALLBACK == GapClass(GapMedium)
  {
    match ParseGap(gap.GetOr("md"))
    case Some(g) => GapClass(g)
    case None => GAP_FALLBACK
  }

  /** The rendered grid: columns default to 2 and are clamped into 1..6, each with its own class. */
  function Render(p: Props): (r: View)
    ensures 1 <= r.columns <= 6 && r.columns in GridColsMap && r.columnsClass == GridColsMap[r.columns]
    ensures p.columns.None? ==> r.columns == 2
    ensures p.columns.Some? ==> r.columns == Clamp(p.columns.value)
    ensures r.gapClass == ResolveGap(p.gap) && r.children == p.children
  {
    var cols := Clamp(p.columns.GetOr(2));
    View(cols, GridColsMap[cols], ResolveGap(p.gap), p.children)
  }
}
