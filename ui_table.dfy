/** `Table`: an optional header row, one body row per data row, or a placeholder row spanning the columns. */
module UiTable {
  import opened Wrappers

  datatype Props = Props(columns: Option<seq<string>>, data: Option<seq<seq<string>>>)

  datatype View = View(
    header: Option<seq<string>>,     // the `thead` cells, when there is a header row
    body: seq<seq<string>>,          // the `td` texts of each body row
    placeholderColSpan: Option<int>) // the "No data available" row, when there is one

  /** The cells of one body row, in order. */
  function RowCells(row: seq<string>): (cells: seq<string>)
    ensures cells == row
  {
    seq(|row|, j requires 0 <= j < |row| => row[j])
  }

  /**
   * The rendered table: columns and data default to empty; a header iff there are
   * columns; one body row per data row; the placeholder iff no data, spanning the
   * column count or 1 when there are no columns.
   */
  function Render(p: Props): (r: View)
    ensures var columns := p.columns.GetOr([]);
            && (r.header.Some? <==> columns != [])
            && (r.header.Some? ==> r.header.value == columns)
    ensures r.body == p.data.GetOr([])
    ensures r.placeholderColSpan.Some? <==> p.data.GetOr([]) == []
    ensures r.placeholderColSpan.Some? ==>
              r.placeholderColSpan.value >= 1
              && r.placeholderColSpan.value == if p.columns.GetOr([]) != [] then |p.columns.value| else 1
  {
    var columns := p.columns.GetOr([]);
    var data := p.data.GetOr([]);
    var body := seq(|data|, i requires 0 <= i < |data| => RowCells(data[i]));
    assert body == data;
    View(
      if |columns| > 0 then Some(seq(|columns|, k requires 0 <= k < |columns| => columns[k])) else None,
      body,
      if |data| == 0 then Some(if |columns| != 0 then |columns| else 1) else None)
  }
}
