/** The version list under the chat: one row per version, the current one marked Active. */
module History {
  import opened Wrappers
  import opened Strings
  import opened Types
  import Session

  datatype VersionRow = VersionRow(
    caption: string,     // "v" followed by the one-based version number
    prompt: string,
    active: bool,
    rollbackButton: bool)

  datatype HistoryPanel = HistoryPanel(count: nat, rows: seq<VersionRow>)

  /** The label of the row at `idx`: `v{idx + 1}`. */
  function Label(idx: nat): (r: string)
    ensures |r| >= 2 && r[0] == 'v' && AllDigits(r[1..]) && DigitsValue(r[1..]) == idx + 1
    ensures r[1] != '0'
  {
    NatToStringRoundTrip(idx + 1);
    assert ("v" + NatToString(idx + 1))[1..] == NatToString(idx + 1);
    "v" + NatToString(idx + 1)
  }

  /** Distinct rows carry distinct labels. */
  lemma LabelsDistinct(i: nat, j: nat)
    requires i != j
    ensures Label(i) != Label(j)
  {
  }

  function Row(version: CodeVersion, idx: nat, currentIndex: int): (row: VersionRow)
    ensures row.active <==> idx == currentIndex
    ensures row.rollbackButton <==> !row.active
    ensures row.prompt == version.prompt && row.caption == Label(idx)
  {
    var isActive := idx == currentIndex;
    VersionRow(Label(idx), version.prompt, isActive, !isActive)
  }

  /**
   * The component: nothing without versions; otherwise a header with the count and
   * one row per version, in order.
   */
  function Render(versions: seq<CodeVersion>, currentIndex: int): (r: Option<HistoryPanel>)
    ensures r.None? <==> versions == []
    ensures r.Some? ==> r.value.count == |versions| && |r.value.rows| == |versions|
    ensures r.Some? ==> forall i :: 0 <= i < |versions| ==> r.value.rows[i] == Row(versions[i], i, currentIndex)
  {
    if |versions| == 0 then None
    else Some(HistoryPanel(|versions|,
                           seq(|versions|, i requires 0 <= i < |versions| => Row(versions[i], i, currentIndex))))
  }

  /** At most one row is Active: the one at the current index, and none when the index is -1. */
  lemma AtMostOneActive(versions: seq<CodeVersion>, currentIndex: int, i: int, j: int)
    requires Render(versions, currentIndex).Some?
    requires 0 <= i < |versions| && 0 <= j < |versions|
    requires Render(versions, currentIndex).value.rows[i].active
    requires Render(versions, currentIndex).value.rows[j].active
    ensures i == j == currentIndex
  {
  }

  /** Under the index invariant a non-empty history always shows exactly one Active row. */
  lemma ActiveRowIsCurrent(versions: seq<CodeVersion>, currentIndex: int)
    requires Session.IndexOk(versions, currentIndex) && versions != []
    ensures 0 <= currentIndex < |versions| && Render(versions, currentIndex).value.rows[currentIndex].active
  {
  }

  /**
   * Every rollback button calls `onRollback` with an in-range index other than the
   * current one, so it always meets the precondition of the session's rollback.
   */
  lemma RollbackRequestsAreValid(versions: seq<CodeVersion>, currentIndex: int, i: int)
    requires Render(versions, currentIndex).Some?
    requires 0 <= i < |Render(versions, currentIndex).value.rows|
    requires Render(versions, currentIndex).value.rows[i].rollbackButton
    ensures 0 <= i < |versions| && i != currentIndex
  {
  }
}
