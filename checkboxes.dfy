/**
 * The tri-state "select all" header checkbox over a table of row
 * checkboxes, shared by admin_student_approvals.js, admin_payouts.js and
 * admin_payments.js, and the bulk-action controls driven by the number of
 * checked rows.
 */
module Checkboxes {
  import opened Text

  /** `querySelectorAll('.…-checkbox:checked').length`. */
  function CountChecked(boxes: seq<bool>): (n: nat)
    ensures n <= |boxes|
  {
    if boxes == [] then 0 else CountChecked(boxes[..|boxes| - 1]) + (if boxes[|boxes| - 1] then 1 else 0)
  }

  /** No row checked iff the count is 0; every row checked iff the count is the number of rows. */
  lemma {:induction false} CountCheckedExtremes(boxes: seq<bool>)
    ensures CountChecked(boxes) == 0 <==> forall i :: 0 <= i < |boxes| ==> !boxes[i]
    ensures CountChecked(boxes) == |boxes| <==> forall i :: 0 <= i < |boxes| ==> boxes[i]
  {
    if boxes != [] {
      var init := boxes[..|boxes| - 1];
      CountCheckedExtremes(init);
      assert forall i :: 0 <= i < |init| ==> init[i] == boxes[i];
    }
  }

  /** The header checkbox: `checked` and `indeterminate`. */
  datatype SelectAll = SelectAll(checked: bool, indeterminate: bool)

  /**
   * `updateSelectAllState`: unchecked with no row checked, checked with
   * every row checked, indeterminate in between.
   */
  function SelectAllState(boxes: seq<bool>): (r: SelectAll)
    ensures r.checked <==> boxes != [] && forall i :: 0 <= i < |boxes| ==> boxes[i]
    ensures r.indeterminate <==>
      (exists i :: 0 <= i < |boxes| && boxes[i]) && (exists j :: 0 <= j < |boxes| && !boxes[j])
    ensures !(r.checked && r.indeterminate)
  {
    CountCheckedExtremes(boxes);
    var n := CountChecked(boxes);
    if n == 0 then SelectAll(false, false)
    else if n == |boxes| then SelectAll(true, false)
    else SelectAll(false, true)
  }

  /** `(n)`, the count badge of the student bulk-approve button. */
  function CountBadge(n: nat): (r: string)
    ensures |r| >= 3 && r[0] == '(' && r[|r| - 1] == ')' && r[1..|r| - 1] == NatStr(n)
  {
    "(" + NatStr(n) + ")"
  }

  /** `updateBulkActionButton`: (disabled, badge text). */
  function BulkApproveButton(boxes: seq<bool>): (r: (bool, string))
    ensures r.0 <==> forall i :: 0 <= i < |boxes| ==> !boxes[i]
    ensures r.1 == CountBadge(CountChecked(boxes))
  {
    CountCheckedExtremes(boxes);
    (CountChecked(boxes) == 0, CountBadge(CountChecked(boxes)))
  }

  /** `updateBulkActions` of the payouts and payments pages: (bar display, selectedCount text). */
  function BulkBar(boxes: seq<bool>): (r: (string, string))
    ensures r.0 == "flex" <==> exists i :: 0 <= i < |boxes| && boxes[i]
    ensures r.0 == "none" <==> forall i :: 0 <= i < |boxes| ==> !boxes[i]
    ensures r.1 == NatStr(CountChecked(boxes))
  {
    CountCheckedExtremes(boxes);
    (if CountChecked(boxes) > 0 then "flex" else "none", NatStr(CountChecked(boxes)))
  }

  /** The header agrees with the rows, whenever there are rows. */
  predicate Agrees(boxes: seq<bool>, header: SelectAll) {
    boxes != [] ==> header == SelectAllState(boxes)
  }

  /** The row checkboxes and the header checkbox of one table. */
  class CheckboxTable {
    var boxes: seq<bool>
    var header: SelectAll

    constructor(boxes: seq<bool>)
      ensures this.boxes == boxes && header == SelectAll(false, false)
    {
      this.boxes := boxes;
      header := SelectAll(false, false);
    }

    /**
     * A click on the header: the browser clears `indeterminate` and sets
     * `checked`; the change handler copies `checked` onto every row.
     */
    method ClickHeader(checked: bool)
      modifies this
      ensures |boxes| == |old(boxes)| && forall i :: 0 <= i < |boxes| ==> boxes[i] == checked
      ensures header == SelectAll(checked, false)
      ensures Agrees(boxes, header)
    {
      header := SelectAll(checked, false);
      var n := |boxes|;
      for i := 0 to n
        invariant |boxes| == n && header == SelectAll(checked, false)
        invariant forall j :: 0 <= j < i ==> boxes[j] == checked
      {
        boxes := boxes[i := checked];
      }
    }

    /** A click on row `i`: its box takes the new state, then `updateSelectAllState` runs. */
    method ClickRow(i: nat, checked: bool)
      requires i < |boxes|
      modifies this
      ensures boxes == old(boxes)[i := checked]
      ensures header == SelectAllState(boxes)
      ensures Agrees(boxes, header)
    {
      boxes := boxes[i := checked];
      header := SelectAllState(boxes);
    }
  }
}
