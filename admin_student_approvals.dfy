/**
 * backend/staticfiles/js/admin_student_approvals.js: the bulk-approve
 * guard, the notification icon, the student name shown in confirmations
 * and the CSV export of the visible rows.  The select-all checkbox and the
 * bulk button are the shared `Checkboxes` model.
 */
module StudentApprovals {
  import opened Text
  import opened Csv
  import opened Wrappers

  // ------------------------------------------------------------ bulk approve

  /** What a click on the bulk-approve button shows. */
  datatype BulkClick = Warning(message: string) | Confirmation(title: string, message: string)

  const SelectFirstMessage := "Please select at least one student to approve."

  /** The bulk-approve click handler, given the number of checked rows. */
  function BulkApproveClick(selectedCount: nat): (r: BulkClick)
    ensures r.Warning? <==> selectedCount == 0
    ensures r.Warning? ==> r.message == SelectFirstMessage
    ensures r.Confirmation? ==>
              r.title == "Bulk Approve Students" &&
              r.message == "Are you sure you want to approve <strong>" + NatStr(selectedCount) + "</strong> selected students?"
  {
    if selectedCount == 0 then Warning(SelectFirstMessage)
    else Confirmation("Bulk Approve Students",
                      "Are you sure you want to approve <strong>" + NatStr(selectedCount) + "</strong> selected students?")
  }

  /** `getStudentNameFromRow`: the trimmed `.student-name` text, or 'this student' without one. */
  function StudentName(nameCell: Option<string>): (r: string)
    ensures nameCell.None? ==> r == "this student"
    ensures nameCell.Some? ==> r == Strip(nameCell.value) && IsStripped(r)
  {
    if nameCell.None? then "this student" else Strip(nameCell.value)
  }

  // ------------------------------------------------------------ getNotificationIcon

  const KnownIcons: seq<(string, string)> := [
    ("success", "check-circle"), ("danger", "exclamation-triangle"),
    ("warning", "exclamation-circle"), ("info", "info-circle")]

  /** `getNotificationIcon`: the icon of a known type, 'info-circle' for any other. */
  function NotificationIcon(kind: string): (r: string)
    ensures forall k :: 0 <= k < |KnownIcons| && KnownIcons[k].0 == kind ==> r == KnownIcons[k].1
    ensures (forall k :: 0 <= k < |KnownIcons| ==> KnownIcons[k].0 != kind) ==> r == "info-circle"
  {
    assert |KnownIcons| == 4 && KnownIcons[0].0 == "success" && KnownIcons[1].0 == "danger" &&
           KnownIcons[2].0 == "warning" && KnownIcons[3].0 == "info";
    if kind == "success" then "check-circle"
    else if kind == "danger" then "exclamation-triangle"
    else if kind == "warning" then "exclamation-circle"
    else "info-circle"
  }

  // ------------------------------------------------------------ exportApprovalData / exportToCSV

  datatype ApprovalRow = ApprovalRow(name: string, username: string, email: string,
                                     registeredBy: string, registrationDate: string)

  function Fields(r: ApprovalRow): (f: seq<string>)
    ensures |f| == 5
  {
    [r.name, r.username, r.email, r.registeredBy, r.registrationDate]
  }

  /** `cells[k]?.textContent.trim() || ''`. */
  function Cell(cells: seq<string>, k: nat): (r: string)
    ensures k >= |cells| ==> r == []
    ensures Strip(r) == r
  {
    if k < |cells| then
      StripIdempotent(cells[k]);
      Strip(cells[k])
    else ""
  }

  /** The record read from one table row: cells 1 to 5. */
  function RowFromCells(cells: seq<string>): ApprovalRow {
    ApprovalRow(Cell(cells, 1), Cell(cells, 2), Cell(cells, 3), Cell(cells, 4), Cell(cells, 5))
  }

  /** `exportApprovalData`: the visible rows with more than one cell, in order. */
  function ApprovalData(visibleRows: seq<seq<string>>): (r: seq<ApprovalRow>)
    ensures |r| <= |visibleRows|
  {
    if visibleRows == [] then []
    else
      var init := ApprovalData(visibleRows[..|visibleRows| - 1]);
      var last := visibleRows[|visibleRows| - 1];
      if |last| > 1 then init + [RowFromCells(last)] else init
  }

  /** When every visible row has more than one cell, each gives one record, in order. */
  lemma {:induction false} ApprovalDataAllRows(visibleRows: seq<seq<string>>)
    requires forall i :: 0 <= i < |visibleRows| ==> |visibleRows[i]| > 1
    ensures |ApprovalData(visibleRows)| == |visibleRows|
    ensures forall i :: 0 <= i < |visibleRows| ==> ApprovalData(visibleRows)[i] == RowFromCells(visibleRows[i])
  {
    if visibleRows != [] {
      var n := |visibleRows| - 1;
      var init := visibleRows[..n];
      ApprovalDataAllRows(init);
      assert |visibleRows[n]| > 1;
      assert ApprovalData(visibleRows) == ApprovalData(init) + [RowFromCells(visibleRows[n])];
      forall i | 0 <= i < n
        ensures ApprovalData(visibleRows)[i] == RowFromCells(visibleRows[i])
      {
        assert init[i] == visibleRows[i];
      }
    }
  }

  const ApprovalColumns: seq<string> := ["Name", "Username", "Email", "Registered By", "Registration Date"]

  /** `headers.join(',')`. */
  const ApprovalHeader := Join(ApprovalColumns, ",")

  /** `exportToCSV`: the header line, then one line of five quoted fields per record, joined by '\n'. */
  function ExportToCsv(data: seq<ApprovalRow>): (r: string)
    ensures |ApprovalHeader| <= |r| && r[..|ApprovalHeader|] == ApprovalHeader
    ensures data == [] ==> r == ApprovalHeader
  {
    Join([ApprovalHeader] + Lines(Records(data, Fields)), "\n")
  }

  /**
   * With no ',' or '\n' inside any field, the file splits back into the
   * header and one line per record, and each line into that record's five
   * fields.
   */
  lemma ExportToCsvRoundTrip(data: seq<ApprovalRow>)
    requires Plain(Records(data, Fields))
    ensures SplitOn(ExportToCsv(data), "\n") == [ApprovalHeader] + Lines(Records(data, Fields))
    ensures forall k :: 0 <= k < |data| ==> ParseLine(SplitOn(ExportToCsv(data), "\n")[k + 1]) == Fields(data[k])
  {
    var ls := [ApprovalHeader] + Lines(Records(data, Fields));
    ExportLinesFree(data);
    SplitJoin(ls, '\n');
    forall k | 0 <= k < |data| ensures ParseLine(ls[k + 1]) == Fields(data[k]) {
      RecordReadsBack(data, k);
    }
  }

  /** No line of the export, header included, holds a '\n'. */
  lemma ExportLinesFree(data: seq<ApprovalRow>)
    requires Plain(Records(data, Fields))
    ensures forall k :: 0 <= k < 1 + |data| ==> Free(([ApprovalHeader] + Lines(Records(data, Fields)))[k], '\n')
  {
    var rows := Records(data, Fields);
    PlainLinesFree(rows);
    assert Free("Name", '\n') && Free("Username", '\n') && Free("Email", '\n') &&
           Free("Registered By", '\n') && Free("Registration Date", '\n');
    JoinFree(ApprovalColumns, ",", '\n');
  }

  /** The line of record `k` parses back to its five fields. */
  lemma RecordReadsBack(data: seq<ApprovalRow>, k: nat)
    requires Plain(Records(data, Fields)) && k < |data|
    ensures ParseLine(Lines(Records(data, Fields))[k]) == Fields(data[k])
  {
    var rows := Records(data, Fields);
    assert rows[k] == Fields(data[k]);
    assert forall j :: 0 <= j < |rows[k]| ==> FreeOf(rows[k][j], ",\n");
    forall j | 0 <= j < |rows[k]| ensures FreeOf(rows[k][j], ",") {
    }
    LineRoundTrip(rows[k]);
  }
}
