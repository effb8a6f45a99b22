/**
 * backend/staticfiles/js/admin_payments.js: the CSV export of the payments
 * table and the empty-selection guards of the bulk download and bulk email
 * buttons.  The select-all checkbox and the bulk-actions bar are the shared
 * `Checkboxes` model.
 */
module Payments {
  import opened Text
  import opened Csv
  import opened Checkboxes
  import opened Wrappers

  // ------------------------------------------------------------ exportPayments

  /** The six trimmed cell texts of a payment row with more than one cell. */
  datatype PaymentRecord = PaymentRecord(user: string, email: string, amount: string,
                                         invoice: string, date: string, status: string)

  function Fields(r: PaymentRecord): (f: seq<string>)
    ensures |f| == 6
  {
    [r.user, r.email, r.amount, r.invoice, r.date, r.status]
  }

  /**
   * The rows the export keeps: every `tbody tr` but the placeholder (the
   * model's rows exclude it) that has more than one cell, i.e. a record.
   * No visibility test: the filters on this page reload it from the server.
   */
  function Exported(rows: seq<Option<PaymentRecord>>): (r: seq<PaymentRecord>)
    ensures |r| <= |rows|
    ensures forall k :: 0 <= k < |r| ==> Some(r[k]) in rows
    ensures forall i :: 0 <= i < |rows| && rows[i].Some? ==> rows[i].value in r
  {
    if rows == [] then []
    else
      var n := |rows| - 1;
      var init := Exported(rows[..n]);
      if rows[n].Some? then init + [rows[n].value] else init
  }

  /** With every row holding a record, the export keeps all of them in table order. */
  lemma {:induction false} ExportedAllRows(rows: seq<Option<PaymentRecord>>)
    requires forall i :: 0 <= i < |rows| ==> rows[i].Some?
    ensures Exported(rows) == seq(|rows|, i requires 0 <= i < |rows| => rows[i].value)
  {
    if rows != [] {
      ExportedAllRows(rows[..|rows| - 1]);
    }
  }

  const PaymentColumns: seq<string> := ["User", "Email", "Amount", "Invoice Number", "Date", "Status"]

  /** 'User,Email,Amount,Invoice Number,Date,Status'. */
  const PaymentHeader := Join(PaymentColumns, ",")

  /** The header never holds a line break. */
  lemma PaymentHeaderOneLine()
    ensures Free(PaymentHeader, '\n')
  {
    assert Free("User", '\n') && Free("Email", '\n') && Free("Amount", '\n') &&
           Free("Invoice Number", '\n') && Free("Date", '\n') && Free("Status", '\n');
    JoinFree(PaymentColumns, ",", '\n');
  }

  /**
   * `exportPayments`: the fixed header line, then one line of six quoted
   * fields per row with more than one cell, each line ending in '\n'.
   */
  method ExportPayments(rows: seq<Option<PaymentRecord>>) returns (csv: string)
    ensures csv == Terminated([PaymentHeader] + Lines(Records(Exported(rows), Fields)))
  {
    csv := AccumulateCsv(PaymentHeader, Records(Exported(rows), Fields));
  }

  /**
   * With no ',' or '\n' inside any field, the export splits back into the
   * header, one line per exported row and the empty piece after the final
   * newline, and each line into that row's six fields.
   */
  lemma ExportPaymentsRoundTrip(rows: seq<Option<PaymentRecord>>)
    requires Plain(Records(Exported(rows), Fields))
    ensures var data := Exported(rows);
      SplitOn(Terminated([PaymentHeader] + Lines(Records(data, Fields))), "\n") ==
        [PaymentHeader] + Lines(Records(data, Fields)) + [[]]
    ensures var data := Exported(rows);
      forall k :: 0 <= k < |data| ==> ParseLine(Lines(Records(data, Fields))[k]) == Fields(data[k])
  {
    PaymentHeaderOneLine();
    AccumulatedRoundTrip(PaymentHeader, Records(Exported(rows), Fields));
  }

  // ------------------------------------------------------------ bulkDownload / bulkEmail

  /** The `value`s of the checked payment checkboxes, in table order. */
  function SelectedIds(boxes: seq<bool>, values: seq<string>): (r: seq<string>)
    requires |values| == |boxes|
    ensures |r| == CountChecked(boxes)
  {
    if boxes == [] then []
    else
      var n := |boxes| - 1;
      SelectedIds(boxes[..n], values[..n]) + (if boxes[n] then [values[n]] else [])
  }

  /**
   * What a bulk button does: an alert and nothing else, the question declined,
   * or the button switched to its busy label with the alert shown when the
   * simulated work ends.
   */
  datatype BulkOutcome = Alerted(message: string) | Declined | Started(busyLabel: string, doneMessage: string)

  const SpinnerIcon := "<i class=\"fas fa-spinner fa-spin\"></i> "

  /** `bulkDownload`. */
  function BulkDownload(boxes: seq<bool>, values: seq<string>): (r: BulkOutcome)
    requires |values| == |boxes|
    ensures r.Alerted? <==> forall i :: 0 <= i < |boxes| ==> !boxes[i]
    ensures r.Alerted? ==> r.message == "Please select payments to download."
    ensures r.Started? ==>
      r.busyLabel == SpinnerIcon + "Preparing..." &&
      r.doneMessage == "Downloading " + NatStr(CountChecked(boxes)) + " invoices..."
    ensures !r.Declined?
  {
    CountCheckedExtremes(boxes);
    var ids := SelectedIds(boxes, values);
    if |ids| == 0 then Alerted("Please select payments to download.")
    else Started(SpinnerIcon + "Preparing...", "Downloading " + NatStr(|ids|) + " invoices...")
  }

  const EmailLead := "Send invoices via email for "
  const EmailTail := " selected payments?"

  /** The question `bulkEmail` asks before sending; the count can be read back from it. */
  function EmailQuestion(n: nat): (r: string)
    ensures |EmailLead| + |EmailTail| < |r| && AllDigits(r[|EmailLead|..|r| - |EmailTail|])
    ensures ParseNat(r[|EmailLead|..|r| - |EmailTail|]) == n
  {
    ParseNatStr(n);
    var q := EmailLead + NatStr(n) + EmailTail;
    assert q[|EmailLead|..|q| - |EmailTail|] == NatStr(n);
    q
  }

  /** `bulkEmail`, given the answer to `confirm(EmailQuestion(count))`. */
  function BulkEmail(boxes: seq<bool>, values: seq<string>, confirmed: bool): (r: BulkOutcome)
    requires |values| == |boxes|
    ensures r.Alerted? <==> forall i :: 0 <= i < |boxes| ==> !boxes[i]
    ensures r.Alerted? ==> r.message == "Please select payments to email."
    ensures r.Declined? <==> (exists i :: 0 <= i < |boxes| && boxes[i]) && !confirmed
    ensures r.Started? ==>
      confirmed && r.busyLabel == SpinnerIcon + "Sending..." &&
      r.doneMessage == "Emails sent for " + NatStr(CountChecked(boxes)) + " invoices!"
  {
    CountCheckedExtremes(boxes);
    var ids := SelectedIds(boxes, values);
    if |ids| == 0 then Alerted("Please select payments to email.")
    else if !confirmed then Declined
    else Started(SpinnerIcon + "Sending...", "Emails sent for " + NatStr(|ids|) + " invoices!")
  }

  /**
   * The selected ids are exactly the values of the checked boxes: each comes
   * from a checked row, and every checked row's value is among them.
   */
  lemma {:induction false} SelectedIdsChecked(boxes: seq<bool>, values: seq<string>)
    requires |values| == |boxes|
    ensures forall k :: 0 <= k < |SelectedIds(boxes, values)| ==>
      exists i :: 0 <= i < |boxes| && boxes[i] && values[i] == SelectedIds(boxes, values)[k]
    ensures forall i :: 0 <= i < |boxes| && boxes[i] ==> values[i] in SelectedIds(boxes, values)
  {
    if boxes != [] {
      var n := |boxes| - 1;
      SelectedIdsChecked(boxes[..n], values[..n]);
      var init := SelectedIds(boxes[..n], values[..n]);
      var r := SelectedIds(boxes, values);
      assert r == init + (if boxes[n] then [values[n]] else []);
      forall k | 0 <= k < |r| ensures exists i :: 0 <= i < |boxes| && boxes[i] && values[i] == r[k] {
        if k < |init| {
          assert r[k] == init[k];
          var i :| 0 <= i < |boxes[..n]| && boxes[..n][i] && values[..n][i] == init[k];
          assert boxes[i] && values[i] == r[k];
        } else {
          assert boxes[n] && values[n] == r[k];
        }
      }
    } else {
      assert SelectedIds(boxes, values) == [];
    }
  }
}
