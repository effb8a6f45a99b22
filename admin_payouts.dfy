/**
 * backend/static/js/admin_payouts.js: the search, month and amount filters
 * that hide payout rows, and the CSV export of the rows left visible.  The
 * select-all checkbox and the bulk-actions bar are the shared `Checkboxes`
 * model.
 */
module Payouts {
  import opened Text
  import opened Csv
  import opened Wrappers

  // ------------------------------------------------------------ rows and filters

  /** `Date.getMonth()`: 0 for January to 11 for December. */
  type Month = m: int | 0 <= m < 12

  /** A valid `Date`: local year and month, and milliseconds since the epoch. */
  datatype Date = Date(year: int, month: Month, time: int)

  /** The six trimmed cell texts the export reads from a row with more than one cell. */
  datatype PayoutRecord = PayoutRecord(agent: string, email: string, amount: string,
                                       paidOn: string, referrals: string, performance: string)

  /**
   * One `.payout-row`: its `data-agent`, `data-amount` (None when
   * `parseFloat` gives NaN) and `data-date` (None for an Invalid Date)
   * attributes, and its record (None when the row has at most one cell).
   */
  datatype PayoutRow = PayoutRow(agent: string, amount: Option<real>, date: Option<Date>,
                                 record: Option<PayoutRecord>)

  /** The values of `searchInput`, `monthFilter` and `amountFilter`. */
  datatype Filters = Filters(search: string, month: string, amount: string)

  /** `90 * 24 * 60 * 60 * 1000`. */
  const NinetyDaysMs := 7776000000

  /**
   * `new Date(year, month - 1, 1)`: the month before, which for January is
   * December of the year before.
   */
  function PreviousMonth(year: int, month: Month): (r: (int, Month))
    ensures r.0 * 12 + r.1 == year * 12 + month - 1
  {
    if month == 0 then (year - 1, 11) else (year, month - 1)
  }

  /** The month filter; an empty or unknown value lets every row through. */
  function MatchesMonth(date: Option<Date>, monthValue: string, today: Date): (b: bool)
    ensures monthValue !in ["this-month", "last-month", "last-3-months"] ==> b
    ensures b && monthValue in ["this-month", "last-month", "last-3-months"] ==> date.Some?
  {
    if monthValue == "this-month" then
      date.Some? && date.value.month == today.month && date.value.year == today.year
    else if monthValue == "last-month" then
      var (y, m) := PreviousMonth(today.year, today.month);
      date.Some? && date.value.month == m && date.value.year == y
    else if monthValue == "last-3-months" then
      date.Some? && date.value.time >= today.time - NinetyDaysMs
    else true
  }

  /** The amount filter; a NaN amount fails every bucket, an empty or unknown value passes all. */
  function MatchesAmount(amount: Option<real>, amountValue: string): (b: bool)
    ensures amountValue !in ["0-5000", "5000-10000", "10000+"] ==> b
    ensures b && amountValue in ["0-5000", "5000-10000", "10000+"] ==> amount.Some? && amount.value >= 0.0
  {
    if amountValue == "0-5000" then amount.Some? && 0.0 <= amount.value <= 5000.0
    else if amountValue == "5000-10000" then amount.Some? && 5000.0 < amount.value <= 10000.0
    else if amountValue == "10000+" then amount.Some? && amount.value > 10000.0
    else true
  }

  /** `agentName.includes(searchTerm)` with the term lowercased, the attribute as stored. */
  function MatchesSearch(agent: string, search: string): (b: bool)
    ensures search == [] ==> b
    ensures b ==> |search| <= |agent|
  {
    assert StartsWith(agent[0..], Lower([]));
    Contains(agent, Lower(search))
  }

  /** `row.style.display` is '' (shown) iff all three filters hold. */
  function Visible(row: PayoutRow, f: Filters, today: Date): (b: bool)
    ensures f.month == [] && f.amount == [] ==> (b <==> MatchesSearch(row.agent, f.search))
    ensures b ==> MatchesSearch(row.agent, f.search)
  {
    MatchesSearch(row.agent, f.search) && MatchesMonth(row.date, f.month, today) &&
    MatchesAmount(row.amount, f.amount)
  }

  // ------------------------------------------------------------ filter properties

  /**
   * The three amount buckets never overlap, and every non-negative amount
   * falls in exactly one of them.
   */
  lemma AmountBucketsPartition(a: real)
    ensures var low := MatchesAmount(Some(a), "0-5000");
            var mid := MatchesAmount(Some(a), "5000-10000");
            var high := MatchesAmount(Some(a), "10000+");
            !(low && mid) && !(low && high) && !(mid && high) &&
            (a >= 0.0 ==> low || mid || high) &&
            (a < 0.0 ==> !low && !mid && !high)
  {
  }

  /** With all three filters empty every row is shown, whatever its attributes. */
  lemma EmptyFiltersShowAll(row: PayoutRow, today: Date)
    ensures Visible(row, Filters("", "", ""), today)
  {
    assert Lower("") == "";
    ContainsSelfPrefix(row.agent, "");
  }

  /** "last-month" in January selects December of the year before. */
  lemma LastMonthInJanuary(date: Date, today: Date)
    requires today.month == 0
    ensures MatchesMonth(Some(date), "last-month", today) <==> date.month == 11 && date.year == today.year - 1
  {
  }

  /**
   * The attribute is not lowercased: an agent stored as "Ravi" is hidden by
   * the search "Ravi", because the term becomes "ravi".
   */
  lemma CapitalisedAgentHidden(row: PayoutRow)
    requires row.agent == "Ravi"
    ensures !MatchesSearch(row.agent, "Ravi")
  {
    assert Lower("Ravi") == "ravi";
    forall i | 0 <= i <= |row.agent| ensures !StartsWith(row.agent[i..], "ravi") {
      if i == 0 { assert row.agent[0] != 'r'; }
    }
  }

  /** A lowercase agent name is found by its own name typed in any case. */
  lemma LowercaseAgentFound(row: PayoutRow, search: string)
    requires row.agent == Lower(search)
    ensures MatchesSearch(row.agent, search)
  {
    ContainsSelfPrefix(row.agent, Lower(search));
  }

  // ------------------------------------------------------------ export

  function Fields(r: PayoutRecord): (f: seq<string>)
    ensures |f| == 6
  {
    [r.agent, r.email, r.amount, r.paidOn, r.referrals, r.performance]
  }

  const PayoutColumns: seq<string> := ["Agent", "Email", "Amount", "Paid On", "Referrals", "Performance"]

  /** 'Agent,Email,Amount,Paid On,Referrals,Performance'. */
  const PayoutHeader := Join(PayoutColumns, ",")

  /**
   * The rows `exportPayouts` selects, in table order: not hidden by the
   * filters and with more than one cell.
   */
  function Exported(rows: seq<PayoutRow>, shown: seq<bool>): (r: seq<PayoutRecord>)
    requires |shown| == |rows|
    ensures |r| <= |rows|
    ensures forall k :: 0 <= k < |r| ==>
      exists i :: 0 <= i < |rows| && shown[i] && rows[i].record == Some(r[k])
    ensures forall i :: 0 <= i < |rows| && shown[i] && rows[i].record.Some? ==> rows[i].record.value in r
  {
    if rows == [] then []
    else
      var n := |rows| - 1;
      var init := Exported(rows[..n], shown[..n]);
      if shown[n] && rows[n].record.Some? then init + [rows[n].record.value] else init
  }

  /** The header never holds a line break. */
  lemma PayoutHeaderOneLine()
    ensures Free(PayoutHeader, '\n')
  {
    assert Free("Agent", '\n') && Free("Email", '\n') && Free("Amount", '\n') &&
           Free("Paid On", '\n') && Free("Referrals", '\n') && Free("Performance", '\n');
    JoinFree(PayoutColumns, ",", '\n');
  }

  /** The `.payout-row`s of the payouts table and whether each is displayed. */
  class PayoutTable {
    var rows: seq<PayoutRow>
    var shown: seq<bool>

    predicate Valid()
      reads this
    {
      |shown| == |rows|
    }

    /** The page as rendered: every row displayed. */
    constructor(rows: seq<PayoutRow>)
      ensures Valid() && this.rows == rows && forall i :: 0 <= i < |rows| ==> shown[i]
    {
      this.rows := rows;
      shown := seq(|rows|, i => true);
    }

    /** `filterPayouts`: each row's display set from its three filters. */
    method FilterPayouts(f: Filters, today: Date)
      modifies this
      ensures Valid() && rows == old(rows)
      ensures forall i :: 0 <= i < |rows| ==> (shown[i] <==> Visible(rows[i], f, today))
    {
      var n := |rows|;
      shown := seq(n, i => true);
      for i := 0 to n
        invariant rows == old(rows) && |shown| == n
        invariant forall j :: 0 <= j < i ==> (shown[j] <==> Visible(rows[j], f, today))
      {
        shown := shown[i := Visible(rows[i], f, today)];
      }
    }

    /**
     * `exportPayouts`: the fixed header line, then one line of six quoted
     * fields per displayed row with more than one cell, each line ending in '\n'.
     */
    method ExportPayouts() returns (csv: string)
      requires Valid()
      ensures csv == Terminated([PayoutHeader] + Lines(Records(Exported(rows, shown), Fields)))
    {
      var data := Exported(rows, shown);
      csv := AccumulateCsv(PayoutHeader, Records(data, Fields));
    }
  }

  /**
   * With no ',' or '\n' inside any field, the export splits back into the
   * header, one line per exported row and the empty piece after the final
   * newline, and each line into that row's six fields.
   */
  lemma ExportPayoutsRoundTrip(rows: seq<PayoutRow>, shown: seq<bool>)
    requires |shown| == |rows|
    requires Plain(Records(Exported(rows, shown), Fields))
    ensures var data := Exported(rows, shown);
      SplitOn(Terminated([PayoutHeader] + Lines(Records(data, Fields))), "\n") ==
        [PayoutHeader] + Lines(Records(data, Fields)) + [[]]
    ensures var data := Exported(rows, shown);
      forall k :: 0 <= k < |data| ==> ParseLine(Lines(Records(data, Fields))[k]) == Fields(data[k])
  {
    PayoutHeaderOneLine();
    AccumulatedRoundTrip(PayoutHeader, Records(Exported(rows, shown), Fields));
  }

  /** After a filter, the export holds exactly the records of the rows the filter shows. */
  /** The index of the row that the k-th exported record comes from. */
  lemma ExportedSource(rows: seq<PayoutRow>, shown: seq<bool>, k: nat) returns (i: nat)
    requires |shown| == |rows|
    requires k < |Exported(rows, shown)|
    ensures i < |rows| && shown[i] && rows[i].record == Some(Exported(rows, shown)[k])
  {
    var e := Exported(rows, shown);
    assert exists j :: 0 <= j < |rows| && shown[j] && rows[j].record == Some(e[k]);
    i :| 0 <= i < |rows| && shown[i] && rows[i].record == Some(e[k]);
  }

  lemma ExportAfterFilter(rows: seq<PayoutRow>, f: Filters, today: Date, shown: seq<bool>)
    requires |shown| == |rows|
    requires forall i :: 0 <= i < |rows| ==> (shown[i] <==> Visible(rows[i], f, today))
    ensures forall k :: 0 <= k < |Exported(rows, shown)| ==>
      exists i :: 0 <= i < |rows| && Visible(rows[i], f, today) && rows[i].record == Some(Exported(rows, shown)[k])
    ensures forall i :: 0 <= i < |rows| && Visible(rows[i], f, today) && rows[i].record.Some? ==>
      rows[i].record.value in Exported(rows, shown)
  {
    var e := Exported(rows, shown);
    forall k | 0 <= k < |e|
      ensures exists i :: 0 <= i < |rows| && Visible(rows[i], f, today) && rows[i].record == Some(e[k])
    {
      var i := ExportedSource(rows, shown, k);
      assert Visible(rows[i], f, today);
    }
  }
}
