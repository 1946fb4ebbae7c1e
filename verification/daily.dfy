/**
 * `daily_sales_trend`: per date, the revenue (rounded to two decimals once at
 * the end), the number of transactions and the number of distinct raw
 * customer ids, listed in ascending date order.
 */
module Daily {
  import opened Numbers
  import opened Records
  import opened Sorting
  import opened Grouping

  /** The accumulator kept per date: running revenue, count, and the set of
      customer ids seen. */
  datatype DayStats = DayStats(revenue: real, transactionCount: nat, customers: set<string>)

  /** One finished entry: the customer set has been replaced by its size. */
  datatype DayRow = DayRow(date: string, revenue: real, transactionCount: nat, uniqueCustomers: nat)

  /** The aggregation loop's update of one date's entry. */
  function AddDay(st: DayStats, t: Transaction): DayStats {
    DayStats(st.revenue + Amount(t), st.transactionCount + 1, st.customers + {t.customerId})
  }

  /** The totals of date `k`. */
  function StatsOf(txs: seq<Transaction>, k: string): DayStats {
    var grp := Of(ByDate, txs, k);
    DayStats(TotalAmount(grp), |grp|, CustomerSet(grp))
  }

  /** The finalising loop on one entry. */
  function Finish(k: string, st: DayStats): DayRow {
    DayRow(k, Round2(st.revenue), st.transactionCount, |st.customers|)
  }

  /** The finished entry of date `k`. */
  function RowOf(txs: seq<Transaction>, k: string): DayRow {
    Finish(k, StatsOf(txs, k))
  }

  /** Every date's entry, in order of first appearance. */
  function DayRows(txs: seq<Transaction>): (rows: seq<DayRow>)
    ensures |rows| == |Keys(ByDate, txs)|
  {
    var ks := Keys(ByDate, txs);
    seq(|ks|, m requires 0 <= m < |ks| => RowOf(txs, ks[m]))
  }

  /** The sort key: the date, compared as a string. */
  function DateOf(row: DayRow): string {
    row.date
  }

  function DayCount(row: DayRow): int {
    row.transactionCount
  }

  /** The result of `daily_sales_trend(transactions)`, as its items in order. */
  function DailyTrend(txs: seq<Transaction>): seq<DayRow> {
    SortByText(DayRows(txs), DateOf)
  }

  // ---------------------------------------------------------------------------
  // The loops

  lemma {:induction false} FoldDays(grp: seq<Transaction>)
    ensures Fold(grp, DayStats(0.0, 0, {}), AddDay) == DayStats(TotalAmount(grp), |grp|, CustomerSet(grp))
  {
    if |grp| > 0 {
      FoldDays(grp[..|grp| - 1]);
    }
  }

  /** After the aggregation loop the dict holds, for exactly the dates of the
      input, each date's totals. */
  lemma TallyDays(txs: seq<Transaction>)
    ensures forall k :: k in Tally(ByDate, txs, DayStats(0.0, 0, {}), AddDay) <==> k in Keys(ByDate, txs)
    ensures forall k :: k in Tally(ByDate, txs, DayStats(0.0, 0, {}), AddDay) ==>
                        Tally(ByDate, txs, DayStats(0.0, 0, {}), AddDay)[k] == StatsOf(txs, k)
  {
    TallyKeys(ByDate, txs, DayStats(0.0, 0, {}), AddDay);
    TallyValues(ByDate, txs, DayStats(0.0, 0, {}), AddDay);
    forall k | k in Tally(ByDate, txs, DayStats(0.0, 0, {}), AddDay)
      ensures Tally(ByDate, txs, DayStats(0.0, 0, {}), AddDay)[k] == StatsOf(txs, k)
    {
      FoldDays(Of(ByDate, txs, k));
    }
  }

  /** The aggregation loop of `daily_sales_trend`. */
  method TallyDates(txs: seq<Transaction>) returns (keys: seq<string>, stats: map<string, DayStats>)
    ensures keys == Keys(ByDate, txs)
    ensures stats == Tally(ByDate, txs, DayStats(0.0, 0, {}), AddDay)
  {
    keys := [];
    stats := map[];
    for i := 0 to |txs|
      invariant keys == Keys(ByDate, txs[..i])
      invariant stats == Tally(ByDate, txs[..i], DayStats(0.0, 0, {}), AddDay)
    {
      var t := txs[i];
      PrefixStep(txs, i);
      assert (t.date in stats) == (t.date in keys) by {
        TallyKeys(ByDate, txs[..i], DayStats(0.0, 0, {}), AddDay);
      }
      KeysAppend(ByDate, txs[..i], t);
      TallyAppend(ByDate, txs[..i], t, DayStats(0.0, 0, {}), AddDay);
      var date := t.date;
      if date !in stats {
        stats := stats[date := DayStats(0.0, 0, {})];
        keys := keys + [date];
      }
      stats := stats[date := AddDay(stats[date], t)];
    }
    assert txs[..|txs|] == txs;
  }

  /** `daily_sales_trend(transactions)`. */
  method DailySalesTrend(txs: seq<Transaction>) returns (rows: seq<DayRow>)
    ensures rows == DailyTrend(txs)
  {
    var keys, stats := TallyDates(txs);
    TallyDays(txs);
    ghost var listed := DayRows(txs);
    var finished: seq<DayRow> := [];
    for j := 0 to |keys|
      invariant finished == listed[..j]
    {
      PrefixStep(listed, j);
      var date := keys[j];
      var st := stats[date];
      finished := finished + [DayRow(date, Round2(st.revenue), st.transactionCount, |st.customers|)];
    }
    assert finished == listed;
    rows := SortByText(finished, DateOf);
  }

  // ---------------------------------------------------------------------------
  // Properties

  /** A listed date's entry: its revenue is the rounded total of its records,
      its count the number of its records, and its customer count the number
      of distinct raw customer ids among them, between 1 and the count. */
  lemma RowOfSpec(txs: seq<Transaction>, k: string)
    requires k in Keys(ByDate, txs)
    ensures var row, grp := RowOf(txs, k), Of(ByDate, txs, k);
            && row.date == k
            && row.transactionCount == |grp| > 0
            && row.revenue == Round2(TotalAmount(grp))
            && row.uniqueCustomers == |CustomerSet(grp)|
            && 1 <= row.uniqueCustomers <= row.transactionCount
  {
    KeysSpec(ByDate, txs);
    CustomerSetBounds(Of(ByDate, txs, k));
  }

  /** The customers counted for date `k` are exactly the raw customer ids of
      the records of that date. */
  lemma DayCustomers(txs: seq<Transaction>, k: string)
    ensures forall c :: c in StatsOf(txs, k).customers <==>
                        exists i :: 0 <= i < |txs| && txs[i].date == k && txs[i].customerId == c
  {
    var grp := Of(ByDate, txs, k);
    CustomerSetMembers(grp);
    OfMembers(ByDate, txs, k);
    forall c
      ensures c in CustomerSet(grp) <==> exists i :: 0 <= i < |txs| && txs[i].date == k && txs[i].customerId == c
    {
      if c in CustomerSet(grp) {
        var m :| 0 <= m < |grp| && grp[m].customerId == c;
        assert grp[m] in txs;
        var i :| 0 <= i < |txs| && txs[i] == grp[m];
      }
      if exists i :: 0 <= i < |txs| && txs[i].date == k && txs[i].customerId == c {
        var i :| 0 <= i < |txs| && txs[i].date == k && txs[i].customerId == c;
        assert txs[i] in grp;
        var m :| 0 <= m < |grp| && grp[m] == txs[i];
      }
    }
  }

  /** Every entry returned belongs to a date of the records and carries that
      date's figures: the rounded revenue of its records, their number, and
      the number of distinct customers among them, between 1 and that number. */
  lemma DailyRowsAreStats(txs: seq<Transaction>)
    ensures forall row :: row in DailyTrend(txs) ==>
              && row.date in Keys(ByDate, txs)
              && row == RowOf(txs, row.date)
              && row.transactionCount == |Of(ByDate, txs, row.date)| > 0
              && row.revenue == Round2(TotalAmount(Of(ByDate, txs, row.date)))
              && row.uniqueCustomers == |CustomerSet(Of(ByDate, txs, row.date))|
              && 1 <= row.uniqueCustomers <= row.transactionCount
  {
    var ks := Keys(ByDate, txs);
    var unsorted := DayRows(txs);
    SortByTextSpec(unsorted, DateOf);
    forall row | row in DailyTrend(txs)
      ensures row.date in ks && row == RowOf(txs, row.date)
    {
      assert row in multiset(unsorted);
      var m :| 0 <= m < |unsorted| && unsorted[m] == row;
      assert row == RowOf(txs, ks[m]);
    }
    forall row | row in DailyTrend(txs)
      ensures && row.transactionCount == |Of(ByDate, txs, row.date)| > 0
              && row.revenue == Round2(TotalAmount(Of(ByDate, txs, row.date)))
              && row.uniqueCustomers == |CustomerSet(Of(ByDate, txs, row.date))|
              && 1 <= row.uniqueCustomers <= row.transactionCount
    {
      RowOfSpec(txs, row.date);
    }
  }

  /** The entries are in strictly ascending date order: no date twice. */
  lemma DailyTrendOrder(txs: seq<Transaction>)
    ensures Ascending(DailyTrend(txs), DateOf)
    ensures var rows := DailyTrend(txs);
            forall i, j :: 0 <= i < j < |rows| ==> rows[i].date != rows[j].date
  {
    var unsorted := DayRows(txs);
    SortByTextSpec(unsorted, DateOf);
    KeysDistinct(ByDate, txs);
    assert forall m :: 0 <= m < |unsorted| ==> DateOf(unsorted[m]) == Keys(ByDate, txs)[m];
    PermutationKeepsKeys(unsorted, DailyTrend(txs), DateOf);
  }

  /** Before sorting, the entries name exactly the dates of the records. */
  lemma DayRowsDateSet(txs: seq<Transaction>)
    ensures KeysOf(DayRows(txs), DateOf) == Carried(ByDate, txs)
  {
    var unsorted, ks := DayRows(txs), Keys(ByDate, txs);
    KeySet(ByDate, txs);
    forall d | d in KeysOf(unsorted, DateOf)
      ensures d in Carried(ByDate, txs)
    {
      var m :| 0 <= m < |unsorted| && DateOf(unsorted[m]) == d;
      assert ks[m] in ks;
    }
    forall d | d in Carried(ByDate, txs)
      ensures d in KeysOf(unsorted, DateOf)
    {
      assert d in ks;
      var m :| 0 <= m < |ks| && ks[m] == d;
      assert DateOf(unsorted[m]) == d;
    }
  }

  /** There is one entry per date, and the entries name exactly the dates of
      the records. */
  lemma DailyTrendDates(txs: seq<Transaction>)
    ensures |DailyTrend(txs)| == |Keys(ByDate, txs)|
    ensures KeysOf(DailyTrend(txs), DateOf) == Carried(ByDate, txs)
  {
    SortByTextSpec(DayRows(txs), DateOf);
    PermutationKeepsKeysOf(DailyTrend(txs), DayRows(txs), DateOf);
    DayRowsDateSet(txs);
  }

  lemma {:induction false} DayCountsOver(txs: seq<Transaction>, j: nat)
    requires j <= |Keys(ByDate, txs)|
    ensures SumBy(DayRows(txs)[..j], DayCount) == CountOver(ByDate, txs, Keys(ByDate, txs)[..j])
  {
    if j > 0 {
      var rows, ks := DayRows(txs), Keys(ByDate, txs);
      DayCountsOver(txs, j - 1);
      SumByPrefix(rows, j - 1, DayCount);
      CountOverPrefix(ByDate, txs, ks, j - 1);
      assert rows[j - 1] == RowOf(txs, ks[j - 1]);
    }
  }

  /** The daily transaction counts add up to the number of records. */
  lemma DayCountsAddUp(txs: seq<Transaction>)
    ensures SumBy(DailyTrend(txs), DayCount) == |txs|
  {
    var rows, ks := DayRows(txs), Keys(ByDate, txs);
    assert SumBy(DailyTrend(txs), DayCount) == SumBy(rows, DayCount) by {
      SortByTextSum(rows, DateOf, DayCount);
    }
    assert SumBy(rows, DayCount) == CountOver(ByDate, txs, ks) by {
      DayCountsOver(txs, |ks|);
      assert rows[..|ks|] == rows;
      assert ks[..|ks|] == ks;
    }
    CountsAddUp(ByDate, txs);
  }
}
