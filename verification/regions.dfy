/**
 * `region_wise_sales`: per region, the total sales, the number of
 * transactions and the share of the grand total in percent, listed by rounded
 * total sales, largest first, regions with equal rounded sales in order of
 * first appearance.
 */
module Regions {
  import opened Wrappers
  import opened Numbers
  import opened Records
  import opened Sorting
  import opened Grouping

  /** The accumulator the first pass keeps per region. */
  datatype RegionStats = RegionStats(totalSales: real, transactionCount: nat)

  /** One entry of the result, after the second pass has rounded it. */
  datatype RegionRow = RegionRow(region: string, totalSales: real, transactionCount: nat, percentage: real)

  /** What the first pass has accumulated for region `k`. */
  function StatsOf(txs: seq<Transaction>, k: string): RegionStats {
    var grp := Of(ByRegion, txs, k);
    RegionStats(TotalAmount(grp), |grp|)
  }

  /** The second pass on one entry: the share is taken of the unrounded
      total, then both are rounded. */
  function Finish(k: string, st: RegionStats, total: real): RegionRow
    requires total != 0.0
  {
    RegionRow(k, Round2(st.totalSales), st.transactionCount, Round2(st.totalSales / total * 100.0))
  }

  /** The finished entry of region `k`. */
  function RowOf(txs: seq<Transaction>, total: real, k: string): RegionRow
    requires total != 0.0
  {
    Finish(k, StatsOf(txs, k), total)
  }

  /** The rows of regions `ks`, in the order of `ks`. */
  function RowsOver(txs: seq<Transaction>, total: real, ks: seq<string>): (rows: seq<RegionRow>)
    requires total != 0.0 || |ks| == 0
    ensures |rows| == |ks|
  {
    if |ks| == 0 then [] else RowsOver(txs, total, ks[..|ks| - 1]) + [RowOf(txs, total, ks[|ks| - 1])]
  }

  lemma {:induction false} RowsOverAt(txs: seq<Transaction>, total: real, ks: seq<string>)
    requires total != 0.0 || |ks| == 0
    ensures forall j :: 0 <= j < |ks| ==> RowsOver(txs, total, ks)[j] == RowOf(txs, total, ks[j])
  {
    if |ks| > 0 {
      RowsOverAt(txs, total, ks[..|ks| - 1]);
    }
  }

  /** The sort key: the rounded total sales. */
  function SalesRank(row: RegionRow): real {
    row.totalSales
  }

  function RowCount(row: RegionRow): int {
    row.transactionCount
  }

  /** The result of `region_wise_sales`; `Failure` where Python divides by a zero total. */
  function RegionReport(txs: seq<Transaction>): Result<seq<RegionRow>, string> {
    var total := TotalAmount(txs);
    if |txs| == 0 then Success([])
    else if total == 0.0 then Failure("division by zero")
    else Success(SortByRank(RowsOver(txs, total, Keys(ByRegion, txs)), SalesRank))
  }

  /** The first pass's update of one region's entry. */
  function AddSale(st: RegionStats, t: Transaction): RegionStats {
    RegionStats(st.totalSales + Amount(t), st.transactionCount + 1)
  }

  /** Fed a region's records, the entry ends up holding their total and count. */
  lemma {:induction false} FoldSales(grp: seq<Transaction>)
    ensures Fold(grp, RegionStats(0.0, 0), AddSale) == RegionStats(TotalAmount(grp), |grp|)
  {
    if |grp| > 0 {
      FoldSales(grp[..|grp| - 1]);
    }
  }

  /** After the first pass the dict holds, for exactly the regions of the
      input, each region's total and count. */
  lemma TallySales(txs: seq<Transaction>)
    ensures forall k :: k in Tally(ByRegion, txs, RegionStats(0.0, 0), AddSale) <==> k in Keys(ByRegion, txs)
    ensures forall k :: k in Tally(ByRegion, txs, RegionStats(0.0, 0), AddSale) ==>
                        Tally(ByRegion, txs, RegionStats(0.0, 0), AddSale)[k] == StatsOf(txs, k)
  {
    TallyKeys(ByRegion, txs, RegionStats(0.0, 0), AddSale);
    TallyValues(ByRegion, txs, RegionStats(0.0, 0), AddSale);
    forall k | k in Tally(ByRegion, txs, RegionStats(0.0, 0), AddSale)
      ensures Tally(ByRegion, txs, RegionStats(0.0, 0), AddSale)[k] == StatsOf(txs, k)
    {
      FoldSales(Of(ByRegion, txs, k));
    }
  }

  /** The first pass of `region_wise_sales`: per region, in order of first
      appearance, its records folded into the empty entry; and the grand total. */
  method TallyRegions(txs: seq<Transaction>) returns (keys: seq<string>, stats: map<string, RegionStats>, total: real)
    ensures keys == Keys(ByRegion, txs)
    ensures stats == Tally(ByRegion, txs, RegionStats(0.0, 0), AddSale)
    ensures total == TotalAmount(txs)
  {
    keys := [];
    stats := map[];
    total := 0.0;
    for i := 0 to |txs|
      invariant keys == Keys(ByRegion, txs[..i])
      invariant stats == Tally(ByRegion, txs[..i], RegionStats(0.0, 0), AddSale)
      invariant total == TotalAmount(txs[..i])
    {
      var t := txs[i];
      PrefixStep(txs, i);
      assert (t.region in stats) == (t.region in keys) by {
        TallyKeys(ByRegion, txs[..i], RegionStats(0.0, 0), AddSale);
      }
      KeysAppend(ByRegion, txs[..i], t);
      TotalsAppend(txs[..i], t);
      TallyAppend(ByRegion, txs[..i], t, RegionStats(0.0, 0), AddSale);
      var region := t.region;
      total := total + Amount(t);
      if region !in stats {
        stats := stats[region := RegionStats(0.0, 0)];
        keys := keys + [region];
      }
      stats := stats[region := AddSale(stats[region], t)];
    }
    assert txs[..|txs|] == txs;
  }

  /** The second pass of `region_wise_sales`: each region's rounded total and
      its rounded share of the grand total, in order of first appearance. */
  method ShareRows(txs: seq<Transaction>, keys: seq<string>, stats: map<string, RegionStats>, total: real)
    returns (rows: seq<RegionRow>)
    requires keys == Keys(ByRegion, txs)
    requires forall k :: k in keys ==> k in stats && stats[k] == StatsOf(txs, k)
    requires total != 0.0 || |keys| == 0
    ensures rows == RowsOver(txs, total, keys)
  {
    rows := [];
    for j := 0 to |keys|
      invariant rows == RowsOver(txs, total, keys[..j])
    {
      PrefixStep(keys, j);
      var st := stats[keys[j]];
      rows := rows + [Finish(keys[j], st, total)];
    }
    assert keys[..|keys|] == keys;
  }

  /** `region_wise_sales(transactions)`: the second pass divides by the grand
      total as soon as there is a region, so a zero total with at least one
      record is the `ZeroDivisionError`. */
  method RegionWiseSales(txs: seq<Transaction>) returns (r: Result<seq<RegionRow>, string>)
    ensures r == RegionReport(txs)
    ensures r.Failure? <==> |txs| > 0 && TotalAmount(txs) == 0.0
  {
    var keys, stats, total := TallyRegions(txs);
    assert |keys| <= |txs| && (|txs| > 0 ==> |keys| > 0) by {
      KeysSpec(ByRegion, txs);
    }
    if |keys| > 0 && total == 0.0 {
      return Failure("division by zero");
    }
    assert forall k :: k in keys ==> k in stats && stats[k] == StatsOf(txs, k) by {
      TallySales(txs);
    }
    var rows := ShareRows(txs, keys, stats, total);
    // sort by rounded total sales, descending
    r := Success(SortByRank(rows, SalesRank));
  }

  // ---------------------------------------------------------------------------
  // Properties

  /** On validated records (positive quantities and prices) the rollup never
      divides by zero. */
  lemma ValidInputSucceeds(txs: seq<Transaction>)
    requires forall i :: 0 <= i < |txs| ==> txs[i].quantity > 0 && txs[i].unitPrice > 0.0
    ensures RegionReport(txs).Success?
  {
    if |txs| > 0 {
      PositiveTotal(txs);
    }
  }

  /** The region a row belongs to. */
  function RegionOf(row: RegionRow): string {
    row.region
  }

  /** The regions the records carry. */
  function RecordRegions(txs: seq<Transaction>): set<string> {
    set i | 0 <= i < |txs| :: txs[i].region
  }

  /** Every row holds its region's rounded total, its transaction count and
      its rounded share, and names a region of the input. */
  lemma RegionRowsAreStats(txs: seq<Transaction>)
    requires RegionReport(txs).Success?
    ensures var rows := RegionReport(txs).value;
            forall j :: 0 <= j < |rows| ==>
              rows[j] == RowOf(txs, TotalAmount(txs), rows[j].region) && rows[j].region in Keys(ByRegion, txs)
  {
    if |txs| > 0 {
      var unsorted := RowsOver(txs, TotalAmount(txs), Keys(ByRegion, txs));
      RowsOverAt(txs, TotalAmount(txs), Keys(ByRegion, txs));
      var rows := RegionReport(txs).value;
      SortByRankSpec(unsorted, SalesRank);
      forall j | 0 <= j < |rows|
        ensures rows[j] == RowOf(txs, TotalAmount(txs), rows[j].region) && rows[j].region in Keys(ByRegion, txs)
      {
        assert rows[j] in multiset(unsorted);
      }
    }
  }

  lemma {:induction false} RowsOverRegions(txs: seq<Transaction>, total: real, ks: seq<string>)
    requires total != 0.0 || |ks| == 0
    ensures KeysOf(RowsOver(txs, total, ks), RegionOf) == set k | k in ks
  {
    if |ks| > 0 {
      var init := ks[..|ks| - 1];
      RowsOverRegions(txs, total, init);
      var rows := RowsOver(txs, total, ks);
      assert rows == RowsOver(txs, total, init) + [RowOf(txs, total, ks[|ks| - 1])];
      assert ks == init + [ks[|ks| - 1]];
      assert KeysOf(rows, RegionOf) == KeysOf(RowsOver(txs, total, init), RegionOf) + {ks[|ks| - 1]} by {
        var front := RowsOver(txs, total, init);
        forall k | k in KeysOf(rows, RegionOf)
          ensures k in KeysOf(front, RegionOf) + {ks[|ks| - 1]}
        {
          var j :| 0 <= j < |rows| && RegionOf(rows[j]) == k;
          if j < |front| {
            assert front[j].region == k;
          }
        }
        forall k | k in KeysOf(front, RegionOf)
          ensures k in KeysOf(rows, RegionOf)
        {
          var j :| 0 <= j < |front| && RegionOf(front[j]) == k;
          assert rows[j].region == k;
        }
        assert rows[|front|].region == ks[|ks| - 1];
      }
    }
  }

  /** The rows name exactly the regions of the input. */
  lemma RegionReportKeys(txs: seq<Transaction>)
    requires RegionReport(txs).Success?
    ensures |RegionReport(txs).value| == |Keys(ByRegion, txs)|
    ensures KeysOf(RegionReport(txs).value, RegionOf) == RecordRegions(txs)
  {
    var ks := Keys(ByRegion, txs);
    KeySet(ByRegion, txs);
    assert RecordRegions(txs) == Carried(ByRegion, txs);
    if |txs| > 0 {
      var unsorted := RowsOver(txs, TotalAmount(txs), ks);
      SortByRankSpec(unsorted, SalesRank);
      RowsOverRegions(txs, TotalAmount(txs), ks);
      PermutationKeepsKeysOf(RegionReport(txs).value, unsorted, RegionOf);
    }
  }

  /** No region is listed twice. */
  lemma RegionReportDistinct(txs: seq<Transaction>)
    requires RegionReport(txs).Success?
    ensures var rows := RegionReport(txs).value;
            forall i, j :: 0 <= i < j < |rows| ==> rows[i].region != rows[j].region
  {
    var rows := RegionReport(txs).value;
    RegionRowsAreStats(txs);
    if |txs| > 0 {
      var ks := Keys(ByRegion, txs);
      var unsorted := RowsOver(txs, TotalAmount(txs), ks);
      RowsOverAt(txs, TotalAmount(txs), ks);
      SortByRankSpec(unsorted, SalesRank);
      KeysDistinct(ByRegion, txs);
      forall a, b | 0 <= a < b < |unsorted|
        ensures RegionOf(unsorted[a]) != RegionOf(unsorted[b])
      {
        assert unsorted[a].region == ks[a];
      }
      PermutationKeepsKeys(unsorted, rows, RegionOf);
    }
  }

  /** The rows are ordered by rounded total sales, largest first, and regions
      whose rounded totals tie keep their order of first appearance. */
  lemma RegionReportOrder(txs: seq<Transaction>)
    requires RegionReport(txs).Success?
    ensures NonIncreasing(RegionReport(txs).value, SalesRank)
    ensures forall v :: WithRank(RegionReport(txs).value, SalesRank, v) ==
                        WithRank(RowsOver(txs, TotalAmount(txs), Keys(ByRegion, txs)), SalesRank, v)
  {
    if |txs| > 0 {
      SortByRankSpec(RowsOver(txs, TotalAmount(txs), Keys(ByRegion, txs)), SalesRank);
    } else {
      assert Keys(ByRegion, txs) == [];
    }
  }

  lemma {:induction false} RowCountsOver(txs: seq<Transaction>, total: real, ks: seq<string>)
    requires total != 0.0 || |ks| == 0
    ensures SumBy(RowsOver(txs, total, ks), RowCount) == CountOver(ByRegion, txs, ks)
  {
    if |ks| > 0 {
      var init := ks[..|ks| - 1];
      RowCountsOver(txs, total, init);
      SumByConcat(RowsOver(txs, total, init), [RowOf(txs, total, ks[|ks| - 1])], RowCount);
    }
  }

  /** The transaction counts of the rows add up to the number of records. */
  lemma RegionCountsAddUp(txs: seq<Transaction>)
    requires RegionReport(txs).Success?
    ensures SumBy(RegionReport(txs).value, RowCount) == |txs|
  {
    if |txs| > 0 {
      var rows := RowsOver(txs, TotalAmount(txs), Keys(ByRegion, txs));
      SortByRankSum(rows, SalesRank, RowCount);
      RowCountsOver(txs, TotalAmount(txs), Keys(ByRegion, txs));
      CountsAddUp(ByRegion, txs);
    }
  }

  /** The unrounded shares of regions `ks`, summed. */
  function ShareOver(txs: seq<Transaction>, total: real, ks: seq<string>): real
    requires total != 0.0
  {
    if |ks| == 0 then 0.0
    else ShareOver(txs, total, ks[..|ks| - 1]) + StatsOf(txs, ks[|ks| - 1]).totalSales / total * 100.0
  }

  lemma {:induction false} ShareOverIsAmountShare(txs: seq<Transaction>, total: real, ks: seq<string>)
    requires total != 0.0
    ensures ShareOver(txs, total, ks) == AmountOver(ByRegion, txs, ks) / total * 100.0
  {
    if |ks| > 0 {
      var init := ks[..|ks| - 1];
      ShareOverIsAmountShare(txs, total, init);
      var a, b := AmountOver(ByRegion, txs, init), StatsOf(txs, ks[|ks| - 1]).totalSales;
      assert a / total * 100.0 + b / total * 100.0 == (a + b) / total * 100.0;
    }
  }

  /** Before rounding, the regions' sales add up to the grand total and their
      shares add up to exactly 100 percent. */
  lemma SharesAddUp(txs: seq<Transaction>)
    requires TotalAmount(txs) != 0.0
    ensures AmountOver(ByRegion, txs, Keys(ByRegion, txs)) == TotalAmount(txs)
    ensures ShareOver(txs, TotalAmount(txs), Keys(ByRegion, txs)) == 100.0
  {
    var total := TotalAmount(txs);
    var ks := Keys(ByRegion, txs);
    AmountsAddUp(ByRegion, txs);
    ShareOverIsAmountShare(txs, total, ks);
    assert total / total == 1.0;
  }
}
