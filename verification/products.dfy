/**
 * `top_selling_products` and `low_performing_products`: both total the
 * quantity and the revenue of each product name, list the products as
 * (name, quantity, rounded revenue) in order of first appearance, then
 *   - the top sellers sort by quantity, largest first, and keep the first n;
 *   - the low performers keep the products under a threshold and sort by
 *     quantity, smallest first.
 * Both sorts are stable: products with equal quantities stay in order of
 * first appearance.
 */
module Products {
  import opened Numbers
  import opened Records
  import opened Sorting
  import opened Grouping

  /** The accumulator kept per product name. */
  datatype ProductStats = ProductStats(totalQuantity: int, totalRevenue: real)

  /** One entry of either result: name, total quantity, rounded total revenue. */
  datatype ProductRow = ProductRow(product: string, totalQuantity: int, totalRevenue: real)

  /** The aggregation loop's update of one product's entry. */
  function AddSold(st: ProductStats, t: Transaction): ProductStats {
    ProductStats(st.totalQuantity + t.quantity, st.totalRevenue + Amount(t))
  }

  /** The totals of product `k`. */
  function StatsOf(txs: seq<Transaction>, k: string): ProductStats {
    var grp := Of(ByProduct, txs, k);
    ProductStats(TotalQuantity(grp), TotalAmount(grp))
  }

  /** The comprehension's tuple for one product. */
  function Finish(k: string, st: ProductStats): ProductRow {
    ProductRow(k, st.totalQuantity, Round2(st.totalRevenue))
  }

  /** The entry of product `k`. */
  function RowOf(txs: seq<Transaction>, k: string): ProductRow {
    Finish(k, StatsOf(txs, k))
  }

  /** Every product's entry, in order of first appearance. */
  function ProductRows(txs: seq<Transaction>): (rows: seq<ProductRow>)
    ensures |rows| == |Keys(ByProduct, txs)|
  {
    var ks := Keys(ByProduct, txs);
    seq(|ks|, m requires 0 <= m < |ks| => RowOf(txs, ks[m]))
  }

  /** The key of the descending sort: the total quantity. */
  function QuantityRank(row: ProductRow): real {
    row.totalQuantity as real
  }

  /** The key of the ascending sort, negated so that the descending stable
      sort orders smallest quantity first. */
  function ScarcityRank(row: ProductRow): real {
    -row.totalQuantity as real
  }

  /** Python's `s[:n]`: a negative `n` counts from the end. */
  function Take<T>(s: seq<T>, n: int): (r: seq<T>)
    ensures n >= 0 ==> |r| == if n <= |s| then n else |s|
    ensures n < 0 ==> |r| == if -n <= |s| then |s| + n else 0
    ensures r == s[..|r|]
  {
    if n >= 0 then (if n <= |s| then s[..n] else s)
    else if -n <= |s| then s[..|s| + n]
    else []
  }

  /** The rows whose total quantity is under `threshold`, in their order. */
  function UnderThreshold(rows: seq<ProductRow>, threshold: int): seq<ProductRow> {
    if |rows| == 0 then []
    else
      var row := rows[|rows| - 1];
      UnderThreshold(rows[..|rows| - 1], threshold) + (if row.totalQuantity < threshold then [row] else [])
  }

  /** The result of `top_selling_products(transactions, n)`. */
  function TopSelling(txs: seq<Transaction>, n: int): seq<ProductRow> {
    Take(SortByRank(ProductRows(txs), QuantityRank), n)
  }

  /** The result of `low_performing_products(transactions, threshold)`. */
  function LowPerforming(txs: seq<Transaction>, threshold: int): seq<ProductRow> {
    SortByRank(UnderThreshold(ProductRows(txs), threshold), ScarcityRank)
  }

  // ---------------------------------------------------------------------------
  // The aggregation loop both functions run

  lemma {:induction false} FoldSold(grp: seq<Transaction>)
    ensures Fold(grp, ProductStats(0, 0.0), AddSold) == ProductStats(TotalQuantity(grp), TotalAmount(grp))
  {
    if |grp| > 0 {
      FoldSold(grp[..|grp| - 1]);
    }
  }

  /** The dict the loop builds holds exactly the listed products, each with
      its totals. */
  lemma TallySold(txs: seq<Transaction>)
    ensures forall k :: k in Tally(ByProduct, txs, ProductStats(0, 0.0), AddSold) <==> k in Keys(ByProduct, txs)
    ensures forall k :: k in Tally(ByProduct, txs, ProductStats(0, 0.0), AddSold) ==>
                        Tally(ByProduct, txs, ProductStats(0, 0.0), AddSold)[k] == StatsOf(txs, k)
  {
    TallyKeys(ByProduct, txs, ProductStats(0, 0.0), AddSold);
    TallyValues(ByProduct, txs, ProductStats(0, 0.0), AddSold);
    forall k | k in Tally(ByProduct, txs, ProductStats(0, 0.0), AddSold)
      ensures Tally(ByProduct, txs, ProductStats(0, 0.0), AddSold)[k] == StatsOf(txs, k)
    {
      FoldSold(Of(ByProduct, txs, k));
    }
  }

  /** The per-product totals, keyed by name in order of first appearance. */
  method AggregateProducts(txs: seq<Transaction>) returns (keys: seq<string>, stats: map<string, ProductStats>)
    ensures keys == Keys(ByProduct, txs)
    ensures forall k :: k in keys ==> k in stats && stats[k] == StatsOf(txs, k)
  {
    keys := [];
    stats := map[];
    for i := 0 to |txs|
      invariant keys == Keys(ByProduct, txs[..i])
      invariant stats == Tally(ByProduct, txs[..i], ProductStats(0, 0.0), AddSold)
    {
      var t := txs[i];
      PrefixStep(txs, i);
      assert (t.productName in stats) == (t.productName in keys) by {
        TallyKeys(ByProduct, txs[..i], ProductStats(0, 0.0), AddSold);
      }
      KeysAppend(ByProduct, txs[..i], t);
      TallyAppend(ByProduct, txs[..i], t, ProductStats(0, 0.0), AddSold);
      var product := t.productName;
      if product !in stats {
        stats := stats[product := ProductStats(0, 0.0)];
        keys := keys + [product];
      }
      stats := stats[product := AddSold(stats[product], t)];
    }
    assert txs[..|txs|] == txs;
    TallySold(txs);
  }

  /** `top_selling_products(transactions, n)`. */
  method TopSellingProducts(txs: seq<Transaction>, n: int) returns (top: seq<ProductRow>)
    ensures top == TopSelling(txs, n)
    ensures n >= 0 ==> |top| <= n
  {
    var keys, stats := AggregateProducts(txs);
    var result := seq(|keys|, m requires 0 <= m < |keys| => Finish(keys[m], stats[keys[m]]));
    assert result == ProductRows(txs);
    result := SortByRank(result, QuantityRank);
    top := Take(result, n);
  }

  /** `low_performing_products(transactions, threshold)`. */
  method LowPerformingProducts(txs: seq<Transaction>, threshold: int) returns (low: seq<ProductRow>)
    ensures low == LowPerforming(txs, threshold)
  {
    var keys, stats := AggregateProducts(txs);
    var listed := seq(|keys|, m requires 0 <= m < |keys| => Finish(keys[m], stats[keys[m]]));
    assert listed == ProductRows(txs);
    low := UnderThreshold(listed, threshold);
    low := SortByRank(low, ScarcityRank);
  }

  // ---------------------------------------------------------------------------
  // Properties

  /** Every entry of the listing is its product's totals, and every product of
      the input has one entry. */
  lemma ProductRowsMembers(txs: seq<Transaction>)
    ensures forall row :: row in ProductRows(txs) ==>
              row == RowOf(txs, row.product) && row.product in Keys(ByProduct, txs)
    ensures forall k :: k in Keys(ByProduct, txs) ==> RowOf(txs, k) in ProductRows(txs)
  {
    var ks := Keys(ByProduct, txs);
    forall k | k in ks
      ensures RowOf(txs, k) in ProductRows(txs)
    {
      var m :| 0 <= m < |ks| && ks[m] == k;
      assert ProductRows(txs)[m] == RowOf(txs, k);
    }
  }

  /** Each top entry carries its product's total quantity (the sum of the
      quantities of the records with that name) and rounded revenue. */
  lemma TopSellingEntries(txs: seq<Transaction>, n: int)
    ensures forall row :: row in TopSelling(txs, n) ==>
              && row.product in Keys(ByProduct, txs)
              && row.totalQuantity == TotalQuantity(Of(ByProduct, txs, row.product))
              && row.totalRevenue == Round2(TotalAmount(Of(ByProduct, txs, row.product)))
  {
    var rows := ProductRows(txs);
    var sorted := SortByRank(rows, QuantityRank);
    var top := TopSelling(txs, n);
    SortByRankSpec(rows, QuantityRank);
    ProductRowsMembers(txs);
    forall row | row in top
      ensures row in rows
    {
      assert row in sorted;
      assert row in multiset(sorted);
    }
  }

  /** The top entries are ordered by quantity, largest first. */
  lemma TopSellingOrder(txs: seq<Transaction>, n: int)
    ensures var top := TopSelling(txs, n);
            forall i, j :: 0 <= i < j < |top| ==> top[i].totalQuantity >= top[j].totalQuantity
  {
    var sorted := SortByRank(ProductRows(txs), QuantityRank);
    var top := TopSelling(txs, n);
    SortByRankSpec(ProductRows(txs), QuantityRank);
    forall i, j | 0 <= i < j < |top|
      ensures top[i].totalQuantity >= top[j].totalQuantity
    {
      assert top[i] == sorted[i] && top[j] == sorted[j];
      assert QuantityRank(sorted[i]) >= QuantityRank(sorted[j]);
    }
  }

  /** No product left out of the top sold more than any product kept. */
  lemma TopSellingIsTop(txs: seq<Transaction>, n: int)
    ensures var top := TopSelling(txs, n);
            forall k :: k in Keys(ByProduct, txs) && RowOf(txs, k) !in top ==>
              forall row :: row in top ==> row.totalQuantity >= TotalQuantity(Of(ByProduct, txs, k))
  {
    var rows := ProductRows(txs);
    var sorted := SortByRank(rows, QuantityRank);
    var top := TopSelling(txs, n);
    SortByRankSpec(rows, QuantityRank);
    ProductRowsMembers(txs);
    forall k, row | k in Keys(ByProduct, txs) && RowOf(txs, k) !in top && row in top
      ensures row.totalQuantity >= TotalQuantity(Of(ByProduct, txs, k))
    {
      assert RowOf(txs, k) in multiset(sorted);
      PrefixRanksHigher(sorted, |top|, QuantityRank, row, RowOf(txs, k));
    }
  }

  /** Products whose quantities tie keep their order of first appearance. */
  lemma TopSellingStable(txs: seq<Transaction>, n: int)
    ensures forall v :: WithRank(SortByRank(ProductRows(txs), QuantityRank), QuantityRank, v) ==
                        WithRank(ProductRows(txs), QuantityRank, v)
    ensures TopSelling(txs, n) == SortByRank(ProductRows(txs), QuantityRank)[..|TopSelling(txs, n)|]
  {
    SortByRankSpec(ProductRows(txs), QuantityRank);
  }

  lemma {:induction false} UnderThresholdMembers(rows: seq<ProductRow>, threshold: int)
    ensures forall row :: row in UnderThreshold(rows, threshold) <==> row in rows && row.totalQuantity < threshold
  {
    if |rows| > 0 {
      UnderThresholdMembers(rows[..|rows| - 1], threshold);
      assert rows == rows[..|rows| - 1] + [rows[|rows| - 1]];
    }
  }

  /** The low performers are exactly the products whose total quantity is
      under the threshold, each with its totals, smallest quantity first. */
  lemma LowPerformingSpec(txs: seq<Transaction>, threshold: int)
    ensures forall row :: row in LowPerforming(txs, threshold) ==>
              && row.product in Keys(ByProduct, txs)
              && row == RowOf(txs, row.product)
              && row.totalQuantity < threshold
    ensures forall k :: k in Keys(ByProduct, txs) && TotalQuantity(Of(ByProduct, txs, k)) < threshold ==>
              RowOf(txs, k) in LowPerforming(txs, threshold)
    ensures var low := LowPerforming(txs, threshold);
            forall i, j :: 0 <= i < j < |low| ==> low[i].totalQuantity <= low[j].totalQuantity
  {
    var under := UnderThreshold(ProductRows(txs), threshold);
    var low := LowPerforming(txs, threshold);
    SortByRankSpec(under, ScarcityRank);
    UnderThresholdMembers(ProductRows(txs), threshold);
    ProductRowsMembers(txs);
    forall row | row in low
      ensures row in under
    {
      assert row in multiset(low);
    }
    forall k | k in Keys(ByProduct, txs) && TotalQuantity(Of(ByProduct, txs, k)) < threshold
      ensures RowOf(txs, k) in low
    {
      assert RowOf(txs, k) in multiset(under);
    }
    forall i, j | 0 <= i < j < |low|
      ensures low[i].totalQuantity <= low[j].totalQuantity
    {
      assert ScarcityRank(low[i]) >= ScarcityRank(low[j]);
    }
  }

  /** Low performers whose quantities tie keep their order of first appearance. */
  lemma LowPerformingStable(txs: seq<Transaction>, threshold: int)
    ensures forall v :: WithRank(LowPerforming(txs, threshold), ScarcityRank, v) ==
                        WithRank(UnderThreshold(ProductRows(txs), threshold), ScarcityRank, v)
  {
    SortByRankSpec(UnderThreshold(ProductRows(txs), threshold), ScarcityRank);
  }
}
