/**
 * `customer_analysis`: per customer (the CustomerID with surrounding
 * whitespace stripped; records whose stripped id is empty are skipped), the
 * amount spent, the number of purchases, the average order value and the
 * sorted list of distinct product names bought, listed by rounded amount
 * spent, largest first, customers with equal rounded amounts in order of
 * first appearance.
 */
module Customers {
  import opened Numbers
  import opened Text
  import opened Records
  import opened Sorting
  import opened Grouping

  /** The accumulator kept per customer; `products` holds the members of the
      source's set, each once, in the order they were added. */
  datatype CustomerStats = CustomerStats(totalSpent: real, purchaseCount: nat, products: seq<string>)

  /** One entry of the result. */
  datatype CustomerRow = CustomerRow(
    customerId: string,
    totalSpent: real,
    purchaseCount: nat,
    avgOrderValue: real,
    productsBought: seq<string>)

  /** The aggregation loop's update of one customer's entry. */
  function AddPurchase(st: CustomerStats, t: Transaction): CustomerStats {
    CustomerStats(st.totalSpent + Amount(t), st.purchaseCount + 1,
                  if t.productName in st.products then st.products else st.products + [t.productName])
  }

  /** The records of customer `k`: the named records whose stripped id is `k`. */
  function Purchases(txs: seq<Transaction>, k: string): seq<Transaction> {
    Of(ByCustomer, Named(txs), k)
  }

  /** The customers in order of first appearance. */
  function CustomerKeys(txs: seq<Transaction>): seq<string> {
    Keys(ByCustomer, Named(txs))
  }

  /** Customer `k`'s totals: what their purchases cost, how many there are,
      and the distinct products among them in order of first appearance. */
  function StatsOf(txs: seq<Transaction>, k: string): CustomerStats {
    var grp := Purchases(txs, k);
    CustomerStats(TotalAmount(grp), |grp|, Keys(ByProduct, grp))
  }

  /** The second loop on one entry: the total and the average of the unrounded
      total are rounded, and the products are sorted. */
  function Finish(k: string, st: CustomerStats): CustomerRow
    requires st.purchaseCount > 0
  {
    CustomerRow(k, Round2(st.totalSpent), st.purchaseCount,
                Round2(st.totalSpent / st.purchaseCount as real), SortByText(st.products, Itself))
  }

  /** The entry of customer `k`. */
  function RowOf(txs: seq<Transaction>, k: string): CustomerRow
    requires k in CustomerKeys(txs)
  {
    Listed(txs, k);
    Finish(k, StatsOf(txs, k))
  }

  /** Every customer's entry, in order of first appearance. */
  function CustomerRows(txs: seq<Transaction>): (rows: seq<CustomerRow>)
    ensures |rows| == |CustomerKeys(txs)|
  {
    var ks := CustomerKeys(txs);
    seq(|ks|, m requires 0 <= m < |ks| => RowOf(txs, ks[m]))
  }

  /** The sort key: the rounded amount spent. */
  function SpentRank(row: CustomerRow): real {
    row.totalSpent
  }

  function PurchaseCount(row: CustomerRow): int {
    row.purchaseCount
  }

  /** The result of `customer_analysis(transactions)`. */
  function CustomerReport(txs: seq<Transaction>): seq<CustomerRow> {
    SortByRank(CustomerRows(txs), SpentRank)
  }

  /** A listed customer has at least one purchase. */
  lemma Listed(txs: seq<Transaction>, k: string)
    requires k in CustomerKeys(txs)
    ensures |Purchases(txs, k)| > 0
    ensures StatsOf(txs, k).purchaseCount == |Purchases(txs, k)|
  {
    KeysSpec(ByCustomer, Named(txs));
  }

  /** Folding a customer's purchases with the loop's update gives their totals. */
  lemma {:induction false} FoldPurchases(grp: seq<Transaction>)
    ensures Fold(grp, CustomerStats(0.0, 0, []), AddPurchase) == CustomerStats(TotalAmount(grp), |grp|, Keys(ByProduct, grp))
  {
    if |grp| > 0 {
      FoldPurchases(grp[..|grp| - 1]);
    }
  }

  /** After the first loop the dict holds, for exactly the customers met, what
      each spent, how often, and which products. */
  lemma TallyPurchases(txs: seq<Transaction>)
    ensures forall k :: k in Tally(ByCustomer, Named(txs), CustomerStats(0.0, 0, []), AddPurchase) <==> k in CustomerKeys(txs)
    ensures forall k :: k in Tally(ByCustomer, Named(txs), CustomerStats(0.0, 0, []), AddPurchase) ==>
                        Tally(ByCustomer, Named(txs), CustomerStats(0.0, 0, []), AddPurchase)[k] == StatsOf(txs, k)
  {
    var named := Named(txs);
    TallyKeys(ByCustomer, named, CustomerStats(0.0, 0, []), AddPurchase);
    TallyValues(ByCustomer, named, CustomerStats(0.0, 0, []), AddPurchase);
    forall k | k in Tally(ByCustomer, named, CustomerStats(0.0, 0, []), AddPurchase)
      ensures Tally(ByCustomer, named, CustomerStats(0.0, 0, []), AddPurchase)[k] == StatsOf(txs, k)
    {
      FoldPurchases(Purchases(txs, k));
    }
  }

  /** The first loop of `customer_analysis`: per non-blank customer id, in
      order of first appearance, the purchases folded into the empty entry. */
  method TallyCustomers(txs: seq<Transaction>) returns (keys: seq<string>, customers: map<string, CustomerStats>)
    ensures keys == CustomerKeys(txs)
    ensures customers == Tally(ByCustomer, Named(txs), CustomerStats(0.0, 0, []), AddPurchase)
  {
    keys := [];
    customers := map[];
    ghost var named: seq<Transaction> := [];
    for i := 0 to |txs|
      invariant named == Named(txs[..i])
      invariant keys == Keys(ByCustomer, named)
      invariant customers == Tally(ByCustomer, named, CustomerStats(0.0, 0, []), AddPurchase)
    {
      var t := txs[i];
      NamedPrefix(txs, i);
      var customerId := Strip(t.customerId);
      if customerId == "" {
        assert named + [] == named;
        continue;
      }
      assert (customerId in customers) == (customerId in keys) by {
        TallyKeys(ByCustomer, named, CustomerStats(0.0, 0, []), AddPurchase);
      }
      assert Keys(ByCustomer, named + [t]) == if customerId in keys then keys else keys + [customerId] by {
        KeysAppend(ByCustomer, named, t);
      }
      if customerId !in customers {
        customers := customers[customerId := CustomerStats(0.0, 0, [])];
        keys := keys + [customerId];
      }
      TallyAppend(ByCustomer, named, t, CustomerStats(0.0, 0, []), AddPurchase);
      customers := customers[customerId := AddPurchase(customers[customerId], t)];
      named := named + [t];
    }
    assert txs[..|txs|] == txs;
  }

  /** `customer_analysis(transactions)`. */
  method CustomerAnalysis(txs: seq<Transaction>) returns (result: seq<CustomerRow>)
    ensures result == CustomerReport(txs)
  {
    var keys, customers := TallyCustomers(txs);
    assert forall k :: k in keys ==> k in customers && customers[k] == StatsOf(txs, k) by {
      TallyPurchases(txs);
    }
    ghost var listed := CustomerRows(txs);
    var rows: seq<CustomerRow> := [];
    for j := 0 to |keys|
      invariant rows == listed[..j]
    {
      Listed(txs, keys[j]);
      var data := customers[keys[j]];
      PrefixStep(listed, j);
      assert listed[j] == RowOf(txs, keys[j]);
      rows := rows + [Finish(keys[j], data)];
    }
    assert listed[..|keys|] == listed;
    result := SortByRank(rows, SpentRank);
  }

  // ---------------------------------------------------------------------------
  // Properties

  /** A listed customer id is the stripped id of some record, and is never blank. */
  lemma CustomerKeysNonBlank(txs: seq<Transaction>)
    ensures forall k :: k in CustomerKeys(txs) ==> k != "" && exists i :: 0 <= i < |txs| && Strip(txs[i].customerId) == k
  {
    var named := Named(txs);
    KeysAreRecordKeys(ByCustomer, named);
    NamedSpec(named);
    NamedSpec(txs);
    NamedMembers(txs);
    forall k | k in CustomerKeys(txs)
      ensures k != "" && exists i :: 0 <= i < |txs| && Strip(txs[i].customerId) == k
    {
      var m :| 0 <= m < |named| && KeyOf(ByCustomer, named[m]) == k;
      assert named[m] in txs;
      var i :| 0 <= i < |txs| && txs[i] == named[m];
    }
  }

  lemma {:induction false} NamedMembers(txs: seq<Transaction>)
    ensures forall t :: t in Named(txs) ==> t in txs
  {
    if |txs| > 0 {
      NamedMembers(txs[..|txs| - 1]);
      assert txs == txs[..|txs| - 1] + [txs[|txs| - 1]];
    }
  }

  /** Each entry holds its customer's rounded total, the number of their
      purchases, the rounded average of the unrounded total, and the products
      they bought; and the customer is never blank. */
  lemma CustomerRowsAreStats(txs: seq<Transaction>)
    ensures forall row :: row in CustomerReport(txs) ==>
              && row.customerId in CustomerKeys(txs)
              && row.customerId != ""
              && row.purchaseCount == |Purchases(txs, row.customerId)| > 0
              && row.totalSpent == Round2(TotalAmount(Purchases(txs, row.customerId)))
              && row.avgOrderValue ==
                 Round2(TotalAmount(Purchases(txs, row.customerId)) / |Purchases(txs, row.customerId)| as real)
              && row.productsBought == SortByText(Keys(ByProduct, Purchases(txs, row.customerId)), Itself)
  {
    var ks := CustomerKeys(txs);
    var unsorted := CustomerRows(txs);
    SortByRankSpec(unsorted, SpentRank);
    CustomerKeysNonBlank(txs);
    forall row | row in CustomerReport(txs)
      ensures row.customerId in ks && row == RowOf(txs, row.customerId)
    {
      assert row in multiset(unsorted);
      var m :| 0 <= m < |unsorted| && unsorted[m] == row;
      RowOfSpec(txs, ks[m]);
    }
    forall row | row in CustomerReport(txs)
      ensures && row.purchaseCount == |Purchases(txs, row.customerId)| > 0
              && row.totalSpent == Round2(TotalAmount(Purchases(txs, row.customerId)))
              && row.avgOrderValue ==
                 Round2(TotalAmount(Purchases(txs, row.customerId)) / |Purchases(txs, row.customerId)| as real)
              && row.productsBought == SortByText(Keys(ByProduct, Purchases(txs, row.customerId)), Itself)
    {
      RowOfSpec(txs, row.customerId);
    }
  }

  /** The entry of a listed customer holds their rounded total, the number of
      their purchases, the rounded average of the unrounded total, and the
      names of the products they bought, each once and sorted. */
  lemma RowOfSpec(txs: seq<Transaction>, k: string)
    requires k in CustomerKeys(txs)
    ensures var row := RowOf(txs, k);
            var grp := Purchases(txs, k);
            && row.customerId == k
            && row.purchaseCount == |grp| > 0
            && row.totalSpent == Round2(TotalAmount(grp))
            && row.avgOrderValue == Round2(TotalAmount(grp) / |grp| as real)
            && row.productsBought == SortByText(Keys(ByProduct, grp), Itself)
  {
    Listed(txs, k);
  }

  /** Every customer of the input has an entry, and there are as many
      entries as customers. */
  lemma CustomerReportKeys(txs: seq<Transaction>)
    ensures |CustomerReport(txs)| == |CustomerKeys(txs)|
    ensures forall k :: k in CustomerKeys(txs) ==> RowOf(txs, k) in CustomerReport(txs)
  {
    var ks := CustomerKeys(txs);
    var unsorted := CustomerRows(txs);
    var rows := CustomerReport(txs);
    SortByRankSpec(unsorted, SpentRank);
    forall k | k in ks
      ensures RowOf(txs, k) in rows
    {
      var m :| 0 <= m < |ks| && ks[m] == k;
      assert unsorted[m] in multiset(rows);
    }
  }

  /** The sort key of uniqueness: the customer an entry belongs to. */
  function CustomerOf(row: CustomerRow): string {
    row.customerId
  }

  /** Before sorting, entry `m` belongs to the `m`-th customer, so no two
      entries belong to the same customer. */
  lemma CustomerRowsDistinct(txs: seq<Transaction>)
    ensures var rows := CustomerRows(txs);
            forall a, b :: 0 <= a < b < |rows| ==> CustomerOf(rows[a]) != CustomerOf(rows[b])
  {
    var ks := CustomerKeys(txs);
    var unsorted := CustomerRows(txs);
    KeysDistinct(ByCustomer, Named(txs));
    forall a, b | 0 <= a < b < |unsorted|
      ensures CustomerOf(unsorted[a]) != CustomerOf(unsorted[b])
    {
      RowOfSpec(txs, ks[a]);
      RowOfSpec(txs, ks[b]);
    }
  }

  /** No customer has two entries. */
  lemma CustomerReportDistinct(txs: seq<Transaction>)
    ensures var rows := CustomerReport(txs);
            forall i, j :: 0 <= i < j < |rows| ==> rows[i].customerId != rows[j].customerId
  {
    var unsorted := CustomerRows(txs);
    SortByRankSpec(unsorted, SpentRank);
    CustomerRowsDistinct(txs);
    PermutationKeepsKeys(unsorted, CustomerReport(txs), CustomerOf);
  }

  /** The entries are ordered by rounded amount spent, largest first, and
      customers whose rounded amounts tie keep their order of first appearance. */
  lemma CustomerReportOrder(txs: seq<Transaction>)
    ensures NonIncreasing(CustomerReport(txs), SpentRank)
    ensures forall v :: WithRank(CustomerReport(txs), SpentRank, v) ==
                        WithRank(CustomerRows(txs), SpentRank, v)
  {
    SortByRankSpec(CustomerRows(txs), SpentRank);
  }

  lemma {:induction false} PurchaseCountsOver(txs: seq<Transaction>, j: nat)
    requires j <= |CustomerKeys(txs)|
    ensures SumBy(CustomerRows(txs)[..j], PurchaseCount) == CountOver(ByCustomer, Named(txs), CustomerKeys(txs)[..j])
  {
    if j > 0 {
      var rows, ks := CustomerRows(txs), CustomerKeys(txs);
      PurchaseCountsOver(txs, j - 1);
      SumByPrefix(rows, j - 1, PurchaseCount);
      CountOverPrefix(ByCustomer, Named(txs), ks, j - 1);
      assert rows[j - 1] == RowOf(txs, ks[j - 1]);
      assert PurchaseCount(rows[j - 1]) == |Purchases(txs, ks[j - 1])|;
    }
  }

  /** The purchase counts add up to the number of records with a non-blank
      customer id. */
  lemma PurchaseCountsAddUp(txs: seq<Transaction>)
    ensures SumBy(CustomerReport(txs), PurchaseCount) == |Named(txs)|
    ensures |Named(txs)| <= |txs|
  {
    var rows, ks := CustomerRows(txs), CustomerKeys(txs);
    assert SumBy(CustomerReport(txs), PurchaseCount) == SumBy(rows, PurchaseCount) by {
      SortByRankSum(rows, SpentRank, PurchaseCount);
    }
    assert SumBy(rows, PurchaseCount) == CountOver(ByCustomer, Named(txs), ks) by {
      PurchaseCountsOver(txs, |ks|);
      assert rows[..|ks|] == rows;
      assert ks[..|ks|] == ks;
    }
    CountsAddUp(ByCustomer, Named(txs));
    NamedSpec(txs);
  }

  /** `products_bought` is sorted, holds no name twice, and holds exactly the
      product names of the customer's purchases. */
  lemma ProductsBoughtSpec(grp: seq<Transaction>)
    ensures var bought := SortByText(Keys(ByProduct, grp), Itself);
            && Ascending(bought, Itself)
            && Distinct(bought)
            && forall p :: p in bought <==> exists i :: 0 <= i < |grp| && grp[i].productName == p
  {
    var ps := Keys(ByProduct, grp);
    var bought := SortByText(ps, Itself);
    SortByTextSpec(ps, Itself);
    KeysSpec(ByProduct, grp);
    KeysAreRecordKeys(ByProduct, grp);
    PermutationKeepsDistinct(ps, bought);
    forall p
      ensures p in bought <==> p in ps
    {
      assert p in bought <==> p in multiset(bought);
      assert p in ps <==> p in multiset(ps);
    }
  }
}
