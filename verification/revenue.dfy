/**
 * `calculate_total_revenue`: the sum of Quantity x UnitPrice over all
 * transactions, rounded to two decimals once at the end.
 */
module Revenue {
  import opened Numbers
  import opened Records
  import opened Grouping

  method TotalRevenue(txs: seq<Transaction>) returns (r: real)
    ensures r == Round2(TotalAmount(txs))
    ensures TotalAmount(txs) - 0.005 < r <= TotalAmount(txs) + 0.005
  {
    var total := 0.0;
    for i := 0 to |txs|
      invariant total == TotalAmount(txs[..i])
    {
      TotalsAppend(txs[..i], txs[i]);
      assert txs[..i + 1] == txs[..i] + [txs[i]];
      total := total + txs[i].quantity as real * txs[i].unitPrice;
    }
    assert txs[..|txs|] == txs;
    r := Round2(total);
  }

  /** Splitting the records into two batches adds their exact totals. */
  lemma {:induction false} TotalAmountConcat(a: seq<Transaction>, b: seq<Transaction>)
    ensures TotalAmount(a + b) == TotalAmount(a) + TotalAmount(b)
  {
    if |b| > 0 {
      var init := b[..|b| - 1];
      TotalAmountConcat(a, init);
      assert (a + b)[..|a + b| - 1] == a + init;
    } else {
      assert a + b == a;
    }
  }
}
