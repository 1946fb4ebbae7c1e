/**
 * The figures `generate_sales_report` computes before it writes the report:
 * the record count, the rounded revenue, the average order value, the date
 * range, and the share of enriched records that found a catalogue match
 * together with the sorted names of the products that did not.
 */
module Report {
  import opened Numbers
  import opened Text
  import opened Records
  import opened Sorting
  import opened Revenue
  import opened Enrichment
  import opened Wrappers
  import Regions

  /** The figures of the report's summary and enrichment sections. */
  datatype Metrics = Metrics(
    totalTransactions: nat,
    totalRevenue: real,
    avgOrderValue: real,
    dateRange: string,
    enrichedCount: nat,
    totalEnriched: nat,
    enrichmentRate: real,
    unenrichedProducts: seq<string>)

  /** `round(total_revenue / total_transactions, 2)`, or 0 without records;
      the revenue divided is the one already rounded to two decimals. */
  function AvgOrderValue(revenue: real, n: nat): real {
    if n > 0 then Round2(revenue / n as real) else 0.0
  }

  /** The date of every record, in order. */
  function Dates(txs: seq<Transaction>): (ds: seq<string>)
    ensures |ds| == |txs|
  {
    seq(|txs|, i requires 0 <= i < |txs| => txs[i].date)
  }

  /** `f"{dates[0]} to {dates[-1]}"` over the sorted dates, or "N/A". */
  function DateRange(txs: seq<Transaction>): string {
    var ds := SortByText(Dates(txs), Itself);
    if |ds| == 0 then "N/A" else ds[0] + " to " + ds[|ds| - 1]
  }

  /** The number of enriched records with `API_Match` set. */
  function MatchedCount(es: seq<Enriched>): (c: nat)
    ensures c <= |es|
  {
    if |es| == 0 then 0
    else MatchedCount(es[..|es| - 1]) + (if es[|es| - 1].apiMatch then 1 else 0)
  }

  /** `round(enriched_count / total_enriched * 100, 2)`, or 0 without records. */
  function EnrichmentRate(count: nat, total: nat): real {
    if total > 0 then Round2(count as real / total as real * 100.0) else 0.0
  }

  /** The product names of the unmatched records, each once, in order of
      first appearance. */
  function UnmatchedNames(es: seq<Enriched>): seq<string> {
    if |es| == 0 then []
    else
      var front, e := UnmatchedNames(es[..|es| - 1]), es[|es| - 1];
      if e.apiMatch || e.tx.productName in front then front else front + [e.tx.productName]
  }

  /** `sorted({tx["ProductName"] for tx in enriched if not tx.get("API_Match")})`. */
  function UnenrichedProducts(es: seq<Enriched>): seq<string> {
    SortByText(UnmatchedNames(es), Itself)
  }

  /** The report's figures for `transactions` and `enriched_transactions`. */
  function MetricsOf(txs: seq<Transaction>, es: seq<Enriched>): Metrics {
    var revenue := Round2(TotalAmount(txs));
    var count := MatchedCount(es);
    Metrics(|txs|, revenue, AvgOrderValue(revenue, |txs|), DateRange(txs),
            count, |es|, EnrichmentRate(count, |es|), UnenrichedProducts(es))
  }

  /** The metrics part of `generate_sales_report`. The report calls
      `region_wise_sales` after the basic metrics; where that call raises
      `ZeroDivisionError` (records whose total amount is 0) no report is made. */
  method SalesMetrics(txs: seq<Transaction>, es: seq<Enriched>) returns (r: Result<Metrics, string>)
    ensures r.Failure? <==> Regions.RegionReport(txs).Failure?
    ensures r.Failure? <==> |txs| > 0 && TotalAmount(txs) == 0.0
    ensures r.Success? ==> r.value == MetricsOf(txs, es)
  {
    var totalTransactions := |txs|;
    var totalRevenue := TotalRevenue(txs);
    var avgOrderValue := if totalTransactions > 0 then Round2(totalRevenue / totalTransactions as real) else 0.0;
    var dates := SortByText(Dates(txs), Itself);
    var dateRange := if |dates| > 0 then dates[0] + " to " + dates[|dates| - 1] else "N/A";
    var regionStats := Regions.RegionWiseSales(txs);
    if regionStats.Failure? {
      return Failure(regionStats.error);
    }
    var enrichedCount := MatchedCount(es);
    var totalEnriched := |es|;
    var enrichmentRate := if totalEnriched > 0 then Round2(enrichedCount as real / totalEnriched as real * 100.0) else 0.0;
    assert avgOrderValue == AvgOrderValue(totalRevenue, totalTransactions);
    assert dateRange == DateRange(txs);
    assert enrichmentRate == EnrichmentRate(enrichedCount, totalEnriched);
    r := Success(Metrics(totalTransactions, totalRevenue, avgOrderValue, dateRange,
                         enrichedCount, totalEnriched, enrichmentRate, UnenrichedProducts(es)));
  }

  // ---------------------------------------------------------------------------
  // Properties

  /** With records, the average order value is within half a cent of the
      rounded revenue shared out over them; on validated records it is never
      negative. */
  lemma AvgOrderValueSpec(txs: seq<Transaction>)
    requires |txs| > 0
    ensures var revenue := Round2(TotalAmount(txs));
            revenue / |txs| as real - 0.005 < AvgOrderValue(revenue, |txs|) <= revenue / |txs| as real + 0.005
    ensures (forall i :: 0 <= i < |txs| ==> txs[i].quantity > 0 && txs[i].unitPrice > 0.0) ==>
              AvgOrderValue(Round2(TotalAmount(txs)), |txs|) >= 0.0
  {
    var revenue := Round2(TotalAmount(txs));
    if forall i :: 0 <= i < |txs| ==> txs[i].quantity > 0 && txs[i].unitPrice > 0.0 {
      PositiveTotal(txs);
      Round2NonNegative(TotalAmount(txs));
      Round2NonNegative(revenue / |txs| as real);
    }
  }

  /** Without records there is no date range and the average is 0. */
  lemma EmptyMetrics(txs: seq<Transaction>, es: seq<Enriched>)
    requires |txs| == 0
    ensures MetricsOf(txs, es).dateRange == "N/A"
    ensures MetricsOf(txs, es).avgOrderValue == 0.0
    ensures MetricsOf(txs, es).totalRevenue == 0.0
  {
    assert Round2(0.0) == 0.0 by {
      assert (0.0 * 100.0 + 0.5).Floor == 0;
    }
  }

  /** The date range runs from the earliest record date to the latest one
      (in Python's string order), and is "N/A" exactly when there are no
      records. */
  lemma DateRangeSpec(txs: seq<Transaction>)
    ensures DateRange(txs) == "N/A" <==> |txs| == 0
    ensures |txs| > 0 ==>
              exists lo, hi :: && DateRange(txs) == lo + " to " + hi
                               && lo in Dates(txs) && hi in Dates(txs)
                               && forall i :: 0 <= i < |txs| ==> Below(lo, txs[i].date) && Below(txs[i].date, hi)
  {
    var ds := SortByText(Dates(txs), Itself);
    SortByTextSpec(Dates(txs), Itself);
    if |txs| > 0 {
      var lo, hi := ds[0], ds[|ds| - 1];
      assert |lo + " to " + hi| >= 4;
      SortedEnds(ds, Dates(txs));
      forall i | 0 <= i < |txs|
        ensures Below(lo, txs[i].date) && Below(txs[i].date, hi)
      {
        assert Dates(txs)[i] == txs[i].date;
      }
    }
  }

  /** The first and last strings of a sorted permutation of `orig` are
      elements of `orig` below and above all of them. */
  lemma SortedEnds(ds: seq<string>, orig: seq<string>)
    requires |ds| > 0 && Ascending(ds, Itself) && multiset(ds) == multiset(orig)
    ensures ds[0] in orig && ds[|ds| - 1] in orig
    ensures forall j :: 0 <= j < |orig| ==> Below(ds[0], orig[j]) && Below(orig[j], ds[|ds| - 1])
  {
    assert ds[0] in multiset(orig) && ds[|ds| - 1] in multiset(orig);
    forall j | 0 <= j < |orig|
      ensures Below(ds[0], orig[j]) && Below(orig[j], ds[|ds| - 1])
    {
      assert orig[j] in multiset(ds);
      var k :| 0 <= k < |ds| && ds[k] == orig[j];
      BelowReflexive(orig[j]);
      assert Itself(ds[0]) == ds[0] && Itself(ds[k]) == ds[k] && Itself(ds[|ds| - 1]) == ds[|ds| - 1];
    }
  }

  /** Every record counts as matched or not, once. */
  lemma {:induction false} MatchedCountAll(es: seq<Enriched>)
    ensures MatchedCount(es) == |es| <==> forall i :: 0 <= i < |es| ==> es[i].apiMatch
    ensures MatchedCount(es) == 0 <==> forall i :: 0 <= i < |es| ==> !es[i].apiMatch
  {
    if |es| > 0 {
      var init := es[..|es| - 1];
      MatchedCountAll(init);
      assert forall i :: 0 <= i < |init| ==> init[i] == es[i];
    }
  }

  lemma EnrichmentRateBounds(c: nat, n: nat)
    requires c <= n
    ensures 0.0 <= EnrichmentRate(c, n) <= 100.0
    ensures c == 0 ==> EnrichmentRate(c, n) == 0.0
    ensures 0 < n && c == n ==> EnrichmentRate(c, n) == 100.0
  {
    if n > 0 {
      PercentOf(c, n);
      Round2Percent(c as real / n as real * 100.0);
    }
  }

  /** The enrichment rate is a percentage: 0 when nothing matched, 100 when
      everything did, and in between otherwise. */
  lemma EnrichmentRateSpec(es: seq<Enriched>)
    ensures var r := EnrichmentRate(MatchedCount(es), |es|);
            && 0.0 <= r <= 100.0
            && ((forall i :: 0 <= i < |es| ==> !es[i].apiMatch) ==> r == 0.0)
            && (|es| > 0 && (forall i :: 0 <= i < |es| ==> es[i].apiMatch) ==> r == 100.0)
  {
    MatchedCountAll(es);
    EnrichmentRateBounds(MatchedCount(es), |es|);
  }

  /** The first-seen list of unmatched names holds each name once, and
      exactly the names of the unmatched records. */
  lemma {:induction false} UnmatchedNamesSpec(es: seq<Enriched>)
    ensures Distinct(UnmatchedNames(es))
    ensures forall x :: x in UnmatchedNames(es) <==>
                        exists i :: 0 <= i < |es| && !es[i].apiMatch && es[i].tx.productName == x
  {
    if |es| > 0 {
      var init := es[..|es| - 1];
      UnmatchedNamesSpec(init);
      forall x
        ensures x in UnmatchedNames(es) <==> exists i :: 0 <= i < |es| && !es[i].apiMatch && es[i].tx.productName == x
      {
        if exists i :: 0 <= i < |init| && !init[i].apiMatch && init[i].tx.productName == x {
          var i :| 0 <= i < |init| && !init[i].apiMatch && init[i].tx.productName == x;
          assert es[i] == init[i];
        }
        if exists i :: 0 <= i < |es| && !es[i].apiMatch && es[i].tx.productName == x {
          var i :| 0 <= i < |es| && !es[i].apiMatch && es[i].tx.productName == x;
          if i < |init| {
            assert init[i] == es[i];
          }
        }
      }
    }
  }

  /** The unenriched products are in strictly ascending order (no name
      twice) and are exactly the product names of the unmatched records. */
  lemma UnenrichedProductsSpec(es: seq<Enriched>)
    ensures var ps := UnenrichedProducts(es);
            && Ascending(ps, Itself)
            && Distinct(ps)
            && forall x :: x in ps <==> exists i :: 0 <= i < |es| && !es[i].apiMatch && es[i].tx.productName == x
  {
    var names := UnmatchedNames(es);
    var ps := UnenrichedProducts(es);
    UnmatchedNamesSpec(es);
    SortByTextSpec(names, Itself);
    PermutationKeepsDistinct(names, ps);
    forall x
      ensures x in ps <==> x in names
    {
      assert x in ps <==> x in multiset(ps);
      assert x in names <==> x in multiset(names);
    }
  }
}
