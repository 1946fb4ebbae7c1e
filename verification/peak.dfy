/**
 * `find_peak_sales_day`: the exact revenue and count of every date, then a
 * scan of the dates in order of first appearance that keeps the first date
 * whose revenue is strictly above everything seen so far, starting from
 * (no date, 0.0, 0). The revenue is rounded to two decimals on return.
 */
module Peak {
  import opened Wrappers
  import opened Numbers
  import opened Records
  import opened Sorting
  import opened Grouping

  /** The accumulator kept per date. */
  datatype DayTotals = DayTotals(revenue: real, count: nat)

  /** `(peak_date, peak_revenue, peak_count)`. */
  datatype PeakDay = PeakDay(date: Option<string>, revenue: real, count: nat)

  /** The aggregation loop's update of one date's entry. */
  function AddTotal(st: DayTotals, t: Transaction): DayTotals {
    DayTotals(st.revenue + Amount(t), st.count + 1)
  }

  /** The exact revenue and the number of records of date `k`. */
  function TotalsOf(txs: seq<Transaction>, k: string): DayTotals {
    var grp := Of(ByDate, txs, k);
    DayTotals(TotalAmount(grp), |grp|)
  }

  /** The scan over the dates `ks`, in their order: a date replaces the peak
      only when its revenue is strictly greater. */
  function Scan(txs: seq<Transaction>, ks: seq<string>): PeakDay {
    if |ks| == 0 then PeakDay(None, 0.0, 0)
    else
      var p := Scan(txs, ks[..|ks| - 1]);
      var k := ks[|ks| - 1];
      var st := TotalsOf(txs, k);
      if st.revenue > p.revenue then PeakDay(Some(k), st.revenue, st.count) else p
  }

  /** The result of `find_peak_sales_day(transactions)`. */
  function PeakOf(txs: seq<Transaction>): PeakDay {
    var p := Scan(txs, Keys(ByDate, txs));
    PeakDay(p.date, Round2(p.revenue), p.count)
  }

  // ---------------------------------------------------------------------------
  // The loops

  lemma {:induction false} FoldTotals(grp: seq<Transaction>)
    ensures Fold(grp, DayTotals(0.0, 0), AddTotal) == DayTotals(TotalAmount(grp), |grp|)
  {
    if |grp| > 0 {
      FoldTotals(grp[..|grp| - 1]);
    }
  }

  /** After the aggregation loop the dict holds, for exactly the dates of the
      input, each date's revenue and count. */
  lemma TallyTotals(txs: seq<Transaction>)
    ensures forall k :: k in Tally(ByDate, txs, DayTotals(0.0, 0), AddTotal) <==> k in Keys(ByDate, txs)
    ensures forall k :: k in Tally(ByDate, txs, DayTotals(0.0, 0), AddTotal) ==>
                        Tally(ByDate, txs, DayTotals(0.0, 0), AddTotal)[k] == TotalsOf(txs, k)
  {
    TallyKeys(ByDate, txs, DayTotals(0.0, 0), AddTotal);
    TallyValues(ByDate, txs, DayTotals(0.0, 0), AddTotal);
    forall k | k in Tally(ByDate, txs, DayTotals(0.0, 0), AddTotal)
      ensures Tally(ByDate, txs, DayTotals(0.0, 0), AddTotal)[k] == TotalsOf(txs, k)
    {
      FoldTotals(Of(ByDate, txs, k));
    }
  }

  /** The aggregation loop of `find_peak_sales_day`. */
  method TallyDayTotals(txs: seq<Transaction>) returns (keys: seq<string>, totals: map<string, DayTotals>)
    ensures keys == Keys(ByDate, txs)
    ensures totals == Tally(ByDate, txs, DayTotals(0.0, 0), AddTotal)
  {
    keys := [];
    totals := map[];
    for i := 0 to |txs|
      invariant keys == Keys(ByDate, txs[..i])
      invariant totals == Tally(ByDate, txs[..i], DayTotals(0.0, 0), AddTotal)
    {
      var t := txs[i];
      PrefixStep(txs, i);
      assert (t.date in totals) == (t.date in keys) by {
        TallyKeys(ByDate, txs[..i], DayTotals(0.0, 0), AddTotal);
      }
      KeysAppend(ByDate, txs[..i], t);
      TallyAppend(ByDate, txs[..i], t, DayTotals(0.0, 0), AddTotal);
      var date := t.date;
      if date !in totals {
        totals := totals[date := DayTotals(0.0, 0)];
        keys := keys + [date];
      }
      totals := totals[date := AddTotal(totals[date], t)];
    }
    assert txs[..|txs|] == txs;
  }

  /** The scan loop of `find_peak_sales_day`, over the dict the aggregation
      loop built. */
  method ScanDates(ghost txs: seq<Transaction>, keys: seq<string>, totals: map<string, DayTotals>)
    returns (peakDate: Option<string>, peakRevenue: real, peakCount: nat)
    requires forall k :: k in keys ==> k in totals && totals[k] == TotalsOf(txs, k)
    ensures PeakDay(peakDate, peakRevenue, peakCount) == Scan(txs, keys)
  {
    peakDate := None;
    peakRevenue := 0.0;
    peakCount := 0;
    for j := 0 to |keys|
      invariant PeakDay(peakDate, peakRevenue, peakCount) == Scan(txs, keys[..j])
    {
      ScanStep(txs, keys, j);
      var date := keys[j];
      var st := totals[date];
      if st.revenue > peakRevenue {
        peakRevenue := st.revenue;
        peakCount := st.count;
        peakDate := Some(date);
      }
    }
    assert keys[..|keys|] == keys;
  }

  /** One more date of the scan. */
  lemma ScanStep(txs: seq<Transaction>, ks: seq<string>, j: nat)
    requires j < |ks|
    ensures var p, st := Scan(txs, ks[..j]), TotalsOf(txs, ks[j]);
            Scan(txs, ks[..j + 1]) == if st.revenue > p.revenue then PeakDay(Some(ks[j]), st.revenue, st.count) else p
  {
    assert ks[..j + 1][..j] == ks[..j];
  }

  /** `find_peak_sales_day(transactions)`. */
  method FindPeakSalesDay(txs: seq<Transaction>) returns (peak: PeakDay)
    ensures peak == PeakOf(txs)
  {
    var keys, totals := TallyDayTotals(txs);
    TallyTotals(txs);
    var peakDate, peakRevenue, peakCount := ScanDates(txs, keys, totals);
    peak := PeakDay(peakDate, Round2(peakRevenue), peakCount);
  }

  // ---------------------------------------------------------------------------
  // Properties of the scan

  /** The peak revenue is never negative and is at least every scanned date's revenue. */
  lemma {:induction false} ScanIsMax(txs: seq<Transaction>, ks: seq<string>)
    ensures Scan(txs, ks).revenue >= 0.0
    ensures forall j :: 0 <= j < |ks| ==> TotalsOf(txs, ks[j]).revenue <= Scan(txs, ks).revenue
  {
    if |ks| > 0 {
      ScanIsMax(txs, ks[..|ks| - 1]);
    }
  }

  /** Without a peak date nothing was taken; with one, the peak is that
      date's revenue (strictly positive) and count. */
  lemma {:induction false} ScanWitness(txs: seq<Transaction>, ks: seq<string>)
    ensures var p := Scan(txs, ks);
            && (p.date.None? ==> p == PeakDay(None, 0.0, 0))
            && (p.date.Some? ==> && p.date.value in ks
                                 && p.revenue > 0.0
                                 && p.revenue == TotalsOf(txs, p.date.value).revenue
                                 && p.count == TotalsOf(txs, p.date.value).count)
  {
    if |ks| > 0 {
      ScanWitness(txs, ks[..|ks| - 1]);
      ScanIsMax(txs, ks[..|ks| - 1]);
    }
  }

  /** Ties go to the date met first: every date scanned before the peak date
      has a strictly smaller revenue. */
  lemma {:induction false} ScanFirstWins(txs: seq<Transaction>, ks: seq<string>)
    requires Distinct(ks)
    ensures forall i, j :: 0 <= i < j < |ks| && Scan(txs, ks).date == Some(ks[j]) ==>
                           TotalsOf(txs, ks[i]).revenue < Scan(txs, ks).revenue
  {
    if |ks| > 0 {
      var init, k := ks[..|ks| - 1], ks[|ks| - 1];
      DistinctLast(ks);
      ScanFirstWins(txs, init);
      ScanIsMax(txs, init);
      ScanWitness(txs, init);
      var p := Scan(txs, ks);
      forall i, j | 0 <= i < j < |ks| && p.date == Some(ks[j])
        ensures TotalsOf(txs, ks[i]).revenue < p.revenue
      {
        assert ks[i] == init[i];
        if TotalsOf(txs, k).revenue <= Scan(txs, init).revenue && j < |init| {
          assert ks[j] == init[j];
        }
      }
    }
  }

  // ---------------------------------------------------------------------------
  // Properties of the result

  /** The reported peak: a date of the input whose rounded revenue is at least
      every date's rounded revenue, with the count of that date, and the first
      such date in order of first appearance; `(None, 0.0, 0)` exactly when no
      date has a positive revenue. */
  lemma PeakOfSpec(txs: seq<Transaction>)
    ensures var p, ks := PeakOf(txs), Keys(ByDate, txs);
            && (forall k :: k in ks ==> Round2(TotalAmount(Of(ByDate, txs, k))) <= p.revenue)
            && (p.date.Some? ==> && p.date.value in ks
                                 && p.revenue == Round2(TotalAmount(Of(ByDate, txs, p.date.value)))
                                 && p.count == |Of(ByDate, txs, p.date.value)|)
            && (p.date.None? <==> forall k :: k in ks ==> TotalAmount(Of(ByDate, txs, k)) <= 0.0)
            && (p.date.None? ==> p == PeakDay(None, 0.0, 0))
  {
    var ks := Keys(ByDate, txs);
    var s := Scan(txs, ks);
    ScanIsMax(txs, ks);
    ScanWitness(txs, ks);
    forall k | k in ks
      ensures Round2(TotalAmount(Of(ByDate, txs, k))) <= Round2(s.revenue)
    {
      var j :| 0 <= j < |ks| && ks[j] == k;
      Round2Monotone(TotalAmount(Of(ByDate, txs, k)), s.revenue);
    }
    if s.date.None? {
      assert Round2(0.0) == 0.0 by {
        assert (0.0 * 100.0 + 0.5).Floor == 0;
      }
    } else {
      var j :| 0 <= j < |ks| && ks[j] == s.date.value;
    }
  }

  /** Among the dates first met before the peak date, every one has a strictly
      smaller exact revenue. */
  lemma PeakIsFirst(txs: seq<Transaction>)
    ensures var p, ks := PeakOf(txs), Keys(ByDate, txs);
            forall i, j :: 0 <= i < j < |ks| && p.date == Some(ks[j]) ==>
                           TotalAmount(Of(ByDate, txs, ks[i])) < TotalAmount(Of(ByDate, txs, ks[j]))
  {
    var ks := Keys(ByDate, txs);
    KeysDistinct(ByDate, txs);
    ScanFirstWins(txs, ks);
    ScanWitness(txs, ks);
  }

  /** On validated records (positive quantities and prices) a non-empty input
      always has a peak date. */
  lemma PeakOfValid(txs: seq<Transaction>)
    requires |txs| > 0
    requires forall i :: 0 <= i < |txs| ==> txs[i].quantity > 0 && txs[i].unitPrice > 0.0
    ensures PeakOf(txs).date.Some?
  {
    var k := KeyOf(ByDate, txs[0]);
    var grp := Of(ByDate, txs, k);
    KeysAreRecordKeys(ByDate, txs);
    KeysSpec(ByDate, txs);
    OfSpec(ByDate, txs, k);
    forall m | 0 <= m < |grp|
      ensures grp[m].quantity > 0 && grp[m].unitPrice > 0.0
    {
      assert grp[m] in txs;
    }
    PositiveTotal(grp);
    PeakOfSpec(txs);
  }
}
