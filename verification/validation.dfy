/**
 * `validate_and_filter`: a validation pass that drops and counts invalid
 * records, then an optional exact-region filter, then an optional inclusive
 * amount-range filter, with a summary of how many records each stage removed.
 */
module Validation {
  import opened Wrappers
  import opened Text
  import opened Records
  import opened Sorting

  /** The six validity checks. */
  predicate IsValid(t: Transaction) {
    && t.quantity > 0
    && t.unitPrice > 0.0
    && StartsWith(t.transactionId, "T")
    && StartsWith(t.productId, "P")
    && StartsWith(t.customerId, "C")
    && t.region != ""
  }

  /** Python's `if region:` — the filter runs only for a non-empty region. */
  predicate RegionRequested(region: Option<string>) {
    region.Some? && region.value != ""
  }

  predicate AmountRequested(minAmount: Option<real>, maxAmount: Option<real>) {
    minAmount.Some? || maxAmount.Some?
  }

  /** Inclusive bounds; an absent bound does not constrain. */
  predicate WithinBounds(t: Transaction, minAmount: Option<real>, maxAmount: Option<real>) {
    && (minAmount.None? || Amount(t) >= minAmount.value)
    && (maxAmount.None? || Amount(t) <= maxAmount.value)
  }

  /** Everything a record must satisfy to come out of `validate_and_filter`. */
  predicate Keep(t: Transaction, region: Option<string>, minAmount: Option<real>, maxAmount: Option<real>) {
    && IsValid(t)
    && (RegionRequested(region) ==> t.region == region.value)
    && WithinBounds(t, minAmount, maxAmount)
  }

  // ---------------------------------------------------------------------------
  // The three stages, each keeping input order

  function ValidOnly(txs: seq<Transaction>): seq<Transaction> {
    if |txs| == 0 then []
    else
      var t := txs[|txs| - 1];
      ValidOnly(txs[..|txs| - 1]) + (if IsValid(t) then [t] else [])
  }

  /** `[tx for tx in filtered if tx["Region"] == region]`. */
  function InRegion(txs: seq<Transaction>, region: string): seq<Transaction> {
    if |txs| == 0 then []
    else
      var t := txs[|txs| - 1];
      InRegion(txs[..|txs| - 1], region) + (if t.region == region then [t] else [])
  }

  function InAmountRange(txs: seq<Transaction>, minAmount: Option<real>, maxAmount: Option<real>): seq<Transaction> {
    if |txs| == 0 then []
    else
      var t := txs[|txs| - 1];
      InAmountRange(txs[..|txs| - 1], minAmount, maxAmount)
        + (if WithinBounds(t, minAmount, maxAmount) then [t] else [])
  }

  function AfterRegion(valid: seq<Transaction>, region: Option<string>): seq<Transaction> {
    if RegionRequested(region) then InRegion(valid, region.value) else valid
  }

  function AfterAmount(txs: seq<Transaction>, minAmount: Option<real>, maxAmount: Option<real>): seq<Transaction> {
    if AmountRequested(minAmount, maxAmount) then InAmountRange(txs, minAmount, maxAmount) else txs
  }

  /** The records `Keep` accepts, in input order: what the three stages leave. */
  function Selected(txs: seq<Transaction>, region: Option<string>, minAmount: Option<real>, maxAmount: Option<real>): seq<Transaction> {
    if |txs| == 0 then []
    else
      var t := txs[|txs| - 1];
      Selected(txs[..|txs| - 1], region, minAmount, maxAmount)
        + (if Keep(t, region, minAmount, maxAmount) then [t] else [])
  }

  datatype FilterSummary = FilterSummary(
    totalInput: nat,
    invalid: nat,
    filteredByRegion: nat,
    filteredByAmount: nat,
    finalCount: nat)

  /** `validate_and_filter(transactions, region, min_amount, max_amount)`. */
  method ValidateAndFilter(txs: seq<Transaction>, region: Option<string>,
                           minAmount: Option<real>, maxAmount: Option<real>)
    returns (filtered: seq<Transaction>, invalidCount: nat, summary: FilterSummary)
    ensures filtered == Selected(txs, region, minAmount, maxAmount)
    ensures invalidCount == summary.invalid == |txs| - |ValidOnly(txs)|
    ensures summary.totalInput == |txs| && summary.finalCount == |filtered|
    ensures summary.totalInput ==
            summary.invalid + summary.filteredByRegion + summary.filteredByAmount + summary.finalCount
    ensures summary.filteredByRegion == |ValidOnly(txs)| - |AfterRegion(ValidOnly(txs), region)|
    ensures summary.filteredByAmount == |AfterRegion(ValidOnly(txs), region)| - |filtered|
    ensures !RegionRequested(region) ==> summary.filteredByRegion == 0
    ensures !AmountRequested(minAmount, maxAmount) ==> summary.filteredByAmount == 0
  {
    var totalInput := |txs|;
    var valid;
    valid, invalidCount := ValidationPhase(txs);
    StageLengths(txs, region, minAmount, maxAmount);

    // filtering phase
    filtered := valid;
    var byRegion, byAmount := 0, 0;
    if RegionRequested(region) {
      var before := |filtered|;
      filtered := InRegion(filtered, region.value);
      byRegion := before - |filtered|;
    }
    assert filtered == AfterRegion(valid, region);
    ghost var regional := filtered;
    if AmountRequested(minAmount, maxAmount) {
      var before := |filtered|;
      var result := AmountFilter(filtered, minAmount, maxAmount);
      byAmount := before - |result|;
      filtered := result;
    }
    assert filtered == AfterAmount(regional, minAmount, maxAmount);
    StagesSelect(txs, region, minAmount, maxAmount);
    summary := FilterSummary(totalInput, invalidCount, byRegion, byAmount, |filtered|);
  }

  /** The validation phase: keep the valid records in order, count the others. */
  method ValidationPhase(txs: seq<Transaction>) returns (valid: seq<Transaction>, invalidCount: nat)
    ensures valid == ValidOnly(txs)
    ensures |valid| <= |txs| && invalidCount == |txs| - |valid|
  {
    valid := [];
    invalidCount := 0;
    for i := 0 to |txs|
      invariant valid == ValidOnly(txs[..i])
      invariant |valid| <= i && invalidCount == i - |valid|
    {
      PrefixStep(txs, i);
      ValidOnlyAppend(txs[..i], txs[i]);
      var t := txs[i];
      if !IsValid(t) {
        invalidCount := invalidCount + 1;
        continue;
      }
      valid := valid + [t];
    }
    assert txs[..|txs|] == txs;
  }

  /** The amount loop of the filtering phase: keep the records whose amount
      is within the requested bounds, in order. */
  method AmountFilter(txs: seq<Transaction>, minAmount: Option<real>, maxAmount: Option<real>)
    returns (result: seq<Transaction>)
    ensures result == InAmountRange(txs, minAmount, maxAmount)
  {
    result := [];
    for j := 0 to |txs|
      invariant result == InAmountRange(txs[..j], minAmount, maxAmount)
    {
      PrefixStep(txs, j);
      InAmountRangeAppend(txs[..j], txs[j], minAmount, maxAmount);
      var t := txs[j];
      var amount := Amount(t);
      if minAmount.Some? && amount < minAmount.value {
        continue;
      }
      if maxAmount.Some? && amount > maxAmount.value {
        continue;
      }
      result := result + [t];
    }
    assert txs[..|txs|] == txs;
  }

  // ---------------------------------------------------------------------------
  // Properties

  lemma ValidOnlyAppend(txs: seq<Transaction>, t: Transaction)
    ensures ValidOnly(txs + [t]) == ValidOnly(txs) + (if IsValid(t) then [t] else [])
  {
    assert (txs + [t])[..|txs|] == txs;
  }

  lemma InAmountRangeAppend(txs: seq<Transaction>, t: Transaction, minAmount: Option<real>, maxAmount: Option<real>)
    ensures InAmountRange(txs + [t], minAmount, maxAmount) ==
            InAmountRange(txs, minAmount, maxAmount) + (if WithinBounds(t, minAmount, maxAmount) then [t] else [])
  {
    assert (txs + [t])[..|txs|] == txs;
  }

  lemma {:induction false} StageLengths(txs: seq<Transaction>, region: Option<string>,
                                        minAmount: Option<real>, maxAmount: Option<real>)
    ensures |ValidOnly(txs)| <= |txs|
    ensures |AfterRegion(ValidOnly(txs), region)| <= |ValidOnly(txs)|
    ensures |AfterAmount(AfterRegion(ValidOnly(txs), region), minAmount, maxAmount)|
            <= |AfterRegion(ValidOnly(txs), region)|
  {
    FilterShrinks(txs, region, minAmount, maxAmount);
    FilterShrinks(ValidOnly(txs), region, minAmount, maxAmount);
    FilterShrinks(AfterRegion(ValidOnly(txs), region), region, minAmount, maxAmount);
  }

  lemma {:induction false} FilterShrinks(txs: seq<Transaction>, region: Option<string>,
                                         minAmount: Option<real>, maxAmount: Option<real>)
    ensures |ValidOnly(txs)| <= |txs|
    ensures RegionRequested(region) ==> |InRegion(txs, region.value)| <= |txs|
    ensures |InAmountRange(txs, minAmount, maxAmount)| <= |txs|
  {
    if |txs| > 0 {
      FilterShrinks(txs[..|txs| - 1], region, minAmount, maxAmount);
    }
  }

  /** The region and amount stages run over what validation left are the single
      filter by `Keep`. */
  lemma InRegionAppend(txs: seq<Transaction>, t: Transaction, region: string)
    ensures InRegion(txs + [t], region) == InRegion(txs, region) + (if t.region == region then [t] else [])
  {
    assert (txs + [t])[..|txs|] == txs;
  }

  lemma AfterRegionAppend(txs: seq<Transaction>, t: Transaction, region: Option<string>)
    ensures AfterRegion(txs + [t], region) ==
            AfterRegion(txs, region) + (if !RegionRequested(region) || t.region == region.value then [t] else [])
  {
    if RegionRequested(region) {
      InRegionAppend(txs, t, region.value);
    }
  }

  lemma AfterAmountAppend(txs: seq<Transaction>, t: Transaction, minAmount: Option<real>, maxAmount: Option<real>)
    ensures AfterAmount(txs + [t], minAmount, maxAmount) ==
            AfterAmount(txs, minAmount, maxAmount) + (if WithinBounds(t, minAmount, maxAmount) then [t] else [])
  {
    if AmountRequested(minAmount, maxAmount) {
      InAmountRangeAppend(txs, t, minAmount, maxAmount);
    }
  }

  lemma {:induction false} StagesSelect(txs: seq<Transaction>, region: Option<string>,
                                        minAmount: Option<real>, maxAmount: Option<real>)
    ensures AfterAmount(AfterRegion(ValidOnly(txs), region), minAmount, maxAmount)
            == Selected(txs, region, minAmount, maxAmount)
  {
    if |txs| > 0 {
      var s, t := txs[..|txs| - 1], txs[|txs| - 1];
      StagesSelect(s, region, minAmount, maxAmount);
      var v := ValidOnly(s);
      assert txs == s + [t];
      ValidOnlyAppend(s, t);
      if IsValid(t) {
        AfterRegionAppend(v, t, region);
        var a := AfterRegion(v, region);
        if !RegionRequested(region) || t.region == region.value {
          AfterAmountAppend(a, t, minAmount, maxAmount);
        } else {
          assert a + [] == a;
        }
      } else {
        assert v + [] == v;
      }
    }
  }


  /** What comes out is exactly the input records `Keep` accepts. */
  lemma {:induction false} SelectedMembers(txs: seq<Transaction>, region: Option<string>,
                                           minAmount: Option<real>, maxAmount: Option<real>)
    ensures forall t :: t in Selected(txs, region, minAmount, maxAmount) <==>
                        t in txs && Keep(t, region, minAmount, maxAmount)
  {
    if |txs| > 0 {
      var s := txs[..|txs| - 1];
      SelectedMembers(s, region, minAmount, maxAmount);
      assert txs == s + [txs[|txs| - 1]];
    }
  }

  /** `a` can be obtained from `b` by deleting elements. */
  predicate IsSubsequence(a: seq<Transaction>, b: seq<Transaction>)
    decreases |b|
  {
    if |a| == 0 then true
    else if |b| == 0 then false
    else if a[|a| - 1] == b[|b| - 1] then IsSubsequence(a[..|a| - 1], b[..|b| - 1])
    else IsSubsequence(a, b[..|b| - 1])
  }

  /** Filtering keeps the input order: the output is a subsequence of the input. */
  lemma {:induction false} SelectedIsSubsequence(txs: seq<Transaction>, region: Option<string>,
                                                 minAmount: Option<real>, maxAmount: Option<real>)
    ensures IsSubsequence(Selected(txs, region, minAmount, maxAmount), txs)
  {
    if |txs| > 0 {
      var s, t := txs[..|txs| - 1], txs[|txs| - 1];
      var r := Selected(s, region, minAmount, maxAmount);
      SelectedIsSubsequence(s, region, minAmount, maxAmount);
      if Keep(t, region, minAmount, maxAmount) {
        assert (r + [t])[..|r|] == r;
      } else {
        assert r + [] == r;
        SubsequenceOfLonger(r, s, t);
      }
    }
  }

  lemma {:induction false} SubsequenceOfLonger(a: seq<Transaction>, b: seq<Transaction>, t: Transaction)
    requires IsSubsequence(a, b)
    ensures IsSubsequence(a, b + [t])
    decreases |b|, 1
  {
    if |a| > 0 {
      var bt := b + [t];
      assert bt[..|bt| - 1] == b;
      if a[|a| - 1] == t {
        // the last element now matches `t`; what precedes it must lie inside `b`
        SubsequenceDropLast(a, b);
      }
    }
  }

  lemma {:induction false} SubsequenceDropLast(a: seq<Transaction>, b: seq<Transaction>)
    requires |a| > 0 && IsSubsequence(a, b)
    ensures IsSubsequence(a[..|a| - 1], b)
    decreases |b|, 0
  {
    var init := b[..|b| - 1];
    assert init + [b[|b| - 1]] == b;
    if a[|a| - 1] != b[|b| - 1] {
      SubsequenceDropLast(a, init);
    }
    SubsequenceOfLonger(a[..|a| - 1], init, b[|b| - 1]);
  }

  /** Every record that comes out is valid, is in the requested region and
      has its amount inside the requested bounds, and the output keeps input order. */
  lemma ValidateAndFilterGuarantees(txs: seq<Transaction>, region: Option<string>,
                                    minAmount: Option<real>, maxAmount: Option<real>)
    ensures forall t :: t in Selected(txs, region, minAmount, maxAmount) ==>
              && t.quantity > 0 && t.unitPrice > 0.0
              && StartsWith(t.transactionId, "T") && StartsWith(t.productId, "P")
              && StartsWith(t.customerId, "C") && t.region != ""
              && (RegionRequested(region) ==> t.region == region.value)
              && (minAmount.Some? ==> minAmount.value <= Amount(t))
              && (maxAmount.Some? ==> Amount(t) <= maxAmount.value)
    ensures IsSubsequence(Selected(txs, region, minAmount, maxAmount), txs)
  {
    SelectedMembers(txs, region, minAmount, maxAmount);
    SelectedIsSubsequence(txs, region, minAmount, maxAmount);
  }
}
