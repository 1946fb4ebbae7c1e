/**
 * Group-by over transactions, as the aggregators do it with an
 * insertion-ordered Python dict: the groups are listed in order of first
 * appearance and each group holds its records in input order.
 * Every aggregator's per-key accumulator is a measure of `Of(g, txs, k)`.
 */
module Grouping {
  import opened Text
  import opened Records
  import opened Sorting

  datatype GroupBy = ByRegion | ByProduct | ByCustomer | ByDate

  /** The dictionary key an aggregator files a record under. */
  function KeyOf(g: GroupBy, t: Transaction): string {
    match g
    case ByRegion => t.region
    case ByProduct => t.productName
    case ByCustomer => Strip(t.customerId)
    case ByDate => t.date
  }

  /** The records filed under `k`, in input order. */
  function Of(g: GroupBy, txs: seq<Transaction>, k: string): seq<Transaction> {
    if |txs| == 0 then []
    else
      var t := txs[|txs| - 1];
      Of(g, txs[..|txs| - 1], k) + (if KeyOf(g, t) == k then [t] else [])
  }

  /** The keys in order of first appearance: the iteration order of the dict. */
  function Keys(g: GroupBy, txs: seq<Transaction>): seq<string> {
    if |txs| == 0 then []
    else
      var ks := Keys(g, txs[..|txs| - 1]);
      var k := KeyOf(g, txs[|txs| - 1]);
      if k in ks then ks else ks + [k]
  }

  /** Records with a non-blank customer id; the customer rollup skips the others. */
  function Named(txs: seq<Transaction>): seq<Transaction> {
    if |txs| == 0 then []
    else
      var t := txs[|txs| - 1];
      Named(txs[..|txs| - 1]) + (if Strip(t.customerId) != "" then [t] else [])
  }

  /** The distinct raw customer ids of some records. */
  function CustomerSet(txs: seq<Transaction>): set<string> {
    if |txs| == 0 then {} else CustomerSet(txs[..|txs| - 1]) + {txs[|txs| - 1].customerId}
  }

  // ---------------------------------------------------------------------------
  // Appending one record (the step of every accumulation loop)

  lemma OfAppend(g: GroupBy, txs: seq<Transaction>, t: Transaction, k: string)
    ensures Of(g, txs + [t], k) == Of(g, txs, k) + (if KeyOf(g, t) == k then [t] else [])
  {
    assert (txs + [t])[..|txs|] == txs;
  }

  lemma KeysAppend(g: GroupBy, txs: seq<Transaction>, t: Transaction)
    ensures Keys(g, txs + [t]) ==
            if KeyOf(g, t) in Keys(g, txs) then Keys(g, txs) else Keys(g, txs) + [KeyOf(g, t)]
  {
    assert (txs + [t])[..|txs|] == txs;
  }

  lemma NamedAppend(txs: seq<Transaction>, t: Transaction)
    ensures Named(txs + [t]) == Named(txs) + (if Strip(t.customerId) != "" then [t] else [])
  {
    assert (txs + [t])[..|txs|] == txs;
  }

  /** The step of a loop over `txs` at index `i`, for `Named`. */
  lemma NamedPrefix(txs: seq<Transaction>, i: nat)
    requires i < |txs|
    ensures Named(txs[..i + 1]) == Named(txs[..i]) + (if Strip(txs[i].customerId) != "" then [txs[i]] else [])
  {
    assert txs[..i + 1][..i] == txs[..i];
  }

  lemma CustomerSetAppend(txs: seq<Transaction>, t: Transaction)
    ensures CustomerSet(txs + [t]) == CustomerSet(txs) + {t.customerId}
  {
    assert (txs + [t])[..|txs|] == txs;
  }

  lemma SumOfAppend(txs: seq<Transaction>, t: Transaction, f: Transaction -> real)
    ensures SumOf(txs + [t], f) == SumOf(txs, f) + f(t)
  {
    assert (txs + [t])[..|txs|] == txs;
  }

  lemma TotalsAppend(txs: seq<Transaction>, t: Transaction)
    ensures TotalAmount(txs + [t]) == TotalAmount(txs) + Amount(t)
    ensures TotalQuantity(txs + [t]) == TotalQuantity(txs) + t.quantity
  {
    assert (txs + [t])[..|txs|] == txs;
    SumOfAppend(txs, t, Amount);
  }

  /** One step of an accumulation loop: the new record either joins the group
      of a key already listed, or opens a new, previously empty group at the end. */
  lemma GroupStep(g: GroupBy, txs: seq<Transaction>, t: Transaction)
    ensures Keys(g, txs + [t]) ==
            if KeyOf(g, t) in Keys(g, txs) then Keys(g, txs) else Keys(g, txs) + [KeyOf(g, t)]
    ensures forall k :: Of(g, txs + [t], k) == Of(g, txs, k) + (if KeyOf(g, t) == k then [t] else [])
    ensures KeyOf(g, t) !in Keys(g, txs) ==> Of(g, txs, KeyOf(g, t)) == []
  {
    KeysAppend(g, txs, t);
    forall k
      ensures Of(g, txs + [t], k) == Of(g, txs, k) + (if KeyOf(g, t) == k then [t] else [])
    {
      OfAppend(g, txs, t, k);
    }
    KeysSpec(g, txs);
  }

  // ---------------------------------------------------------------------------
  // What the groups are

  /** The keys are listed once each, at most one per record, and a key is
      listed exactly when its group is non-empty. */
  lemma {:induction false} KeysSpec(g: GroupBy, txs: seq<Transaction>)
    ensures Distinct(Keys(g, txs))
    ensures |Keys(g, txs)| <= |txs|
    ensures |txs| > 0 ==> |Keys(g, txs)| > 0
    ensures forall k :: k in Keys(g, txs) <==> Of(g, txs, k) != []
  {
    if |txs| > 0 {
      var s, t := txs[..|txs| - 1], txs[|txs| - 1];
      assert txs == s + [t];
      KeysSpec(g, s);
      KeysAppend(g, s, t);
      forall k
        ensures k in Keys(g, txs) <==> Of(g, txs, k) != []
      {
        OfAppend(g, s, t, k);
      }
    }
  }

  /** The keys are exactly the keys the records carry. */
  lemma {:induction false} KeysAreRecordKeys(g: GroupBy, txs: seq<Transaction>)
    ensures forall k :: k in Keys(g, txs) <==> exists i :: 0 <= i < |txs| && KeyOf(g, txs[i]) == k
  {
    if |txs| > 0 {
      var s, t := txs[..|txs| - 1], txs[|txs| - 1];
      assert txs == s + [t];
      KeysAreRecordKeys(g, s);
      KeysAppend(g, s, t);
      forall k
        ensures k in Keys(g, txs) <==> exists i :: 0 <= i < |txs| && KeyOf(g, txs[i]) == k
      {
        if k in Keys(g, s) {
          var i :| 0 <= i < |s| && KeyOf(g, s[i]) == k;
          assert txs[i] == s[i];
        }
        if exists i :: 0 <= i < |txs| && KeyOf(g, txs[i]) == k {
          var i :| 0 <= i < |txs| && KeyOf(g, txs[i]) == k;
          if i < |s| {
            assert s[i] == txs[i];
          }
        }
      }
    }
  }

  /** The keys the records carry. */
  function Carried(g: GroupBy, txs: seq<Transaction>): set<string> {
    set i | 0 <= i < |txs| :: KeyOf(g, txs[i])
  }

  /** The set of listed keys is the set of keys the records carry. */
  lemma KeySet(g: GroupBy, txs: seq<Transaction>)
    ensures (set k | k in Keys(g, txs)) == Carried(g, txs)
  {
    KeysAreRecordKeys(g, txs);
    forall k | k in Carried(g, txs)
      ensures k in Keys(g, txs)
    {
      var i :| 0 <= i < |txs| && KeyOf(g, txs[i]) == k;
    }
  }

  /** Every record of group `k` carries key `k`, and no record is invented. */
  lemma {:induction false} OfSpec(g: GroupBy, txs: seq<Transaction>, k: string)
    ensures |Of(g, txs, k)| <= |txs|
    ensures forall i :: 0 <= i < |Of(g, txs, k)| ==> KeyOf(g, Of(g, txs, k)[i]) == k
    ensures forall t :: t in Of(g, txs, k) ==> t in txs
  {
    if |txs| > 0 {
      OfSpec(g, txs[..|txs| - 1], k);
      assert forall t :: t in txs[..|txs| - 1] ==> t in txs;
    }
  }

  /** A customer id has a non-blank stripped form on every named record. */
  lemma {:induction false} NamedSpec(txs: seq<Transaction>)
    ensures |Named(txs)| <= |txs|
    ensures forall i :: 0 <= i < |Named(txs)| ==> Strip(Named(txs)[i].customerId) != ""
  {
    if |txs| > 0 {
      NamedSpec(txs[..|txs| - 1]);
    }
  }

  /** A record is in group `k` exactly when it is one of the records and
      carries key `k`. */
  lemma {:induction false} OfMembers(g: GroupBy, txs: seq<Transaction>, k: string)
    ensures forall t :: t in Of(g, txs, k) <==> t in txs && KeyOf(g, t) == k
  {
    if |txs| > 0 {
      var s, t := txs[..|txs| - 1], txs[|txs| - 1];
      OfMembers(g, s, k);
      assert txs == s + [t];
    }
  }

  /** The customer set holds exactly the raw customer ids of the records. */
  lemma {:induction false} CustomerSetMembers(txs: seq<Transaction>)
    ensures forall c :: c in CustomerSet(txs) <==> exists i :: 0 <= i < |txs| && txs[i].customerId == c
  {
    if |txs| > 0 {
      var s := txs[..|txs| - 1];
      CustomerSetMembers(s);
      forall c
        ensures c in CustomerSet(txs) <==> exists i :: 0 <= i < |txs| && txs[i].customerId == c
      {
        if c in CustomerSet(s) {
          var i :| 0 <= i < |s| && s[i].customerId == c;
          assert txs[i] == s[i];
        }
        if exists i :: 0 <= i < |txs| && txs[i].customerId == c {
          var i :| 0 <= i < |txs| && txs[i].customerId == c;
          if i < |s| {
            assert s[i] == txs[i];
          }
        }
      }
    }
  }

  /** A group of `n` records has between 1 and `n` distinct customers. */
  lemma {:induction false} CustomerSetBounds(txs: seq<Transaction>)
    ensures |CustomerSet(txs)| <= |txs|
    ensures |txs| > 0 ==> |CustomerSet(txs)| >= 1
  {
    if |txs| > 0 {
      var s := txs[..|txs| - 1];
      CustomerSetBounds(s);
      assert txs[|txs| - 1].customerId in CustomerSet(txs);
    }
  }

  // ---------------------------------------------------------------------------
  // The groups partition the records

  /** The number of records over the groups `ks`. */
  function CountOver(g: GroupBy, txs: seq<Transaction>, ks: seq<string>): nat {
    if |ks| == 0 then 0
    else CountOver(g, txs, ks[..|ks| - 1]) + |Of(g, txs, ks[|ks| - 1])|
  }

  /** The sum of the measure `f` over the groups `ks`. */
  function SumOver(g: GroupBy, txs: seq<Transaction>, ks: seq<string>, f: Transaction -> real): real {
    if |ks| == 0 then 0.0
    else SumOver(g, txs, ks[..|ks| - 1], f) + SumOf(Of(g, txs, ks[|ks| - 1]), f)
  }

  /** The total amount over the groups `ks`. */
  function AmountOver(g: GroupBy, txs: seq<Transaction>, ks: seq<string>): real {
    SumOver(g, txs, ks, Amount)
  }

  /** Dropping the last record shrinks its own group only. */
  lemma OfLast(g: GroupBy, txs: seq<Transaction>, k: string)
    requires |txs| > 0
    ensures Of(g, txs, k) ==
            Of(g, txs[..|txs| - 1], k) + (if KeyOf(g, txs[|txs| - 1]) == k then [txs[|txs| - 1]] else [])
  {
  }

  /** The size and measure of one group before and after its last record. */
  lemma GroupLast(g: GroupBy, txs: seq<Transaction>, k: string, f: Transaction -> real)
    requires |txs| > 0
    ensures var s, t := txs[..|txs| - 1], txs[|txs| - 1];
            && |Of(g, txs, k)| == |Of(g, s, k)| + (if KeyOf(g, t) == k then 1 else 0)
            && SumOf(Of(g, txs, k), f) == SumOf(Of(g, s, k), f) + (if KeyOf(g, t) == k then f(t) else 0.0)
  {
    var s, t := txs[..|txs| - 1], txs[|txs| - 1];
    OfLast(g, txs, k);
    if KeyOf(g, t) == k {
      SumOfAppend(Of(g, s, k), t, f);
    } else {
      assert Of(g, txs, k) == Of(g, s, k);
    }
  }

  /** Dropping the last record from the groups `ks` removes it from its own
      group's count, if that group is among `ks`. */
  lemma {:induction false} CountOverLast(g: GroupBy, txs: seq<Transaction>, ks: seq<string>)
    requires |txs| > 0 && Distinct(ks)
    ensures CountOver(g, txs, ks) ==
            CountOver(g, txs[..|txs| - 1], ks) + (if KeyOf(g, txs[|txs| - 1]) in ks then 1 else 0)
  {
    if |ks| > 0 {
      var init, k := ks[..|ks| - 1], ks[|ks| - 1];
      DistinctLast(ks);
      CountOverLast(g, txs, init);
      GroupLast(g, txs, k, Amount);
    }
  }

  /** The same for the sum of a measure. */
  lemma {:induction false} SumOverLast(g: GroupBy, txs: seq<Transaction>, ks: seq<string>, f: Transaction -> real)
    requires |txs| > 0 && Distinct(ks)
    ensures SumOver(g, txs, ks, f) ==
            SumOver(g, txs[..|txs| - 1], ks, f) + (if KeyOf(g, txs[|txs| - 1]) in ks then f(txs[|txs| - 1]) else 0.0)
  {
    if |ks| > 0 {
      var init, k := ks[..|ks| - 1], ks[|ks| - 1];
      DistinctLast(ks);
      SumOverLast(g, txs, init, f);
      GroupLast(g, txs, k, f);
    }
  }

  lemma KeysDistinct(g: GroupBy, txs: seq<Transaction>)
    ensures Distinct(Keys(g, txs))
  {
    KeysSpec(g, txs);
  }

  /** A key not met yet has no records. */
  lemma FreshKey(g: GroupBy, txs: seq<Transaction>, k: string)
    requires k !in Keys(g, txs)
    ensures Of(g, txs, k) == []
  {
    KeysSpec(g, txs);
  }

  /** Listing one more group adds its size and its measure. */
  lemma OverSnoc(g: GroupBy, txs: seq<Transaction>, ks: seq<string>, k: string, f: Transaction -> real)
    ensures CountOver(g, txs, ks + [k]) == CountOver(g, txs, ks) + |Of(g, txs, k)|
    ensures SumOver(g, txs, ks + [k], f) == SumOver(g, txs, ks, f) + SumOf(Of(g, txs, k), f)
  {
    assert (ks + [k])[..|ks|] == ks;
  }

  /** One more listed group of a prefix of `ks` adds its size. */
  lemma CountOverPrefix(g: GroupBy, txs: seq<Transaction>, ks: seq<string>, j: nat)
    requires j < |ks|
    ensures CountOver(g, txs, ks[..j + 1]) == CountOver(g, txs, ks[..j]) + |Of(g, txs, ks[j])|
  {
    assert ks[..j + 1][..j] == ks[..j];
  }

  /** The group sizes add up to the number of records. */
  lemma {:induction false} CountsAddUp(g: GroupBy, txs: seq<Transaction>)
    ensures CountOver(g, txs, Keys(g, txs)) == |txs|
  {
    if |txs| > 0 {
      var s, t := txs[..|txs| - 1], txs[|txs| - 1];
      var ks, k := Keys(g, s), KeyOf(g, t);
      CountsAddUp(g, s);
      KeysDistinct(g, s);
      CountOverLast(g, txs, ks);
      if k !in ks {
        assert Keys(g, txs) == ks + [k];
        OverSnoc(g, txs, ks, k, Amount);
        FreshKey(g, s, k);
        GroupLast(g, txs, k, Amount);
      } else {
        assert Keys(g, txs) == ks;
      }
    }
  }

  /** The group totals add up to the grand total (exactly, before any rounding). */
  lemma AmountsAddUp(g: GroupBy, txs: seq<Transaction>)
    ensures AmountOver(g, txs, Keys(g, txs)) == TotalAmount(txs)
  {
    SumsAddUp(g, txs, Amount);
  }

  /** The group sums of any measure add up to its sum over all records. */
  lemma {:induction false} SumsAddUp(g: GroupBy, txs: seq<Transaction>, f: Transaction -> real)
    ensures SumOver(g, txs, Keys(g, txs), f) == SumOf(txs, f)
  {
    if |txs| > 0 {
      var s, t := txs[..|txs| - 1], txs[|txs| - 1];
      var ks, k := Keys(g, s), KeyOf(g, t);
      SumsAddUp(g, s, f);
      KeysDistinct(g, s);
      SumOverLast(g, txs, ks, f);
      if k !in ks {
        assert Keys(g, txs) == ks + [k];
        OverSnoc(g, txs, ks, k, f);
        FreshKey(g, s, k);
        GroupLast(g, txs, k, f);
      } else {
        assert Keys(g, txs) == ks;
      }
    }
  }

  // ---------------------------------------------------------------------------
  // The accumulator dict an aggregation loop builds

  /** A per-key accumulator fed one record at a time, in order, from `zero`. */
  function Fold<V>(txs: seq<Transaction>, zero: V, step: (V, Transaction) -> V): V {
    if |txs| == 0 then zero else step(Fold(txs[..|txs| - 1], zero, step), txs[|txs| - 1])
  }

  /** The dict an aggregation loop builds, record by record: a key met for the
      first time gets a fresh `zero` entry, then the record is added to its
      key's entry with `step`. */
  function Tally<V>(g: GroupBy, txs: seq<Transaction>, zero: V, step: (V, Transaction) -> V): map<string, V> {
    if |txs| == 0 then map[]
    else
      var stats, t := Tally(g, txs[..|txs| - 1], zero, step), txs[|txs| - 1];
      var k := KeyOf(g, t);
      var seeded := if k in stats then stats else stats[k := zero];
      seeded[k := step(seeded[k], t)]
  }

  /** One more record: its key gets a fresh `zero` entry if it has none yet,
      then the record is added to that entry. */
  lemma TallyAppend<V>(g: GroupBy, txs: seq<Transaction>, t: Transaction, zero: V, step: (V, Transaction) -> V)
    ensures var stats, k := Tally(g, txs, zero, step), KeyOf(g, t);
            var seeded := if k in stats then stats else stats[k := zero];
            Tally(g, txs + [t], zero, step) == seeded[k := step(seeded[k], t)]
  {
    assert (txs + [t])[..|txs|] == txs;
  }

  /** The dict has an entry for exactly the keys met so far. */
  lemma {:induction false} TallyKeys<V>(g: GroupBy, txs: seq<Transaction>, zero: V, step: (V, Transaction) -> V)
    ensures forall k :: k in Tally(g, txs, zero, step) <==> k in Keys(g, txs)
  {
    if |txs| > 0 {
      var prefix, t := txs[..|txs| - 1], txs[|txs| - 1];
      assert txs == prefix + [t];
      TallyKeys(g, prefix, zero, step);
      KeysAppend(g, prefix, t);
    }
  }

  /** Each entry is its key's group folded in input order: grouping first and
      then accumulating gives what the single pass over the records gives. */
  lemma {:induction false} TallyValues<V>(g: GroupBy, txs: seq<Transaction>, zero: V, step: (V, Transaction) -> V)
    ensures forall k :: k in Tally(g, txs, zero, step) ==>
                        Tally(g, txs, zero, step)[k] == Fold(Of(g, txs, k), zero, step)
  {
    if |txs| > 0 {
      var prefix, t := txs[..|txs| - 1], txs[|txs| - 1];
      assert txs == prefix + [t];
      TallyValues(g, prefix, zero, step);
      TallyKeys(g, prefix, zero, step);
      var stats, next := Tally(g, prefix, zero, step), Tally(g, txs, zero, step);
      forall k | k in next
        ensures next[k] == Fold(Of(g, txs, k), zero, step)
      {
        OfAppend(g, prefix, t, k);
        if k == KeyOf(g, t) {
          if k !in stats {
            KeysSpec(g, prefix);
          }
          var grp := Of(g, prefix, k);
          assert (grp + [t])[..|grp|] == grp;
        } else {
          assert Of(g, txs, k) == Of(g, prefix, k) + [] == Of(g, prefix, k);
          assert k in stats && next[k] == stats[k];
        }
      }
    }
  }
}
