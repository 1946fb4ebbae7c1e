/**
 * Python's `sorted(xs, key=k, reverse=True)` and `sorted(xs)`: both are
 * stable, so elements whose keys tie keep the order they had in `xs`.
 * The two sorts are insertion sorts over sequences:
 *   - SortByRank orders by a numeric key, largest first;
 *   - SortByText orders by a string key in Python's string order, smallest first.
 */
module Sorting {
  import opened Text

  /** A loop's prefix grows by the element at the loop index. */
  lemma PrefixStep<T>(s: seq<T>, j: nat)
    requires j < |s|
    ensures s[..j + 1] == s[..j] + [s[j]]
  {
  }

  predicate Distinct<T(==)>(s: seq<T>) {
    forall i, j :: 0 <= i < j < |s| ==> s[i] != s[j]
  }

  /** A distinct list is its distinct front followed by a last element that is
      not in the front. */
  lemma DistinctLast<T>(s: seq<T>)
    requires |s| > 0 && Distinct(s)
    ensures s == s[..|s| - 1] + [s[|s| - 1]]
    ensures Distinct(s[..|s| - 1])
    ensures s[|s| - 1] !in s[..|s| - 1]
  {
  }

  // ---------------------------------------------------------------------------
  // Descending by a numeric key

  function InsertByRank<T>(x: T, s: seq<T>, rank: T -> real): (r: seq<T>)
    ensures |r| == |s| + 1
  {
    if |s| == 0 || rank(s[0]) <= rank(x) then [x] + s
    else [s[0]] + InsertByRank(x, s[1..], rank)
  }

  /** `sorted(s, key=rank, reverse=True)`. */
  function SortByRank<T>(s: seq<T>, rank: T -> real): (r: seq<T>)
    ensures |r| == |s|
  {
    if |s| == 0 then [] else InsertByRank(s[0], SortByRank(s[1..], rank), rank)
  }

  predicate NonIncreasing<T>(s: seq<T>, rank: T -> real) {
    forall i, j :: 0 <= i < j < |s| ==> rank(s[i]) >= rank(s[j])
  }

  /** In a list ordered largest first, everything in a prefix ranks at least
      as high as anything left out of it. */
  lemma PrefixRanksHigher<T>(s: seq<T>, m: nat, rank: T -> real, kept: T, dropped: T)
    requires NonIncreasing(s, rank) && m <= |s|
    requires kept in s[..m] && dropped in s && dropped !in s[..m]
    ensures rank(kept) >= rank(dropped)
  {
    var i :| 0 <= i < m && s[i] == kept;
    var j :| 0 <= j < |s| && s[j] == dropped;
  }

  /** The elements of `s` whose key is `v`, in their order in `s`. */
  function WithRank<T>(s: seq<T>, rank: T -> real, v: real): seq<T> {
    if |s| == 0 then [] else (if rank(s[0]) == v then [s[0]] else []) + WithRank(s[1..], rank, v)
  }

  lemma {:induction false} InsertByRankPermutes<T>(x: T, s: seq<T>, rank: T -> real)
    ensures multiset(InsertByRank(x, s, rank)) == multiset(s) + multiset{x}
  {
    if |s| > 0 && rank(s[0]) > rank(x) {
      InsertByRankPermutes(x, s[1..], rank);
      assert s == [s[0]] + s[1..];
    }
  }

  lemma {:induction false} InsertByRankSorted<T>(x: T, s: seq<T>, rank: T -> real)
    requires NonIncreasing(s, rank)
    ensures NonIncreasing(InsertByRank(x, s, rank), rank)
  {
    var r := InsertByRank(x, s, rank);
    if |s| == 0 || rank(s[0]) <= rank(x) {
      assert forall j :: 0 <= j < |s| ==> rank(s[j]) <= rank(s[0]);
    } else {
      var t := InsertByRank(x, s[1..], rank);
      InsertByRankSorted(x, s[1..], rank);
      InsertByRankPermutes(x, s[1..], rank);
      assert r == [s[0]] + t;
      forall j | 0 < j < |r|
        ensures rank(r[0]) >= rank(r[j])
      {
        assert r[j] == t[j - 1];
        assert t[j - 1] in multiset(t);
        assert r[j] == x || r[j] in multiset(s[1..]);
      }
    }
  }

  lemma {:induction false} InsertByRankStable<T>(x: T, s: seq<T>, rank: T -> real, v: real)
    requires NonIncreasing(s, rank)
    ensures WithRank(InsertByRank(x, s, rank), rank, v) == WithRank([x] + s, rank, v)
  {
    if |s| > 0 && rank(s[0]) > rank(x) {
      InsertByRankStable(x, s[1..], rank, v);
      var t := InsertByRank(x, s[1..], rank);
      assert InsertByRank(x, s, rank) == [s[0]] + t;
      assert ([s[0]] + t)[1..] == t;
      assert ([x] + s)[1..] == s;
      assert ([x] + s[1..])[1..] == s[1..];
    }
  }

  /** The sort is ordered, is a permutation, and is stable: for every key value,
      the elements carrying it appear in the same order as in the input. */
  lemma SortByRankSpec<T>(s: seq<T>, rank: T -> real)
    ensures NonIncreasing(SortByRank(s, rank), rank)
    ensures multiset(SortByRank(s, rank)) == multiset(s)
    ensures forall v :: WithRank(SortByRank(s, rank), rank, v) == WithRank(s, rank, v)
  {
    SortByRankSorted(s, rank);
    SortByRankPermutes(s, rank);
    forall v
      ensures WithRank(SortByRank(s, rank), rank, v) == WithRank(s, rank, v)
    {
      SortByRankStable(s, rank, v);
    }
  }

  lemma {:induction false} SortByRankSorted<T>(s: seq<T>, rank: T -> real)
    ensures NonIncreasing(SortByRank(s, rank), rank)
  {
    if |s| > 0 {
      SortByRankSorted(s[1..], rank);
      InsertByRankSorted(s[0], SortByRank(s[1..], rank), rank);
    }
  }

  lemma {:induction false} SortByRankPermutes<T>(s: seq<T>, rank: T -> real)
    ensures multiset(SortByRank(s, rank)) == multiset(s)
  {
    if |s| > 0 {
      SortByRankPermutes(s[1..], rank);
      InsertByRankPermutes(s[0], SortByRank(s[1..], rank), rank);
      assert s == [s[0]] + s[1..];
    }
  }

  lemma {:induction false} SortByRankStable<T>(s: seq<T>, rank: T -> real, v: real)
    ensures WithRank(SortByRank(s, rank), rank, v) == WithRank(s, rank, v)
  {
    if |s| > 0 {
      var t := SortByRank(s[1..], rank);
      SortByRankStable(s[1..], rank, v);
      SortByRankSorted(s[1..], rank);
      InsertByRankStable(s[0], t, rank, v);
      assert ([s[0]] + t)[1..] == t;
      assert s == [s[0]] + s[1..];
    }
  }

  // ---------------------------------------------------------------------------
  // Ascending by a string key

  function InsertByText<T>(x: T, s: seq<T>, text: T -> string): (r: seq<T>)
    ensures |r| == |s| + 1
  {
    if |s| == 0 || Below(text(x), text(s[0])) then [x] + s
    else [s[0]] + InsertByText(x, s[1..], text)
  }

  /** `sorted(s, key=text)`. */
  function SortByText<T>(s: seq<T>, text: T -> string): (r: seq<T>)
    ensures |r| == |s|
  {
    if |s| == 0 then [] else InsertByText(s[0], SortByText(s[1..], text), text)
  }

  /** A string as its own sort key: `sorted` on a list of strings. */
  function Itself(s: string): string {
    s
  }

  predicate Ascending<T>(s: seq<T>, text: T -> string) {
    forall i, j :: 0 <= i < j < |s| ==> Below(text(s[i]), text(s[j]))
  }

  lemma {:induction false} InsertByTextPermutes<T>(x: T, s: seq<T>, text: T -> string)
    ensures multiset(InsertByText(x, s, text)) == multiset(s) + multiset{x}
  {
    if |s| > 0 && !Below(text(x), text(s[0])) {
      InsertByTextPermutes(x, s[1..], text);
      assert s == [s[0]] + s[1..];
    }
  }

  lemma {:induction false} InsertByTextSorted<T>(x: T, s: seq<T>, text: T -> string)
    requires Ascending(s, text)
    ensures Ascending(InsertByText(x, s, text), text)
  {
    var r := InsertByText(x, s, text);
    if |s| == 0 || Below(text(x), text(s[0])) {
      forall j | 0 < j < |r|
        ensures Below(text(r[0]), text(r[j]))
      {
        if j > 1 {
          BelowTransitive(text(x), text(s[0]), text(s[j - 1]));
        }
      }
    } else {
      var t := InsertByText(x, s[1..], text);
      InsertByTextSorted(x, s[1..], text);
      InsertByTextPermutes(x, s[1..], text);
      assert r == [s[0]] + t;
      BelowTotal(text(x), text(s[0]));
      forall j | 0 < j < |r|
        ensures Below(text(r[0]), text(r[j]))
      {
        assert r[j] in multiset(t);
        assert r[j] == x || r[j] in multiset(s[1..]);
      }
    }
  }

  lemma InsertByTextSpec<T>(x: T, s: seq<T>, text: T -> string)
    requires Ascending(s, text)
    ensures Ascending(InsertByText(x, s, text), text)
    ensures multiset(InsertByText(x, s, text)) == multiset(s) + multiset{x}
  {
    InsertByTextSorted(x, s, text);
    InsertByTextPermutes(x, s, text);
  }

  /** The sort is ordered and is a permutation of its input. */
  lemma {:induction false} SortByTextSpec<T>(s: seq<T>, text: T -> string)
    ensures Ascending(SortByText(s, text), text)
    ensures multiset(SortByText(s, text)) == multiset(s)
  {
    if |s| > 0 {
      SortByTextSpec(s[1..], text);
      InsertByTextSpec(s[0], SortByText(s[1..], text), text);
      assert s == [s[0]] + s[1..];
    }
  }

  /** A permutation of a duplicate-free sequence is duplicate free. */
  lemma {:induction false} PermutationKeepsDistinct<T>(s: seq<T>, r: seq<T>)
    requires Distinct(s) && multiset(r) == multiset(s)
    ensures Distinct(r)
  {
    forall i, j | 0 <= i < j < |r|
      ensures r[i] != r[j]
    {
      if r[i] == r[j] {
        assert r == r[..i] + [r[i]] + r[i + 1..j] + [r[j]] + r[j + 1..];
        assert multiset(r)[r[i]] >= 2;
        DistinctCount(s, r[i]);
      }
    }
  }

  /** A permutation of a sequence whose elements have pairwise different keys
      has pairwise different keys too. */
  lemma PermutationKeepsKeys<T, K>(s: seq<T>, r: seq<T>, key: T -> K)
    requires multiset(r) == multiset(s)
    requires forall a, b :: 0 <= a < b < |s| ==> key(s[a]) != key(s[b])
    ensures forall i, j :: 0 <= i < j < |r| ==> key(r[i]) != key(r[j])
  {
    assert Distinct(s);
    PermutationKeepsDistinct(s, r);
    forall i, j | 0 <= i < j < |r|
      ensures key(r[i]) != key(r[j])
    {
      assert r[i] in multiset(s) && r[j] in multiset(s);
      var a :| 0 <= a < |s| && s[a] == r[i];
      var b :| 0 <= b < |s| && s[b] == r[j];
      assert a != b;
    }
  }

  /** The keys the elements of `s` carry. */
  function KeysOf<T, K>(s: seq<T>, key: T -> K): set<K> {
    set i | 0 <= i < |s| :: key(s[i])
  }

  /** A permutation carries the same keys. */
  lemma PermutationKeepsKeysOf<T, K>(a: seq<T>, b: seq<T>, key: T -> K)
    requires multiset(a) == multiset(b)
    ensures KeysOf(a, key) == KeysOf(b, key)
  {
    forall k | k in KeysOf(a, key)
      ensures k in KeysOf(b, key)
    {
      var j :| 0 <= j < |a| && key(a[j]) == k;
      assert a[j] in multiset(b);
      var m :| 0 <= m < |b| && b[m] == a[j];
    }
    forall k | k in KeysOf(b, key)
      ensures k in KeysOf(a, key)
    {
      var j :| 0 <= j < |b| && key(b[j]) == k;
      assert b[j] in multiset(a);
      var m :| 0 <= m < |a| && a[m] == b[j];
    }
  }

  lemma {:induction false} DistinctCount<T>(s: seq<T>, x: T)
    requires Distinct(s)
    ensures multiset(s)[x] <= 1
  {
    if |s| > 0 {
      DistinctCount(s[1..], x);
      assert s == [s[0]] + s[1..];
      assert s[0] != x ==> multiset(s)[x] == multiset(s[1..])[x];
      assert s[0] == x ==> x !in s[1..];
    }
  }

  // ---------------------------------------------------------------------------
  // Sums are not changed by sorting

  /** The sum of `f` over the elements of `s`. */
  function SumBy<T>(s: seq<T>, f: T -> int): int {
    if |s| == 0 then 0 else f(s[0]) + SumBy(s[1..], f)
  }

  /** One more element of a prefix adds its measure. */
  lemma SumByPrefix<T>(s: seq<T>, j: nat, f: T -> int)
    requires j < |s|
    ensures SumBy(s[..j + 1], f) == SumBy(s[..j], f) + f(s[j])
  {
    PrefixStep(s, j);
    SumByConcat(s[..j], [s[j]], f);
  }

  lemma {:induction false} SumByConcat<T>(a: seq<T>, b: seq<T>, f: T -> int)
    ensures SumBy(a + b, f) == SumBy(a, f) + SumBy(b, f)
  {
    if |a| > 0 {
      SumByConcat(a[1..], b, f);
      assert (a + b)[1..] == a[1..] + b;
    } else {
      assert a + b == b;
    }
  }

  lemma {:induction false} InsertByRankSum<T>(x: T, s: seq<T>, rank: T -> real, f: T -> int)
    ensures SumBy(InsertByRank(x, s, rank), f) == f(x) + SumBy(s, f)
  {
    if |s| > 0 && rank(s[0]) > rank(x) {
      InsertByRankSum(x, s[1..], rank, f);
      assert ([s[0]] + InsertByRank(x, s[1..], rank))[1..] == InsertByRank(x, s[1..], rank);
    } else {
      assert ([x] + s)[1..] == s;
    }
  }

  /** Sorting reorders the elements, so it keeps every sum over them. */
  lemma {:induction false} SortByRankSum<T>(s: seq<T>, rank: T -> real, f: T -> int)
    ensures SumBy(SortByRank(s, rank), f) == SumBy(s, f)
  {
    if |s| > 0 {
      SortByRankSum(s[1..], rank, f);
      InsertByRankSum(s[0], SortByRank(s[1..], rank), rank, f);
    }
  }

  lemma {:induction false} InsertByTextSum<T>(x: T, s: seq<T>, text: T -> string, f: T -> int)
    ensures SumBy(InsertByText(x, s, text), f) == f(x) + SumBy(s, f)
  {
    if |s| > 0 && !Below(text(x), text(s[0])) {
      InsertByTextSum(x, s[1..], text, f);
      assert ([s[0]] + InsertByText(x, s[1..], text))[1..] == InsertByText(x, s[1..], text);
    } else {
      assert ([x] + s)[1..] == s;
    }
  }

  lemma {:induction false} SortByTextSum<T>(s: seq<T>, text: T -> string, f: T -> int)
    ensures SumBy(SortByText(s, text), f) == SumBy(s, f)
  {
    if |s| > 0 {
      SortByTextSum(s[1..], text, f);
      InsertByTextSum(s[0], SortByText(s[1..], text), text, f);
    }
  }
}
