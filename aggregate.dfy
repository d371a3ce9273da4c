/**
 * Plain list meanings of the table operations the dashboard relies on: a
 * column, its distinct values (`unique()`), the rows holding one key
 * (`df[df[col] == k]`), boolean filters, sums (a left fold, as `reduce` and
 * `sum()` compute), means, and the loop that appends one record per key,
 * taking the keys either in order of first appearance (`unique()`) or sorted
 * (`groupby`, `value_counts()`). The partition lemmas at the end say that the
 * per-key records of such a loop add up to the total over all rows, whatever
 * order the keys come in.
 */
module Aggregate {
  import opened Numbers
  import opened Ordering

  /** `unique()`: every value of `s` once, in the order of its first appearance. */
  function Distinct<K(==,!new)>(s: seq<K>): (r: seq<K>)
    ensures NoDuplicates(r)
    ensures forall k :: k in r <==> k in s
    ensures |r| <= |s|
  {
    if s == [] then []
    else
      var d := Distinct(s[..|s| - 1]);
      assert s == s[..|s| - 1] + [s[|s| - 1]];
      if s[|s| - 1] in d then d else d + [s[|s| - 1]]
  }

  /** The position of the first occurrence of `k` in `s`. */
  function FirstIndex<K(==,!new)>(s: seq<K>, k: K): (i: nat)
    requires k in s
    ensures i < |s| && s[i] == k
    ensures forall j :: 0 <= j < i ==> s[j] != k
  {
    if s[0] == k then 0 else 1 + FirstIndex(s[1..], k)
  }

  /** The column `key` of a table. */
  function Keys<T, K>(rows: seq<T>, key: T -> K): seq<K> {
    seq(|rows|, i requires 0 <= i < |rows| => key(rows[i]))
  }

  /** `rows[rows[key] == k]`: the rows whose key is `k`, in table order. */
  function Select<T(!new), K(==,!new)>(rows: seq<T>, key: T -> K, k: K): (r: seq<T>)
    ensures |r| <= |rows|
    ensures forall x :: x in r <==> x in rows && key(x) == k
    ensures k in Keys(rows, key) ==> |r| > 0
  {
    if rows == [] then []
    else
      var init := Select(rows[..|rows| - 1], key, k);
      assert Keys(rows, key) == Keys(rows[..|rows| - 1], key) + [key(rows[|rows| - 1])];
      if key(rows[|rows| - 1]) == k then init + [rows[|rows| - 1]] else init
  }

  /** The rows whose key is one of `ks`, in table order. */
  function SelectIn<T(!new), K(==,!new)>(rows: seq<T>, key: T -> K, ks: seq<K>): (r: seq<T>)
    ensures |r| <= |rows|
    ensures forall x :: x in r <==> x in rows && key(x) in ks
  {
    if rows == [] then []
    else
      var init := SelectIn(rows[..|rows| - 1], key, ks);
      if key(rows[|rows| - 1]) in ks then init + [rows[|rows| - 1]] else init
  }

  /** A boolean filter `rows[p(rows)]`, in table order. */
  function Where<T(!new)>(rows: seq<T>, p: T -> bool): (r: seq<T>)
    ensures |r| <= |rows|
    ensures forall x :: x in r <==> x in rows && p(x)
  {
    if rows == [] then []
    else
      var init := Where(rows[..|rows| - 1], p);
      assert rows == rows[..|rows| - 1] + [rows[|rows| - 1]];
      if p(rows[|rows| - 1]) then init + [rows[|rows| - 1]] else init
  }

  /** The sum of a real column: `0` for no rows, then added left to right. */
  function Sum<T>(rows: seq<T>, val: T -> real): real {
    if rows == [] then 0.0 else Sum(rows[..|rows| - 1], val) + val(rows[|rows| - 1])
  }

  /** The sum of an integer column. */
  function SumInt<T>(rows: seq<T>, val: T -> int): int {
    if rows == [] then 0 else SumInt(rows[..|rows| - 1], val) + val(rows[|rows| - 1])
  }

  /** The constant column 1, whose sum counts rows. */
  function One<T>(x: T): int { 1 }

  /** The mean of a real column over a non-empty group. */
  function MeanOf<T>(rows: seq<T>, val: T -> real): (m: real)
    requires |rows| > 0
    ensures m * |rows| as real == Sum(rows, val)
  {
    Sum(rows, val) / |rows| as real
  }

  /** pandas `mean()`: NaN for no rows. */
  function Mean<T>(rows: seq<T>, val: T -> real): (r: Number)
    ensures r == NaN <==> |rows| == 0
    ensures r != NaN ==> r.Finite? && r.value * |rows| as real == Sum(rows, val)
  {
    if |rows| == 0 then NaN else Finite(MeanOf(rows, val))
  }

  /** `part / whole * 100 if whole > 0 else 0`: a percentage protected against a zero or negative base. */
  function GuardedPercent(part: real, whole: real): (r: real)
    ensures whole > 0.0 ==> r * whole == part * 100.0
    ensures whole <= 0.0 ==> r == 0.0
  {
    if whole > 0.0 then part / whole * 100.0 else 0.0
  }

  /** `ks` names every key of the column exactly once. */
  ghost predicate ListsKeys<T, K(!new)>(rows: seq<T>, key: T -> K, ks: seq<K>) {
    NoDuplicates(ks) && forall k :: k in ks <==> k in Keys(rows, key)
  }

  /** `groupby(key)`'s keys: the distinct keys of the column, sorted by `lt`. */
  function SortedKeys<T, K(==,!new)>(rows: seq<T>, key: T -> K, lt: (K, K) -> bool): (ks: seq<K>)
    ensures ListsKeys(rows, key, ks)
  {
    SortByMembers(Distinct(Keys(rows, key)), lt);
    SortBy(Distinct(Keys(rows, key)), lt)
  }

  /** The order `value_counts()` lists keys in: a key with more rows comes first. */
  function MoreFrequent<T(!new), K(==,!new)>(rows: seq<T>, key: T -> K): (K, K) -> bool {
    (a: K, b: K) => |Select(rows, key, a)| > |Select(rows, key, b)|
  }

  /**
   * The loop `for k in ks: out.append(entry(k, rows[rows[key] == k]))`: one
   * record per listed key, in the order of `ks`, each built from that key's
   * (never empty) group.
   */
  function ForEach<T(!new), K(==,!new), E>(rows: seq<T>, key: T -> K, ks: seq<K>, entry: (K, seq<T>) --> E): (out: seq<E>)
    requires forall k :: k in ks ==> k in Keys(rows, key)
    requires forall k, g :: |g| > 0 ==> entry.requires(k, g)
    ensures |out| == |ks|
  {
    seq(|ks|, i requires 0 <= i < |ks| => entry(ks[i], Select(rows, key, ks[i])))
  }

  /** One record per distinct key, in order of first appearance: a loop over `unique()`. */
  function ForEachKey<T(!new), K(==,!new), E>(rows: seq<T>, key: T -> K, entry: (K, seq<T>) --> E): seq<E>
    requires forall k, g :: |g| > 0 ==> entry.requires(k, g)
  {
    ForEach(rows, key, Distinct(Keys(rows, key)), entry)
  }

  /** One record per group of `groupby(key)`, in the sorted order of the keys. */
  function GroupBy<T(!new), K(==,!new), E>(rows: seq<T>, key: T -> K, lt: (K, K) -> bool, entry: (K, seq<T>) --> E): seq<E>
    requires forall k, g :: |g| > 0 ==> entry.requires(k, g)
  {
    ForEach(rows, key, SortedKeys(rows, key, lt), entry)
  }

  /**
   * The record builder of a two-level grouping: the group of an outer key is
   * grouped again by `key`, in the order `lt`, one `point` per inner key, and
   * `wrap` pairs the outer key with the points.
   */
  function Nested<T(!new), K1(!new), K2(==,!new), P, E>(key: T -> K2, lt: (K2, K2) -> bool, point: (K2, seq<T>) --> P,
                                                       wrap: (K1, seq<P>) -> E): (f: (K1, seq<T>) -> E)
    requires forall k, g :: |g| > 0 ==> point.requires(k, g)
    ensures forall k1, g :: f(k1, g) == wrap(k1, GroupBy(g, key, lt, point))
  {
    (k1: K1, g: seq<T>) => wrap(k1, GroupBy(g, key, lt, point))
  }

  /** The imperative form of `ForEach`: a loop over the listed keys that appends. */
  method CollectPerKey<T(!new), K(==,!new), E>(rows: seq<T>, key: T -> K, ks: seq<K>, entry: (K, seq<T>) --> E)
    returns (out: seq<E>)
    requires forall k :: k in ks ==> k in Keys(rows, key)
    requires forall k, g :: |g| > 0 ==> entry.requires(k, g)
    ensures out == ForEach(rows, key, ks, entry)
  {
    out := [];
    for i := 0 to |ks|
      invariant out == ForEach(rows, key, ks, entry)[..i]
    {
      var group := Select(rows, key, ks[i]);
      out := out + [entry(ks[i], group)];
    }
  }

  /** The imperative form of `GroupBy`: the loop over the sorted keys. */
  method CollectGroups<T(!new), K(==,!new), E>(rows: seq<T>, key: T -> K, lt: (K, K) -> bool, entry: (K, seq<T>) --> E)
    returns (out: seq<E>)
    requires forall k, g :: |g| > 0 ==> entry.requires(k, g)
    ensures out == GroupBy(rows, key, lt, entry)
  {
    out := CollectPerKey(rows, key, SortedKeys(rows, key, lt), entry);
  }

  /** Record `i` of a two-level grouping wraps the inner grouping of the `i`-th outer group. */
  lemma NestedAt<T(!new), K1(!new), K2(!new), P, E>(rows: seq<T>, outer: T -> K1, ks: seq<K1>,
                                                   inner: T -> K2, lt: (K2, K2) -> bool,
                                                   point: (K2, seq<T>) --> P, wrap: (K1, seq<P>) -> E)
    requires forall k :: k in ks ==> k in Keys(rows, outer)
    requires forall k, g :: |g| > 0 ==> point.requires(k, g)
    ensures var out := ForEach(rows, outer, ks, Nested(inner, lt, point, wrap));
      forall i :: 0 <= i < |ks| ==> out[i] == wrap(ks[i], GroupBy(Select(rows, outer, ks[i]), inner, lt, point))
  {
  }

  /** The imperative form of a two-level grouping: an outer loop whose body runs the inner one. */
  method CollectNested<T(!new), K1(==,!new), K2(==,!new), P, E>(rows: seq<T>, outer: T -> K1, ks: seq<K1>,
                                                inner: T -> K2, lt: (K2, K2) -> bool,
                                                point: (K2, seq<T>) --> P, wrap: (K1, seq<P>) -> E)
    returns (out: seq<E>)
    requires forall k :: k in ks ==> k in Keys(rows, outer)
    requires forall k, g :: |g| > 0 ==> point.requires(k, g)
    ensures out == ForEach(rows, outer, ks, Nested(inner, lt, point, wrap))
  {
    out := [];
    for i := 0 to |ks|
      invariant |out| == i
      invariant forall j :: 0 <= j < i ==> out[j] == wrap(ks[j], GroupBy(Select(rows, outer, ks[j]), inner, lt, point))
    {
      var points := CollectGroups(Select(rows, outer, ks[i]), inner, lt, point);
      out := out + [wrap(ks[i], points)];
    }
    NestedAt(rows, outer, ks, inner, lt, point, wrap);
  }

  // ---------------------------------------------------------------------------
  // Facts about the operations above

  /** `unique()` lists keys in the order of their first appearance. */
  lemma {:induction false} DistinctInFirstAppearanceOrder<K(!new)>(s: seq<K>, i: nat, j: nat)
    requires i < j < |Distinct(s)|
    ensures FirstIndex(s, Distinct(s)[i]) < FirstIndex(s, Distinct(s)[j])
  {
    var init, last := s[..|s| - 1], s[|s| - 1];
    assert s == init + [last];
    var d := Distinct(init);
    FirstIndexOfPrefix(init, last, Distinct(s)[i]);
    if last in d || j < |d| {
      FirstIndexOfPrefix(init, last, Distinct(s)[j]);
      DistinctInFirstAppearanceOrder(init, i, j);
    }
  }

  lemma FirstIndexOfPrefix<K(!new)>(init: seq<K>, last: K, k: K)
    requires k in init
    ensures FirstIndex(init + [last], k) == FirstIndex(init, k)
  {
    assert (init + [last])[FirstIndex(init, k)] == k;
  }

  lemma KeysSnoc<T, K>(rows: seq<T>, x: T, key: T -> K)
    ensures Keys(rows + [x], key) == Keys(rows, key) + [key(x)]
  {
  }

  lemma SumSnoc<T>(rows: seq<T>, x: T, val: T -> real)
    ensures Sum(rows + [x], val) == Sum(rows, val) + val(x)
  {
    assert (rows + [x])[..|rows|] == rows;
  }

  lemma SumIntSnoc<T>(rows: seq<T>, x: T, val: T -> int)
    ensures SumInt(rows + [x], val) == SumInt(rows, val) + val(x)
  {
    assert (rows + [x])[..|rows|] == rows;
  }

  /** A sum over a concatenation is the sum of the two sums. */
  lemma {:induction false} SumConcat<T>(a: seq<T>, b: seq<T>, val: T -> real)
    ensures Sum(a + b, val) == Sum(a, val) + Sum(b, val)
    decreases |b|
  {
    if b == [] {
      assert a + b == a;
    } else {
      var init, x := b[..|b| - 1], b[|b| - 1];
      assert a + b == (a + init) + [x];
      SumSnoc(a + init, x, val);
      SumConcat(a, init, val);
    }
  }

  lemma {:induction false} SumIntConcat<T>(a: seq<T>, b: seq<T>, val: T -> int)
    ensures SumInt(a + b, val) == SumInt(a, val) + SumInt(b, val)
    decreases |b|
  {
    if b == [] {
      assert a + b == a;
    } else {
      var init, x := b[..|b| - 1], b[|b| - 1];
      assert a + b == (a + init) + [x];
      SumIntSnoc(a + init, x, val);
      SumIntConcat(a, init, val);
    }
  }

  lemma MultisetRemoveAt<T>(b: seq<T>, p: nat)
    requires p < |b|
    ensures multiset(b[..p] + b[p + 1..]) == multiset(b) - multiset{b[p]}
  {
    assert b == b[..p] + [b[p]] + b[p + 1..];
    assert multiset(b) == multiset(b[..p]) + multiset{b[p]} + multiset(b[p + 1..]);
  }

  lemma SumMiddle<T>(front: seq<T>, x: T, back: seq<T>, val: T -> real)
    ensures Sum(front + [x] + back, val) == Sum(front + back, val) + val(x)
  {
    SumConcat(front + [x], back, val);
    SumSnoc(front, x, val);
    SumConcat(front, back, val);
  }

  /** A sum does not depend on the order of its terms. */
  lemma {:induction false} SumPermutation<T>(a: seq<T>, b: seq<T>, val: T -> real)
    requires multiset(a) == multiset(b)
    ensures Sum(a, val) == Sum(b, val)
    decreases |a|
  {
    if a == [] {
      assert |b| == |multiset(b)|;
    } else {
      var init, x := a[..|a| - 1], a[|a| - 1];
      assert x in b by {
        assert x in multiset(a);
      }
      var p :| 0 <= p < |b| && b[p] == x;
      var rest := b[..p] + b[p + 1..];
      assert multiset(init) == multiset(rest) by {
        MultisetRemoveAt(a, |a| - 1);
        assert a[..|a| - 1] + a[|a|..] == init;
        MultisetRemoveAt(b, p);
      }
      assert Sum(b, val) == Sum(rest, val) + val(x) by {
        assert b == b[..p] + [x] + b[p + 1..];
        SumMiddle(b[..p], x, b[p + 1..], val);
      }
      SumPermutation(init, rest, val);
    }
  }

  lemma SumIntMiddle<T>(front: seq<T>, x: T, back: seq<T>, val: T -> int)
    ensures SumInt(front + [x] + back, val) == SumInt(front + back, val) + val(x)
  {
    SumIntConcat(front + [x], back, val);
    SumIntSnoc(front, x, val);
    SumIntConcat(front, back, val);
  }

  /** An integer sum, such as a JavaScript `reduce` over counts, does not depend on the order of its terms. */
  lemma {:induction false} SumIntPermutation<T>(a: seq<T>, b: seq<T>, val: T -> int)
    requires multiset(a) == multiset(b)
    ensures SumInt(a, val) == SumInt(b, val)
    decreases |a|
  {
    if a == [] {
      assert |b| == |multiset(b)|;
    } else {
      var init, x := a[..|a| - 1], a[|a| - 1];
      assert x in b by {
        assert x in multiset(a);
      }
      var p :| 0 <= p < |b| && b[p] == x;
      var rest := b[..p] + b[p + 1..];
      assert multiset(init) == multiset(rest) by {
        MultisetRemoveAt(a, |a| - 1);
        assert a[..|a| - 1] + a[|a|..] == init;
        MultisetRemoveAt(b, p);
      }
      assert SumInt(b, val) == SumInt(rest, val) + val(x) by {
        assert b == b[..p] + [x] + b[p + 1..];
        SumIntMiddle(b[..p], x, b[p + 1..], val);
      }
      SumIntPermutation(init, rest, val);
    }
  }

  /** Summing the constant 1 counts the rows. */
  lemma {:induction false} SumIntOne<T>(rows: seq<T>)
    ensures SumInt(rows, One) == |rows|
  {
    if rows != [] {
      SumIntOne(rows[..|rows| - 1]);
    }
  }

  /** A filter distributes over concatenation. */
  lemma {:induction false} WhereConcat<T(!new)>(a: seq<T>, b: seq<T>, p: T -> bool)
    ensures Where(a + b, p) == Where(a, p) + Where(b, p)
    decreases |b|
  {
    if b == [] {
      assert a + b == a;
    } else {
      var init, x := b[..|b| - 1], b[|b| - 1];
      assert a + b == (a + init) + [x];
      assert (a + b)[..|a + b| - 1] == a + init;
      WhereConcat(a, init, p);
    }
  }

  /** A row the filter rejects can be added anywhere without changing the filtered rows. */
  lemma WhereSkips<T(!new)>(a: seq<T>, x: T, b: seq<T>, p: T -> bool)
    requires !p(x)
    ensures Where(a + [x] + b, p) == Where(a + b, p)
  {
    WhereConcat(a + [x], b, p);
    WhereConcat(a, [x], p);
    WhereConcat(a, b, p);
    assert Where([x], p) == [];
  }

  /** The group of a key that occurs has a row for every occurrence; the group of a key that does not occur is empty. */
  lemma {:induction false} SelectAbsent<T(!new), K(!new)>(rows: seq<T>, key: T -> K, k: K)
    requires k !in Keys(rows, key)
    ensures Select(rows, key, k) == []
  {
    if rows != [] {
      assert Keys(rows, key) == Keys(rows[..|rows| - 1], key) + [key(rows[|rows| - 1])];
      SelectAbsent(rows[..|rows| - 1], key, k);
    }
  }

  /** Selecting every key that occurs keeps the whole table. */
  lemma {:induction false} SelectInAll<T(!new), K(!new)>(rows: seq<T>, key: T -> K, ks: seq<K>)
    requires forall i :: 0 <= i < |rows| ==> key(rows[i]) in ks
    ensures SelectIn(rows, key, ks) == rows
  {
    if rows != [] {
      SelectInAll(rows[..|rows| - 1], key, ks);
      assert rows == rows[..|rows| - 1] + [rows[|rows| - 1]];
    }
  }

  /** Adding a new key `k` to the selected keys adds exactly the sum of `k`'s group. */
  lemma {:induction false} SplitSum<T(!new), K(!new)>(rows: seq<T>, key: T -> K, val: T -> real, ks: seq<K>, k: K)
    requires k !in ks
    ensures Sum(SelectIn(rows, key, ks + [k]), val) == Sum(SelectIn(rows, key, ks), val) + Sum(Select(rows, key, k), val)
    decreases |rows|
  {
    if rows != [] {
      var init, x := rows[..|rows| - 1], rows[|rows| - 1];
      SplitSum(init, key, val, ks, k);
      if key(x) == k {
        SumSnoc(SelectIn(init, key, ks + [k]), x, val);
        SumSnoc(Select(init, key, k), x, val);
      } else if key(x) in ks {
        SumSnoc(SelectIn(init, key, ks + [k]), x, val);
        SumSnoc(SelectIn(init, key, ks), x, val);
      }
    }
  }

  lemma {:induction false} SplitSumInt<T(!new), K(!new)>(rows: seq<T>, key: T -> K, val: T -> int, ks: seq<K>, k: K)
    requires k !in ks
    ensures SumInt(SelectIn(rows, key, ks + [k]), val) == SumInt(SelectIn(rows, key, ks), val) + SumInt(Select(rows, key, k), val)
    decreases |rows|
  {
    if rows != [] {
      var init, x := rows[..|rows| - 1], rows[|rows| - 1];
      SplitSumInt(init, key, val, ks, k);
      if key(x) == k {
        SumIntSnoc(SelectIn(init, key, ks + [k]), x, val);
        SumIntSnoc(Select(init, key, k), x, val);
      } else if key(x) in ks {
        SumIntSnoc(SelectIn(init, key, ks + [k]), x, val);
        SumIntSnoc(SelectIn(init, key, ks), x, val);
      }
    }
  }

  /** When the `i`-th record carries the sum of the `i`-th key's rows, the first `j` records add up to the rows of the first `j` keys. */
  lemma {:induction false} SumsPerKey<T(!new), K(!new), E>(rows: seq<T>, key: T -> K, ks: seq<K>, out: seq<E>,
                                                    total: E -> real, val: T -> real, j: nat)
    requires |out| == |ks| && NoDuplicates(ks)
    requires forall i :: 0 <= i < |ks| ==> total(out[i]) == Sum(Select(rows, key, ks[i]), val)
    requires j <= |ks|
    ensures Sum(out[..j], total) == Sum(SelectIn(rows, key, ks[..j]), val)
  {
    if j == 0 {
      assert SelectIn(rows, key, []) == [] by { SelectInNone(rows, key); }
    } else {
      SumsPerKey(rows, key, ks, out, total, val, j - 1);
      SumsPerKeyStep(rows, key, ks, out, total, val, j);
    }
  }

  lemma SumsPerKeyStep<T(!new), K(!new), E>(rows: seq<T>, key: T -> K, ks: seq<K>, out: seq<E>,
                                        total: E -> real, val: T -> real, j: nat)
    requires 0 < j <= |ks| == |out| && NoDuplicates(ks)
    ensures Sum(out[..j], total) == Sum(out[..j - 1], total) + total(out[j - 1])
    ensures Sum(SelectIn(rows, key, ks[..j]), val)
         == Sum(SelectIn(rows, key, ks[..j - 1]), val) + Sum(Select(rows, key, ks[j - 1]), val)
  {
    assert out[..j] == out[..j - 1] + [out[j - 1]];
    SumSnoc(out[..j - 1], out[j - 1], total);
    assert ks[..j] == ks[..j - 1] + [ks[j - 1]];
    assert ks[j - 1] !in ks[..j - 1];
    SplitSum(rows, key, val, ks[..j - 1], ks[j - 1]);
  }

  lemma {:induction false} SumIntsPerKey<T(!new), K(!new), E>(rows: seq<T>, key: T -> K, ks: seq<K>, out: seq<E>,
                                                    total: E -> int, val: T -> int, j: nat)
    requires |out| == |ks| && NoDuplicates(ks)
    requires forall i :: 0 <= i < |ks| ==> total(out[i]) == SumInt(Select(rows, key, ks[i]), val)
    requires j <= |ks|
    ensures SumInt(out[..j], total) == SumInt(SelectIn(rows, key, ks[..j]), val)
  {
    if j == 0 {
      assert SelectIn(rows, key, []) == [] by { SelectInNone(rows, key); }
    } else {
      SumIntsPerKey(rows, key, ks, out, total, val, j - 1);
      SumIntsPerKeyStep(rows, key, ks, out, total, val, j);
    }
  }

  lemma SumIntsPerKeyStep<T(!new), K(!new), E>(rows: seq<T>, key: T -> K, ks: seq<K>, out: seq<E>,
                                        total: E -> int, val: T -> int, j: nat)
    requires 0 < j <= |ks| == |out| && NoDuplicates(ks)
    ensures SumInt(out[..j], total) == SumInt(out[..j - 1], total) + total(out[j - 1])
    ensures SumInt(SelectIn(rows, key, ks[..j]), val)
         == SumInt(SelectIn(rows, key, ks[..j - 1]), val) + SumInt(Select(rows, key, ks[j - 1]), val)
  {
    assert out[..j] == out[..j - 1] + [out[j - 1]];
    SumIntSnoc(out[..j - 1], out[j - 1], total);
    assert ks[..j] == ks[..j - 1] + [ks[j - 1]];
    assert ks[j - 1] !in ks[..j - 1];
    SplitSumInt(rows, key, val, ks[..j - 1], ks[j - 1]);
  }

  lemma {:induction false} SelectInNone<T(!new), K(!new)>(rows: seq<T>, key: T -> K)
    ensures SelectIn(rows, key, []) == []
  {
    if rows != [] {
      SelectInNone(rows[..|rows| - 1], key);
    }
  }

  /** Selecting a list of keys that names every key of the column keeps the whole table. */
  lemma SelectInListed<T(!new), K(!new)>(rows: seq<T>, key: T -> K, ks: seq<K>)
    requires ListsKeys(rows, key, ks)
    ensures SelectIn(rows, key, ks) == rows
  {
    forall i | 0 <= i < |rows| ensures key(rows[i]) in ks {
      assert Keys(rows, key)[i] == key(rows[i]);
    }
    SelectInAll(rows, key, ks);
  }

  /** Position `n` holds the table's last row whose key is `k`. */
  predicate LastOfKey<T, K(==)>(rows: seq<T>, key: T -> K, k: K, n: nat) {
    && n < |rows|
    && key(rows[n]) == k
    && forall m :: n < m < |rows| ==> key(rows[m]) != k
  }

  /** `groupby(key).last()` on a group without missing values is the table's last row with that key. */
  lemma {:induction false} SelectLast<T(!new), K(!new)>(rows: seq<T>, key: T -> K, k: K) returns (n: nat)
    requires k in Keys(rows, key)
    ensures LastOfKey(rows, key, k, n)
    ensures var g := Select(rows, key, k); rows[n] == g[|g| - 1]
  {
    var init, last := rows[..|rows| - 1], rows[|rows| - 1];
    assert rows == init + [last];
    KeysSnoc(init, last, key);
    if key(last) == k {
      n := |rows| - 1;
    } else {
      assert k in Keys(init, key);
      n := SelectLast(init, key, k);
      assert init[n] == rows[n];
    }
  }

  /**
   * `groupby(key).last()` keeps, for each listed key, a row of the table
   * with that key: the records' keys are the listed keys.
   */
  lemma ForEachLastKeys<T(!new), K(!new)>(rows: seq<T>, key: T -> K, ks: seq<K>, last: (K, seq<T>) --> T)
    requires forall k :: k in ks ==> k in Keys(rows, key)
    requires forall k, g :: |g| > 0 ==> last.requires(k, g) && last(k, g) == g[|g| - 1]
    ensures Keys(ForEach(rows, key, ks, last), key) == ks
    ensures forall i :: 0 <= i < |ks| ==> ForEach(rows, key, ks, last)[i] in rows
  {
    var out := ForEach(rows, key, ks, last);
    forall i | 0 <= i < |ks| ensures key(out[i]) == ks[i] && out[i] in rows {
      assert ks[i] in ks;
      var g := Select(rows, key, ks[i]);
      assert out[i] == g[|g| - 1];
      assert g[|g| - 1] in g;
    }
  }

  /** The row `groupby(key).last()` keeps for a listed key is the table's last row with that key. */
  lemma ForEachLast<T(!new), K(!new)>(rows: seq<T>, key: T -> K, ks: seq<K>, last: (K, seq<T>) --> T, i: nat) returns (n: nat)
    requires forall k :: k in ks ==> k in Keys(rows, key)
    requires forall k, g :: |g| > 0 ==> last.requires(k, g) && last(k, g) == g[|g| - 1]
    requires i < |ks|
    ensures LastOfKey(rows, key, ks[i], n)
    ensures ForEach(rows, key, ks, last)[i] == rows[n]
  {
    assert ks[i] in ks;
    var g := Select(rows, key, ks[i]);
    assert ForEach(rows, key, ks, last)[i] == g[|g| - 1];
    n := SelectLast(rows, key, ks[i]);
  }

  /** The last row a filter keeps is the table's last row that passes it. */
  lemma {:induction false} WhereLast<T(!new)>(rows: seq<T>, p: T -> bool, n: nat)
    requires n < |rows| && p(rows[n])
    requires forall m :: n < m < |rows| ==> !p(rows[m])
    ensures var w := Where(rows, p); |w| > 0 && w[|w| - 1] == rows[n]
  {
    var init := rows[..|rows| - 1];
    if n < |rows| - 1 {
      forall m | n < m < |init| ensures !p(init[m]) {
        assert init[m] == rows[m];
      }
      assert init[n] == rows[n];
      WhereLast(init, p, n);
    }
  }

  /**
   * When each record carries the key it was built for, the records' keys are
   * the listed keys, in their order: one record per listed key.
   */
  lemma ForEachLabels<T(!new), K(!new), E>(rows: seq<T>, key: T -> K, ks: seq<K>, entry: (K, seq<T>) --> E, keyOf: E -> K)
    requires forall k :: k in ks ==> k in Keys(rows, key)
    requires forall k, g :: |g| > 0 ==> entry.requires(k, g)
    requires forall k, g :: |g| > 0 ==> keyOf(entry(k, g)) == k
    ensures Keys(ForEach(rows, key, ks, entry), keyOf) == ks
  {
    forall i | 0 <= i < |ks| ensures keyOf(ForEach(rows, key, ks, entry)[i]) == ks[i] {
      assert ks[i] in ks;
      assert |Select(rows, key, ks[i])| > 0;
    }
  }

  /**
   * Partition: when every record carries the sum of its group, the records
   * together carry the sum over the whole table, whichever order lists the keys.
   */
  lemma ForEachSum<T(!new), K(!new), E>(rows: seq<T>, key: T -> K, ks: seq<K>, entry: (K, seq<T>) --> E,
                                        total: E -> real, val: T -> real)
    requires ListsKeys(rows, key, ks)
    requires forall k, g :: |g| > 0 ==> entry.requires(k, g)
    requires forall k, g :: |g| > 0 ==> total(entry(k, g)) == Sum(g, val)
    ensures Sum(ForEach(rows, key, ks, entry), total) == Sum(rows, val)
  {
    var out := ForEach(rows, key, ks, entry);
    forall i | 0 <= i < |ks| ensures total(out[i]) == Sum(Select(rows, key, ks[i]), val) {
      assert ks[i] in ks;
    }
    SumsPerKey(rows, key, ks, out, total, val, |ks|);
    assert out[..|ks|] == out;
    assert ks[..|ks|] == ks;
    SelectInListed(rows, key, ks);
  }

  lemma ForEachSumInt<T(!new), K(!new), E>(rows: seq<T>, key: T -> K, ks: seq<K>, entry: (K, seq<T>) --> E,
                                           total: E -> int, val: T -> int)
    requires ListsKeys(rows, key, ks)
    requires forall k, g :: |g| > 0 ==> entry.requires(k, g)
    requires forall k, g :: |g| > 0 ==> total(entry(k, g)) == SumInt(g, val)
    ensures SumInt(ForEach(rows, key, ks, entry), total) == SumInt(rows, val)
  {
    var out := ForEach(rows, key, ks, entry);
    forall i | 0 <= i < |ks| ensures total(out[i]) == SumInt(Select(rows, key, ks[i]), val) {
      assert ks[i] in ks;
    }
    SumIntsPerKey(rows, key, ks, out, total, val, |ks|);
    assert out[..|ks|] == out;
    assert ks[..|ks|] == ks;
    SelectInListed(rows, key, ks);
  }

  /** Partition of counts: when every record carries the size of its group, the sizes add up to the number of rows. */
  lemma ForEachCount<T(!new), K(!new), E>(rows: seq<T>, key: T -> K, ks: seq<K>, entry: (K, seq<T>) --> E, total: E -> int)
    requires ListsKeys(rows, key, ks)
    requires forall k, g :: |g| > 0 ==> entry.requires(k, g)
    requires forall k, g :: |g| > 0 ==> total(entry(k, g)) == |g|
    ensures SumInt(ForEach(rows, key, ks, entry), total) == |rows|
  {
    forall k, g | |g| > 0 ensures total(entry(k, g)) == SumInt(g, One) {
      SumIntOne(g);
    }
    ForEachSumInt(rows, key, ks, entry, total, One);
    SumIntOne(rows);
  }

  /** A loop over two key lists splits into the loops over each. */
  lemma ForEachConcat<T(!new), K(!new), E>(rows: seq<T>, key: T -> K, a: seq<K>, b: seq<K>, entry: (K, seq<T>) --> E)
    requires forall k :: k in a + b ==> k in Keys(rows, key)
    requires forall k, g :: |g| > 0 ==> entry.requires(k, g)
    ensures ForEach(rows, key, a + b, entry) == ForEach(rows, key, a, entry) + ForEach(rows, key, b, entry)
  {
    assert forall k :: k in a ==> k in a + b;
    assert forall k :: k in b ==> k in a + b;
  }

  lemma EmptyOrHasFirst<K>(s: seq<K>)
    ensures s == [] || s[0] in s
  {
  }

  /** `x` removed from a list without duplicates: the other members remain, still without duplicates. */
  lemma RemoveAt<K>(s: seq<K>, p: nat)
    requires p < |s| && NoDuplicates(s)
    ensures var r := s[..p] + s[p + 1..];
      NoDuplicates(r) && forall y :: y in r <==> y in s && y != s[p]
  {
    var r := s[..p] + s[p + 1..];
    assert forall i :: 0 <= i < |r| ==> r[i] == s[if i < p then i else i + 1];
    forall y | y in s && y != s[p] ensures y in r {
      var m :| 0 <= m < |s| && s[m] == y;
      assert r[if m < p then m else m - 1] == y;
    }
  }

  /**
   * Reordering the keys reorders the records and changes nothing else: two
   * lists of the same keys give the same records, as a multiset.
   */
  lemma {:induction false} ForEachReordered<T(!new), K(!new), E>(rows: seq<T>, key: T -> K, a: seq<K>, b: seq<K>,
                                                                  entry: (K, seq<T>) --> E)
    requires NoDuplicates(a) && NoDuplicates(b)
    requires forall k :: k in a <==> k in b
    requires forall k :: k in a ==> k in Keys(rows, key)
    requires forall k, g :: |g| > 0 ==> entry.requires(k, g)
    ensures multiset(ForEach(rows, key, a, entry)) == multiset(ForEach(rows, key, b, entry))
    decreases |a|
  {
    if a == [] {
      EmptyOrHasFirst(b);
    } else {
      var init, k := a[..|a| - 1], a[|a| - 1];
      assert a == init + [k];
      var p := FirstIndex(b, k);
      var front, back := b[..p], b[p + 1..];
      assert b == front + [k] + back;
      RemoveAt(b, p);
      RemoveAt(a, |a| - 1);
      ForEachReordered(rows, key, init, front + back, entry);
      ForEachConcat(rows, key, init, [k], entry);
      ForEachConcat(rows, key, front + [k], back, entry);
      ForEachConcat(rows, key, front, [k], entry);
      ForEachConcat(rows, key, front, back, entry);
    }
  }

  /** Sorted keys, when the order is strict, are in order. */
  lemma SortedKeysSorted<T, K(!new)>(rows: seq<T>, key: T -> K, lt: (K, K) -> bool)
    requires StrictOrder(lt)
    ensures SortedBy(SortedKeys(rows, key, lt), lt)
  {
    SortBySorted(Distinct(Keys(rows, key)), lt);
  }

  /** Sorted keys, when the order is strict and total, strictly increase. */
  lemma SortedKeysIncreasing<T, K(!new)>(rows: seq<T>, key: T -> K, lt: (K, K) -> bool)
    requires StrictOrder(lt) && Total(lt)
    ensures Increasing(SortedKeys(rows, key, lt), lt)
  {
    SortedKeysSorted(rows, key, lt);
    SortedDistinctIncreasing(SortedKeys(rows, key, lt), lt);
  }

  /**
   * A grouping under a strict total order: one record per key of the column,
   * the keys strictly increasing, each record built from its own key's group.
   */
  lemma GroupBySorted<T(!new), K(!new), E>(rows: seq<T>, key: T -> K, lt: (K, K) -> bool,
                                           entry: (K, seq<T>) --> E, keyOf: E -> K)
    requires StrictOrder(lt) && Total(lt)
    requires forall k, g :: |g| > 0 ==> entry.requires(k, g)
    requires forall k, g :: |g| > 0 ==> keyOf(entry(k, g)) == k
    ensures var out := GroupBy(rows, key, lt, entry);
      && ListsKeys(rows, key, Keys(out, keyOf))
      && Increasing(Keys(out, keyOf), lt)
      && forall j :: 0 <= j < |out| ==>
           keyOf(out[j]) in Keys(rows, key) && out[j] == entry(keyOf(out[j]), Select(rows, key, keyOf(out[j])))
  {
    var ks := SortedKeys(rows, key, lt);
    ForEachLabels(rows, key, ks, entry, keyOf);
    SortedKeysIncreasing(rows, key, lt);
    forall j | 0 <= j < |ks| ensures GroupBy(rows, key, lt, entry)[j] == entry(ks[j], Select(rows, key, ks[j])) {
      assert ks[j] in ks;
    }
  }

  /** Comparing by group size is a strict order. */
  lemma MoreFrequentOrder<T(!new), K(!new)>(rows: seq<T>, key: T -> K)
    ensures StrictOrder(MoreFrequent(rows, key))
  {
  }

  /**
   * `value_counts()`: keys sorted by `MoreFrequent` list their groups from the
   * largest to the smallest.
   */
  lemma ByFrequencyNonIncreasing<T(!new), K(!new)>(rows: seq<T>, key: T -> K, i: nat, j: nat)
    requires i < j < |SortedKeys(rows, key, MoreFrequent(rows, key))|
    ensures var ks := SortedKeys(rows, key, MoreFrequent(rows, key));
      |Select(rows, key, ks[i])| >= |Select(rows, key, ks[j])|
  {
    MoreFrequentOrder(rows, key);
    SortedKeysSorted(rows, key, MoreFrequent(rows, key));
  }

  /** A sum lies between the row count times any lower and any upper bound of its terms. */
  lemma {:induction false} SumBounds<T>(rows: seq<T>, val: T -> real, lo: real, hi: real)
    requires forall x :: x in rows ==> lo <= val(x) <= hi
    ensures |rows| as real * lo <= Sum(rows, val) <= |rows| as real * hi
  {
    if rows != [] {
      SumBounds(rows[..|rows| - 1], val, lo, hi);
      assert rows[|rows| - 1] in rows;
    }
  }

  /** A sum of non-negative integers is non-negative. */
  lemma {:induction false} SumIntNonNegative<T>(rows: seq<T>, val: T -> int)
    requires forall x :: x in rows ==> val(x) >= 0
    ensures SumInt(rows, val) >= 0
  {
    if rows != [] {
      var init := rows[..|rows| - 1];
      assert forall x :: x in init ==> x in rows;
      SumIntNonNegative(init, val);
      assert rows[|rows| - 1] in rows;
    }
  }

  /** A non-negative term is at most the sum of the non-negative terms it belongs to. */
  lemma {:induction false} SumIntTermBound<T>(rows: seq<T>, val: T -> int, i: nat)
    requires i < |rows|
    requires forall x :: x in rows ==> val(x) >= 0
    ensures 0 <= val(rows[i]) <= SumInt(rows, val)
  {
    var init := rows[..|rows| - 1];
    assert forall x :: x in init ==> x in rows;
    assert rows[i] in rows;
    assert rows[|rows| - 1] in rows;
    if i == |rows| - 1 {
      SumIntNonNegative(init, val);
    } else {
      assert init[i] == rows[i];
      SumIntTermBound(init, val, i);
    }
  }

  /** Sums are monotone in their terms. */
  lemma {:induction false} SumMonotone<T>(rows: seq<T>, f: T -> real, g: T -> real)
    requires forall x :: x in rows ==> f(x) <= g(x)
    ensures Sum(rows, f) <= Sum(rows, g)
  {
    if rows != [] {
      var init := rows[..|rows| - 1];
      assert forall x :: x in init ==> x in rows;
      SumMonotone(init, f, g);
      assert rows[|rows| - 1] in rows;
    }
  }

  /** A mean lies within any bounds of its terms, hence between the smallest and the largest. */
  lemma MeanBounds<T>(rows: seq<T>, val: T -> real, lo: real, hi: real)
    requires |rows| > 0
    requires forall x :: x in rows ==> lo <= val(x) <= hi
    ensures lo <= MeanOf(rows, val) <= hi
  {
    SumBounds(rows, val, lo, hi);
  }
}
