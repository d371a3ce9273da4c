/**
 * The key orders `groupby` and `value_counts()` list their groups in, and the
 * sort that produces them. pandas sorts group keys ascending; Python compares
 * strings code point by code point. The sort here is a stable insertion sort,
 * so keys that the order does not separate keep the order they arrive in.
 */
module Ordering {

  /** Each element occurs once. */
  predicate NoDuplicates<K(==)>(s: seq<K>) {
    forall i, j :: 0 <= i < j < |s| ==> s[i] != s[j]
  }

  /** `lt` is a strict order: irreflexive and transitive. */
  ghost predicate StrictOrder<K(!new)>(lt: (K, K) -> bool) {
    && (forall a :: !lt(a, a))
    && (forall a, b, c :: lt(a, b) && lt(b, c) ==> lt(a, c))
  }

  /** `lt` separates any two different keys. */
  ghost predicate Total<K(!new)>(lt: (K, K) -> bool) {
    forall a, b :: a != b ==> lt(a, b) || lt(b, a)
  }

  /** No element is below one listed before it. */
  predicate SortedBy<K>(s: seq<K>, lt: (K, K) -> bool) {
    forall i, j :: 0 <= i < j < |s| ==> !lt(s[j], s[i])
  }

  /** Every element is below every element listed after it. */
  predicate Increasing<K>(s: seq<K>, lt: (K, K) -> bool) {
    forall i, j :: 0 <= i < j < |s| ==> lt(s[i], s[j])
  }

  /** `x` placed in front of the first element above it, hence after every element not above it. */
  function Insert<K>(x: K, s: seq<K>, lt: (K, K) -> bool): seq<K> {
    if s == [] then [x]
    else if lt(x, s[0]) then [x] + s
    else [s[0]] + Insert(x, s[1..], lt)
  }

  /** A stable insertion sort: each element in turn is inserted into the sorted elements before it. */
  function SortBy<K>(s: seq<K>, lt: (K, K) -> bool): seq<K> {
    if s == [] then [] else Insert(s[|s| - 1], SortBy(s[..|s| - 1], lt), lt)
  }

  /** Inserting adds `x` and changes nothing else about the elements. */
  lemma {:induction false} InsertPermutes<K>(x: K, s: seq<K>, lt: (K, K) -> bool)
    ensures multiset(Insert(x, s, lt)) == multiset(s) + multiset{x}
  {
    if s != [] && !lt(x, s[0]) {
      assert s == [s[0]] + s[1..];
      InsertPermutes(x, s[1..], lt);
    }
  }

  /** The sorted list holds the same elements as often as the input does. */
  lemma {:induction false} SortByPermutes<K>(s: seq<K>, lt: (K, K) -> bool)
    ensures multiset(SortBy(s, lt)) == multiset(s)
  {
    if s != [] {
      assert s == s[..|s| - 1] + [s[|s| - 1]];
      SortByPermutes(s[..|s| - 1], lt);
      InsertPermutes(s[|s| - 1], SortBy(s[..|s| - 1], lt), lt);
    }
  }

  /** A list holds each element at most once exactly when each element's multiplicity is at most one. */
  lemma {:induction false} NoDuplicatesMultiset<K>(s: seq<K>)
    ensures NoDuplicates(s) <==> forall y :: multiset(s)[y] <= 1
  {
    if s != [] {
      var init, x := s[..|s| - 1], s[|s| - 1];
      assert s == init + [x];
      assert multiset(s) == multiset(init) + multiset{x};
      NoDuplicatesMultiset(init);
      if NoDuplicates(s) {
        assert NoDuplicates(init) by {
          forall i, j | 0 <= i < j < |init| ensures init[i] != init[j] {
            assert init[i] == s[i] && init[j] == s[j];
          }
        }
        forall m | 0 <= m < |init| ensures init[m] != x {
          assert init[m] == s[m];
        }
      } else {
        var i, j :| 0 <= i < j < |s| && s[i] == s[j];
        if j < |s| - 1 {
          assert init[i] == init[j];
          assert !NoDuplicates(init);
          var y :| multiset(init)[y] > 1;
          assert multiset(s)[y] > 1;
        } else {
          assert s[i] in init;
          assert multiset(s)[x] == multiset(init)[x] + 1;
        }
      }
    }
  }

  /** Sorting keeps the members and, for a list without duplicates, introduces none. */
  lemma SortByMembers<K>(s: seq<K>, lt: (K, K) -> bool)
    ensures forall y :: y in SortBy(s, lt) <==> y in s
    ensures NoDuplicates(s) ==> NoDuplicates(SortBy(s, lt))
  {
    SortByPermutes(s, lt);
    assert forall y :: y in SortBy(s, lt) <==> y in multiset(s);
    NoDuplicatesMultiset(s);
    NoDuplicatesMultiset(SortBy(s, lt));
  }

  /** A sorted list stays sorted behind a head that no element is below. */
  lemma ConsSorted<K>(h: K, r: seq<K>, lt: (K, K) -> bool)
    requires SortedBy(r, lt)
    requires forall y :: y in r ==> !lt(y, h)
    ensures SortedBy([h] + r, lt)
  {
    var s := [h] + r;
    forall i, j | 0 <= i < j < |s| ensures !lt(s[j], s[i]) {
      assert s[j] == r[j - 1];
      if i > 0 {
        assert s[i] == r[i - 1];
      }
    }
  }

  /** The tail of a sorted list is sorted, and none of it is below the head. */
  lemma TailSorted<K>(s: seq<K>, lt: (K, K) -> bool)
    requires SortedBy(s, lt) && s != []
    ensures SortedBy(s[1..], lt)
    ensures forall y :: y in s[1..] ==> !lt(y, s[0])
  {
    var rest := s[1..];
    forall i, j | 0 <= i < j < |rest| ensures !lt(rest[j], rest[i]) {
      assert rest[i] == s[i + 1] && rest[j] == s[j + 1];
    }
    forall y | y in rest ensures !lt(y, s[0]) {
      var m :| 0 <= m < |rest| && rest[m] == y;
      assert s[m + 1] == y;
    }
  }

  lemma {:induction false} InsertSorted<K(!new)>(x: K, s: seq<K>, lt: (K, K) -> bool)
    requires StrictOrder(lt)
    requires SortedBy(s, lt)
    ensures SortedBy(Insert(x, s, lt), lt)
  {
    if s == [] {
    } else if lt(x, s[0]) {
      TailSorted(s, lt);
      assert s == [s[0]] + s[1..];
      forall y | y in s ensures !lt(y, x) {
        if y != s[0] {
          assert y in s[1..];
        }
      }
      ConsSorted(x, s, lt);
    } else {
      var rest := s[1..];
      TailSorted(s, lt);
      InsertSorted(x, rest, lt);
      InsertPermutes(x, rest, lt);
      var r := Insert(x, rest, lt);
      forall y | y in r ensures !lt(y, s[0]) {
        assert y in multiset(r);
      }
      ConsSorted(s[0], r, lt);
    }
  }

  /** The sort's result is sorted. */
  lemma {:induction false} SortBySorted<K(!new)>(s: seq<K>, lt: (K, K) -> bool)
    requires StrictOrder(lt)
    ensures SortedBy(SortBy(s, lt), lt)
  {
    if s != [] {
      SortBySorted(s[..|s| - 1], lt);
      InsertSorted(s[|s| - 1], SortBy(s[..|s| - 1], lt), lt);
    }
  }

  /** Sorted by a total order and free of duplicates, a list is strictly increasing. */
  lemma SortedDistinctIncreasing<K(!new)>(s: seq<K>, lt: (K, K) -> bool)
    requires SortedBy(s, lt) && NoDuplicates(s) && Total(lt)
    ensures Increasing(s, lt)
  {
    forall i, j | 0 <= i < j < |s| ensures lt(s[i], s[j]) {
      assert s[i] != s[j];
      assert !lt(s[j], s[i]);
    }
  }

  // ---------------------------------------------------------------------------
  // Python's string order

  /** Python's `a < b` on strings: the first differing code point decides, and a proper prefix comes first. */
  predicate StringBefore(a: string, b: string) {
    if a == [] then b != []
    else if b == [] then false
    else if a[0] != b[0] then a[0] < b[0]
    else StringBefore(a[1..], b[1..])
  }

  lemma {:induction false} StringBeforeIrreflexive(a: string)
    ensures !StringBefore(a, a)
  {
    if a != [] {
      StringBeforeIrreflexive(a[1..]);
    }
  }

  lemma {:induction false} StringBeforeTransitive(a: string, b: string, c: string)
    requires StringBefore(a, b) && StringBefore(b, c)
    ensures StringBefore(a, c)
  {
    if a != [] && b != [] && c != [] && a[0] == b[0] && b[0] == c[0] {
      StringBeforeTransitive(a[1..], b[1..], c[1..]);
    }
  }

  lemma {:induction false} StringBeforeTotal(a: string, b: string)
    requires a != b
    ensures StringBefore(a, b) || StringBefore(b, a)
  {
    if a != [] && b != [] && a[0] == b[0] {
      assert a == [a[0]] + a[1..] && b == [b[0]] + b[1..];
      StringBeforeTotal(a[1..], b[1..]);
    }
  }

  /** Python's string comparison is a strict total order. */
  lemma StringOrder()
    ensures StrictOrder(StringBefore) && Total(StringBefore)
  {
    forall a ensures !StringBefore(a, a) {
      StringBeforeIrreflexive(a);
    }
    forall a, b, c | StringBefore(a, b) && StringBefore(b, c) ensures StringBefore(a, c) {
      StringBeforeTransitive(a, b, c);
    }
    forall a, b | a != b ensures StringBefore(a, b) || StringBefore(b, a) {
      StringBeforeTotal(a, b);
    }
  }
}
