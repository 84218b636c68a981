/**
 * Sequence utilities shared by the filter-then-sort pipelines of the application:
 * JavaScript's `Array.prototype.filter`, and `Array.prototype.sort` with a comparator,
 * which the language guarantees to be stable.
 */
module Sorting {

  /** The elements of `s` that satisfy `p`, in their original order. */
  function Filter<T>(s: seq<T>, p: T -> bool): (r: seq<T>)
    ensures |r| <= |s|
    ensures forall i :: 0 <= i < |r| ==> r[i] in s && p(r[i])
    ensures forall i :: 0 <= i < |s| && p(s[i]) ==> s[i] in r
  {
    if s == [] then [] else (if p(s[0]) then [s[0]] else []) + Filter(s[1..], p)
  }

  /** The positions of `s` whose element satisfies `p`. */
  function IndicesWhere<T>(s: seq<T>, p: T -> bool): set<nat> {
    set i: nat | i < |s| && p(s[i])
  }

  /** Filter keeps exactly one element per satisfying position. */
  lemma {:induction false} FilterCountsIndices<T>(s: seq<T>, p: T -> bool)
    ensures |Filter(s, p)| == |IndicesWhere(s, p)|
  {
    if s != [] {
      var init, last := s[..|s| - 1], s[|s| - 1];
      assert s == init + [last];
      FilterCountsIndices(init, p);
      FilterAppend(init, [last], p);
      IndicesWhereSnoc(init, last, p);
      if p(last) {
        assert Filter([last], p) == [last];
        assert |init| !in IndicesWhere(init, p);
      } else {
        assert Filter([last], p) == [];
      }
    }
  }

  /** Appending one element adds its position exactly when it satisfies `p`. */
  lemma IndicesWhereSnoc<T>(init: seq<T>, last: T, p: T -> bool)
    ensures IndicesWhere(init + [last], p) == IndicesWhere(init, p) + (if p(last) then {|init|} else {})
  {
    var s := init + [last];
    forall i: nat | i < |init| ensures s[i] == init[i] { }
  }

  /** `a` is obtained from `b` by deleting elements: the order of what is kept is unchanged. */
  ghost predicate IsSubsequence<T>(a: seq<T>, b: seq<T>)
    decreases |b|
  {
    a == [] || (b != [] && ((a[0] == b[0] && IsSubsequence(a[1..], b[1..])) || IsSubsequence(a, b[1..])))
  }

  lemma {:induction false} FilterIsSubsequence<T>(s: seq<T>, p: T -> bool)
    ensures IsSubsequence(Filter(s, p), s)
  {
    if s != [] {
      FilterIsSubsequence(s[1..], p);
      if p(s[0]) {
        assert Filter(s, p) == [s[0]] + Filter(s[1..], p);
      } else {
        assert Filter(s, p) == Filter(s[1..], p);
        if Filter(s, p) != [] {
          assert IsSubsequence(Filter(s, p), s[1..]);
        }
      }
    }
  }

  lemma {:induction false} FilterAppend<T>(a: seq<T>, b: seq<T>, p: T -> bool)
    ensures Filter(a + b, p) == Filter(a, p) + Filter(b, p)
  {
    if a == [] {
      assert a + b == b;
    } else {
      assert (a + b)[1..] == a[1..] + b;
      FilterAppend(a[1..], b, p);
    }
  }

  /** A strict total order on sort keys: "goes strictly before". */
  ghost predicate StrictTotalOrder<K(!new)>(before: (K, K) -> bool) {
    && (forall a :: !before(a, a))
    && (forall a, b, c :: before(a, b) && before(b, c) ==> before(a, c))
    && (forall a, b :: a != b ==> before(a, b) || before(b, a))
  }

  /** No element goes strictly before an element that precedes it. */
  ghost predicate SortedBy<T, K>(s: seq<T>, key: T -> K, before: (K, K) -> bool) {
    forall i, j :: 0 <= i < j < |s| ==> !before(key(s[j]), key(s[i]))
  }

  /** The elements of `s` whose key is `k`, in their order in `s`. */
  function KeyClass<T, K(==)>(s: seq<T>, key: T -> K, k: K): seq<T> {
    if s == [] then [] else (if key(s[0]) == k then [s[0]] else []) + KeyClass(s[1..], key, k)
  }

  /** Inserts `x` after every element that `x` does not go strictly before. */
  function Insert<T, K>(x: T, s: seq<T>, key: T -> K, before: (K, K) -> bool): (r: seq<T>)
    ensures multiset(r) == multiset(s) + multiset{x}
  {
    if s == [] then [x]
    else if before(key(x), key(s[0])) then [x] + s
    else
      assert s == [s[0]] + s[1..];
      [s[0]] + Insert(x, s[1..], key, before)
  }

  /**
   * Stable sort by `key` under `before`: the outcome of `Array.prototype.sort` with a
   * comparator that is negative exactly when its first argument's key goes before.
   */
  function StableSort<T, K>(s: seq<T>, key: T -> K, before: (K, K) -> bool): (r: seq<T>)
    ensures multiset(r) == multiset(s)
  {
    if s == [] then []
    else
      assert s == s[..|s| - 1] + [s[|s| - 1]];
      Insert(s[|s| - 1], StableSort(s[..|s| - 1], key, before), key, before)
  }

  lemma {:induction false} InsertSorted<T, K(!new)>(x: T, s: seq<T>, key: T -> K, before: (K, K) -> bool)
    requires StrictTotalOrder(before) && SortedBy(s, key, before)
    ensures SortedBy(Insert(x, s, key, before), key, before)
  {
    if s != [] && !before(key(x), key(s[0])) {
      InsertSorted(x, s[1..], key, before);
      var t := Insert(x, s[1..], key, before);
      var r := [s[0]] + t;
      forall i, j | 0 <= i < j < |r| ensures !before(key(r[j]), key(r[i])) {
        if i == 0 {
          assert r[j] in multiset(t);
          assert r[j] in multiset(s[1..]) || r[j] == x;
          if r[j] != x {
            var m :| 0 <= m < |s[1..]| && s[1..][m] == r[j];
            assert s[m + 1] == r[j];
          }
        }
      }
    }
  }

  lemma {:induction false} StableSortSorted<T, K(!new)>(s: seq<T>, key: T -> K, before: (K, K) -> bool)
    requires StrictTotalOrder(before)
    ensures SortedBy(StableSort(s, key, before), key, before)
  {
    if s != [] {
      StableSortSorted(s[..|s| - 1], key, before);
      InsertSorted(s[|s| - 1], StableSort(s[..|s| - 1], key, before), key, before);
    }
  }

  lemma {:induction false} KeyClassAppend<T, K>(a: seq<T>, b: seq<T>, key: T -> K, k: K)
    ensures KeyClass(a + b, key, k) == KeyClass(a, key, k) + KeyClass(b, key, k)
  {
    if a == [] {
      assert a + b == b;
    } else {
      var head := if key(a[0]) == k then [a[0]] else [];
      assert (a + b)[0] == a[0] && (a + b)[1..] == a[1..] + b;
      assert KeyClass(a + b, key, k) == head + KeyClass(a[1..] + b, key, k);
      KeyClassAppend(a[1..], b, key, k);
      AppendAssoc(head, KeyClass(a[1..], key, k), KeyClass(b, key, k));
    }
  }

  lemma {:induction false} KeyClassNone<T, K>(s: seq<T>, key: T -> K, k: K)
    requires forall i :: 0 <= i < |s| ==> key(s[i]) != k
    ensures KeyClass(s, key, k) == []
  {
    if s != [] {
      KeyClassNone(s[1..], key, k);
    }
  }

  lemma {:induction false} KeyClassAll<T, K>(s: seq<T>, key: T -> K, k: K)
    requires forall i :: 0 <= i < |s| ==> key(s[i]) == k
    ensures KeyClass(s, key, k) == s
  {
    if s != [] {
      KeyClassAll(s[1..], key, k);
    }
  }

  lemma {:induction false} InsertKeyClass<T, K>(x: T, s: seq<T>, key: T -> K, before: (K, K) -> bool, k: K)
    requires (forall a :: !before(a, a)) && SortedBy(s, key, before)
    ensures KeyClass(Insert(x, s, key, before), key, k)
         == KeyClass(s, key, k) + (if key(x) == k then [x] else [])
  {
    if s == [] {
      assert KeyClass([x], key, k) == (if key(x) == k then [x] else []) + KeyClass([x][1..], key, k);
    } else if before(key(x), key(s[0])) {
      assert Insert(x, s, key, before) == [x] + s;
      KeyClassAppend([x], s, key, k);
      assert KeyClass([x], key, k) == (if key(x) == k then [x] else []) + KeyClass([x][1..], key, k);
      if key(x) == k {
        ClassAfterSmallerEmpty(x, s, key, before, k);
      }
    } else {
      SortedTail(s, key, before);
      InsertKeyClass(x, s[1..], key, before, k);
      InsertStepKeyClass(x, s, key, before, k);
    }
  }

  /** The tail of a sorted sequence is sorted. */
  lemma SortedTail<T, K>(s: seq<T>, key: T -> K, before: (K, K) -> bool)
    requires s != [] && SortedBy(s, key, before)
    ensures SortedBy(s[1..], key, before)
  {
    var rest := s[1..];
    forall i, j | 0 <= i < j < |rest| ensures !before(key(rest[j]), key(rest[i])) {
      assert rest[j] == s[j + 1] && rest[i] == s[i + 1];
    }
  }

  /** Inserting past the head keeps the head's class contribution in front. */
  lemma InsertStepKeyClass<T, K>(x: T, s: seq<T>, key: T -> K, before: (K, K) -> bool, k: K)
    requires s != [] && !before(key(x), key(s[0]))
    requires KeyClass(Insert(x, s[1..], key, before), key, k)
          == KeyClass(s[1..], key, k) + (if key(x) == k then [x] else [])
    ensures KeyClass(Insert(x, s, key, before), key, k)
         == KeyClass(s, key, k) + (if key(x) == k then [x] else [])
  {
    var ins := Insert(x, s[1..], key, before);
    var head, last := if key(s[0]) == k then [s[0]] else [], if key(x) == k then [x] else [];
    calc {
      KeyClass(Insert(x, s, key, before), key, k);
      { assert Insert(x, s, key, before) == [s[0]] + ins; }
      KeyClass([s[0]] + ins, key, k);
      { KeyClassCons(s[0], ins, key, k); }
      head + KeyClass(ins, key, k);
      head + (KeyClass(s[1..], key, k) + last);
      { AppendAssoc(head, KeyClass(s[1..], key, k), last); }
      (head + KeyClass(s[1..], key, k)) + last;
      { KeyClassCons(s[0], s[1..], key, k); assert [s[0]] + s[1..] == s; }
      KeyClass(s, key, k) + last;
    }
  }

  lemma AppendAssoc<T>(a: seq<T>, b: seq<T>, c: seq<T>)
    ensures a + (b + c) == (a + b) + c
  {
  }

  /** The class of a sequence with a given first element. */
  lemma KeyClassCons<T, K>(y: T, t: seq<T>, key: T -> K, k: K)
    ensures KeyClass([y] + t, key, k) == (if key(y) == k then [y] else []) + KeyClass(t, key, k)
  {
    assert ([y] + t)[0] == y && ([y] + t)[1..] == t;
  }

  /** Nothing in a sorted sequence shares the key of an element that goes before its head. */
  lemma ClassAfterSmallerEmpty<T, K>(x: T, s: seq<T>, key: T -> K, before: (K, K) -> bool, k: K)
    requires forall a :: !before(a, a)
    requires SortedBy(s, key, before) && s != [] && before(key(x), key(s[0])) && key(x) == k
    ensures KeyClass(s, key, k) == []
  {
    forall i | 0 <= i < |s| ensures key(s[i]) != k {
      if i > 0 {
        assert !before(key(s[i]), key(s[0]));
      }
    }
    KeyClassNone(s, key, k);
  }

  /** Stability: every class of equal keys keeps its input order. */
  lemma {:induction false} StableSortKeyClass<T, K(!new)>(s: seq<T>, key: T -> K, before: (K, K) -> bool, k: K)
    requires StrictTotalOrder(before)
    ensures KeyClass(StableSort(s, key, before), key, k) == KeyClass(s, key, k)
  {
    if s != [] {
      var init, last := s[..|s| - 1], s[|s| - 1];
      StableSortKeyClass(init, key, before, k);
      StableSortSorted(init, key, before);
      InsertKeyClass(last, StableSort(init, key, before), key, before, k);
      assert s == init + [last];
      KeyClassAppend(init, [last], key, k);
      assert KeyClass([last], key, k) == (if key(last) == k then [last] else []) by {
        assert [last][1..] == [];
      }
    }
  }

  /** Boolean keys: `true` goes before `false`. */
  function TrueFirst(a: bool, b: bool): bool { a && !b }

  lemma TrueFirstIsStrictTotalOrder()
    ensures StrictTotalOrder(TrueFirst)
  {
  }

  /** Numeric keys, largest first. */
  function Descending(a: real, b: real): bool { a > b }

  lemma DescendingIsStrictTotalOrder()
    ensures StrictTotalOrder(Descending)
  {
  }

  /** Numeric keys, smallest first. */
  function Ascending(a: real, b: real): bool { a < b }

  lemma AscendingIsStrictTotalOrder()
    ensures StrictTotalOrder(Ascending)
  {
  }

  /** A list sorted by a boolean key under TrueFirst is its `true` class followed by its `false` class. */
  lemma {:induction false} SortedBoolPartition<T>(s: seq<T>, key: T -> bool)
    requires SortedBy(s, key, TrueFirst)
    ensures s == KeyClass(s, key, true) + KeyClass(s, key, false)
  {
    if s != [] {
      if key(s[0]) {
        SortedBoolPartition(s[1..], key);
      } else {
        forall i | 0 <= i < |s| ensures !key(s[i]) {
          if i > 0 {
            assert !TrueFirst(key(s[i]), key(s[0]));
          }
        }
        KeyClassNone(s, key, true);
        KeyClassAll(s, key, false);
      }
    }
  }

  /**
   * A stable sort on a boolean key is a stable partition: the `true` elements in input order,
   * then the `false` elements in input order.
   */
  lemma StableSortBoolIsPartition<T>(s: seq<T>, key: T -> bool)
    ensures StableSort(s, key, TrueFirst) == KeyClass(s, key, true) + KeyClass(s, key, false)
  {
    TrueFirstIsStrictTotalOrder();
    var r := StableSort(s, key, TrueFirst);
    StableSortSorted(s, key, TrueFirst);
    SortedBoolPartition(r, key);
    StableSortKeyClass(s, key, TrueFirst, true);
    StableSortKeyClass(s, key, TrueFirst, false);
  }

  /** A key class of a sorted sequence is sorted, holds only elements of that class, and is drawn from the sequence. */
  lemma {:induction false} KeyClassSorted<T, K, L>(s: seq<T>, key: T -> K, k: K, key2: T -> L, before: (L, L) -> bool)
    requires SortedBy(s, key2, before)
    ensures SortedBy(KeyClass(s, key, k), key2, before)
    ensures forall i :: 0 <= i < |KeyClass(s, key, k)| ==> key(KeyClass(s, key, k)[i]) == k
    ensures multiset(KeyClass(s, key, k)) <= multiset(s)
  {
    if s != [] {
      KeyClassSorted(s[1..], key, k, key2, before);
      var t := KeyClass(s[1..], key, k);
      assert s == [s[0]] + s[1..];
      if key(s[0]) == k {
        var r := [s[0]] + t;
        forall i, j | 0 <= i < j < |r| ensures !before(key2(r[j]), key2(r[i])) {
          if i == 0 {
            assert r[j] in multiset(s[1..]);
            var m :| 0 <= m < |s[1..]| && s[1..][m] == r[j];
            assert s[m + 1] == r[j];
          } else {
            assert r[i] == t[i - 1] && r[j] == t[j - 1];
          }
        }
      }
    }
  }

  /**
   * Partitioning a sorted sequence by a boolean key: the `true` elements come first, and
   * elements of the same class stay sorted.
   */
  lemma PartitionOfSorted<T, L>(s: seq<T>, key: T -> bool, key2: T -> L, before: (L, L) -> bool)
    requires SortedBy(s, key2, before)
    ensures var r := KeyClass(s, key, true) + KeyClass(s, key, false);
      && (forall i, j :: 0 <= i < j < |r| && key(r[j]) ==> key(r[i]))
      && (forall i, j :: 0 <= i < j < |r| && key(r[i]) == key(r[j]) ==> !before(key2(r[j]), key2(r[i])))
  {
    var a := KeyClass(s, key, true);
    var b := KeyClass(s, key, false);
    KeyClassSorted(s, key, true, key2, before);
    KeyClassSorted(s, key, false, key2, before);
    var r := a + b;
    forall i, j | 0 <= i < j < |r| && key(r[j]) ensures key(r[i]) {
      if i < |a| {
        assert r[i] == a[i];
      }
    }
    forall i, j | 0 <= i < j < |r| && key(r[i]) == key(r[j]) ensures !before(key2(r[j]), key2(r[i])) {
      if j < |a| {
        assert r[i] == a[i] && r[j] == a[j];
      } else if i >= |a| {
        assert r[i] == b[i - |a|] && r[j] == b[j - |a|];
      }
    }
  }
}
