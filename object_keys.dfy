/**
 * The order in which JavaScript visits the own keys of an ordinary object (`for ... in`,
 * `Object.keys`): keys that are array indices come first, in ascending numeric order, and the
 * other string keys follow in the order they were added.
 */
module ObjectKeys {
  import opened Strings
  import opened Sorting

  /** An array index: a canonical decimal numeral whose value is below 2^32 - 1. */
  predicate IsArrayIndex(k: string) {
    IsCanonicalNumeral(k) && ParseDigits(k) < 0xFFFF_FFFF
  }

  predicate IsOtherKey(k: string) {
    !IsArrayIndex(k)
  }

  /** Every array-index key is preceded only by array-index keys of smaller value. */
  predicate ForInOrdered(order: seq<string>) {
    forall i, j :: 0 <= i < j < |order| && IsArrayIndex(order[j]) ==>
      IsArrayIndex(order[i]) && ParseDigits(order[i]) < ParseDigits(order[j])
  }

  predicate Distinct(order: seq<string>) {
    forall i, j :: 0 <= i < j < |order| ==> order[i] != order[j]
  }

  /** The key order after a new key is added: an array index joins the indices by value, any other key goes last. */
  function InsertKey(order: seq<string>, k: string): (r: seq<string>)
    ensures |r| == |order| + 1
    ensures forall x :: x in r <==> x in order || x == k
  {
    if !IsArrayIndex(k) then order + [k]
    else if order == [] then [k]
    else if !IsArrayIndex(order[0]) || ParseDigits(k) < ParseDigits(order[0]) then [k] + order
    else
      assert order == [order[0]] + order[1..];
      [order[0]] + InsertKey(order[1..], k)
  }

  /** Distinct array indices have distinct values. */
  lemma IndexValuesDistinct(a: string, b: string)
    requires IsArrayIndex(a) && IsArrayIndex(b) && a != b
    ensures ParseDigits(a) != ParseDigits(b)
  {
    PrintParseRoundTrip(a);
    PrintParseRoundTrip(b);
  }

  /** Adding a new key keeps the keys distinct and in `for ... in` order. */
  lemma {:induction false} InsertKeyOrdered(order: seq<string>, k: string)
    requires ForInOrdered(order) && Distinct(order) && k !in order
    ensures ForInOrdered(InsertKey(order, k)) && Distinct(InsertKey(order, k))
  {
    if !IsArrayIndex(k) {
      AppendOtherOrdered(order, k);
    } else if order == [] {
    } else if !IsArrayIndex(order[0]) || ParseDigits(k) < ParseDigits(order[0]) {
      PrependSmallestOrdered(order, k);
    } else {
      InsertKeyOrdered(order[1..], k);
      IndexValuesDistinct(order[0], k);
      ConsOrdered(order, InsertKey(order[1..], k), k);
    }
  }

  lemma AppendOtherOrdered(order: seq<string>, k: string)
    requires ForInOrdered(order) && Distinct(order) && k !in order && !IsArrayIndex(k)
    ensures ForInOrdered(order + [k]) && Distinct(order + [k])
  {
    var r := order + [k];
    assert forall j :: 0 <= j < |order| ==> r[j] == order[j];
  }

  lemma PrependSmallestOrdered(order: seq<string>, k: string)
    requires ForInOrdered(order) && Distinct(order) && k !in order && IsArrayIndex(k) && order != []
    requires !IsArrayIndex(order[0]) || ParseDigits(k) < ParseDigits(order[0])
    ensures ForInOrdered([k] + order) && Distinct([k] + order)
  {
    var r := [k] + order;
    assert forall j :: 1 <= j < |r| ==> r[j] == order[j - 1];
    forall j | 1 <= j < |r| && IsArrayIndex(r[j])
      ensures ParseDigits(k) < ParseDigits(r[j])
    {
      if j > 1 {
        assert IsArrayIndex(order[0]) && ParseDigits(order[0]) < ParseDigits(order[j - 1]);
      }
    }
  }

  /** The head of the old order, an index not above `k`, stays in front of the insertion into the rest. */
  lemma ConsOrdered(order: seq<string>, rest: seq<string>, k: string)
    requires ForInOrdered(order) && Distinct(order) && k !in order && order != []
    requires IsArrayIndex(k) && IsArrayIndex(order[0]) && ParseDigits(order[0]) < ParseDigits(k)
    requires ForInOrdered(rest) && Distinct(rest) && forall x :: x in rest <==> x in order[1..] || x == k
    ensures ForInOrdered([order[0]] + rest) && Distinct([order[0]] + rest)
  {
    var r := [order[0]] + rest;
    assert forall j :: 1 <= j < |r| ==> r[j] == rest[j - 1];
    forall j | 1 <= j < |r|
      ensures r[0] != r[j]
      ensures IsArrayIndex(r[j]) ==> ParseDigits(r[0]) < ParseDigits(r[j])
    {
      assert r[j] in rest;
      if r[j] != k {
        var q :| 0 <= q < |order[1..]| && order[1..][q] == r[j];
        assert order[q + 1] == r[j];
      }
    }
  }

  /** The keys that are not array indices keep the order in which they were added. */
  lemma {:induction false} InsertKeyKeepsOthersInOrder(order: seq<string>, k: string)
    ensures Filter(InsertKey(order, k), IsOtherKey) == Filter(order, IsOtherKey) + (if IsOtherKey(k) then [k] else [])
  {
    if !IsArrayIndex(k) {
      FilterAppend(order, [k], IsOtherKey);
      assert Filter([k], IsOtherKey) == [k] + Filter([k][1..], IsOtherKey);
    } else if order == [] {
      assert Filter([k], IsOtherKey) == Filter([k][1..], IsOtherKey);
    } else if !IsArrayIndex(order[0]) || ParseDigits(k) < ParseDigits(order[0]) {
      FilterAppend([k], order, IsOtherKey);
      assert Filter([k], IsOtherKey) == Filter([k][1..], IsOtherKey);
    } else {
      InsertKeyKeepsOthersInOrder(order[1..], k);
      assert ([order[0]] + InsertKey(order[1..], k))[1..] == InsertKey(order[1..], k);
    }
  }

  /** A smaller index than every key present goes first; a larger index or a non-index key goes last. */
  lemma IndexKeyExamples()
    ensures InsertKey(["1", "2", "9"], "0") == ["0", "1", "2", "9"]
    ensures InsertKey(["1", "2", "9"], "10") == ["1", "2", "9", "10"]
    ensures InsertKey(["1", "2", "9"], "01") == ["1", "2", "9", "01"]
  {
    assert ParseDigits("1") == 1 by { assert "1"[..0] == []; }
    assert ParseDigits("2") == 2 by { assert "2"[..0] == []; }
    assert ParseDigits("9") == 9 by { assert "9"[..0] == []; }
    assert ParseDigits("0") == 0 by { assert "0"[..0] == []; }
    assert ParseDigits("10") == 10 by { assert "10"[..1] == "1"; assert "1"[..0] == []; }
    assert ["1", "2", "9"][1..] == ["2", "9"];
    assert ["2", "9"][1..] == ["9"];
    assert ["9"][1..] == [];
  }
}
