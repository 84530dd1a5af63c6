/** The naive vocabulary of grouping a list by a key: the items of a key, the keys in first-seen
    order, and sums of a measure; and the law that grouping loses and invents nothing. */
module Grouping {

  /** The items with key k, in order. */
  function Pick<T, K(==)>(items: seq<T>, key: T -> K, k: K): seq<T> {
    if items == [] then []
    else
      var n := |items| - 1;
      if key(items[n]) == k then Pick(items[..n], key, k) + [items[n]] else Pick(items[..n], key, k)
  }

  /** The distinct keys, in first-seen order. */
  function FirstSeen<T, K(==)>(items: seq<T>, key: T -> K): seq<K> {
    if items == [] then []
    else
      var n := |items| - 1;
      var before, k := FirstSeen(items[..n], key), key(items[n]);
      if k in before then before else before + [k]
  }

  function Sum<T>(items: seq<T>, measure: T -> int): int {
    if items == [] then 0 else Sum(items[..|items| - 1], measure) + measure(items[|items| - 1])
  }

  ghost predicate Distinct<K>(keys: seq<K>) {
    forall i, j :: 0 <= i < j < |keys| ==> keys[i] != keys[j]
  }

  lemma PickSnoc<T, K>(items: seq<T>, x: T, key: T -> K, k: K)
    ensures Pick(items + [x], key, k) == if key(x) == k then Pick(items, key, k) + [x] else Pick(items, key, k)
  {
    assert (items + [x])[..|items|] == items;
  }

  lemma FirstSeenSnoc<T, K>(items: seq<T>, x: T, key: T -> K)
    ensures var before := FirstSeen(items, key);
            FirstSeen(items + [x], key) == if key(x) in before then before else before + [key(x)]
  {
    assert (items + [x])[..|items|] == items;
  }

  lemma SumSnoc<T>(items: seq<T>, x: T, measure: T -> int)
    ensures Sum(items + [x], measure) == Sum(items, measure) + measure(x)
  {
    assert (items + [x])[..|items|] == items;
  }

  lemma DistinctSnoc<K>(keys: seq<K>, k: K)
    requires Distinct(keys) && k !in keys
    ensures Distinct(keys + [k])
  {
  }

  lemma {:induction false} FirstSeenDistinct<T, K>(items: seq<T>, key: T -> K)
    ensures Distinct(FirstSeen(items, key))
  {
    if items != [] {
      var n := |items| - 1;
      FirstSeenDistinct(items[..n], key);
      var before, k := FirstSeen(items[..n], key), key(items[n]);
      if k !in before { DistinctSnoc(before, k); }
    }
  }

  /** A key has been seen exactly when it has items. */
  lemma {:induction false} SeenIffPicked<T, K>(items: seq<T>, key: T -> K, k: K)
    ensures k in FirstSeen(items, key) <==> Pick(items, key, k) != []
  {
    if items != [] { SeenIffPicked(items[..|items| - 1], key, k); }
  }

  lemma {:induction false} PickedHaveKey<T, K>(items: seq<T>, key: T -> K, k: K)
    ensures forall i :: 0 <= i < |Pick(items, key, k)| ==> key(Pick(items, key, k)[i]) == k && Pick(items, key, k)[i] in items
  {
    if items != [] {
      var n := |items| - 1;
      PickedHaveKey(items[..n], key, k);
    }
  }

  // ----- Conservation -----

  /** The measure summed key by key. */
  function SumByKey<T, K(==)>(keys: seq<K>, items: seq<T>, key: T -> K, measure: T -> int): int {
    if keys == [] then 0
    else
      var n := |keys| - 1;
      SumByKey(keys[..n], items, key, measure) + Sum(Pick(items, key, keys[n]), measure)
  }

  /** All items picked for the keys, with their multiplicity. */
  ghost function ItemsByKey<T, K>(keys: seq<K>, items: seq<T>, key: T -> K): multiset<T> {
    if keys == [] then multiset{}
    else
      var n := |keys| - 1;
      ItemsByKey(keys[..n], items, key) + multiset(Pick(items, key, keys[n]))
  }

  /** One more item adds to the share of its own key, once. */
  lemma {:induction false} SumShare<T, K>(keys: seq<K>, items: seq<T>, x: T, key: T -> K, measure: T -> int)
    requires Distinct(keys)
    ensures SumByKey(keys, items + [x], key, measure) ==
            SumByKey(keys, items, key, measure) + if key(x) in keys then measure(x) else 0
  {
    if keys != [] {
      var n := |keys| - 1;
      SumShare(keys[..n], items, x, key, measure);
      PickSnoc(items, x, key, keys[n]);
      SumSnoc(Pick(items, key, keys[n]), x, measure);
      assert keys == keys[..n] + [keys[n]];
      assert keys[n] !in keys[..n];
    }
  }

  /** An item that opens a new key is all of that key's share. */
  lemma NewSumShare<T, K>(keys: seq<K>, items: seq<T>, x: T, key: T -> K, measure: T -> int)
    requires Distinct(keys) && key(x) !in keys && Pick(items, key, key(x)) == []
    ensures SumByKey(keys + [key(x)], items + [x], key, measure) == SumByKey(keys, items, key, measure) + measure(x)
  {
    assert (keys + [key(x)])[..|keys|] == keys;
    SumShare(keys, items, x, key, measure);
    PickSnoc(items, x, key, key(x));
    SumSnoc([], x, measure);
    assert [] + [x] == [x];
  }

  /** Grouping conserves every measure. */
  lemma {:induction false} SumConserved<T, K>(items: seq<T>, key: T -> K, measure: T -> int)
    ensures SumByKey(FirstSeen(items, key), items, key, measure) == Sum(items, measure)
  {
    if items != [] {
      var pre, x := items[..|items| - 1], items[|items| - 1];
      assert pre + [x] == items;
      SumConserved(pre, key, measure);
      SumConservedSnoc(pre, x, key, measure);
    }
  }

  lemma SumConservedSnoc<T, K>(items: seq<T>, x: T, key: T -> K, measure: T -> int)
    requires SumByKey(FirstSeen(items, key), items, key, measure) == Sum(items, measure)
    ensures SumByKey(FirstSeen(items + [x], key), items + [x], key, measure) == Sum(items + [x], measure)
  {
    var keys := FirstSeen(items, key);
    FirstSeenDistinct(items, key);
    FirstSeenSnoc(items, x, key);
    SumSnoc(items, x, measure);
    if key(x) in keys {
      SumShare(keys, items, x, key, measure);
    } else {
      SeenIffPicked(items, key, key(x));
      NewSumShare(keys, items, x, key, measure);
    }
  }

  /** One for y and nothing for any other item. */
  ghost function Is<T>(y: T): T -> int { (x: T) => if x == y then 1 else 0 }

  lemma {:induction false} CountIsSum<T>(items: seq<T>, y: T)
    ensures multiset(items)[y] == Sum(items, Is(y))
  {
    if items != [] {
      var n := |items| - 1;
      CountIsSum(items[..n], y);
      assert items == items[..n] + [items[n]];
    }
  }

  lemma {:induction false} CountByKey<T, K>(keys: seq<K>, items: seq<T>, key: T -> K, y: T)
    ensures ItemsByKey(keys, items, key)[y] == SumByKey(keys, items, key, Is(y))
  {
    if keys != [] {
      var n := |keys| - 1;
      CountByKey(keys[..n], items, key, y);
      CountIsSum(Pick(items, key, keys[n]), y);
    }
  }

  /** Grouping loses and invents nothing: every item falls to exactly one key, as often as it
      occurs. */
  lemma ItemsConserved<T, K>(items: seq<T>, key: T -> K)
    ensures forall y: T :: ItemsByKey(FirstSeen(items, key), items, key)[y] == multiset(items)[y]
  {
    forall y: T ensures ItemsByKey(FirstSeen(items, key), items, key)[y] == multiset(items)[y] {
      CountByKey(FirstSeen(items, key), items, key, y);
      SumConserved(items, key, Is(y));
      CountIsSum(items, y);
    }
  }

  /** Groups that each carry the sum of their own items together carry the sum of all items. */
  lemma {:induction false} GroupsCarrySum<X, T, K>(groups: seq<X>, carried: X -> int, keys: seq<K>, items: seq<T>, key: T -> K, measure: T -> int)
    requires |groups| == |keys|
    requires forall j :: 0 <= j < |keys| ==> carried(groups[j]) == Sum(Pick(items, key, keys[j]), measure)
    ensures Sum(groups, carried) == SumByKey(keys, items, key, measure)
  {
    if keys != [] {
      var n := |keys| - 1;
      GroupsCarrySum(groups[..n], carried, keys[..n], items, key, measure);
    }
  }

  /** ... and when the keys are all those of the items, the sum of everything. */
  lemma GroupsConserve<X, T, K>(groups: seq<X>, carried: X -> int, items: seq<T>, key: T -> K, measure: T -> int)
    requires var keys := FirstSeen(items, key);
             |groups| == |keys| &&
             forall j :: 0 <= j < |keys| ==> carried(groups[j]) == Sum(Pick(items, key, keys[j]), measure)
    ensures Sum(groups, carried) == Sum(items, measure)
  {
    GroupsCarrySum(groups, carried, FirstSeen(items, key), items, key, measure);
    SumConserved(items, key, measure);
  }
}
