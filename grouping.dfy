/** Grouping items by a key into a Python dict with `d.setdefault(key, []).append(item)`
    and reading the groups back with `d.values()` / `d.items()`. The dict keeps
    its keys in insertion order, so the groups come out in the order in which
    their keys were first seen, and each group keeps its items in input order.
    Keys and items come as two parallel sequences (`zip(keys, items)`). */
module Grouping {
  import opened Utils

  /** The distinct keys, in order of first appearance. */
  function FirstSeen<K(==)>(keys: seq<K>): (r: seq<K>)
    ensures forall i :: 0 <= i < |keys| ==> keys[i] in r
    ensures forall i :: 0 <= i < |r| ==> r[i] in keys
    ensures forall i, j :: 0 <= i < j < |r| ==> r[i] != r[j]
  {
    if |keys| == 0 then []
    else
      var prev := FirstSeen(keys[..|keys| - 1]);
      var k := keys[|keys| - 1];
      assert keys == keys[..|keys| - 1] + [k];
      if k in prev then prev else prev + [k]
  }

  /** The items paired with key `k`, in input order. */
  function Members<K(==), T>(keys: seq<K>, items: seq<T>, k: K): seq<T>
    requires |keys| == |items|
  {
    if |keys| == 0 then []
    else
      Members(keys[..|keys| - 1], items[..|items| - 1], k)
        + (if keys[|keys| - 1] == k then [items[|items| - 1]] else [])
  }

  /** The groups, one per distinct key, in first-seen key order. */
  function Grouped<K(==), T>(keys: seq<K>, items: seq<T>): (r: seq<seq<T>>)
    requires |keys| == |items|
    ensures |r| == |FirstSeen(keys)|
  {
    var order := FirstSeen(keys);
    seq(|order|, j requires 0 <= j < |order| => Members(keys, items, order[j]))
  }

  lemma {:induction false} MembersOfAbsentKey<K, T>(keys: seq<K>, items: seq<T>, k: K)
    requires |keys| == |items| && k !in keys
    ensures Members(keys, items, k) == []
    decreases |keys|
  {
    if |keys| > 0 {
      assert keys == keys[..|keys| - 1] + [keys[|keys| - 1]];
      MembersOfAbsentKey(keys[..|keys| - 1], items[..|items| - 1], k);
    }
  }

  /** Every key that occurs has at least one member. */
  lemma {:induction false} MembersOfPresentKey<K, T>(keys: seq<K>, items: seq<T>, k: K)
    requires |keys| == |items| && k in keys
    ensures |Members(keys, items, k)| > 0
    decreases |keys|
  {
    var n := |keys|;
    if keys[n - 1] != k {
      assert keys == keys[..n - 1] + [keys[n - 1]];
      MembersOfPresentKey(keys[..n - 1], items[..n - 1], k);
    }
  }

  /** Every group is non-empty. */
  lemma GroupsNonEmpty<K, T>(keys: seq<K>, items: seq<T>)
    requires |keys| == |items|
    ensures forall j :: 0 <= j < |Grouped(keys, items)| ==> |Grouped(keys, items)[j]| > 0
  {
    var order := FirstSeen(keys);
    forall j | 0 <= j < |order| ensures |Grouped(keys, items)[j]| > 0 {
      MembersOfPresentKey(keys, items, order[j]);
    }
  }

  lemma SnocPrefix<K, T>(ks: seq<K>, xs: seq<T>, k: K, x: T)
    ensures (ks + [k])[..|ks|] == ks && (xs + [x])[..|xs|] == xs
  {
  }

  lemma MembersSnoc<K, T>(ks: seq<K>, xs: seq<T>, k: K, x: T, c: K)
    requires |ks| == |xs|
    ensures Members(ks + [k], xs + [x], c) == Members(ks, xs, c) + (if c == k then [x] else [])
  {
    SnocPrefix(ks, xs, k, x);
  }

  /** A key seen before: its group gets the new item at its end. */
  lemma GroupedSnocSeen<K, T>(ks: seq<K>, xs: seq<T>, k: K, x: T, jk: nat)
    requires |ks| == |xs| && jk < |FirstSeen(ks)| && FirstSeen(ks)[jk] == k
    ensures var G := Grouped(ks, xs); Grouped(ks + [k], xs + [x]) == G[jk := G[jk] + [x]]
  {
    var G, order := Grouped(ks, xs), FirstSeen(ks);
    SnocPrefix(ks, xs, k, x);
    assert FirstSeen(ks + [k]) == order;
    forall j | 0 <= j < |order|
      ensures Grouped(ks + [k], xs + [x])[j] == G[jk := G[jk] + [x]][j]
    {
      MembersSnoc(ks, xs, k, x, order[j]);
    }
  }

  /** A new key: a new group holding just the new item is appended. */
  lemma GroupedSnocNew<K, T>(ks: seq<K>, xs: seq<T>, k: K, x: T)
    requires |ks| == |xs| && k !in FirstSeen(ks)
    ensures Grouped(ks + [k], xs + [x]) == Grouped(ks, xs) + [[x]]
  {
    var G, order := Grouped(ks, xs), FirstSeen(ks);
    SnocPrefix(ks, xs, k, x);
    assert k !in ks;
    MembersOfAbsentKey(ks, xs, k);
    assert FirstSeen(ks + [k]) == order + [k];
    forall j | 0 <= j < |order| + 1
      ensures Grouped(ks + [k], xs + [x])[j] == (G + [[x]])[j]
    {
      MembersSnoc(ks, xs, k, x, (order + [k])[j]);
    }
  }

  /** Adding an item adds exactly that item to the groups' contents. */
  lemma GroupedSnocMultiset<K, T>(ks: seq<K>, xs: seq<T>, k: K, x: T)
    requires |ks| == |xs|
    ensures multiset(Flatten(Grouped(ks + [k], xs + [x]))) == multiset(Flatten(Grouped(ks, xs))) + multiset{x}
  {
    var G, order := Grouped(ks, xs), FirstSeen(ks);
    if k in order {
      var jk :| 0 <= jk < |order| && order[jk] == k;
      GroupedSnocSeen(ks, xs, k, x, jk);
      FlattenExtendGroup(G, jk, x);
    } else {
      GroupedSnocNew(ks, xs, k, x);
      FlattenAppend(G, [[x]]);
      FlattenSingle([x]);
    }
  }

  /** The groups partition the items: together they hold every item exactly once. */
  lemma {:induction false} GroupedPartition<K, T>(keys: seq<K>, items: seq<T>)
    requires |keys| == |items|
    ensures multiset(Flatten(Grouped(keys, items))) == multiset(items)
    decreases |keys|
  {
    var n := |keys|;
    if n > 0 {
      GroupedPartition(keys[..n - 1], items[..n - 1]);
      GroupedLast(keys, items);
      Snoc(items);
    }
  }

  lemma GroupedLast<K, T>(keys: seq<K>, items: seq<T>)
    requires |keys| == |items| > 0
    ensures var n := |keys|;
      multiset(Flatten(Grouped(keys, items)))
        == multiset(Flatten(Grouped(keys[..n - 1], items[..n - 1]))) + multiset{items[n - 1]}
  {
    var n := |keys|;
    assert keys == keys[..n - 1] + [keys[n - 1]] && items == items[..n - 1] + [items[n - 1]];
    GroupedSnocMultiset(keys[..n - 1], items[..n - 1], keys[n - 1], items[n - 1]);
  }

  /** The `setdefault` loop, with the dict as a key order plus a map of buckets. */
  method GroupByKey<K(==), T>(keys: seq<K>, items: seq<T>) returns (groups: seq<seq<T>>)
    requires |keys| == |items|
    ensures groups == Grouped(keys, items)
  {
    var order: seq<K> := [];
    var buckets: map<K, seq<T>> := map[];
    for i := 0 to |items|
      invariant order == FirstSeen(keys[..i])
      invariant forall k :: k in buckets <==> k in order
      invariant forall k :: k in buckets ==> buckets[k] == Members(keys[..i], items[..i], k)
    {
      order, buckets := BucketStep(keys, items, i, order, buckets);
    }
    assert keys[..|keys|] == keys && items[..|items|] == items;
    groups := seq(|order|, j requires 0 <= j < |order| => buckets[order[j]]);
  }

  /** One pass of the `setdefault` loop: item `i` opens a bucket for a new key
      or joins its key's bucket. */
  method BucketStep<K(==), T>(keys: seq<K>, items: seq<T>, i: nat, order: seq<K>, buckets: map<K, seq<T>>)
    returns (order': seq<K>, buckets': map<K, seq<T>>)
    requires |keys| == |items| && i < |items|
    requires order == FirstSeen(keys[..i])
    requires forall k :: k in buckets <==> k in order
    requires forall k :: k in buckets ==> buckets[k] == Members(keys[..i], items[..i], k)
    ensures order' == FirstSeen(keys[..i + 1])
    ensures forall k :: k in buckets' <==> k in order'
    ensures forall k :: k in buckets' ==> buckets'[k] == Members(keys[..i + 1], items[..i + 1], k)
  {
    var k, x := keys[i], items[i];
    assert keys[..i + 1][..i] == keys[..i] && items[..i + 1][..i] == items[..i];
    if k !in buckets {
      order' := order + [k];
      buckets' := buckets[k := [x]];
      MembersOfAbsentKey(keys[..i], items[..i], k);
    } else {
      order' := order;
      buckets' := buckets[k := buckets[k] + [x]];
    }
  }
}
