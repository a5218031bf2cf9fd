/** Python's `sorted(xs, key=...)`: a STABLE sort on a key. The model is a
    stable insertion sort; the lemmas say what makes it the sort Python
    performs: the result is ordered by key, it is a permutation of the input,
    and items with equal keys keep their input order. Every key used in the
    system is an `int`/`float` or a pair of them compared lexicographically
    (Python tuple order), so one key type covers all of them: a single-number
    key `k` is the pair `(k, 0)`. */
module StableSort {
  import opened Utils

  datatype SortKey = SortKey(major: real, minor: real)

  /** Lexicographic order on pairs, as Python compares `(y, x)` tuples. */
  predicate KeyLe(a: SortKey, b: SortKey) {
    a.major < b.major || (a.major == b.major && a.minor <= b.minor)
  }

  ghost predicate SortedBy<T>(s: seq<T>, key: T -> SortKey) {
    forall i, j :: 0 <= i < j < |s| ==> KeyLe(key(s[i]), key(s[j]))
  }

  /** The items of `s` whose key is `k`, in their order in `s`. */
  function WithKey<T>(s: seq<T>, key: T -> SortKey, k: SortKey): seq<T> {
    if |s| == 0 then []
    else WithKey(s[..|s| - 1], key, k) + (if key(s[|s| - 1]) == k then [s[|s| - 1]] else [])
  }

  /** Inserts `x` after every item whose key is not greater than its own. */
  function InsertBy<T>(x: T, s: seq<T>, key: T -> SortKey): seq<T> {
    if |s| == 0 then [x]
    else if KeyLe(key(s[|s| - 1]), key(x)) then s + [x]
    else InsertBy(x, s[..|s| - 1], key) + [s[|s| - 1]]
  }

  function SortBy<T>(s: seq<T>, key: T -> SortKey): seq<T> {
    if |s| == 0 then [] else InsertBy(s[|s| - 1], SortBy(s[..|s| - 1], key), key)
  }

  lemma {:induction false} WithKeyAppend<T>(a: seq<T>, b: seq<T>, key: T -> SortKey, k: SortKey)
    ensures WithKey(a + b, key, k) == WithKey(a, key, k) + WithKey(b, key, k)
    decreases |b|
  {
    if |b| == 0 {
      assert a + b == a;
    } else {
      var b' := b[..|b| - 1];
      assert (a + b)[..|a + b| - 1] == a + b';
      WithKeyAppend(a, b', key, k);
    }
  }

  lemma {:induction false} InsertByPermutes<T>(x: T, s: seq<T>, key: T -> SortKey)
    ensures multiset(InsertBy(x, s, key)) == multiset(s) + multiset{x}
    decreases |s|
  {
    if |s| > 0 && !KeyLe(key(s[|s| - 1]), key(x)) {
      var init := s[..|s| - 1];
      InsertByPermutes(x, init, key);
      Snoc(s);
    }
  }

  lemma {:induction false} InsertBySorted<T>(x: T, s: seq<T>, key: T -> SortKey)
    requires SortedBy(s, key)
    ensures SortedBy(InsertBy(x, s, key), key)
    decreases |s|
  {
    var r := InsertBy(x, s, key);
    if |s| == 0 {
    } else if KeyLe(key(s[|s| - 1]), key(x)) {
      forall i, j | 0 <= i < j < |r| ensures KeyLe(key(r[i]), key(r[j])) {
        if j == |s| {
          assert KeyLe(key(s[i]), key(s[|s| - 1]));
        }
      }
    } else {
      var init, last := s[..|s| - 1], s[|s| - 1];
      var r' := InsertBy(x, init, key);
      assert SortedBy(init, key);
      InsertBySorted(x, init, key);
      InsertByPermutes(x, init, key);
      // every item of r' is x or an item of init, and all of those are <= last
      forall i | 0 <= i < |r'| ensures KeyLe(key(r'[i]), key(last)) {
        assert r'[i] in multiset(r');
        if r'[i] != x {
          assert r'[i] in multiset(init);
          var m :| 0 <= m < |init| && init[m] == r'[i];
          assert KeyLe(key(s[m]), key(s[|s| - 1]));
        }
      }
      assert r == r' + [last];
    }
  }

  lemma {:induction false} InsertByWithKey<T>(x: T, s: seq<T>, key: T -> SortKey, k: SortKey)
    ensures WithKey(InsertBy(x, s, key), key, k) == WithKey(s + [x], key, k)
    decreases |s|
  {
    if |s| > 0 && !KeyLe(key(s[|s| - 1]), key(x)) {
      var init, last := s[..|s| - 1], s[|s| - 1];
      var r' := InsertBy(x, init, key);
      InsertByWithKey(x, init, key, k);
      Snoc(s);
      WithKeyAppend(r', [last], key, k);
      WithKeyAppend(init, [x], key, k);
      WithKeyAppend(init + [last], [x], key, k);
      WithKeyAppend(init, [last], key, k);
      WithKeySingle(x, key, k);
      WithKeySingle(last, key, k);
    }
  }

  lemma WithKeySingle<T>(x: T, key: T -> SortKey, k: SortKey)
    ensures WithKey([x], key, k) == if key(x) == k then [x] else []
  {
    assert [x][..0] == [];
  }

  /** Python's stable sort: ordered by key, and a permutation of the input. */
  lemma {:induction false} SortByIsSortedPermutation<T>(s: seq<T>, key: T -> SortKey)
    ensures SortedBy(SortBy(s, key), key)
    ensures multiset(SortBy(s, key)) == multiset(s)
    decreases |s|
  {
    if |s| > 0 {
      var init := s[..|s| - 1];
      SortByIsSortedPermutation(init, key);
      InsertBySorted(s[|s| - 1], SortBy(init, key), key);
      InsertByPermutes(s[|s| - 1], SortBy(init, key), key);
      Snoc(s);
    }
  }

  /** Stability: the items sharing any one key appear in the sorted result in
      exactly the order they had in the input. */
  lemma {:induction false} SortByIsStable<T>(s: seq<T>, key: T -> SortKey, k: SortKey)
    ensures WithKey(SortBy(s, key), key, k) == WithKey(s, key, k)
    decreases |s|
  {
    if |s| > 0 {
      var init, last := s[..|s| - 1], s[|s| - 1];
      SortByIsStable(init, key, k);
      InsertByWithKey(last, SortBy(init, key), key, k);
      WithKeyAppend(SortBy(init, key), [last], key, k);
      WithKeyAppend(init, [last], key, k);
      Snoc(s);
    }
  }

  lemma SortByLength<T>(s: seq<T>, key: T -> SortKey)
    ensures |SortBy(s, key)| == |s|
  {
    SortByIsSortedPermutation(s, key);
    assert |multiset(SortBy(s, key))| == |multiset(s)|;
  }
}
