/** `Array.prototype.sort` with a comparator on one number: descending and stable. */
module StableSort {

  /** Put `x` behind every element whose key is not smaller. */
  function Insert<T>(sorted: seq<T>, x: T, key: T -> int): seq<T> {
    if sorted == [] then [x]
    else
      var m := |sorted| - 1;
      if key(sorted[m]) >= key(x) then sorted + [x] else Insert(sorted[..m], x, key) + [sorted[m]]
  }

  function SortDescending<T>(s: seq<T>, key: T -> int): seq<T> {
    if s == [] then [] else Insert(SortDescending(s[..|s| - 1], key), s[|s| - 1], key)
  }

  ghost predicate Descending<T>(s: seq<T>, key: T -> int) {
    forall j, k | 0 <= j < k < |s| :: key(s[j]) >= key(s[k])
  }

  /** The elements with one key, in order. */
  function WithKey<T>(s: seq<T>, key: T -> int, value: int): seq<T> {
    if s == [] then []
    else WithKey(s[..|s| - 1], key, value) + (if key(s[|s| - 1]) == value then [s[|s| - 1]] else [])
  }

  lemma {:induction false} InsertPermutes<T>(sorted: seq<T>, x: T, key: T -> int)
    ensures multiset(Insert(sorted, x, key)) == multiset(sorted) + multiset{x}
  {
    if sorted != [] {
      var m := |sorted| - 1;
      assert sorted == sorted[..m] + [sorted[m]];
      InsertPermutes(sorted[..m], x, key);
    }
  }

  predicate AllAtLeast<T>(s: seq<T>, key: T -> int, least: int) {
    forall k | 0 <= k < |s| :: key(s[k]) >= least
  }

  lemma AppendDescends<T>(s: seq<T>, x: T, key: T -> int)
    requires Descending(s, key) && AllAtLeast(s, key, key(x))
    ensures Descending(s + [x], key)
  {
  }

  lemma DescendingEnd<T>(s: seq<T>, key: T -> int)
    requires s != [] && Descending(s, key)
    ensures Descending(s[..|s| - 1], key)
    ensures AllAtLeast(s, key, key(s[|s| - 1])) && AllAtLeast(s[..|s| - 1], key, key(s[|s| - 1]))
  {
  }

  lemma LowerLeast<T>(s: seq<T>, key: T -> int, least: int, lower: int)
    requires AllAtLeast(s, key, least) && least >= lower
    ensures AllAtLeast(s, key, lower)
  {
  }

  lemma InsertedAtLeast<T>(sorted: seq<T>, x: T, key: T -> int, least: int)
    requires AllAtLeast(sorted, key, least) && key(x) >= least
    ensures AllAtLeast(Insert(sorted, x, key), key, least)
  {
    hide Insert;
    InsertPermutes(sorted, x, key);
    var inserted := Insert(sorted, x, key);
    forall k | 0 <= k < |inserted| ensures key(inserted[k]) >= least {
      assert inserted[k] in multiset(inserted);
    }
  }

  lemma {:induction false} InsertDescends<T>(sorted: seq<T>, x: T, key: T -> int)
    requires Descending(sorted, key)
    ensures Descending(Insert(sorted, x, key), key)
  {
    if sorted != [] {
      hide Descending, AllAtLeast;
      var m := |sorted| - 1;
      DescendingEnd(sorted, key);
      if key(sorted[m]) < key(x) {
        InsertDescends(sorted[..m], x, key);
        InsertedAtLeast(sorted[..m], x, key, key(sorted[m]));
        AppendDescends(Insert(sorted[..m], x, key), sorted[m], key);
      } else {
        LowerLeast(sorted, key, key(sorted[m]), key(x));
        AppendDescends(sorted, x, key);
      }
    }
  }

  lemma AppendWithKey<T>(s: seq<T>, x: T, key: T -> int, value: int)
    ensures WithKey(s + [x], key, value) == WithKey(s, key, value) + (if key(x) == value then [x] else [])
  {
    assert (s + [x])[..|s|] == s;
  }

  lemma {:induction false} InsertIsStable<T>(sorted: seq<T>, x: T, key: T -> int, value: int)
    ensures WithKey(Insert(sorted, x, key), key, value)
      == WithKey(sorted, key, value) + (if key(x) == value then [x] else [])
  {
    if sorted == [] {
      assert [] + [x] == [x];
      AppendWithKey([], x, key, value);
    } else {
      var m := |sorted| - 1;
      AppendWithKey(sorted, x, key, value);
      if key(sorted[m]) < key(x) {
        InsertIsStable(sorted[..m], x, key, value);
        AppendWithKey(Insert(sorted[..m], x, key), sorted[m], key, value);
      }
    }
  }

  /** The result is a descending permutation that keeps the order of elements with equal keys. */
  lemma {:induction false} SortIsStablePermutation<T>(s: seq<T>, key: T -> int)
    ensures Descending(SortDescending(s, key), key)
    ensures multiset(SortDescending(s, key)) == multiset(s)
    ensures forall value :: WithKey(SortDescending(s, key), key, value) == WithKey(s, key, value)
  {
    if s != [] {
      var n := |s| - 1;
      var sorted := SortDescending(s[..n], key);
      assert s == s[..n] + [s[n]];
      SortIsStablePermutation(s[..n], key);
      InsertDescends(sorted, s[n], key);
      InsertPermutes(sorted, s[n], key);
      forall value ensures WithKey(SortDescending(s, key), key, value) == WithKey(s, key, value) {
        InsertIsStable(sorted, s[n], key, value);
      }
    }
  }
}
