/** `Array.prototype.sort` with a numeric comparator `(a, b) => key(a) - key(b)`.
    The engines the application targets sort stably, so the result is the
    stable sort by `key`: modelled here as insertion sort. */
module StableSort {
  import Lists

  predicate SortedBy<T>(s: seq<T>, key: T -> int) {
    forall i, j :: 0 <= i < j < |s| ==> key(s[i]) <= key(s[j])
  }

  /** The elements of `s` whose key is `k`, in order. */
  function WithKey<T>(s: seq<T>, key: T -> int, k: int): seq<T> {
    if s == [] then [] else (if key(s[0]) == k then [s[0]] else []) + WithKey(s[1..], key, k)
  }

  /** Places `x` before the first element whose key is not smaller than its own. */
  function Insert<T>(x: T, t: seq<T>, key: T -> int): (r: seq<T>)
    ensures |r| == |t| + 1
    ensures multiset(r) == multiset(t) + multiset{x}
    ensures forall i :: 0 <= i < |r| ==> r[i] == x || r[i] in t
  {
    if t == [] || key(x) <= key(t[0]) then [x] + t
    else
      assert t == [t[0]] + t[1..];
      [t[0]] + Insert(x, t[1..], key)
  }

  lemma {:induction false} InsertSorted<T>(x: T, t: seq<T>, key: T -> int)
    requires SortedBy(t, key)
    ensures SortedBy(Insert(x, t, key), key)
  {
    if t != [] && key(x) > key(t[0]) {
      var rest := Insert(x, t[1..], key);
      InsertSorted(x, t[1..], key);
      forall i | 0 <= i < |rest| ensures key(t[0]) <= key(rest[i]) {
        if rest[i] != x {
          var j :| 0 <= j < |t[1..]| && t[1..][j] == rest[i];
          assert t[1..][j] == t[j + 1];
        }
      }
    }
  }

  /** Inserting `x` puts it ahead of every element with the same key, so among
      equal keys the order is that of the input. */
  lemma {:induction false} InsertWithKey<T>(x: T, t: seq<T>, key: T -> int, k: int)
    ensures WithKey(Insert(x, t, key), key, k) == (if key(x) == k then [x] else []) + WithKey(t, key, k)
  {
    var r := Insert(x, t, key);
    if t == [] || key(x) <= key(t[0]) {
      assert r[0] == x && r[1..] == t;
      assert WithKey(r, key, k) == (if key(x) == k then [x] else []) + WithKey(r[1..], key, k);
    } else {
      var rest := Insert(x, t[1..], key);
      assert r[0] == t[0] && r[1..] == rest;
      InsertWithKey(x, t[1..], key, k);
      assert WithKey(r, key, k) == (if key(t[0]) == k then [t[0]] else []) + WithKey(rest, key, k);
      assert WithKey(t, key, k) == (if key(t[0]) == k then [t[0]] else []) + WithKey(t[1..], key, k);
    }
  }

  /** Inserting the head into the sorted tail sorts the whole list. */
  lemma SortStep<T>(s: seq<T>, tail: seq<T>, key: T -> int)
    requires s != [] && SortedBy(tail, key) && multiset(tail) == multiset(s[1..])
    ensures SortedBy(Insert(s[0], tail, key), key)
    ensures multiset(Insert(s[0], tail, key)) == multiset(s)
  {
    InsertSorted(s[0], tail, key);
    assert s == [s[0]] + s[1..];
  }

  /** The stable sort of `s` by `key`, ascending. */
  function Sort<T>(s: seq<T>, key: T -> int): (r: seq<T>)
    ensures |r| == |s|
    ensures multiset(r) == multiset(s)
    ensures SortedBy(r, key)
  {
    if s == [] then []
    else
      var tail := Sort(s[1..], key);
      SortStep(s, tail, key);
      Insert(s[0], tail, key)
  }

  /** Stability: for every key, the elements carrying it appear in the output in
      the same order as in the input. */
  lemma {:induction false} SortStable<T>(s: seq<T>, key: T -> int, k: int)
    ensures WithKey(Sort(s, key), key, k) == WithKey(s, key, k)
  {
    if s != [] {
      SortStable(s[1..], key, k);
      InsertWithKey(s[0], Sort(s[1..], key), key, k);
    }
  }

  /** The sort depends only on the input: a sorted stable rearrangement is unique,
      so the result is the one any stable sort produces. Sorting sorted input
      changes nothing. */
  lemma {:induction false} SortOfSorted<T>(s: seq<T>, key: T -> int)
    requires SortedBy(s, key)
    ensures Sort(s, key) == s
  {
    if s != [] {
      assert SortedBy(s[1..], key);
      SortOfSorted(s[1..], key);
    }
  }

  /** No two elements of `s` share a tag. */
  predicate DistinctBy<T, U(==)>(s: seq<T>, tag: T -> U) {
    forall i, j :: 0 <= i < j < |s| ==> tag(s[i]) != tag(s[j])
  }

  lemma {:induction false} InsertDistinctBy<T, U>(x: T, t: seq<T>, key: T -> int, tag: T -> U)
    requires DistinctBy(t, tag)
    requires forall i :: 0 <= i < |t| ==> tag(t[i]) != tag(x)
    ensures DistinctBy(Insert(x, t, key), tag)
  {
    if t != [] && key(x) > key(t[0]) {
      var rest := Insert(x, t[1..], key);
      InsertDistinctBy(x, t[1..], key, tag);
      var r := [t[0]] + rest;
      forall i, j | 0 <= i < j < |r| ensures tag(r[i]) != tag(r[j]) {
        if i == 0 {
          assert r[j] == rest[j - 1];
          if rest[j - 1] != x {
            var m :| 0 <= m < |t[1..]| && t[1..][m] == rest[j - 1];
            assert t[1..][m] == t[m + 1];
          }
        } else {
          assert r[i] == rest[i - 1] && r[j] == rest[j - 1];
        }
      }
    }
  }

  /** Sorting never makes two elements share a tag. */
  lemma {:induction false} SortDistinctBy<T, U>(s: seq<T>, key: T -> int, tag: T -> U)
    requires DistinctBy(s, tag)
    ensures DistinctBy(Sort(s, key), tag)
  {
    if s != [] {
      assert DistinctBy(s[1..], tag);
      SortDistinctBy(s[1..], key, tag);
      var tail := Sort(s[1..], key);
      forall i | 0 <= i < |tail| ensures tag(tail[i]) != tag(s[0]) {
        assert tail[i] in multiset(s[1..]);
        var m :| 0 <= m < |s[1..]| && s[1..][m] == tail[i];
        assert s[1..][m] == s[m + 1];
      }
      InsertDistinctBy(s[0], tail, key, tag);
    }
  }

  /** Sorting keeps the number of elements passing any test. */
  lemma {:induction false} SortCount<T>(s: seq<T>, key: T -> int, p: T -> bool)
    ensures |Lists.Filter(Sort(s, key), p)| == |Lists.Filter(s, p)|
  {
    if s != [] {
      SortCount(s[1..], key, p);
      InsertCount(s[0], Sort(s[1..], key), key, p);
    }
  }

  lemma {:induction false} InsertCount<T>(x: T, t: seq<T>, key: T -> int, p: T -> bool)
    ensures |Lists.Filter(Insert(x, t, key), p)| == |Lists.Filter(t, p)| + (if p(x) then 1 else 0)
  {
    var r := Insert(x, t, key);
    if t == [] || key(x) <= key(t[0]) {
      assert r[0] == x && r[1..] == t;
    } else {
      InsertCount(x, t[1..], key, p);
      assert r[0] == t[0] && r[1..] == Insert(x, t[1..], key);
    }
  }

  function Min(a: int, b: int): int {
    if a <= b then a else b
  }

  /** `s.slice(0, n)`. */
  function Take<T>(s: seq<T>, n: nat): (r: seq<T>)
    ensures |r| == Min(n, |s|)
    ensures forall i :: 0 <= i < |r| ==> r[i] == s[i]
  {
    if n <= |s| then s[..n] else s
  }

  /** Every element after position `m` of a sorted list has a key no smaller
      than any element before it. */
  lemma SortedSuffixNotSmaller<T>(sorted: seq<T>, key: T -> int, m: nat)
    requires SortedBy(sorted, key) && m <= |sorted|
    ensures forall x, i :: x in multiset(sorted[m..]) && 0 <= i < m ==> key(sorted[..m][i]) <= key(x)
  {
    forall x, i | x in multiset(sorted[m..]) && 0 <= i < m
      ensures key(sorted[..m][i]) <= key(x)
    {
      var k :| 0 <= k < |sorted[m..]| && sorted[m..][k] == x;
      assert sorted[m + k] == x && sorted[..m][i] == sorted[i];
    }
  }

  /** The first `n` of a sorted list come from it, and nothing after them has a
      smaller key than anything taken. */
  lemma TakeSortedSmallest<T>(sorted: seq<T>, key: T -> int, n: nat)
    requires SortedBy(sorted, key)
    ensures multiset(Take(sorted, n)) <= multiset(sorted)
    ensures forall x, i :: x in multiset(sorted) - multiset(Take(sorted, n)) && 0 <= i < |Take(sorted, n)|
              ==> key(Take(sorted, n)[i]) <= key(x)
  {
    var r := Take(sorted, n);
    var m := |r|;
    assert r == sorted[..m];
    assert sorted == r + sorted[m..];
    assert multiset(sorted) == multiset(r) + multiset(sorted[m..]);
    SortedSuffixNotSmaller(sorted, key, m);
    forall x, i | x in multiset(sorted) - multiset(r) && 0 <= i < m
      ensures key(r[i]) <= key(x)
    {
      assert x in multiset(sorted[m..]);
      assert r[i] == sorted[..m][i];
    }
  }

  /** The first `n` of the sorted list come from `s`, and nothing left out has a
      smaller key than anything taken. */
  lemma TakeSmallest<T>(s: seq<T>, key: T -> int, n: nat)
    ensures multiset(Take(Sort(s, key), n)) <= multiset(s)
    ensures forall x, i :: x in multiset(s) - multiset(Take(Sort(s, key), n)) && 0 <= i < |Take(Sort(s, key), n)|
              ==> key(Take(Sort(s, key), n)[i]) <= key(x)
  {
    TakeSortedSmallest(Sort(s, key), key, n);
  }
}
