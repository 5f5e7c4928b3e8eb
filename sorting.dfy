/** Ordering by an integer key, as the store's `sort` stage does.
    The store leaves the relative order of equal keys unspecified; this model
    keeps such records in their original order (a stable insertion sort). */
module Sorting {
  import opened Base

  ghost predicate SortedBy<T>(s: seq<T>, key: T -> int)
  {
    forall i, j :: 0 <= i < j < |s| ==> key(s[i]) <= key(s[j])
  }

  /** No two elements of `s` share the same `k`. */
  ghost predicate DistinctBy<T, K>(s: seq<T>, k: T -> K)
  {
    forall i, j :: 0 <= i < j < |s| ==> k(s[i]) != k(s[j])
  }

  /** Inserts `x` before the first element whose key is not smaller, so `x`
      goes ahead of the elements that share its key. */
  function Insert<T>(x: T, s: seq<T>, key: T -> int): (r: seq<T>)
    ensures multiset(r) == multiset(s) + multiset{x}
    ensures |r| == |s| + 1
    ensures forall i :: 0 <= i < |r| ==> r[i] == x || r[i] in s
  {
    if s == [] then [x]
    else if key(x) <= key(s[0]) then [x] + s
    else
      assert s == [s[0]] + s[1..];
      [s[0]] + Insert(x, s[1..], key)
  }

  /** Inserting into a sorted sequence keeps it sorted. */
  lemma {:induction false} InsertSorted<T>(x: T, s: seq<T>, key: T -> int)
    requires SortedBy(s, key)
    ensures SortedBy(Insert(x, s, key), key)
  {
    if s != [] && key(x) > key(s[0]) {
      var rest := Insert(x, s[1..], key);
      InsertSorted(x, s[1..], key);
      var r := [s[0]] + rest;
      assert r == Insert(x, s, key);
      forall i | 0 <= i < |rest| ensures key(s[0]) <= key(rest[i]) {
        if rest[i] != x {
          var j :| 0 <= j < |s[1..]| && s[1..][j] == rest[i];
          assert s[j + 1] == rest[i];
        }
      }
      assert forall i :: 1 <= i < |r| ==> r[i] == rest[i - 1];
    }
  }

  function SortBy<T>(s: seq<T>, key: T -> int): (r: seq<T>)
    ensures multiset(r) == multiset(s)
    ensures |r| == |s|
    ensures SortedBy(r, key)
  {
    if s == [] then []
    else
      assert s == [s[0]] + s[1..];
      InsertSorted(s[0], SortBy(s[1..], key), key);
      Insert(s[0], SortBy(s[1..], key), key)
  }

  /** Selects the elements whose key is `k`. */
  function KeyIs<T>(key: T -> int, k: int): T -> bool
  {
    (e: T) => key(e) == k
  }

  /** Insertion passes only over elements with a smaller key, so among the
      elements with any one key `x` comes first and the others keep their order. */
  lemma {:induction false} FilterInsert<T(!new)>(x: T, t: seq<T>, key: T -> int, k: int)
    ensures Filter(Insert(x, t, key), KeyIs(key, k))
            == if key(x) == k then [x] + Filter(t, KeyIs(key, k)) else Filter(t, KeyIs(key, k))
  {
    var p := KeyIs(key, k);
    if t == [] {
      assert [x][1..] == [];
    } else if key(x) <= key(t[0]) {
      assert ([x] + t)[1..] == t;
    } else {
      FilterInsert(x, t[1..], key, k);
      var r := [t[0]] + Insert(x, t[1..], key);
      assert r[1..] == Insert(x, t[1..], key);
      assert t == [t[0]] + t[1..];
    }
  }

  /** `SortBy` is stable: the elements sharing any one key appear in the output
      in the order they have in the input. */
  lemma {:induction false} SortByStable<T(!new)>(s: seq<T>, key: T -> int, k: int)
    ensures Filter(SortBy(s, key), KeyIs(key, k)) == Filter(s, KeyIs(key, k))
  {
    if s != [] {
      SortByStable(s[1..], key, k);
      FilterInsert(s[0], SortBy(s[1..], key), key, k);
    }
  }

  /** Two elements with the same key keep their order. */
  lemma TiesKeepOrder<T>(a: T, b: T, key: T -> int)
    requires key(a) == key(b)
    ensures SortBy([a, b], key) == [a, b]
  {
    assert [a, b][1..] == [b];
    assert SortBy([b], key) == [b];
  }

  lemma {:induction false} InsertDistinct<T, K>(x: T, s: seq<T>, key: T -> int, k: T -> K)
    requires DistinctBy(s, k)
    requires forall e :: e in s ==> k(e) != k(x)
    ensures DistinctBy(Insert(x, s, key), k)
  {
    if s != [] && key(x) > key(s[0]) {
      InsertDistinct(x, s[1..], key, k);
      var rest := Insert(x, s[1..], key);
      forall e | e in rest ensures k(e) != k(s[0]) {
        assert e in multiset(rest);
        if e != x {
          assert e in multiset(s[1..]);
          var j :| 0 <= j < |s[1..]| && s[1..][j] == e;
          assert s[j + 1] == e;
        }
      }
    }
  }

  /** Sorting never merges or duplicates records: distinct keys stay distinct. */
  lemma {:induction false} SortDistinct<T, K>(s: seq<T>, key: T -> int, k: T -> K)
    requires DistinctBy(s, k)
    ensures DistinctBy(SortBy(s, key), k)
  {
    if s != [] {
      SortDistinct(s[1..], key, k);
      forall e | e in SortBy(s[1..], key) ensures k(e) != k(s[0]) {
        assert e in multiset(SortBy(s[1..], key));
        var j :| 0 <= j < |s[1..]| && s[1..][j] == e;
        assert s[j + 1] == e;
      }
      InsertDistinct(s[0], SortBy(s[1..], key), key, k);
    }
  }
}
