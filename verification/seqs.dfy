/** Sequence helpers shared by the repositories: JavaScript's
    `Array.prototype.filter` and the stable `Array.prototype.sort` with a
    "newest first" comparator, each with the facts the model relies on. */
module Seqs {

  /** `s.filter(p)`: the elements of `s` that satisfy `p`, in their order. */
  function Filter<T>(s: seq<T>, p: T -> bool): (r: seq<T>)
    ensures |r| <= |s|
    ensures forall i :: 0 <= i < |r| ==> r[i] in s && p(r[i])
    ensures forall i :: 0 <= i < |s| && p(s[i]) ==> s[i] in r
  {
    if s == [] then []
    else (if p(s[0]) then [s[0]] else []) + Filter(s[1..], p)
  }

  /** `a` is `b` with some elements deleted (order kept). */
  predicate IsSubsequence<T(==)>(a: seq<T>, b: seq<T>)
  {
    if a == [] then true
    else if b == [] then false
    else if a[0] == b[0] then IsSubsequence(a[1..], b[1..])
    else IsSubsequence(a, b[1..])
  }

  /** Filtering keeps the order of what it keeps. */
  lemma {:induction false} FilterIsSubsequence<T>(s: seq<T>, p: T -> bool)
    ensures IsSubsequence(Filter(s, p), s)
  {
    if s != [] {
      FilterIsSubsequence(s[1..], p);
      var r := Filter(s, p);
      if p(s[0]) {
        assert r == [s[0]] + Filter(s[1..], p);
        assert r[1..] == Filter(s[1..], p);
      } else {
        assert r == Filter(s[1..], p);
        if r != [] {
          assert p(r[0]);
        }
      }
    }
  }

  /** Two filters in a row are one filter by the conjunction. */
  lemma {:induction false} FilterFilter<T>(s: seq<T>, p: T -> bool, q: T -> bool, pq: T -> bool)
    requires forall x :: pq(x) == (p(x) && q(x))
    ensures Filter(Filter(s, p), q) == Filter(s, pq)
  {
    if s != [] {
      FilterFilter(s[1..], p, q, pq);
      FilterAppend((if p(s[0]) then [s[0]] else []), Filter(s[1..], p), q);
    }
  }

  lemma {:induction false} FilterAppend<T>(a: seq<T>, b: seq<T>, p: T -> bool)
    ensures Filter(a + b, p) == Filter(a, p) + Filter(b, p)
  {
    if a != [] {
      assert (a + b)[1..] == a[1..] + b;
      FilterAppend(a[1..], b, p);
    } else {
      assert a + b == b;
    }
  }

  /** Filtering by predicates that agree on every element gives the same result. */
  lemma {:induction false} FilterExt<T>(s: seq<T>, p: T -> bool, q: T -> bool)
    requires forall x :: p(x) == q(x)
    ensures Filter(s, p) == Filter(s, q)
  {
    if s != [] {
      FilterExt(s[1..], p, q);
    }
  }

  /** A filter that every element passes changes nothing. */
  lemma {:induction false} FilterAll<T>(s: seq<T>, p: T -> bool)
    requires forall i :: 0 <= i < |s| ==> p(s[i])
    ensures Filter(s, p) == s
  {
    if s != [] {
      FilterAll(s[1..], p);
    }
  }

  /** Filtering keeps every occurrence of a kept value, duplicates
      included, and no occurrence of any other value. */
  lemma {:induction false} FilterCounts<T>(s: seq<T>, p: T -> bool, x: T)
    ensures multiset(Filter(s, p))[x] == if p(x) then multiset(s)[x] else 0
  {
    if s != [] {
      FilterCounts(s[1..], p, x);
      assert s == [s[0]] + s[1..];
      FilterCons(s[0], s[1..], p);
    }
  }

  // ---------------------------------------------------------------------
  // Stable sort, newest first

  /** The predicate "the key of `x` is `k`", as a value. */
  function KeyIs<T>(key: T -> int, k: int): T -> bool
  {
    x => key(x) == k
  }

  ghost predicate SortedByKeyDesc<T>(s: seq<T>, key: T -> int)
  {
    forall i, j :: 0 <= i < j < |s| ==> key(s[i]) >= key(s[j])
  }

  /** Inserts `x` before the first element whose key is not larger. */
  function InsertByKeyDesc<T>(x: T, s: seq<T>, key: T -> int): seq<T>
  {
    if s == [] || key(x) >= key(s[0]) then [x] + s
    else [s[0]] + InsertByKeyDesc(x, s[1..], key)
  }

  /** What `s.sort((a, b) => key(b) - key(a))` returns: largest key first,
      equal keys in their original order (the sort is stable). */
  function SortByKeyDesc<T>(s: seq<T>, key: T -> int): seq<T>
  {
    if s == [] then [] else InsertByKeyDesc(s[0], SortByKeyDesc(s[1..], key), key)
  }

  /** Insertion adds exactly the one element. */
  lemma {:induction false} InsertCount<T>(x: T, s: seq<T>, key: T -> int)
    ensures multiset(InsertByKeyDesc(x, s, key)) == multiset{x} + multiset(s)
    ensures |InsertByKeyDesc(x, s, key)| == |s| + 1
  {
    if s != [] && key(x) < key(s[0]) {
      InsertCount(x, s[1..], key);
      assert s == [s[0]] + s[1..];
    }
  }

  /** Insertion into a sorted list keeps it sorted. */
  lemma {:induction false} InsertSorted<T>(x: T, s: seq<T>, key: T -> int)
    requires SortedByKeyDesc(s, key)
    ensures SortedByKeyDesc(InsertByKeyDesc(x, s, key), key)
    ensures InsertByKeyDesc(x, s, key) != []
    ensures InsertByKeyDesc(x, s, key)[0] == x || InsertByKeyDesc(x, s, key)[0] == s[0]
  {
    if s != [] && key(x) < key(s[0]) {
      var tail := s[1..];
      assert SortedByKeyDesc(tail, key) by {
        forall i, j | 0 <= i < j < |tail| ensures key(tail[i]) >= key(tail[j]) {
          assert tail[i] == s[i + 1] && tail[j] == s[j + 1];
        }
      }
      InsertSorted(x, tail, key);
      var t := InsertByKeyDesc(x, tail, key);
      var r := InsertByKeyDesc(x, s, key);
      assert r == [s[0]] + t;
      assert key(s[0]) >= key(t[0]) by {
        if t[0] != x {
          assert t[0] == s[1];
        }
      }
      forall i, j | 0 <= i < j < |r| ensures key(r[i]) >= key(r[j]) {
        assert r[j] == t[j - 1];
        if i > 0 {
          assert r[i] == t[i - 1];
        } else if j > 1 {
          assert key(t[0]) >= key(t[j - 1]);
        }
      }
    }
  }

  /** The listing is ordered newest first. */
  lemma {:induction false} SortIsSorted<T>(s: seq<T>, key: T -> int)
    ensures SortedByKeyDesc(SortByKeyDesc(s, key), key)
  {
    if s != [] {
      SortIsSorted(s[1..], key);
      InsertSorted(s[0], SortByKeyDesc(s[1..], key), key);
    }
  }

  /** The listing holds exactly the original elements. */
  lemma {:induction false} SortIsPermutation<T>(s: seq<T>, key: T -> int)
    ensures multiset(SortByKeyDesc(s, key)) == multiset(s)
  {
    if s != [] {
      SortIsPermutation(s[1..], key);
      InsertCount(s[0], SortByKeyDesc(s[1..], key), key);
      assert s == [s[0]] + s[1..];
    }
  }

  lemma FilterCons<T>(y: T, s: seq<T>, p: T -> bool)
    ensures Filter([y] + s, p) == (if p(y) then [y] else []) + Filter(s, p)
  {
    assert ([y] + s)[1..] == s;
  }

  lemma {:induction false} InsertKeepsTies<T>(x: T, s: seq<T>, key: T -> int, k: int)
    ensures Filter(InsertByKeyDesc(x, s, key), KeyIs(key, k))
         == (if key(x) == k then [x] else []) + Filter(s, KeyIs(key, k))
    decreases |s|, 1
  {
    if s == [] || key(x) >= key(s[0]) {
      FilterCons(x, s, KeyIs(key, k));
    } else {
      InsertBehindKeepsTies(x, s, key, k);
    }
  }

  /** The case where `x` goes behind the head of `s`: the head and `x`
      cannot share the key `k`, so their order among ties is unchanged. */
  lemma {:induction false} InsertBehindKeepsTies<T>(x: T, s: seq<T>, key: T -> int, k: int)
    requires s != [] && key(x) < key(s[0])
    ensures Filter(InsertByKeyDesc(x, s, key), KeyIs(key, k))
         == (if key(x) == k then [x] else []) + Filter(s, KeyIs(key, k))
    decreases |s|, 0
  {
    var p := KeyIs(key, k);
    var t := InsertByKeyDesc(x, s[1..], key);
    assert InsertByKeyDesc(x, s, key) == [s[0]] + t;
    InsertKeepsTies(x, s[1..], key, k);
    FilterCons(s[0], t, p);
    assert s == [s[0]] + s[1..];
    FilterCons(s[0], s[1..], p);
    TiesCommute(if p(s[0]) then [s[0]] else [], if key(x) == k then [x] else [], Filter(s[1..], p));
  }

  lemma TiesCommute<T>(a: seq<T>, b: seq<T>, f: seq<T>)
    requires a == [] || b == []
    ensures a + (b + f) == b + (a + f)
  {
    if a == [] {
      assert a + (b + f) == b + f == b + (a + f);
    } else {
      assert a + (b + f) == a + f == b + (a + f);
    }
  }

  /** Stability: the articles that share one key appear in the listing in
      exactly the order they had before sorting. */
  lemma {:induction false} SortIsStable<T>(s: seq<T>, key: T -> int, k: int)
    ensures Filter(SortByKeyDesc(s, key), KeyIs(key, k)) == Filter(s, KeyIs(key, k))
  {
    if s != [] {
      SortIsStable(s[1..], key, k);
      InsertKeepsTies(s[0], SortByKeyDesc(s[1..], key), key, k);
    }
  }
}
