/** `Array.prototype.sort` with a comparator of the form `key(a) - key(b)`: a stable sort,
    written as insertion sort that takes the elements in their input order. */
module StableSort {
  import opened Common

  predicate Sorted<T>(key: T -> int, s: seq<T>)
  {
    forall i, j :: 0 <= i < j < |s| ==> key(s[i]) <= key(s[j])
  }

  /** `x` placed before the first element whose key is strictly greater, so after every
      element with an equal key. */
  function Insert<T>(key: T -> int, x: T, s: seq<T>): (r: seq<T>)
    ensures |r| == |s| + 1
  {
    if s == [] then [x]
    else if key(x) < key(s[0]) then [x] + s
    else [s[0]] + Insert(key, x, s[1..])
  }

  lemma {:induction false} InsertPermutes<T>(key: T -> int, x: T, s: seq<T>)
    ensures multiset(Insert(key, x, s)) == multiset(s) + multiset{x}
  {
    if s != [] && key(x) >= key(s[0]) {
      InsertPermutes(key, x, s[1..]);
      assert s == [s[0]] + s[1..];
    }
  }

  lemma {:induction false} InsertSorted<T>(key: T -> int, x: T, s: seq<T>)
    requires Sorted(key, s)
    ensures Sorted(key, Insert(key, x, s))
  {
    if s != [] && key(x) >= key(s[0]) {
      var rest := Insert(key, x, s[1..]);
      InsertSorted(key, x, s[1..]);
      InsertPermutes(key, x, s[1..]);
      forall y | y in rest
        ensures key(s[0]) <= key(y)
      {
        assert y in multiset(rest);
        if y != x {
          var j :| 0 < j < |s| && s[j] == y;
        }
      }
      SortedCons(key, s[0], rest);
    }
  }

  /** An element no greater than any of a sorted sequence can go in front of it. */
  lemma SortedCons<T>(key: T -> int, a: T, s: seq<T>)
    requires Sorted(key, s) && forall y :: y in s ==> key(a) <= key(y)
    ensures Sorted(key, [a] + s)
  {
    var r := [a] + s;
    forall i, j | 0 <= i < j < |r|
      ensures key(r[i]) <= key(r[j])
    {
      assert r[j] == s[j - 1];
      if i > 0 {
        assert r[i] == s[i - 1];
      }
    }
  }

  function Sort<T>(key: T -> int, s: seq<T>): (r: seq<T>)
    ensures |r| == |s|
  {
    if s == [] then []
    else Insert(key, s[|s| - 1], Sort(key, s[..|s| - 1]))
  }

  /** The result is a permutation of the input. */
  lemma {:induction false} SortPermutes<T>(key: T -> int, s: seq<T>)
    ensures multiset(Sort(key, s)) == multiset(s)
  {
    if s != [] {
      SortPermutes(key, s[..|s| - 1]);
      InsertPermutes(key, s[|s| - 1], Sort(key, s[..|s| - 1]));
      assert s == s[..|s| - 1] + [s[|s| - 1]];
    }
  }

  /** The result is ordered by key. */
  lemma {:induction false} SortSorted<T>(key: T -> int, s: seq<T>)
    ensures Sorted(key, Sort(key, s))
  {
    if s != [] {
      SortSorted(key, s[..|s| - 1]);
      InsertSorted(key, s[|s| - 1], Sort(key, s[..|s| - 1]));
    }
  }

  function KeyIs<T>(key: T -> int, k: int): T -> bool
  {
    (y: T) => key(y) == k
  }

  /** Inserting keeps the order among elements with the same key: the new one goes last. */
  lemma {:induction false} InsertStable<T>(key: T -> int, x: T, s: seq<T>, k: int)
    requires Sorted(key, s)
    ensures Filter(Insert(key, x, s), KeyIs(key, k))
            == Filter(s, KeyIs(key, k)) + (if key(x) == k then [x] else [])
  {
    if s == [] {
      FilterSingleton(x, KeyIs(key, k));
    } else if key(x) < key(s[0]) {
      InsertFirstStable(key, x, s, k);
    } else {
      InsertStable(key, x, s[1..], k);
      InsertLaterStable(key, x, s, k);
    }
  }

  /** The case where `x` goes in front. */
  lemma InsertFirstStable<T>(key: T -> int, x: T, s: seq<T>, k: int)
    requires Sorted(key, s) && s != [] && key(x) < key(s[0])
    ensures Filter(Insert(key, x, s), KeyIs(key, k))
            == Filter(s, KeyIs(key, k)) + (if key(x) == k then [x] else [])
  {
    var p := KeyIs(key, k);
    FilterAppend([x], s, p);
    FilterSingleton(x, p);
    if key(x) == k {
      forall y | y in s
        ensures !p(y)
      {
        var j :| 0 <= j < |s| && s[j] == y;
        assert j == 0 || key(s[0]) <= key(s[j]);
      }
      FilterNone(s, p);
      assert Filter(Insert(key, x, s), p) == [x];
    } else {
      assert Filter(Insert(key, x, s), p) == Filter(s, p);
    }
  }

  /** The case where `x` goes after the first element, given the property for the rest. */
  lemma InsertLaterStable<T>(key: T -> int, x: T, s: seq<T>, k: int)
    requires s != [] && key(x) >= key(s[0])
    requires Filter(Insert(key, x, s[1..]), KeyIs(key, k))
             == Filter(s[1..], KeyIs(key, k)) + (if key(x) == k then [x] else [])
    ensures Filter(Insert(key, x, s), KeyIs(key, k))
            == Filter(s, KeyIs(key, k)) + (if key(x) == k then [x] else [])
  {
    var p := KeyIs(key, k);
    var rest := Insert(key, x, s[1..]);
    assert Insert(key, x, s) == [s[0]] + rest;
    FilterCons(s[0], rest, p);
    assert s == [s[0]] + s[1..];
    FilterCons(s[0], s[1..], p);
    if p(s[0]) {
      ConcatAssoc([s[0]], Filter(s[1..], p), if key(x) == k then [x] else []);
    }
  }

  /** The sort is stable: for every key, the elements with that key appear in the result in
      the order they had in the input. */
  lemma {:induction false} SortStable<T>(key: T -> int, s: seq<T>, k: int)
    ensures Filter(Sort(key, s), KeyIs(key, k)) == Filter(s, KeyIs(key, k))
  {
    if s != [] {
      var init := s[..|s| - 1];
      var x := s[|s| - 1];
      assert s == init + [x];
      SortStable(key, init, k);
      SortSorted(key, init);
      InsertStable(key, x, Sort(key, init), k);
      FilterSnoc(init, x, KeyIs(key, k));
    }
  }
}
