/** `Array.prototype.sort` with a numeric comparator `(a, b) => key(a) - key(b)`.
    The language requires the sort to be stable, which fixes its result:
    ascending by key, elements of equal key in their original order. It is
    defined here as an insertion sort. */
module Sorting {
  import opened Common

  predicate SortedBy<T>(xs: seq<T>, key: T -> int)
  {
    forall i, j :: 0 <= i < j < |xs| ==> key(xs[i]) <= key(xs[j])
  }

  /** Puts `x` after every element whose key is not larger than its own. */
  function Insert<T>(ys: seq<T>, x: T, key: T -> int): seq<T>
  {
    if |ys| == 0 || key(ys[|ys| - 1]) <= key(x) then ys + [x]
    else Insert(ys[..|ys| - 1], x, key) + [ys[|ys| - 1]]
  }

  function SortBy<T>(xs: seq<T>, key: T -> int): seq<T>
  {
    if |xs| == 0 then []
    else Insert(SortBy(xs[..|xs| - 1], key), xs[|xs| - 1], key)
  }

  /** The elements whose key is `k`. */
  function KeyIs<T>(key: T -> int, k: int): T -> bool
  {
    (x: T) => key(x) == k
  }

  lemma {:induction false} InsertMultiset<T>(ys: seq<T>, x: T, key: T -> int)
    ensures multiset(Insert(ys, x, key)) == multiset(ys) + multiset{x}
  {
    if !(|ys| == 0 || key(ys[|ys| - 1]) <= key(x)) {
      var init, last := ys[..|ys| - 1], ys[|ys| - 1];
      InsertMultiset(init, x, key);
      assert ys == init + [last];
    }
  }

  lemma {:induction false} InsertSorted<T>(ys: seq<T>, x: T, key: T -> int)
    requires SortedBy(ys, key)
    ensures SortedBy(Insert(ys, x, key), key)
  {
    if !(|ys| == 0 || key(ys[|ys| - 1]) <= key(x)) {
      var init, last := ys[..|ys| - 1], ys[|ys| - 1];
      var r := Insert(init, x, key);
      InsertSorted(init, x, key);
      InsertMultiset(init, x, key);
      forall i | 0 <= i < |r| ensures key(r[i]) <= key(last) {
        assert r[i] in multiset(init) + multiset{x};
      }
    }
  }

  /** Inserting keeps the order among the elements of each key, with `x`
      after the others of its key. */
  lemma {:induction false} InsertStable<T>(ys: seq<T>, x: T, key: T -> int, k: int)
    ensures Filter(Insert(ys, x, key), KeyIs(key, k)) == Filter(ys + [x], KeyIs(key, k))
  {
    if !(|ys| == 0 || key(ys[|ys| - 1]) <= key(x)) {
      var init, last := ys[..|ys| - 1], ys[|ys| - 1];
      var p := KeyIs(key, k);
      InsertStable(init, x, key, k);
      FilterSnoc(Insert(init, x, key), last, p);
      FilterSnoc(init, x, p);
      assert ys == init + [last];
      FilterSnoc(init, last, p);
      FilterSnoc(ys, x, p);
    }
  }

  /** The sorted list is ascending by key. */
  lemma {:induction false} SortBySorted<T>(xs: seq<T>, key: T -> int)
    ensures SortedBy(SortBy(xs, key), key)
  {
    if |xs| > 0 {
      SortBySorted(xs[..|xs| - 1], key);
      InsertSorted(SortBy(xs[..|xs| - 1], key), xs[|xs| - 1], key);
    }
  }

  /** The sorted list is a permutation of the input. */
  lemma {:induction false} SortByPermutes<T>(xs: seq<T>, key: T -> int)
    ensures multiset(SortBy(xs, key)) == multiset(xs)
  {
    if |xs| > 0 {
      var init, last := xs[..|xs| - 1], xs[|xs| - 1];
      SortByPermutes(init, key);
      InsertMultiset(SortBy(init, key), last, key);
      assert xs == init + [last];
    }
  }

  /** The sort is stable: the elements of each key keep their input order. */
  lemma {:induction false} SortByStable<T>(xs: seq<T>, key: T -> int, k: int)
    ensures Filter(SortBy(xs, key), KeyIs(key, k)) == Filter(xs, KeyIs(key, k))
  {
    if |xs| > 0 {
      var init, last := xs[..|xs| - 1], xs[|xs| - 1];
      var p, s := KeyIs(key, k), SortBy(init, key);
      SortByStable(init, key, k);
      InsertStable(s, last, key, k);
      FilterSnoc(s, last, p);
      FilterSnoc(init, last, p);
      assert xs == init + [last];
      calc {
        Filter(SortBy(xs, key), p);
        Filter(Insert(s, last, key), p);
        Filter(s + [last], p);
        Filter(s, p) + (if p(last) then [last] else []);
        Filter(init, p) + (if p(last) then [last] else []);
        Filter(init + [last], p);
      }
    }
  }

  /** The sorted list holds the same elements as the input. */
  lemma SortByKeepsElements<T>(xs: seq<T>, key: T -> int)
    ensures forall x :: x in SortBy(xs, key) <==> x in xs
  {
    SortByPermutes(xs, key);
    forall x ensures x in SortBy(xs, key) <==> x in xs {
      assert x in SortBy(xs, key) <==> x in multiset(SortBy(xs, key));
      assert x in xs <==> x in multiset(xs);
    }
  }
}
