/** Generic values and sequence helpers shared by every component of the model:
    optional values, thrown-or-returned results, order-preserving filtering,
    sums over sequences, first-appearance de-duplication, reversal and
    substring search (JavaScript `String.prototype.includes`). */
module Common {

  /** `undefined`-or-value, as for the optional fields of the API records. */
  datatype Option<+T> = None | Some(value: T)

  /** A value, or a thrown `Error` carrying its `message`. */
  datatype Result<+T> = Ok(value: T) | Err(message: string)

  function Min(a: int, b: int): int
  {
    if a <= b then a else b
  }

  /** No element occurs twice. */
  predicate NoDup<T(==)>(xs: seq<T>)
  {
    forall i, j :: 0 <= i < j < |xs| ==> xs[i] != xs[j]
  }

  /** The elements of `xs` that satisfy `p`, in their original order
      (JavaScript `Array.prototype.filter`). */
  function Filter<T>(xs: seq<T>, p: T -> bool): (r: seq<T>)
    ensures |r| <= |xs|
    ensures forall i :: 0 <= i < |r| ==> r[i] in xs && p(r[i])
    ensures forall i :: 0 <= i < |xs| && p(xs[i]) ==> xs[i] in r
  {
    if |xs| == 0 then []
    else Filter(xs[..|xs| - 1], p) + (if p(xs[|xs| - 1]) then [xs[|xs| - 1]] else [])
  }

  lemma FilterSnoc<T>(xs: seq<T>, x: T, p: T -> bool)
    ensures Filter(xs + [x], p) == Filter(xs, p) + (if p(x) then [x] else [])
  {
    assert (xs + [x])[..|xs|] == xs;
  }

  /** Filtering keeps a sequence whose elements all pass. */
  lemma {:induction false} FilterKeepsAll<T>(xs: seq<T>, p: T -> bool)
    requires forall i :: 0 <= i < |xs| ==> p(xs[i])
    ensures Filter(xs, p) == xs
  {
    if |xs| > 0 {
      FilterKeepsAll(xs[..|xs| - 1], p);
      assert xs[..|xs| - 1] + [xs[|xs| - 1]] == xs;
    }
  }

  /** Filtering drops a sequence none of whose elements pass. */
  lemma {:induction false} FilterDropsAll<T>(xs: seq<T>, p: T -> bool)
    requires forall i :: 0 <= i < |xs| ==> !p(xs[i])
    ensures Filter(xs, p) == []
  {
    if |xs| > 0 {
      FilterDropsAll(xs[..|xs| - 1], p);
    }
  }

  /** Filtering with two predicates that agree on every element gives the same result. */
  lemma {:induction false} FilterCongruent<T>(xs: seq<T>, p: T -> bool, q: T -> bool)
    requires forall i :: 0 <= i < |xs| ==> p(xs[i]) == q(xs[i])
    ensures Filter(xs, p) == Filter(xs, q)
  {
    if |xs| > 0 {
      FilterCongruent(xs[..|xs| - 1], p, q);
    }
  }

  /** A value is kept by `Filter` exactly when it occurs and passes. */
  lemma FilterMembership<T>(xs: seq<T>, p: T -> bool, x: T)
    ensures x in Filter(xs, p) <==> x in xs && p(x)
  {
    var r := Filter(xs, p);
    if x in r {
      var i :| 0 <= i < |r| && r[i] == x;
    }
    if x in xs && p(x) {
      var i :| 0 <= i < |xs| && xs[i] == x;
    }
  }

  /** How often `Filter` keeps a value depends only on how often it occurs. */
  lemma {:induction false} FilterMultiplicity<T>(xs: seq<T>, p: T -> bool, x: T)
    ensures multiset(Filter(xs, p))[x] == if p(x) then multiset(xs)[x] else 0
  {
    if |xs| > 0 {
      var init, last := xs[..|xs| - 1], xs[|xs| - 1];
      FilterMultiplicity(init, p, x);
      assert xs == init + [last];
    }
  }

  /** Permuting the input permutes the filtered output, so it keeps its length. */
  lemma FilterOfPermutation<T>(xs: seq<T>, ys: seq<T>, p: T -> bool)
    requires multiset(xs) == multiset(ys)
    ensures multiset(Filter(xs, p)) == multiset(Filter(ys, p))
    ensures |Filter(xs, p)| == |Filter(ys, p)|
  {
    forall x
      ensures multiset(Filter(xs, p))[x] == multiset(Filter(ys, p))[x]
    {
      FilterMultiplicity(xs, p, x);
      FilterMultiplicity(ys, p, x);
    }
    assert multiset(Filter(xs, p)) == multiset(Filter(ys, p));
    calc {
      |Filter(xs, p)|;
      |multiset(Filter(xs, p))|;
      |multiset(Filter(ys, p))|;
      |Filter(ys, p)|;
    }
  }

  /** The sum of `f` over the elements of `xs`. */
  function SumOf<T>(xs: seq<T>, f: T -> int): int
  {
    if |xs| == 0 then 0 else SumOf(xs[..|xs| - 1], f) + f(xs[|xs| - 1])
  }

  lemma SumOfSnoc<T>(xs: seq<T>, x: T, f: T -> int)
    ensures SumOf(xs + [x], f) == SumOf(xs, f) + f(x)
  {
    assert (xs + [x])[..|xs|] == xs;
  }

  lemma {:induction false} SumOfAppend<T>(xs: seq<T>, ys: seq<T>, f: T -> int)
    ensures SumOf(xs + ys, f) == SumOf(xs, f) + SumOf(ys, f)
  {
    if |ys| > 0 {
      var init, last := ys[..|ys| - 1], ys[|ys| - 1];
      SumOfAppend(xs, init, f);
      assert ys == init + [last];
      assert xs + ys == (xs + init) + [last];
      SumOfSnoc(xs + init, last, f);
      SumOfSnoc(init, last, f);
    } else {
      assert xs + ys == xs;
    }
  }

  lemma SumOfCons<T>(x: T, xs: seq<T>, f: T -> int)
    ensures SumOf([x] + xs, f) == f(x) + SumOf(xs, f)
  {
    SumOfAppend([x], xs, f);
    assert [x][..0] == [];
  }

  /** Replacing one element changes the sum by the difference of the two values. */
  lemma {:induction false} SumOfUpdate<T>(xs: seq<T>, i: nat, y: T, f: T -> int)
    requires i < |xs|
    ensures SumOf(xs[i := y], f) == SumOf(xs, f) - f(xs[i]) + f(y)
  {
    var init, last := xs[..|xs| - 1], xs[|xs| - 1];
    if i == |xs| - 1 {
      assert xs[i := y] == init + [y];
      SumOfSnoc(init, y, f);
    } else {
      SumOfUpdate(init, i, y, f);
      assert xs[i := y] == init[i := y] + [last];
      SumOfSnoc(init[i := y], last, f);
    }
  }

  /** Every summand zero makes the sum zero. */
  lemma {:induction false} SumOfZeros<T>(xs: seq<T>, f: T -> int)
    requires forall i :: 0 <= i < |xs| ==> f(xs[i]) == 0
    ensures SumOf(xs, f) == 0
  {
    if |xs| > 0 {
      SumOfZeros(xs[..|xs| - 1], f);
    }
  }

  /** Every summand non-negative makes the sum non-negative. */
  lemma {:induction false} SumOfNonNegative<T>(xs: seq<T>, f: T -> int)
    requires forall i :: 0 <= i < |xs| ==> f(xs[i]) >= 0
    ensures SumOf(xs, f) >= 0
  {
    if |xs| > 0 {
      SumOfNonNegative(xs[..|xs| - 1], f);
    }
  }

  /** A positive sum has a positive summand. */
  lemma {:induction false} SumOfPositiveWitness<T>(xs: seq<T>, f: T -> int)
    requires forall i :: 0 <= i < |xs| ==> f(xs[i]) >= 0
    requires SumOf(xs, f) > 0
    ensures exists i :: 0 <= i < |xs| && f(xs[i]) > 0
  {
    var init, last := xs[..|xs| - 1], xs[|xs| - 1];
    if f(last) <= 0 {
      SumOfPositiveWitness(init, f);
      var i :| 0 <= i < |init| && f(init[i]) > 0;
      assert xs[i] == init[i];
    }
  }

  /** The distinct elements of `xs` in order of first appearance (the
      iteration order of a JavaScript `Set` filled from `xs`). */
  function Distinct<T(==)>(xs: seq<T>): (r: seq<T>)
    ensures NoDup(r)
    ensures forall i :: 0 <= i < |r| ==> r[i] in xs
    ensures forall i :: 0 <= i < |xs| ==> xs[i] in r
  {
    if |xs| == 0 then []
    else
      var d := Distinct(xs[..|xs| - 1]);
      if xs[|xs| - 1] in d then d else d + [xs[|xs| - 1]]
  }

  lemma DistinctSnoc<T>(xs: seq<T>, x: T)
    ensures Distinct(xs + [x]) == if x in xs then Distinct(xs) else Distinct(xs) + [x]
  {
    assert (xs + [x])[..|xs|] == xs;
  }

  /** De-duplication keeps exactly the values that occur. */
  lemma DistinctMembership<T>(xs: seq<T>, x: T)
    ensures x in Distinct(xs) <==> x in xs
  {
    var d := Distinct(xs);
    if x in d {
      var i :| 0 <= i < |d| && d[i] == x;
    }
    if x in xs {
      var i :| 0 <= i < |xs| && xs[i] == x;
    }
  }

  function Reverse<T>(xs: seq<T>): (r: seq<T>)
    ensures |r| == |xs|
    ensures forall i :: 0 <= i < |xs| ==> r[i] == xs[|xs| - 1 - i]
    ensures multiset(r) == multiset(xs)
  {
    if |xs| == 0 then []
    else
      assert xs == xs[..|xs| - 1] + [xs[|xs| - 1]];
      [xs[|xs| - 1]] + Reverse(xs[..|xs| - 1])
  }

  /** `pat` occurs in `s` starting at index `i`. */
  predicate OccursAt(s: string, pat: string, i: int)
  {
    0 <= i && i + |pat| <= |s| && s[i..i + |pat|] == pat
  }

  /** JavaScript `s.includes(pat)`. */
  predicate Contains(s: string, pat: string)
    decreases |s|
  {
    |pat| <= |s| && (s[..|pat|] == pat || Contains(s[1..], pat))
  }

  /** `Contains` holds exactly when the pattern occurs at some index. */
  lemma {:induction false} ContainsIffOccurs(s: string, pat: string)
    ensures Contains(s, pat) <==> exists i :: OccursAt(s, pat, i)
    decreases |s|
  {
    if |pat| <= |s| {
      if s[..|pat|] == pat {
        assert OccursAt(s, pat, 0);
      } else if Contains(s[1..], pat) {
        ContainsIffOccurs(s[1..], pat);
        var i :| OccursAt(s[1..], pat, i);
        assert s[i + 1..i + 1 + |pat|] == s[1..][i..i + |pat|];
        assert OccursAt(s, pat, i + 1);
      } else if exists i :: OccursAt(s, pat, i) {
        var i :| OccursAt(s, pat, i);
        assert i != 0;
        ContainsIffOccurs(s[1..], pat);
        assert s[1..][i - 1..i - 1 + |pat|] == s[i..i + |pat|];
        assert OccursAt(s[1..], pat, i - 1);
        assert false;
      }
    }
  }

  /** `s` ends with `suffix` (JavaScript `s.endsWith(suffix)`). */
  predicate EndsWith(s: string, suffix: string)
  {
    |suffix| <= |s| && s[|s| - |suffix|..] == suffix
  }

  /** JavaScript `s.indexOf(c)` for a single character: the first position
      of `c`, or -1 when it does not occur. */
  function IndexOf(s: string, c: char): (r: int)
    ensures -1 <= r < |s|
    ensures r == -1 <==> c !in s
    ensures r >= 0 ==> s[r] == c && c !in s[..r]
  {
    if |s| == 0 then -1
    else if s[0] == c then 0
    else
      var k := IndexOf(s[1..], c);
      if k < 0 then -1
      else
        assert s[..k + 1] == [s[0]] + s[1..][..k];
        k + 1
  }

  /** The first `c` of a text is the one right after a prefix without `c`. */
  lemma IndexOfAfter(head: string, c: char, tail: string)
    requires c !in head
    ensures IndexOf(head + [c] + tail, c) == |head|
  {
    var s := head + [c] + tail;
    assert s[|head|] == c && s[..|head|] == head;
  }

  /** `s.split(c)[0]`: the text before the first `c`, all of `s` without one. */
  function Before(s: string, c: char): (d: string)
    ensures d <= s
    ensures c !in d
    ensures |d| < |s| ==> s[|d|] == c
  {
    var i := IndexOf(s, c);
    if i < 0 then s else s[..i]
  }

  /** Splitting a text made of a `c`-free part, `c` and anything else
      gives back the part. */
  lemma BeforeOf(head: string, c: char, tail: string)
    requires c !in head
    ensures Before(head + [c] + tail, c) == head
  {
    IndexOfAfter(head, c, tail);
    assert (head + [c] + tail)[..|head|] == head;
  }

  /** A text without `c` is its own first part. */
  lemma BeforeOfWhole(s: string, c: char)
    requires c !in s
    ensures Before(s, c) == s
  {
  }

  /** Without duplicates every value occurs at most once. */
  lemma {:induction false} NoDupMultiplicity<T>(xs: seq<T>, x: T)
    requires NoDup(xs)
    ensures multiset(xs)[x] == if x in xs then 1 else 0
  {
    if |xs| > 0 {
      var init, last := xs[..|xs| - 1], xs[|xs| - 1];
      assert xs == init + [last];
      NoDupMultiplicity(init, x);
      assert last !in init by {
        forall i | 0 <= i < |init| ensures init[i] != last {
          assert xs[i] != xs[|xs| - 1];
        }
      }
    }
  }

  /** A value at two positions occurs at least twice. */
  lemma RepeatMultiplicity<T>(ys: seq<T>, i: nat, j: nat)
    requires i < j < |ys| && ys[i] == ys[j]
    ensures multiset(ys)[ys[i]] >= 2
  {
    assert ys == ys[..j] + [ys[j]] + ys[j + 1..];
    assert ys[..j][i] == ys[i];
  }

  /** A permutation of a list without duplicates has none either. */
  lemma PermutationKeepsNoDup<T>(xs: seq<T>, ys: seq<T>)
    requires NoDup(xs) && multiset(xs) == multiset(ys)
    ensures NoDup(ys)
  {
    forall i, j | 0 <= i < j < |ys| ensures ys[i] != ys[j] {
      NoDupMultiplicity(xs, ys[i]);
      if ys[i] == ys[j] {
        RepeatMultiplicity(ys, i, j);
      }
    }
  }
}
