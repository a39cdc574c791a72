/** The array operations the pages use on fetched lists: `filter`, `map`,
    `filter(...).length`, `slice(0, n)` and summing with `reduce`, with the
    facts about them that the page-level properties are built from. */
module Seqs {

  /** `xs.filter(p)`: the elements that satisfy `p`, in their original order. */
  function Filter<T(!new)>(p: T -> bool, xs: seq<T>): (r: seq<T>)
    ensures |r| <= |xs|
    ensures forall x :: x in r <==> x in xs && p(x)
  {
    if |xs| == 0 then []
    else
      assert xs == [xs[0]] + xs[1..];
      (if p(xs[0]) then [xs[0]] else []) + Filter(p, xs[1..])
  }

  /** `xs.map(f)`. */
  function Map<T, U>(f: T -> U, xs: seq<T>): (r: seq<U>)
    ensures |r| == |xs|
    ensures forall i :: 0 <= i < |xs| ==> r[i] == f(xs[i])
  {
    if |xs| == 0 then [] else [f(xs[0])] + Map(f, xs[1..])
  }

  /** Mapping a list with one more element at the end adds its image. */
  lemma MapSnoc<T, U>(f: T -> U, xs: seq<T>, x: T)
    ensures Map(f, xs + [x]) == Map(f, xs) + [f(x)]
  {
    var a, b := Map(f, xs + [x]), Map(f, xs) + [f(x)];
    assert |a| == |b|;
    forall i | 0 <= i < |a|
      ensures a[i] == b[i]
    {
      assert (xs + [x])[i] == if i < |xs| then xs[i] else x;
    }
  }

  /** A non-empty list is its first element followed by the rest. */
  lemma HeadTail<T>(xs: seq<T>)
    requires |xs| > 0
    ensures [xs[0]] + xs[1..] == xs
  {
  }

  /** Mapping a list with one more element in front adds its image in front. */
  lemma MapCons<T, U>(f: T -> U, x: T, xs: seq<T>)
    ensures Map(f, [x] + xs) == [f(x)] + Map(f, xs)
  {
    assert ([x] + xs)[0] == x && ([x] + xs)[1..] == xs;
  }

  /** A list whose elements' images are given is mapped to exactly those. */
  lemma MapPointwise<T, U>(f: T -> U, xs: seq<T>, ys: seq<U>)
    requires |xs| == |ys| && forall i :: 0 <= i < |xs| ==> f(xs[i]) == ys[i]
    ensures Map(f, xs) == ys
  {
  }

  /** `xs.filter(p).length`. */
  function Count<T(!new)>(p: T -> bool, xs: seq<T>): nat {
    |Filter(p, xs)|
  }

  /** `xs.slice(0, n)`: the first `n` elements, or all of them when there are fewer. */
  function Take<T>(xs: seq<T>, n: nat): (r: seq<T>)
    ensures |r| <= n && |r| <= |xs|
    ensures |r| == if |xs| <= n then |xs| else n
    ensures r == xs[..|r|]
  {
    if |xs| <= n then xs else xs[..n]
  }

  /** `xs.reduce((acc, x) => acc + f(x), 0)`. */
  function Sum<T>(f: T -> real, xs: seq<T>): real {
    if |xs| == 0 then 0.0 else f(xs[0]) + Sum(f, xs[1..])
  }

  /** `a` can be obtained from `b` by deleting elements: an order-preserving selection. */
  predicate IsSubsequence<T(==)>(a: seq<T>, b: seq<T>)
    decreases |b|
  {
    if |b| == 0 then |a| == 0
    else IsSubsequence(a, b[1..]) || (|a| > 0 && a[0] == b[0] && IsSubsequence(a[1..], b[1..]))
  }

  /** Filtering keeps the survivors in their original relative order. */
  lemma {:induction false} FilterIsSubsequence<T(!new)>(p: T -> bool, xs: seq<T>)
    ensures IsSubsequence(Filter(p, xs), xs)
  {
    if |xs| > 0 {
      FilterIsSubsequence(p, xs[1..]);
      if p(xs[0]) {
        assert Filter(p, xs) == [xs[0]] + Filter(p, xs[1..]);
        assert Filter(p, xs)[1..] == Filter(p, xs[1..]);
      } else {
        assert Filter(p, xs) == Filter(p, xs[1..]);
      }
    }
  }

  /** Filtering a concatenation filters each part in turn. */
  lemma {:induction false} FilterAppend<T(!new)>(p: T -> bool, xs: seq<T>, ys: seq<T>)
    ensures Filter(p, xs + ys) == Filter(p, xs) + Filter(p, ys)
  {
    if |xs| == 0 {
      assert xs + ys == ys;
    } else {
      assert (xs + ys)[0] == xs[0] && (xs + ys)[1..] == xs[1..] + ys;
      FilterAppend(p, xs[1..], ys);
    }
  }

  /** A filter that every element passes returns the list unchanged. */
  lemma {:induction false} FilterAll<T(!new)>(p: T -> bool, xs: seq<T>)
    requires forall x :: x in xs ==> p(x)
    ensures Filter(p, xs) == xs
  {
    if |xs| > 0 {
      assert forall x :: x in xs[1..] ==> x in xs;
      FilterAll(p, xs[1..]);
      assert xs == [xs[0]] + xs[1..];
    }
  }

  /** A filter that no element passes returns nothing. */
  lemma {:induction false} FilterNone<T(!new)>(p: T -> bool, xs: seq<T>)
    requires forall x :: x in xs ==> !p(x)
    ensures Filter(p, xs) == []
  {
    if |xs| > 0 {
      assert forall x :: x in xs[1..] ==> x in xs;
      FilterNone(p, xs[1..]);
    }
  }

  /** A stricter filter selects a subsequence of what a looser one selects. */
  lemma {:induction false} FilterMonotone<T(!new)>(q: T -> bool, p: T -> bool, xs: seq<T>)
    requires forall x :: x in xs && q(x) ==> p(x)
    ensures IsSubsequence(Filter(q, xs), Filter(p, xs))
  {
    if |xs| > 0 {
      assert forall x :: x in xs[1..] ==> x in xs;
      FilterMonotone(q, p, xs[1..]);
      var fq, fp := Filter(q, xs[1..]), Filter(p, xs[1..]);
      if q(xs[0]) {
        assert Filter(q, xs) == [xs[0]] + fq && Filter(p, xs) == [xs[0]] + fp;
        assert ([xs[0]] + fq)[1..] == fq && ([xs[0]] + fp)[1..] == fp;
      } else if p(xs[0]) {
        assert Filter(q, xs) == fq && Filter(p, xs) == [xs[0]] + fp;
        assert ([xs[0]] + fp)[1..] == fp;
      } else {
        assert Filter(q, xs) == fq && Filter(p, xs) == fp;
      }
    }
  }

  /** Counting elements under two predicates that never hold together adds up
      to counting under their disjunction. */
  lemma {:induction false} CountDisjoint<T(!new)>(p: T -> bool, q: T -> bool, xs: seq<T>)
    requires forall x :: x in xs ==> !(p(x) && q(x))
    ensures Count(p, xs) + Count(q, xs) == Count(x => p(x) || q(x), xs)
  {
    if |xs| > 0 {
      assert forall x :: x in xs[1..] ==> x in xs;
      CountDisjoint(p, q, xs[1..]);
    }
  }

  /** No predicate selects more elements than the list holds. */
  lemma CountBound<T(!new)>(p: T -> bool, xs: seq<T>)
    ensures Count(p, xs) <= |xs|
  {
  }

  /** Every element is selected exactly when the count is the full length. */
  lemma {:induction false} CountAllIff<T(!new)>(p: T -> bool, xs: seq<T>)
    ensures Count(p, xs) == |xs| <==> forall x :: x in xs ==> p(x)
  {
    if |xs| > 0 {
      assert forall x :: x in xs[1..] ==> x in xs;
      CountAllIff(p, xs[1..]);
      assert xs == [xs[0]] + xs[1..];
      if !p(xs[0]) {
        assert Count(p, xs) == Count(p, xs[1..]);
      }
    }
  }

  /** The sum of a concatenation is the sum of the sums. */
  lemma {:induction false} SumAppend<T>(f: T -> real, xs: seq<T>, ys: seq<T>)
    ensures Sum(f, xs + ys) == Sum(f, xs) + Sum(f, ys)
  {
    if |xs| == 0 {
      assert xs + ys == ys;
    } else {
      assert (xs + ys)[0] == xs[0] && (xs + ys)[1..] == xs[1..] + ys;
      SumAppend(f, xs[1..], ys);
    }
  }

  /** A sum of non-negative terms is non-negative. */
  lemma {:induction false} SumNonNegative<T>(f: T -> real, xs: seq<T>)
    requires forall x :: x in xs ==> f(x) >= 0.0
    ensures Sum(f, xs) >= 0.0
  {
    if |xs| > 0 {
      assert forall x :: x in xs[1..] ==> x in xs;
      SumNonNegative(f, xs[1..]);
    }
  }

  /** Summing only the selected terms gives no more than summing all of them,
      when every term is non-negative. */
  lemma {:induction false} SumFilterBound<T(!new)>(p: T -> bool, f: T -> real, xs: seq<T>)
    requires forall x :: x in xs ==> f(x) >= 0.0
    ensures Sum(f, Filter(p, xs)) <= Sum(f, xs)
  {
    if |xs| > 0 {
      assert forall x :: x in xs[1..] ==> x in xs;
      SumFilterBound(p, f, xs[1..]);
      if p(xs[0]) {
        assert Filter(p, xs) == [xs[0]] + Filter(p, xs[1..]);
        assert ([xs[0]] + Filter(p, xs[1..]))[1..] == Filter(p, xs[1..]);
      } else {
        assert Filter(p, xs) == Filter(p, xs[1..]);
      }
    }
  }

  /** Every term is at least `lo`, so the sum is at least `n` times `lo`. */
  lemma {:induction false} SumAtLeast<T>(f: T -> real, xs: seq<T>, lo: real)
    requires forall x :: x in xs ==> lo <= f(x)
    ensures Times(|xs|, lo) <= Sum(f, xs)
  {
    if |xs| > 0 {
      var rest := xs[1..];
      assert forall x :: x in rest ==> x in xs;
      SumAtLeast(f, rest, lo);
      assert xs[0] in xs;
    }
  }


  /** Every term is at most `hi`, so the sum is at most `n` times `hi`. */
  lemma {:induction false} SumAtMost<T>(f: T -> real, xs: seq<T>, hi: real)
    requires forall x :: x in xs ==> f(x) <= hi
    ensures Sum(f, xs) <= Times(|xs|, hi)
  {
    if |xs| > 0 {
      var rest := xs[1..];
      assert forall x :: x in rest ==> x in xs;
      SumAtMost(f, rest, hi);
      assert xs[0] in xs;
    }
  }


  /** The count splits into the first element and the rest. */
  lemma CountStep<T(!new)>(p: T -> bool, xs: seq<T>)
    requires |xs| > 0
    ensures Count(p, xs) == (if p(xs[0]) then 1 else 0) + Count(p, xs[1..])
  {
  }

  /** The sum of the selected terms splits into the first element and the rest. */
  lemma SumFilterStep<T(!new)>(p: T -> bool, f: T -> real, xs: seq<T>)
    requires |xs| > 0
    ensures Sum(f, Filter(p, xs)) == (if p(xs[0]) then f(xs[0]) else 0.0) + Sum(f, Filter(p, xs[1..]))
  {
    var rest := Filter(p, xs[1..]);
    if p(xs[0]) {
      assert ([xs[0]] + rest)[1..] == rest;
    } else {
      assert [] + rest == rest;
    }
  }

  /** Replacing one element changes the sum by the difference of the two terms. */
  lemma {:induction false} SumUpdate<T>(f: T -> real, xs: seq<T>, i: nat, y: T)
    requires i < |xs|
    ensures Sum(f, xs[i := y]) == Sum(f, xs) - f(xs[i]) + f(y)
  {
    if i == 0 {
      assert xs[i := y][1..] == xs[1..];
    } else {
      assert xs[i := y][1..] == xs[1..][i - 1 := y];
      SumUpdate(f, xs[1..], i - 1, y);
    }
  }

  /** Replacing one element changes the count by whether each of the two is selected. */
  lemma {:induction false} CountUpdate<T(!new)>(p: T -> bool, xs: seq<T>, i: nat, y: T)
    requires i < |xs|
    ensures Count(p, xs[i := y]) == Count(p, xs) - (if p(xs[i]) then 1 else 0) + (if p(y) then 1 else 0)
  {
    var ys := xs[i := y];
    CountStep(p, xs);
    CountStep(p, ys);
    if i == 0 {
      assert ys[1..] == xs[1..];
    } else {
      assert ys[1..] == xs[1..][i - 1 := y];
      CountUpdate(p, xs[1..], i - 1, y);
    }
  }

  /** Replacing one element changes the sum over the selected terms by the
      selected part of each of the two. */
  lemma {:induction false} SumFilterUpdate<T(!new)>(p: T -> bool, f: T -> real, xs: seq<T>, i: nat, y: T)
    requires i < |xs|
    ensures Sum(f, Filter(p, xs[i := y]))
         == Sum(f, Filter(p, xs)) - (if p(xs[i]) then f(xs[i]) else 0.0) + (if p(y) then f(y) else 0.0)
  {
    var ys := xs[i := y];
    SumFilterStep(p, f, xs);
    SumFilterStep(p, f, ys);
    if i == 0 {
      assert ys[1..] == xs[1..];
    } else {
      assert ys[1..] == xs[1..][i - 1 := y];
      SumFilterUpdate(p, f, xs[1..], i - 1, y);
    }
  }

  /** `n` copies of `c` added up. */
  function Times(n: nat, c: real): (r: real)
    ensures r == n as real * c
  {
    if n == 0 then 0.0
    else
      Distribute((n - 1) as real, c);
      Times(n - 1, c) + c
  }

  /** (n + 1) * c == n * c + c. */
  lemma Distribute(n: real, c: real)
    ensures (n + 1.0) * c == n * c + c
  {
  }

}
