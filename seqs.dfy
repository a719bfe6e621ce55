/**
 * The three list combinators the dashboard is built from: `Array.prototype.filter`,
 * `Array.prototype.map` and a `reduce` that adds up one integer per element.
 * All are defined by recursion on the LAST element, which matches the
 * left-to-right order in which the source walks its arrays.
 */
module Seqs {

  /** The elements of `s` satisfying `p`, in their original order. */
  function Filter<T>(p: T -> bool, s: seq<T>): (r: seq<T>)
    ensures |r| <= |s|
  {
    if s == [] then []
    else Filter(p, s[..|s| - 1]) + (if p(s[|s| - 1]) then [s[|s| - 1]] else [])
  }

  /** `f` applied to every element of `s`. */
  function Map<A, B>(f: A -> B, s: seq<A>): (r: seq<B>)
    ensures |r| == |s|
    ensures forall i :: 0 <= i < |s| ==> r[i] == f(s[i])
  {
    if s == [] then [] else Map(f, s[..|s| - 1]) + [f(s[|s| - 1])]
  }

  /** `s.reduce((acc, x) => acc + f(x), 0)`. */
  function Sum<T>(f: T -> int, s: seq<T>): int
  {
    if s == [] then 0 else Sum(f, s[..|s| - 1]) + f(s[|s| - 1])
  }

  /** The indices of `s` whose elements `Filter(p, s)` keeps, in increasing order. */
  function Positions<T>(p: T -> bool, s: seq<T>): seq<nat>
  {
    if s == [] then []
    else Positions(p, s[..|s| - 1]) + (if p(s[|s| - 1]) then [|s| - 1] else [])
  }

  /** `idx` lists in increasing order exactly those positions of `s` where `p` holds,
      and `r` holds the elements at those positions. */
  ghost predicate SelectsExactly<T>(r: seq<T>, idx: seq<nat>, s: seq<T>, p: T -> bool)
  {
    && |idx| == |r|
    && (forall k :: 0 <= k < |idx| ==> idx[k] < |s| && r[k] == s[idx[k]])
    && (forall k, l :: 0 <= k < l < |idx| ==> idx[k] < idx[l])
    && (forall i :: 0 <= i < |s| ==> (p(s[i]) <==> i in idx))
  }

  /** The filter keeps exactly the elements of `s` that satisfy `p`. */
  lemma {:induction false} FilterMembers<T>(p: T -> bool, s: seq<T>)
    ensures forall x :: x in Filter(p, s) <==> x in s && p(x)
  {
    if s != [] {
      var s' := s[..|s| - 1];
      FilterMembers(p, s');
      assert s == s' + [s[|s| - 1]];
    }
  }

  lemma FilterSnoc<T>(p: T -> bool, s: seq<T>, x: T)
    ensures Filter(p, s + [x]) == Filter(p, s) + (if p(x) then [x] else [])
  {
    assert (s + [x])[..|s|] == s;
  }

  lemma SumSnoc<T>(f: T -> int, s: seq<T>, x: T)
    ensures Sum(f, s + [x]) == Sum(f, s) + f(x)
  {
    assert (s + [x])[..|s|] == s;
  }

  /** One more element adds its term to a filtered sum exactly when the filter keeps it. */
  lemma SumFilterSnoc<T>(f: T -> int, p: T -> bool, s: seq<T>, x: T)
    ensures Sum(f, Filter(p, s + [x])) == Sum(f, Filter(p, s)) + (if p(x) then f(x) else 0)
  {
    FilterSnoc(p, s, x);
    if p(x) {
      SumSnoc(f, Filter(p, s), x);
    } else {
      assert Filter(p, s + [x]) == Filter(p, s);
    }
  }

  lemma {:induction false} SumConcat<T>(f: T -> int, a: seq<T>, b: seq<T>)
    ensures Sum(f, a + b) == Sum(f, a) + Sum(f, b)
  {
    if b == [] {
      assert a + b == a;
    } else {
      var b' := b[..|b| - 1];
      assert a + b == (a + b') + [b[|b| - 1]];
      assert b == b' + [b[|b| - 1]];
      SumConcat(f, a, b');
      SumSnoc(f, a + b', b[|b| - 1]);
      SumSnoc(f, b', b[|b| - 1]);
    }
  }

  lemma {:induction false} FilterConcat<T>(p: T -> bool, a: seq<T>, b: seq<T>)
    ensures Filter(p, a + b) == Filter(p, a) + Filter(p, b)
  {
    if b == [] {
      assert a + b == a;
    } else {
      var b' := b[..|b| - 1];
      assert a + b == (a + b') + [b[|b| - 1]];
      assert b == b' + [b[|b| - 1]];
      FilterConcat(p, a, b');
      FilterSnoc(p, a + b', b[|b| - 1]);
      FilterSnoc(p, b', b[|b| - 1]);
    }
  }

  /** Filter keeps exactly the elements satisfying `p`, in order, at the positions `Positions` lists. */
  lemma {:induction false} FilterSelects<T>(p: T -> bool, s: seq<T>)
    ensures SelectsExactly(Filter(p, s), Positions(p, s), s, p)
  {
    if s != [] {
      var n := |s|;
      var s', x := s[..n - 1], s[n - 1];
      FilterSelects(p, s');
      var r', idx' := Filter(p, s'), Positions(p, s');
      var r, idx := Filter(p, s), Positions(p, s);
      assert r == r' + (if p(x) then [x] else []);
      assert idx == idx' + (if p(x) then [n - 1] else []);
      forall k | 0 <= k < |idx|
        ensures idx[k] < |s| && r[k] == s[idx[k]]
      {
        if k < |idx'| {
          assert idx[k] == idx'[k] && r[k] == r'[k] && s'[idx'[k]] == s[idx'[k]];
        }
      }
      forall i | 0 <= i < |s|
        ensures p(s[i]) <==> i in idx
      {
        if i < n - 1 {
          assert s[i] == s'[i];
          assert i in idx <==> i in idx';
        }
      }
    }
  }

  /** A sum of non-negative terms is non-negative. */
  lemma {:induction false} SumNonNegative<T>(f: T -> int, s: seq<T>)
    requires forall x :: x in s ==> f(x) >= 0
    ensures Sum(f, s) >= 0
  {
    if s != [] {
      SumNonNegative(f, s[..|s| - 1]);
    }
  }

  /** A sum of positive terms is positive exactly when there is at least one term. */
  lemma {:induction false} SumPositive<T>(f: T -> int, s: seq<T>)
    requires forall x :: x in s ==> f(x) > 0
    ensures Sum(f, s) > 0 <==> s != []
  {
    if s != [] {
      var s' := s[..|s| - 1];
      SumNonNegative(f, s');
    }
  }

  /** Nothing survives the filter exactly when no element satisfies `p`. */
  lemma {:induction false} FilterEmpty<T>(p: T -> bool, s: seq<T>)
    ensures Filter(p, s) == [] <==> forall x :: x in s ==> !p(x)
  {
    if s != [] {
      var s' := s[..|s| - 1];
      FilterEmpty(p, s');
      assert s == s' + [s[|s| - 1]];
    }
  }

  /** Replacing one element changes the sum by the difference of the two terms. */
  lemma {:induction false} SumUpdate<T>(f: T -> int, s: seq<T>, i: nat, x: T)
    requires i < |s|
    ensures Sum(f, s[i := x]) == Sum(f, s) - f(s[i]) + f(x)
  {
    var s' := s[..|s| - 1];
    if i == |s| - 1 {
      assert s[i := x][..|s| - 1] == s';
    } else {
      SumUpdate(f, s', i, x);
      assert s[i := x][..|s| - 1] == s'[i := x];
    }
  }

  /** Dropping elements whose term is zero does not change the sum. */
  lemma {:induction false} SumFilterDropsZeros<T>(f: T -> int, p: T -> bool, s: seq<T>)
    requires forall x :: x in s && !p(x) ==> f(x) == 0
    ensures Sum(f, Filter(p, s)) == Sum(f, s)
  {
    if s != [] {
      var s' := s[..|s| - 1];
      var x := s[|s| - 1];
      SumFilterDropsZeros(f, p, s');
      assert s == s' + [x];
      FilterSnoc(p, s', x);
      SumSnoc(f, s', x);
      if p(x) {
        SumSnoc(f, Filter(p, s'), x);
      } else {
        assert Filter(p, s) == Filter(p, s') + [] == Filter(p, s');
      }
    }
  }

  /** Sums over the filters of two disjoint predicates add up to the sum over their union. */
  lemma {:induction false} SumFilterSplit<T>(f: T -> int, r: T -> bool, p: T -> bool, q: T -> bool, s: seq<T>)
    requires forall x :: x in s ==> (r(x) <==> p(x) || q(x)) && !(p(x) && q(x))
    ensures Sum(f, Filter(r, s)) == Sum(f, Filter(p, s)) + Sum(f, Filter(q, s))
  {
    if s != [] {
      var s' := s[..|s| - 1];
      var x := s[|s| - 1];
      SumFilterSplit(f, r, p, q, s');
      assert s == s' + [x];
      FilterSnoc(r, s', x);
      FilterSnoc(p, s', x);
      FilterSnoc(q, s', x);
      SumConcat(f, Filter(r, s'), if r(x) then [x] else []);
      SumConcat(f, Filter(p, s'), if p(x) then [x] else []);
      SumConcat(f, Filter(q, s'), if q(x) then [x] else []);
      assert Sum(f, [x]) == f(x) by { SumSnoc(f, [], x); assert [] + [x] == [x]; }
    }
  }

  /** Filtering by a stronger predicate cannot increase a sum of non-negative terms. */
  lemma {:induction false} SumFilterMonotone<T>(f: T -> int, p: T -> bool, q: T -> bool, s: seq<T>)
    requires forall x :: x in s ==> (p(x) ==> q(x)) && (q(x) ==> f(x) >= 0)
    ensures Sum(f, Filter(p, s)) <= Sum(f, Filter(q, s))
  {
    if s != [] {
      var s' := s[..|s| - 1];
      var x := s[|s| - 1];
      SumFilterMonotone(f, p, q, s');
      assert s == s' + [x];
      FilterSnoc(p, s', x);
      FilterSnoc(q, s', x);
      SumConcat(f, Filter(p, s'), if p(x) then [x] else []);
      SumConcat(f, Filter(q, s'), if q(x) then [x] else []);
      assert Sum(f, [x]) == f(x) by { SumSnoc(f, [], x); assert [] + [x] == [x]; }
    }
  }

  /** Filtering by `q` first changes nothing when `p` already implies `q`. */
  lemma {:induction false} FilterNarrowed<T>(p: T -> bool, q: T -> bool, s: seq<T>)
    requires forall x :: x in s ==> (p(x) ==> q(x))
    ensures Filter(p, Filter(q, s)) == Filter(p, s)
  {
    if s != [] {
      var s' := s[..|s| - 1];
      var x := s[|s| - 1];
      FilterNarrowed(p, q, s');
      assert s == s' + [x];
      FilterSnoc(q, s', x);
      FilterSnoc(p, s', x);
      if q(x) {
        FilterSnoc(p, Filter(q, s'), x);
      } else {
        assert Filter(q, s) == Filter(q, s') + [] == Filter(q, s');
        assert Filter(p, s) == Filter(p, s') + [] == Filter(p, s');
      }
    }
  }

  /** Maps that agree on every element of `s` give the same result. */
  lemma {:induction false} MapAgree<A, B>(f: A -> B, g: A -> B, s: seq<A>)
    requires forall x :: x in s ==> f(x) == g(x)
    ensures Map(f, s) == Map(g, s)
  {
  }

  /** A sum of zero terms is zero. */
  lemma {:induction false} SumZeros<T>(f: T -> int, s: seq<T>)
    requires forall x :: x in s ==> f(x) == 0
    ensures Sum(f, s) == 0
  {
    if s != [] {
      SumZeros(f, s[..|s| - 1]);
    }
  }

  /** An element that the filter drops, or that adds zero, can be removed without changing the sum. */
  lemma SumFilterSkip<T>(f: T -> int, p: T -> bool, a: seq<T>, x: T, b: seq<T>)
    requires !p(x) || f(x) == 0
    ensures Sum(f, Filter(p, a + [x] + b)) == Sum(f, Filter(p, a + b))
  {
    FilterConcat(p, a + [x], b);
    FilterConcat(p, a, [x]);
    FilterConcat(p, a, b);
    var fx := Filter(p, [x]);
    assert fx == Filter(p, []) + (if p(x) then [x] else []) by { FilterSnoc(p, [], x); assert [] + [x] == [x]; }
    SumConcat(f, Filter(p, a) + fx, Filter(p, b));
    SumConcat(f, Filter(p, a), fx);
    SumConcat(f, Filter(p, a), Filter(p, b));
    if p(x) {
      assert Sum(f, fx) == f(x) by { SumSnoc(f, [], x); assert [] + [x] == [x]; }
    }
  }
}
