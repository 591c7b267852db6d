/** Filtering and duplicate-freedom of sequences. */
module Seqs {
  ghost predicate NoDup<T(!new)>(xs: seq<T>) {
    forall i, j :: 0 <= i < j < |xs| ==> xs[i] != xs[j]
  }

  function Filter<T>(xs: seq<T>, p: T -> bool): seq<T> {
    if xs == [] then []
    else
      var x := xs[|xs| - 1];
      Filter(xs[..|xs| - 1], p) + if p(x) then [x] else []
  }

  /** The first `limit` elements; a limit that is not positive cuts nothing off. */
  function Cut<T>(xs: seq<T>, limit: int): seq<T> {
    if 0 < limit < |xs| then xs[..limit] else xs
  }

  function Concat<T>(xss: seq<seq<T>>): seq<T> {
    if xss == [] then [] else Concat(xss[..|xss| - 1]) + xss[|xss| - 1]
  }

  lemma {:induction false} ConcatCons<T>(xs: seq<T>, xss: seq<seq<T>>)
    ensures Concat([xs] + xss) == xs + Concat(xss)
  {
    if xss == [] {
      assert [xs] + xss == [xs] && Concat([xs]) == Concat([xs][..0]) + xs;
    } else {
      var n := |xss| - 1;
      ConcatCons(xs, xss[..n]);
      assert ([xs] + xss)[..n + 1] == [xs] + xss[..n];
    }
  }

  lemma {:induction false} FilterIn<T>(xs: seq<T>, p: T -> bool, x: T)
    ensures x in Filter(xs, p) <==> x in xs && p(x)
  {
    if xs != [] {
      FilterIn(xs[..|xs| - 1], p, x);
      assert xs == xs[..|xs| - 1] + [xs[|xs| - 1]];
    }
  }

  lemma {:induction false} FilterAppend<T>(xs: seq<T>, ys: seq<T>, p: T -> bool)
    ensures Filter(xs + ys, p) == Filter(xs, p) + Filter(ys, p)
  {
    if ys == [] {
      assert xs + ys == xs;
    } else {
      var n := |ys| - 1;
      FilterAppend(xs, ys[..n], p);
      assert (xs + ys)[..|xs| + n] == xs + ys[..n];
    }
  }

  lemma {:induction false} FilterSame<T>(xs: seq<T>, p: T -> bool, q: T -> bool)
    requires forall x <- xs :: p(x) <==> q(x)
    ensures Filter(xs, p) == Filter(xs, q)
  {
    if xs != [] {
      FilterSame(xs[..|xs| - 1], p, q);
      assert xs == xs[..|xs| - 1] + [xs[|xs| - 1]];
    }
  }

  lemma {:induction false} FilterAll<T>(xs: seq<T>, p: T -> bool)
    requires forall x <- xs :: p(x)
    ensures Filter(xs, p) == xs
  {
    if xs != [] {
      FilterAll(xs[..|xs| - 1], p);
      assert xs == xs[..|xs| - 1] + [xs[|xs| - 1]];
    }
  }

  lemma {:induction false} FilterFilter<T>(xs: seq<T>, p: T -> bool, q: T -> bool, r: T -> bool)
    requires forall x <- xs :: r(x) <==> p(x) && q(x)
    ensures Filter(Filter(xs, p), q) == Filter(xs, r)
  {
    if xs != [] {
      var n := |xs| - 1;
      FilterFilter(xs[..n], p, q, r);
      FilterAppend(Filter(xs[..n], p), if p(xs[n]) then [xs[n]] else [], q);
      assert [xs[n]][..0] == [];
    }
  }

  lemma {:induction false} NoDupMultiplicity<T(!new)>(xs: seq<T>, x: T)
    requires NoDup(xs)
    ensures multiset(xs)[x] == if x in xs then 1 else 0
  {
    if xs != [] {
      var n := |xs| - 1;
      NoDupMultiplicity(xs[..n], x);
      assert xs == xs[..n] + [xs[n]];
      assert multiset(xs) == multiset(xs[..n]) + multiset{xs[n]};
    }
  }

  /** Duplicate-free sequences with the same elements are permutations of each other. */
  lemma NoDupSameElements<T(!new)>(xs: seq<T>, ys: seq<T>)
    requires NoDup(xs) && NoDup(ys)
    requires forall x :: x in xs <==> x in ys
    ensures multiset(xs) == multiset(ys)
  {
    forall x ensures multiset(xs)[x] == multiset(ys)[x] {
      NoDupMultiplicity(xs, x);
      NoDupMultiplicity(ys, x);
    }
  }

  /** Takes one `x` out of a sequence that is a permutation of `[x] + rest`. */
  lemma TakeOut<T>(xs: seq<T>, x: T, rest: seq<T>) returns (a: seq<T>, b: seq<T>)
    requires multiset(xs) == multiset([x] + rest)
    ensures xs == a + ([x] + b) && multiset(a + b) == multiset(rest)
  {
    assert x in multiset(xs);
    var i :| 0 <= i < |xs| && xs[i] == x;
    a, b := xs[..i], xs[i + 1..];
    assert xs == a + ([x] + b);
    assert multiset(a + b) == multiset(xs) - multiset{x} == multiset(rest);
  }

  lemma TakeOneMore<T>(xs: seq<T>, i: nat)
    requires i < |xs|
    ensures xs[..i] + [xs[i]] == xs[..i + 1]
  {
  }
}
