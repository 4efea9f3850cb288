/** Shared vocabulary: optional values, and sequences seen as bags. */
module Prelude {

  datatype Option<+T> = None | Some(value: T)

  predicate Distinct<T(==)>(xs: seq<T>) { forall i, j :: 0 <= i < j < |xs| ==> xs[i] != xs[j] }

  /** The results of `f` on each element, one after the other. */
  function FlatMap<A, B>(f: A -> seq<B>, xs: seq<A>): seq<B> {
    if xs == [] then [] else FlatMap(f, xs[..|xs| - 1]) + f(xs[|xs| - 1])
  }

  lemma FlatMapSnoc<A, B>(f: A -> seq<B>, xs: seq<A>, x: A)
    ensures FlatMap(f, xs + [x]) == FlatMap(f, xs) + f(x)
  {
    assert (xs + [x])[..|xs|] == xs;
  }

  lemma FlatMapOne<A, B>(f: A -> seq<B>, x: A)
    ensures FlatMap(f, [x]) == f(x)
  {
    FlatMapSnoc(f, [], x);
    assert [] + [x] == [x];
  }

  lemma {:induction false} FlatMapMember<A, B>(f: A -> seq<B>, xs: seq<A>, y: B)
    ensures y in FlatMap(f, xs) <==> exists x :: x in xs && y in f(x)
  {
    if xs != [] {
      var init, last := xs[..|xs| - 1], xs[|xs| - 1];
      assert xs == init + [last];
      FlatMapMember(f, init, y);
    }
  }

  lemma {:induction false} FlatMapRemove<A, B>(f: A -> seq<B>, xs: seq<A>, j: nat)
    requires j < |xs|
    ensures multiset(FlatMap(f, xs)) == multiset(FlatMap(f, xs[..j] + xs[j + 1..])) + multiset(f(xs[j]))
  {
    var n := |xs| - 1;
    if j == n {
      assert xs[..j] + xs[j + 1..] == xs[..n];
    } else {
      var init, last := xs[..n], xs[n];
      FlatMapRemove(f, init, j);
      var shorter := init[..j] + init[j + 1..];
      assert xs[..j] + xs[j + 1..] == shorter + [last] && xs == init + [last];
      hide *;
      FlatMapSnoc(f, init, last);
      FlatMapSnoc(f, shorter, last);
      BagRotates(FlatMap(f, init), FlatMap(f, shorter), f(xs[j]), f(last));
    }
  }

  lemma BagRotates<B>(whole: seq<B>, rest: seq<B>, x: seq<B>, last: seq<B>)
    requires multiset(whole) == multiset(rest) + multiset(x)
    ensures multiset(whole + last) == multiset(rest + last) + multiset(x)
  {
  }

  lemma BagRemove<A>(xs: seq<A>, j: nat)
    requires j < |xs|
    ensures multiset(xs[..j] + xs[j + 1..]) == multiset(xs) - multiset{xs[j]}
  {
    assert xs == xs[..j] + [xs[j]] + xs[j + 1..];
  }

  /** Rearranging the input rearranges the output. */
  lemma {:induction false} FlatMapPermutes<A, B>(f: A -> seq<B>, xs: seq<A>, ys: seq<A>)
    requires multiset(xs) == multiset(ys)
    ensures multiset(FlatMap(f, xs)) == multiset(FlatMap(f, ys))
    decreases |xs|
  {
    if xs == [] {
      assert |multiset(ys)| == |ys|;
    } else {
      SameElements(xs, ys);
      var last := xs[|xs| - 1];
      assert last in ys;
      var j :| 0 <= j < |ys| && ys[j] == last;
      var init, rest := xs[..|xs| - 1], ys[..j] + ys[j + 1..];
      assert xs == init + [last];
      BagRemove(ys, j);
      assert multiset(init) == multiset(xs) - multiset{last};
      FlatMapPermutes(f, init, rest);
      hide *;
      FlatMapSnoc(f, init, last);
      FlatMapRemove(f, ys, j);
    }
  }

  lemma {:induction false} FlatMapSame<A, B>(f: A -> seq<B>, g: A -> seq<B>, xs: seq<A>)
    requires forall x :: x in xs ==> f(x) == g(x)
    ensures FlatMap(f, xs) == FlatMap(g, xs)
  {
    if xs != [] {
      FlatMapSame(f, g, xs[..|xs| - 1]);
      assert xs[|xs| - 1] in xs;
    }
  }

  lemma {:induction false} FlatMapBags<A, B>(f: A -> seq<B>, g: A -> seq<B>, xs: seq<A>)
    requires forall x :: x in xs ==> multiset(f(x)) == multiset(g(x))
    ensures multiset(FlatMap(f, xs)) == multiset(FlatMap(g, xs))
  {
    if xs != [] {
      FlatMapBags(f, g, xs[..|xs| - 1]);
      assert xs[|xs| - 1] in xs;
    }
  }

  lemma {:induction false} FlatMapEmpty<A, B>(f: A -> seq<B>, xs: seq<A>)
    ensures FlatMap(f, xs) == [] <==> forall x :: x in xs ==> f(x) == []
  {
    if xs != [] {
      FlatMapEmpty(f, xs[..|xs| - 1]);
      assert xs == xs[..|xs| - 1] + [xs[|xs| - 1]];
    }
  }

  lemma {:induction false} FlatMapConcat<A, B>(f: A -> seq<B>, xs: seq<A>, ys: seq<A>)
    ensures FlatMap(f, xs + ys) == FlatMap(f, xs) + FlatMap(f, ys)
  {
    if ys == [] {
      assert xs + ys == xs;
    } else {
      var init, last := ys[..|ys| - 1], ys[|ys| - 1];
      FlatMapConcat(f, xs, init);
      assert xs + ys == xs + init + [last];
      FlatMapSnoc(f, xs + init, last);
    }
  }

  /** Mapping twice is mapping once with the composition. */
  lemma {:induction false} FlatMapTwice<A, B, C>(f: A -> seq<B>, g: B -> seq<C>, fg: A -> seq<C>, xs: seq<A>)
    requires forall x :: x in xs ==> fg(x) == FlatMap(g, f(x))
    ensures FlatMap(g, FlatMap(f, xs)) == FlatMap(fg, xs)
  {
    if xs != [] {
      var init, last := xs[..|xs| - 1], xs[|xs| - 1];
      FlatMapTwice(f, g, fg, init);
      assert last in xs;
      FlatMapConcat(g, FlatMap(f, init), f(last));
    }
  }

  /** If only `k` gives anything, and is listed at most once, the results are those of `k`. */
  lemma {:induction false} FlatMapOnly<A, B>(f: A -> seq<B>, xs: seq<A>, k: A)
    requires Distinct(xs) && forall x :: x in xs && x != k ==> f(x) == []
    ensures FlatMap(f, xs) == if k in xs then f(k) else []
  {
    if xs != [] {
      var init, last := xs[..|xs| - 1], xs[|xs| - 1];
      assert xs == init + [last];
      FlatMapOnly(f, init, k);
    }
  }

  lemma {:induction false} DistinctCount<A>(xs: seq<A>, x: A)
    requires Distinct(xs)
    ensures multiset(xs)[x] == if x in xs then 1 else 0
  {
    if xs != [] {
      var init, last := xs[..|xs| - 1], xs[|xs| - 1];
      assert xs == init + [last];
      DistinctCount(init, x);
    }
  }

  lemma SnocIs<T>(xs: seq<T>, ys: seq<T>, last: T)
    requires |ys| == |xs| + 1 && ys[|xs|] == last && forall k :: 0 <= k < |xs| ==> ys[k] == xs[k]
    ensures ys == xs + [last]
  {
  }

  lemma SameElements<T>(xs: seq<T>, ys: seq<T>)
    requires multiset(xs) == multiset(ys)
    ensures forall x :: x in xs <==> x in ys
  {
    forall x ensures x in xs <==> x in ys {
      assert x in xs <==> x in multiset(xs);
      assert x in ys <==> x in multiset(ys);
    }
  }
}
