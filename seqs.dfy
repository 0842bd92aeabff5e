/** Order-preserving selection over sequences: JavaScript's `Array.prototype.filter`
    and the subsequence relation that describes its result. */
module Seqs {

  /** `a` is obtained from `b` by deleting elements, keeping the rest in order. */
  predicate Subsequence<T(==)>(a: seq<T>, b: seq<T>)
    decreases |b|
  {
    if a == [] then true
    else if b == [] then false
    else (a[0] == b[0] && Subsequence(a[1..], b[1..])) || Subsequence(a, b[1..])
  }

  /** `s.filter(p)`: the elements satisfying `p`, in their original order and
      with their original multiplicities. */
  function Filter<T(==,!new)>(s: seq<T>, p: T -> bool): (r: seq<T>)
    ensures Subsequence(r, s)
    ensures forall x :: multiset(r)[x] == if p(x) then multiset(s)[x] else 0
    ensures forall x :: x in r <==> x in s && p(x)
    decreases |s|
  {
    if s == [] then []
    else
      var rest := Filter(s[1..], p);
      assert s == [s[0]] + s[1..];
      if p(s[0]) then
        assert ([s[0]] + rest)[1..] == rest;
        [s[0]] + rest
      else
        assert rest == [] || Subsequence(rest, s[1..]);
        rest
  }

  /** Filtering keeps everything when every element passes. */
  lemma {:induction false} FilterAll<T(!new)>(s: seq<T>, p: T -> bool)
    requires forall i :: 0 <= i < |s| ==> p(s[i])
    ensures Filter(s, p) == s
    decreases |s|
  {
    if s != [] {
      FilterAll(s[1..], p);
    }
  }

  /** Two predicates that agree on every element filter alike. */
  lemma {:induction false} FilterAgree<T(!new)>(s: seq<T>, p: T -> bool, q: T -> bool)
    requires forall i :: 0 <= i < |s| ==> p(s[i]) == q(s[i])
    ensures Filter(s, p) == Filter(s, q)
    decreases |s|
  {
    if s != [] {
      FilterAgree(s[1..], p, q);
    }
  }

  /** Filtering by a stronger predicate after a weaker one is filtering by the
      stronger one alone. */
  lemma {:induction false} FilterNarrow<T(!new)>(s: seq<T>, p: T -> bool, q: T -> bool)
    requires forall i :: 0 <= i < |s| ==> q(s[i]) ==> p(s[i])
    ensures Filter(Filter(s, p), q) == Filter(s, q)
    decreases |s|
  {
    if s != [] {
      FilterNarrow(s[1..], p, q);
      if p(s[0]) {
        assert ([s[0]] + Filter(s[1..], p))[1..] == Filter(s[1..], p);
      }
    }
  }

  /** The concatenation of `f(x)` over the elements `x` of `xs`, in order. */
  function FlatMap<A, B>(xs: seq<A>, f: A -> seq<B>): seq<B>
    decreases |xs|
  {
    if xs == [] then [] else FlatMap(xs[..|xs| - 1], f) + f(xs[|xs| - 1])
  }

  lemma FlatMapSnoc<A, B>(xs: seq<A>, x: A, f: A -> seq<B>)
    ensures FlatMap(xs + [x], f) == FlatMap(xs, f) + f(x)
  {
    var all := xs + [x];
    assert all[..|all| - 1] == xs;
  }

  /** Extending a slice by the next element appends that element's image. */
  lemma FlatMapSliceStep<A, B>(xs: seq<A>, i: nat, j: nat, f: A -> seq<B>)
    requires i <= j < |xs|
    ensures FlatMap(xs[i..j + 1], f) == FlatMap(xs[i..j], f) + f(xs[j])
  {
    assert xs[i..j + 1] == xs[i..j] + [xs[j]];
    FlatMapSnoc(xs[i..j], xs[j], f);
  }

  /** Extending a prefix by the next element appends that element's image. */
  lemma FlatMapPrefixStep<A, B>(xs: seq<A>, i: nat, f: A -> seq<B>)
    requires i < |xs|
    ensures FlatMap(xs[..i + 1], f) == FlatMap(xs[..i], f) + f(xs[i])
  {
    assert xs[..i + 1] == xs[..i] + [xs[i]];
    FlatMapSnoc(xs[..i], xs[i], f);
  }

  /** FlatMap distributes over concatenation. */
  lemma {:induction false} FlatMapConcat<A, B>(a: seq<A>, b: seq<A>, f: A -> seq<B>)
    ensures FlatMap(a + b, f) == FlatMap(a, f) + FlatMap(b, f)
    decreases |b|
  {
    if b == [] {
      assert a + b == a;
    } else {
      var b', last := b[..|b| - 1], b[|b| - 1];
      assert a + b == (a + b') + [last];
      assert b == b' + [last];
      FlatMapSnoc(a + b', last, f);
      FlatMapSnoc(b', last, f);
      FlatMapConcat(a, b', f);
    }
  }

  /** Every element of a FlatMap comes from the image of some element. */
  lemma {:induction false} FlatMapMember<A, B>(xs: seq<A>, f: A -> seq<B>, y: B)
    requires y in FlatMap(xs, f)
    ensures exists i :: 0 <= i < |xs| && y in f(xs[i])
    decreases |xs|
  {
    var n := |xs| - 1;
    if y in f(xs[n]) {
    } else {
      FlatMapMember(xs[..n], f, y);
      var i :| 0 <= i < n && y in f(xs[..n][i]);
      assert xs[..n][i] == xs[i];
    }
  }

  /** Images that are pointwise no longer give a FlatMap that is no longer. */
  lemma {:induction false} FlatMapLengthLe<A, B, C>(xs: seq<A>, f: A -> seq<B>, g: A -> seq<C>)
    requires forall i :: 0 <= i < |xs| ==> |f(xs[i])| <= |g(xs[i])|
    ensures |FlatMap(xs, f)| <= |FlatMap(xs, g)|
    decreases |xs|
  {
    if xs != [] {
      var n := |xs| - 1;
      assert forall i :: 0 <= i < n ==> xs[..n][i] == xs[i];
      FlatMapLengthLe(xs[..n], f, g);
    }
  }

  /** When each `f(x)` is `h(x)` with `g` applied to every element, FlatMap
      with `f` is FlatMap with `h` with `g` applied to every element. */
  lemma {:induction false} FlatMapPointwise<A, B, C>(xs: seq<A>, f: A -> seq<B>, h: A -> seq<C>, g: C -> B)
    requires forall i :: 0 <= i < |xs| ==>
      |f(xs[i])| == |h(xs[i])| && forall k :: 0 <= k < |f(xs[i])| ==> f(xs[i])[k] == g(h(xs[i])[k])
    ensures |FlatMap(xs, f)| == |FlatMap(xs, h)|
    ensures forall k :: 0 <= k < |FlatMap(xs, f)| ==> FlatMap(xs, f)[k] == g(FlatMap(xs, h)[k])
    decreases |xs|
  {
    if xs != [] {
      var n := |xs| - 1;
      assert forall i :: 0 <= i < n ==> xs[..n][i] == xs[i];
      FlatMapPointwise(xs[..n], f, h, g);
      var a, b := FlatMap(xs[..n], f), FlatMap(xs[..n], h);
      assert FlatMap(xs, f) == a + f(xs[n]) && FlatMap(xs, h) == b + h(xs[n]);
      forall k | 0 <= k < |a + f(xs[n])| ensures (a + f(xs[n]))[k] == g((b + h(xs[n]))[k]) {
        if k >= |a| {
          assert (a + f(xs[n]))[k] == f(xs[n])[k - |a|];
          assert (b + h(xs[n]))[k] == h(xs[n])[k - |a|];
        }
      }
    }
  }

  /** FlatMap of a sequence with a first element. */
  lemma FlatMapCons<A, B>(x: A, xs: seq<A>, f: A -> seq<B>)
    ensures FlatMap([x] + xs, f) == f(x) + FlatMap(xs, f)
  {
    FlatMapConcat([x], xs, f);
    FlatMapSnoc([], x, f);
    assert [] + [x] == [x];
  }

  /** FlatMap of a non-empty sequence, split at its first element. */
  lemma FlatMapFront<A, B>(xs: seq<A>, f: A -> seq<B>)
    requires xs != []
    ensures FlatMap(xs, f) == f(xs[0]) + FlatMap(xs[1..], f)
  {
    assert xs == [xs[0]] + xs[1..];
    FlatMapCons(xs[0], xs[1..], f);
  }

  /** A property of every element of every image holds of every element of
      the FlatMap. */
  lemma {:induction false} FlatMapAll<A, B>(xs: seq<A>, f: A -> seq<B>, P: B -> bool)
    requires forall i, k :: 0 <= i < |xs| && 0 <= k < |f(xs[i])| ==> P(f(xs[i])[k])
    ensures forall k :: 0 <= k < |FlatMap(xs, f)| ==> P(FlatMap(xs, f)[k])
    decreases |xs|
  {
    if xs != [] {
      var n := |xs| - 1;
      assert forall i :: 0 <= i < n ==> xs[..n][i] == xs[i];
      FlatMapAll(xs[..n], f, P);
      var a, b := FlatMap(xs[..n], f), f(xs[n]);
      assert FlatMap(xs, f) == a + b;
      forall k | 0 <= k < |a + b| ensures P((a + b)[k]) {
        if k >= |a| {
          assert (a + b)[k] == b[k - |a|];
        }
      }
    }
  }

  /** When every element maps to a single value, FlatMap is that element-wise map. */
  lemma {:induction false} FlatMapSingletons<A, B>(xs: seq<A>, f: A -> seq<B>, ys: seq<B>)
    requires |ys| == |xs| && forall i :: 0 <= i < |xs| ==> f(xs[i]) == [ys[i]]
    ensures FlatMap(xs, f) == ys
    decreases |xs|
  {
    if xs != [] {
      var n := |xs| - 1;
      FlatMapSingletons(xs[..n], f, ys[..n]);
      assert f(xs[n]) == [ys[n]];
      assert ys == ys[..n] + [ys[n]];
    }
  }
}
