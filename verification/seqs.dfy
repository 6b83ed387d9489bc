/** Sequence helpers standing in for the LINQ operators the source uses
    (`Where`, `Select`, `Contains`, `Count`). */
module Seqs {

  /** `a` can be obtained from `b` by deleting elements: order is kept. */
  predicate IsSubsequence<T(==)>(a: seq<T>, b: seq<T>)
    decreases |b|
  {
    if a == [] then true
    else if b == [] then false
    else if a[0] == b[0] then IsSubsequence(a[1..], b[1..])
    else IsSubsequence(a, b[1..])
  }

  /** LINQ `Where`: the elements satisfying `p`, in order, duplicates kept. */
  function Filter<T(==)>(s: seq<T>, p: T -> bool): (r: seq<T>)
    ensures |r| <= |s|
  {
    if s == [] then []
    else if p(s[0]) then [s[0]] + Filter(s[1..], p)
    else Filter(s[1..], p)
  }

  /** What `Where` keeps: exactly the elements satisfying `p`. */
  lemma {:induction false} FilterMembers<T>(s: seq<T>, p: T -> bool)
    ensures forall x :: x in Filter(s, p) <==> x in s && p(x)
  {
    if s != [] {
      FilterMembers(s[1..], p);
      assert forall x :: x in s <==> x == s[0] || x in s[1..];
    }
  }

  /** LINQ `Select`. */
  function Map<T, U>(s: seq<T>, f: T -> U): (r: seq<U>)
    ensures |r| == |s|
  {
    seq(|s|, i requires 0 <= i < |s| => f(s[i]))
  }

  /** Number of occurrences of `x` in `s`. */
  function Count<T(==)>(s: seq<T>, x: T): (n: nat)
    ensures n <= |s|
    ensures n == 0 <==> x !in s
  {
    if s == [] then 0 else (if s[0] == x then 1 else 0) + Count(s[1..], x)
  }

  /** The elements of `ss` laid end to end. */
  function Concat<T>(ss: seq<seq<T>>): seq<T>
  {
    if ss == [] then [] else ss[0] + Concat(ss[1..])
  }

  lemma {:induction false} CountAppend<T>(a: seq<T>, b: seq<T>, x: T)
    ensures Count(a + b, x) == Count(a, x) + Count(b, x)
  {
    if a != [] {
      assert (a + b)[1..] == a[1..] + b;
      CountAppend(a[1..], b, x);
    } else {
      assert a + b == b;
    }
  }

  lemma {:induction false} ConcatAppend<T>(a: seq<seq<T>>, b: seq<seq<T>>)
    ensures Concat(a + b) == Concat(a) + Concat(b)
  {
    if a != [] {
      assert (a + b)[1..] == a[1..] + b;
      ConcatAppend(a[1..], b);
    } else {
      assert a + b == b;
    }
  }

  /** Filtering distributes over concatenation. */
  lemma {:induction false} FilterAppend<T>(a: seq<T>, b: seq<T>, p: T -> bool)
    ensures Filter(a + b, p) == Filter(a, p) + Filter(b, p)
  {
    if a != [] {
      assert a + b == [a[0]] + (a[1..] + b);
      FilterAppend(a[1..], b, p);
    } else {
      assert a + b == b;
    }
  }

  /** Filtering keeps the order of what it keeps. */
  lemma {:induction false} FilterIsSubsequence<T>(s: seq<T>, p: T -> bool)
    ensures IsSubsequence(Filter(s, p), s)
  {
    if s != [] {
      FilterIsSubsequence(s[1..], p);
      var r := Filter(s[1..], p);
      if !p(s[0]) && r != [] {
        FilterMembers(s[1..], p);
        assert r[0] in r;
      }
    }
  }

  /** Concatenation is associative; stated once so that long traces need not
      be compared element by element. */
  lemma AppendAssoc<T>(a: seq<T>, b: seq<T>, c: seq<T>)
    ensures (a + b) + c == a + (b + c)
  {
  }

  /** Filtering twice with the same predicate changes nothing the second time. */
  lemma {:induction false} FilterIdempotent<T>(s: seq<T>, p: T -> bool)
    ensures Filter(Filter(s, p), p) == Filter(s, p)
  {
    if s != [] {
      FilterIdempotent(s[1..], p);
    }
  }

  /** Filtering depends only on the values of the predicate. */
  lemma {:induction false} FilterExt<T>(s: seq<T>, p: T -> bool, q: T -> bool)
    requires forall x :: p(x) == q(x)
    ensures Filter(s, p) == Filter(s, q)
  {
    if s != [] {
      FilterExt(s[1..], p, q);
    }
  }

  /** Filtering keeps every occurrence of a kept element. */
  lemma {:induction false} FilterCount<T>(s: seq<T>, p: T -> bool, x: T)
    ensures Count(Filter(s, p), x) == if p(x) then Count(s, x) else 0
  {
    if s != [] {
      FilterCount(s[1..], p, x);
    }
  }

  /** `f` applied to each element and the results laid end to end, built
      from the back so that a loop over `xs` extends it one element at a time. */
  function FlatMap<T, U>(xs: seq<T>, f: T -> seq<U>): seq<U>
  {
    if xs == [] then [] else FlatMap(xs[..|xs| - 1], f) + f(xs[|xs| - 1])
  }

  /** One more element adds its own piece at the end. */
  lemma FlatMapSnoc<T, U>(xs: seq<T>, i: nat, f: T -> seq<U>)
    requires i < |xs|
    ensures FlatMap(xs[..i + 1], f) == FlatMap(xs[..i], f) + f(xs[i])
  {
    assert xs[..i + 1][..i] == xs[..i];
  }

  /** What the first elements contribute opens what all of them do. */
  lemma {:induction false} FlatMapPrefix<T, U>(xs: seq<T>, i: nat, f: T -> seq<U>)
    requires i <= |xs|
    ensures FlatMap(xs[..i], f) <= FlatMap(xs, f)
    decreases |xs| - i
  {
    if i < |xs| {
      FlatMapPrefix(xs, i + 1, f);
      FlatMapSnoc(xs, i, f);
    } else {
      assert xs[..i] == xs;
    }
  }

  /** An element of a piece is an element of the whole. */
  lemma {:induction false} FlatMapMember<T, U>(xs: seq<T>, f: T -> seq<U>, y: U)
    ensures y in FlatMap(xs, f) <==> exists x <- xs :: y in f(x)
  {
    if xs != [] {
      var front := xs[..|xs| - 1];
      FlatMapMember(front, f, y);
      assert forall x <- xs :: x in front || x == xs[|xs| - 1];
      assert forall x <- front :: x in xs;
    }
  }

  /** The state a walk over `xs` reaches, each element moving it by `step`;
      built from the back so that a loop extends it one element at a time. */
  function FoldState<S, T>(xs: seq<T>, init: S, step: (S, T) -> S): S
  {
    if xs == [] then init else step(FoldState(xs[..|xs| - 1], init, step), xs[|xs| - 1])
  }

  /** What such a walk emits: for each element, `emit` of the state reached
      before it and the element, laid end to end. */
  function FoldEmit<S, T, U>(xs: seq<T>, init: S, step: (S, T) -> S, emit: (S, T) -> seq<U>): seq<U>
  {
    if xs == [] then []
    else FoldEmit(xs[..|xs| - 1], init, step, emit) + emit(FoldState(xs[..|xs| - 1], init, step), xs[|xs| - 1])
  }

  /** One more element moves the state once and emits its own piece at the end. */
  lemma FoldSnoc<S, T, U>(xs: seq<T>, i: nat, init: S, step: (S, T) -> S, emit: (S, T) -> seq<U>)
    requires i < |xs|
    ensures FoldState(xs[..i + 1], init, step) == step(FoldState(xs[..i], init, step), xs[i])
    ensures FoldEmit(xs[..i + 1], init, step, emit) == FoldEmit(xs[..i], init, step, emit) + emit(FoldState(xs[..i], init, step), xs[i])
  {
    assert xs[..i + 1][..i] == xs[..i];
  }

  /** What the first elements emit opens what all of them do. */
  lemma {:induction false} FoldEmitPrefix<S, T, U>(xs: seq<T>, i: nat, init: S, step: (S, T) -> S, emit: (S, T) -> seq<U>)
    requires i <= |xs|
    ensures FoldEmit(xs[..i], init, step, emit) <= FoldEmit(xs, init, step, emit)
    decreases |xs| - i
  {
    if i < |xs| {
      FoldEmitPrefix(xs, i + 1, init, step, emit);
      FoldSnoc(xs, i, init, step, emit);
    } else {
      assert xs[..i] == xs;
    }
  }
}
