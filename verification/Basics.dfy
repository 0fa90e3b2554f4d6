// Shared vocabulary: the integers of an index range, and optional values.
module Basics {

  datatype Option<+T> = None | Some(value: T)

  // The indices lo, lo+1, ..., hi-1 in order.
  function Range(lo: nat, hi: nat): (r: seq<nat>)
    ensures |r| == if lo <= hi then hi - lo else 0
    ensures forall k :: 0 <= k < |r| ==> r[k] == lo + k
  {
    seq(if lo <= hi then hi - lo else 0, k requires 0 <= k => lo + k)
  }

  lemma RangeSplits(lo: nat, mid: nat, hi: nat)
    requires lo <= mid <= hi
    ensures Range(lo, mid) + Range(mid, hi) == Range(lo, hi)
  {
  }

  function Min(a: int, b: int): int {
    if a <= b then a else b
  }

  function Max(a: int, b: int): int {
    if a <= b then b else a
  }

  // ---- Products and quotients of variables ----

  lemma MulLe(a: int, b: int, d: nat)
    requires a <= b
    ensures a * d <= b * d
  {
    assert b * d - a * d == (b - a) * d;
  }

  lemma SmallerQuotient(q: int, r: int, q': int, r': int, d: nat)
    requires q < q' && r < d && 0 <= r'
    ensures q * d + r < q' * d + r'
  {
    MulLe(q + 1, q', d);
    assert (q + 1) * d == q * d + d;
  }

  // Quotient and remainder are unique.
  lemma DivUnique(n: nat, d: nat, q: nat, r: nat)
    requires r < d && n == q * d + r
    ensures n / d == q && n % d == r
  {
    if q < n / d {
      SmallerQuotient(q, r, n / d, n % d, d);
    } else if n / d < q {
      SmallerQuotient(n / d, n % d, q, r, d);
    }
  }

  // ---- Sums over a sequence ----

  ghost function SumOf<T>(xs: seq<T>, f: T -> nat): nat {
    if xs == [] then 0 else f(xs[0]) + SumOf(xs[1..], f)
  }

  lemma {:induction false} SumConcat<T>(xs: seq<T>, ys: seq<T>, f: T -> nat)
    ensures SumOf(xs + ys, f) == SumOf(xs, f) + SumOf(ys, f)
  {
    if xs == [] {
      assert xs + ys == ys;
    } else {
      assert (xs + ys)[1..] == xs[1..] + ys;
      SumConcat(xs[1..], ys, f);
    }
  }

  lemma SumUpdate<T>(xs: seq<T>, i: nat, x: T, f: T -> nat)
    requires i < |xs|
    ensures SumOf(xs[i := x], f) + f(xs[i]) == SumOf(xs, f) + f(x)
  {
    assert xs == xs[..i] + ([xs[i]] + xs[i + 1..]);
    assert xs[i := x] == xs[..i] + ([x] + xs[i + 1..]);
    SumConcat(xs[..i], [xs[i]] + xs[i + 1..], f);
    SumConcat(xs[..i], [x] + xs[i + 1..], f);
    SumConcat([xs[i]], xs[i + 1..], f);
    SumConcat([x], xs[i + 1..], f);
  }

  lemma {:induction false} SumBound<T>(xs: seq<T>, f: T -> nat, b: nat)
    requires forall k :: 0 <= k < |xs| ==> f(xs[k]) <= b
    ensures SumOf(xs, f) <= |xs| * b
  {
    if xs != [] {
      SumBound(xs[1..], f, b);
    }
  }

  lemma {:induction false} SumAll<T>(xs: seq<T>, f: T -> nat)
    requires forall k :: 0 <= k < |xs| ==> f(xs[k]) == 1
    ensures SumOf(xs, f) == |xs|
  {
    if xs != [] {
      SumAll(xs[1..], f);
    }
  }

  // ---- Counting ----

  ghost function Image(f: nat -> nat, m: nat): set<nat> {
    set w: nat | w < m :: f(w)
  }

  // An injective function has as many values as arguments.
  lemma {:induction false} ImageSize(f: nat -> nat, m: nat)
    requires forall i: nat, j: nat :: i < j < m ==> f(i) != f(j)
    ensures |Image(f, m)| == m
  {
    if m == 0 {
      assert Image(f, 0) == {};
    } else {
      ImageSize(f, m - 1);
      assert Image(f, m) == Image(f, m - 1) + {f(m - 1)};
    }
  }
}
