// Percentiles by linear interpolation between closest ranks, over real values.
module Percentile {
  import opened Basics

  // ---- Sorting ----

  predicate Sorted(s: seq<real>) {
    forall i, j :: 0 <= i < j < |s| ==> s[i] <= s[j]
  }

  function Insert(x: real, s: seq<real>): (r: seq<real>)
    requires Sorted(s)
    ensures Sorted(r) && multiset(r) == multiset{x} + multiset(s)
  {
    if s == [] || x <= s[0] then [x] + s
    else
      var t := Insert(x, s[1..]);
      InsertKeeps(x, s, t);
      [s[0]] + t
  }

  lemma InsertKeeps(x: real, s: seq<real>, t: seq<real>)
    requires Sorted(s) && s != [] && x > s[0]
    requires Sorted(t) && multiset(t) == multiset{x} + multiset(s[1..])
    ensures Sorted([s[0]] + t) && multiset([s[0]] + t) == multiset{x} + multiset(s)
  {
    assert s == [s[0]] + s[1..];
    forall k | 0 <= k < |t|
      ensures s[0] <= t[k]
    {
      assert t[k] in multiset(t);
      assert t[k] == x || t[k] in multiset(s[1..]);
    }
  }

  // Python's sorted() and std::sort: the sorted arrangement of the values.
  function Sort(s: seq<real>): (r: seq<real>)
    ensures Sorted(r) && multiset(r) == multiset(s) && |r| == |s|
  {
    if s == [] then []
    else
      assert s == [s[0]] + s[1..];
      var r := Insert(s[0], Sort(s[1..]));
      assert |r| == |multiset(r)| == |multiset(s)| == |s|;
      r
  }

  // A sorted arrangement is unique.
  lemma {:induction false} SortedUnique(a: seq<real>, b: seq<real>)
    requires Sorted(a) && Sorted(b) && multiset(a) == multiset(b)
    ensures a == b
  {
    SameLength(a, b);
    if a != [] {
      SameHead(a, b);
      assert a == [a[0]] + a[1..] && b == [b[0]] + b[1..];
      SortedUnique(a[1..], b[1..]);
    }
  }

  lemma SameLength(a: seq<real>, b: seq<real>)
    requires multiset(a) == multiset(b)
    ensures |a| == |b|
  {
    assert |b| == |multiset(b)| == |multiset(a)| == |a|;
  }

  lemma SameHead(a: seq<real>, b: seq<real>)
    requires Sorted(a) && Sorted(b) && multiset(a) == multiset(b) && a != [] && b != []
    ensures a[0] == b[0] && multiset(a[1..]) == multiset(b[1..])
  {
    HeadTail(a);
    HeadTail(b);
    HeadIsLeast(a, b[0]);
    HeadIsLeast(b, a[0]);
  }

  lemma HeadTail(a: seq<real>)
    requires a != []
    ensures a == [a[0]] + a[1..] && a[0] in multiset(a) && multiset(a[1..]) == multiset(a) - multiset{a[0]}
  {
    assert a == [a[0]] + a[1..];
  }

  lemma HeadIsLeast(a: seq<real>, x: real)
    requires Sorted(a) && a != [] && x in multiset(a)
    ensures a[0] <= x
  {
    assert x in a;
  }

  // ---- The percentile ----

  // Where q falls among the n - 1 rank intervals.
  function Rank(n: nat, q: real): real {
    Portion(q / 100.0, (n - 1) as real)
  }

  function Portion(a: real, m: real): real {
    a * m
  }

  // From base, frac of the way over gap.
  function Interpolate(base: real, gap: real, frac: real): real {
    base + gap * frac
  }

  lemma ScaledGap(d: real, f: real, f': real)
    requires d >= 0.0 && f <= f'
    ensures d * f <= d * f'
    ensures 0.0 <= f <= 1.0 ==> 0.0 <= d * f <= d
  {
    assert d * (f' - f) >= 0.0;
    if 0.0 <= f <= 1.0 {
      assert d * (1.0 - f) >= 0.0;
    }
  }

  lemma InterpolateGrows(base: real, gap: real, f: real, f': real)
    requires gap >= 0.0 && f <= f'
    ensures Interpolate(base, gap, f) <= Interpolate(base, gap, f')
    ensures 0.0 <= f <= 1.0 ==> base <= Interpolate(base, gap, f) <= base + gap
  {
    ScaledGap(gap, f, f');
  }

  function PyPercentile(s: seq<real>, q: real): Option<real>
    requires 0.0 <= q <= 100.0
  {
    if s == [] then None
    else if |s| == 1 then Some(s[0])
    else
      RankBounds(|s|, q);
      var rank := Rank(|s|, q);
      var lo := rank.Floor;
      var hi := Min(lo + 1, |s| - 1);
      var frac := rank - lo as real;
      Some(Interpolate(s[lo], s[hi] - s[lo], frac))
  }

  lemma RankBounds(n: nat, q: real)
    requires n >= 1 && 0.0 <= q <= 100.0
    ensures Rank(n, q) >= 0.0
    ensures 0.0 <= Rank(n, q) <= (n - 1) as real
    ensures 0 <= Rank(n, q).Floor <= n - 1
    ensures q == 0.0 ==> Rank(n, q) == 0.0
    ensures q == 100.0 ==> Rank(n, q) == (n - 1) as real
  {
    Scaled(q / 100.0, (n - 1) as real);
    assert Rank(n, q).Floor as real <= Rank(n, q) <= (n - 1) as real;
  }

  lemma Scaled(a: real, m: real)
    requires 0.0 <= a <= 1.0 && m >= 0.0
    ensures 0.0 <= Portion(a, m) <= m
    ensures a == 0.0 ==> Portion(a, m) == 0.0
    ensures a == 1.0 ==> Portion(a, m) == m
  {
    NonNegative(a, m);
    NonNegative(1.0 - a, m);
  }

  lemma NonNegative(x: real, y: real)
    requires x >= 0.0 && y >= 0.0
    ensures x * y >= 0.0
  {
  }

  lemma ScaleLe(a: real, b: real, m: real)
    requires a <= b && m >= 0.0
    ensures Portion(a, m) <= Portion(b, m)
  {
    NonNegative(b - a, m);
  }

  lemma PercentileAt(s: seq<real>, q: real)
    requires |s| >= 2 && 0.0 <= q <= 100.0
    ensures 0 <= Rank(|s|, q).Floor < |s|
    ensures var lo := Rank(|s|, q).Floor;
            var hi := Min(lo + 1, |s| - 1);
            PyPercentile(s, q) == Some(Interpolate(s[lo], s[hi] - s[lo], Rank(|s|, q) - lo as real))
  {
    RankBounds(|s|, q);
  }

  // std::sort
  method SortInPlace(v: array<real>)
    modifies v
    ensures v[..] == Sort(old(v[..]))
  {
    var sorted := Sort(v[..]);
    forall i | 0 <= i < v.Length {
      v[i] := sorted[i];
    }
  }

  // Sorts its argument in place; an empty vector has percentile 0.
  method DiagPercentile(v: array<real>, q: real) returns (p: real)
    requires 0.0 <= q <= 100.0
    modifies v
    ensures v[..] == Sort(old(v[..]))
    ensures Some(p) == if v.Length == 0 then Some(0.0) else PyPercentile(Sort(old(v[..])), q)
  {
    if v.Length == 0 {
      return 0.0;
    }
    SortInPlace(v);
    if v.Length == 1 {
      return v[0];
    }
    p := AtRank(v, q);
  }

  // The interpolation at the end of diag_percentile.
  method AtRank(v: array<real>, q: real) returns (p: real)
    requires v.Length >= 2 && 0.0 <= q <= 100.0
    ensures Some(p) == PyPercentile(v[..], q)
  {
    PercentileAt(v[..], q);
    var rank := Rank(v.Length, q);
    var lo := rank.Floor;
    var hi := Min(lo + 1, v.Length - 1);
    p := Interpolate(v[lo], v[hi] - v[lo], rank - lo as real);
  }

  // ---- What the number means ----

  // The result does not depend on the order in which the values came.
  lemma OrderDoesNotMatter(a: seq<real>, b: seq<real>, q: real)
    requires 0.0 <= q <= 100.0 && multiset(a) == multiset(b)
    ensures PyPercentile(Sort(a), q) == PyPercentile(Sort(b), q)
  {
    SortedUnique(Sort(a), Sort(b));
  }

  // Between the two neighbouring ranks.
  lemma BetweenRanks(s: seq<real>, q: real)
    requires Sorted(s) && |s| >= 2 && 0.0 <= q <= 100.0
    ensures 0 <= Rank(|s|, q).Floor < |s|
    ensures var lo := Rank(|s|, q).Floor;
            s[lo] <= PyPercentile(s, q).value <= s[Min(lo + 1, |s| - 1)]
  {
    RankBounds(|s|, q);
    var rank := Rank(|s|, q);
    var lo := rank.Floor;
    InterpolateGrows(s[lo], s[Min(lo + 1, |s| - 1)] - s[lo], rank - lo as real, rank - lo as real);
  }

  lemma WithinExtremes(s: seq<real>, q: real)
    requires Sorted(s) && s != [] && 0.0 <= q <= 100.0
    ensures s[0] <= PyPercentile(s, q).value <= s[|s| - 1]
    ensures PyPercentile(s, 0.0).value == s[0]
    ensures PyPercentile(s, 100.0).value == s[|s| - 1]
  {
    if |s| >= 2 {
      BetweenRanks(s, q);
      RankBounds(|s|, 0.0);
      RankBounds(|s|, 100.0);
    }
  }

  lemma RankMonotone(n: nat, q: real, q': real)
    requires n >= 1 && q <= q'
    ensures Rank(n, q) <= Rank(n, q')
  {
    ScaleLe(q / 100.0, q' / 100.0, (n - 1) as real);
  }

  // A higher q never gives a lower percentile, across rank intervals too.
  lemma Monotone(s: seq<real>, q: real, q': real)
    requires Sorted(s) && s != [] && 0.0 <= q <= q' <= 100.0
    ensures PyPercentile(s, q).value <= PyPercentile(s, q').value
  {
    if |s| >= 2 {
      BetweenRanks(s, q);
      BetweenRanks(s, q');
      RankMonotone(|s|, q, q');
      var lo, lo' := Rank(|s|, q).Floor, Rank(|s|, q').Floor;
      assert lo <= lo';
      if lo == lo' {
        InterpolateGrows(s[lo], s[Min(lo + 1, |s| - 1)] - s[lo], Rank(|s|, q) - lo as real, Rank(|s|, q') - lo as real);
      } else {
        assert s[Min(lo + 1, |s| - 1)] <= s[lo'];
      }
    }
  }

  lemma FloorOf(lo: nat, frac: real)
    requires 0.0 <= frac < 1.0
    ensures (lo as real + frac).Floor == lo
  {
  }

  lemma AtFraction(s: seq<real>, q: real, lo: nat, frac: real, gap: real, p: real)
    requires |s| >= 2 && 0.0 <= q <= 100.0 && lo < |s| && 0.0 <= frac < 1.0
    requires Rank(|s|, q) == lo as real + frac && gap == s[Min(lo + 1, |s| - 1)] - s[lo]
    requires p == Interpolate(s[lo], gap, frac)
    ensures PyPercentile(s, q) == Some(p)
  {
    FloorOf(lo, frac);
    PercentileAt(s, q);
  }

  // Linear interpolation: f of the way from rank k to rank k + 1, in any list.
  lemma LinearBetweenRanks(s: seq<real>, k: nat, f: real)
    requires k + 1 < |s| && 0.0 <= f <= 1.0
    ensures var q := 100.0 * (k as real + f) / (|s| - 1) as real;
            0.0 <= q <= 100.0 && PyPercentile(s, q) == Some(s[k] * (1.0 - f) + s[k + 1] * f)
  {
    var q := 100.0 * (k as real + f) / (|s| - 1) as real;
    RankOf(k as real + f, (|s| - 1) as real);
    Blend(s[k], s[k + 1], f);
    var p := s[k] * (1.0 - f) + s[k + 1] * f;
    if f < 1.0 {
      AtFraction(s, q, k, f, s[k + 1] - s[k], p);
    } else {
      AtFraction(s, q, k + 1, 0.0, s[Min(k + 2, |s| - 1)] - s[k + 1], p);
    }
  }

  lemma RankOf(x: real, m: real)
    requires 0.0 <= x <= m && m > 0.0
    ensures var q := 100.0 * x / m; 0.0 <= q <= 100.0 && Portion(q / 100.0, m) == x
  {
    var a := x / m;
    assert a * m == x;
    assert 0.0 <= a <= 1.0 by {
      if a < 0.0 {
        NonNegative(-a, m);
      } else if a > 1.0 {
        NonNegative(a - 1.0, m);
      }
    }
    var q := 100.0 * x / m;
    assert q == 100.0 * a;
  }

  lemma Blend(a: real, b: real, f: real)
    ensures Interpolate(a, b - a, f) == a * (1.0 - f) + b * f
    ensures f == 1.0 ==> a * (1.0 - f) + b * f == b
  {
  }

  // _pcts: p50 <= p90 <= p99 for the values in any order, all within their range.
  lemma PctsAreOrdered(vals: seq<real>)
    requires vals != []
    ensures var s := Sort(vals);
            && s != []
            && s[0] <= PyPercentile(s, 50.0).value <= PyPercentile(s, 90.0).value
            && PyPercentile(s, 90.0).value <= PyPercentile(s, 99.0).value <= s[|s| - 1]
  {
    var s := Sort(vals);
    Monotone(s, 50.0, 90.0);
    Monotone(s, 90.0, 99.0);
    WithinExtremes(s, 50.0);
    WithinExtremes(s, 99.0);
  }
}
