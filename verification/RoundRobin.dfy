// Round-robin routing: attempt k goes to lane k % lanes.
module RoundRobin {
  import opened Basics

  // How many of the attempts 0..n-1 go to one lane.
  function Share(n: nat, lanes: nat, lane: nat): nat
    requires lane < lanes
  {
    if n == 0 then 0 else Share(n - 1, lanes, lane) + (if (n - 1) % lanes == lane then 1 else 0)
  }

  lemma DivStep(n: nat, d: nat)
    requires d > 0
    ensures (n + 1) % d == (if n % d + 1 == d then 0 else n % d + 1)
    ensures (n + 1) / d == n / d + (if n % d + 1 == d then 1 else 0)
  {
    var q, r := n / d, n % d;
    if r + 1 == d {
      assert (q + 1) * d == q * d + d;
      DivUnique(n + 1, d, q + 1, 0);
    } else {
      DivUnique(n + 1, d, q, r + 1);
    }
  }

  // Every lane gets n / lanes of the attempts, and the first n % lanes lanes one more.
  lemma {:induction false} ShareExact(n: nat, lanes: nat, lane: nat)
    requires lane < lanes
    ensures Share(n, lanes, lane) == n / lanes + (if lane < n % lanes then 1 else 0)
  {
    if n == 0 {
      DivUnique(0, lanes, 0, 0);
    } else {
      ShareExact(n - 1, lanes, lane);
      DivStep(n - 1, lanes);
    }
  }

  lemma SumDivMod(a: nat, w: nat, d: nat)
    requires d > 0
    ensures (a + w) / d == a / d + w / d + (if a % d + w % d < d then 0 else 1)
    ensures (a + w) % d == (if a % d + w % d < d then a % d + w % d else a % d + w % d - d)
  {
    DivMod(a, d);
    DivMod(w, d);
    AddQuotients(a, a / d, a % d, w, w / d, w % d, d);
  }

  lemma DivMod(n: nat, d: nat)
    requires d > 0
    ensures n == (n / d) * d + n % d
  {
  }

  lemma Commute(a: nat, b: nat)
    ensures a * b == b * a
  {
  }

  // The lanes' shares of n add up to n.
  lemma WholeShares(n: nat, lanes: nat)
    requires lanes > 0
    ensures lanes * (n / lanes) + Min(lanes, n % lanes) == n
  {
    DivMod(n, lanes);
    Commute(n / lanes, lanes);
  }

  lemma AddQuotients(a: nat, qa: nat, ra: nat, w: nat, qw: nat, rw: nat, d: nat)
    requires ra < d && rw < d && a == qa * d + ra && w == qw * d + rw
    ensures (a + w) / d == qa + qw + (if ra + rw < d then 0 else 1)
    ensures (a + w) % d == (if ra + rw < d then ra + rw else ra + rw - d)
  {
    Distribute(qa, qw, d);
    Distribute(qa + qw, 1, d);
    if ra + rw < d {
      DivUnique(a + w, d, qa + qw, ra + rw);
    } else {
      DivUnique(a + w, d, qa + qw + 1, ra + rw - d);
    }
  }

  lemma Distribute(a: int, b: int, d: int)
    ensures (a + b) * d == a * d + b * d
  {
  }

  lemma CeilDiv(w: nat, d: nat)
    requires d > 0
    ensures (w + d - 1) / d == w / d + (if w % d == 0 then 0 else 1)
  {
    var q, r := w / d, w % d;
    if r == 0 {
      DivUnique(w + d - 1, d, q, d - 1);
    } else {
      assert (q + 1) * d == q * d + d;
      DivUnique(w + d - 1, d, q + 1, r - 1);
    }
  }

  // Among any w consecutive attempts no lane is hit more than ceil(w / lanes) times.
  lemma WindowShare(a: nat, w: nat, lanes: nat, lane: nat)
    requires lane < lanes
    ensures Share(a + w, lanes, lane) - Share(a, lanes, lane) <= (w + lanes - 1) / lanes
  {
    ShareExact(a + w, lanes, lane);
    ShareExact(a, lanes, lane);
    SumDivMod(a, w, lanes);
    CeilDiv(w, lanes);
  }
}
