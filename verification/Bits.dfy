// Exclusive-or and right shift on unbounded non-negative integers, as Python has
// them; on values below 2^64 they are the uint64_t operations of C++.
module Bits {
  import opened Basics

  function Pow2(k: nat): (p: nat)
    ensures p >= 1
  {
    if k == 0 then 1 else 2 * Pow2(k - 1)
  }

  function Xor(a: nat, b: nat): nat {
    if a == 0 && b == 0 then 0
    else 2 * Xor(a / 2, b / 2) + (if a % 2 == b % 2 then 0 else 1)
  }

  function Shr(a: nat, k: nat): nat {
    if k == 0 then a else Shr(a / 2, k - 1)
  }

  lemma XorBits(a: nat, b: nat)
    ensures Xor(a, b) / 2 == Xor(a / 2, b / 2)
    ensures Xor(a, b) % 2 == (if a % 2 == b % 2 then 0 else 1)
  {
  }

  lemma {:induction false} XorComm(a: nat, b: nat)
    ensures Xor(a, b) == Xor(b, a)
  {
    if a != 0 || b != 0 {
      XorComm(a / 2, b / 2);
    }
  }

  lemma {:induction false} XorAssoc(a: nat, b: nat, c: nat)
    ensures Xor(Xor(a, b), c) == Xor(a, Xor(b, c))
    decreases a + b + c
  {
    if a != 0 || b != 0 || c != 0 {
      XorAssoc(a / 2, b / 2, c / 2);
      XorBits(a, b);
      XorBits(b, c);
      XorBits(Xor(a, b), c);
      XorBits(a, Xor(b, c));
    }
  }

  lemma {:induction false} XorSelf(a: nat)
    ensures Xor(a, a) == 0
  {
    if a != 0 {
      XorSelf(a / 2);
    }
  }

  lemma {:induction false} XorZero(a: nat)
    ensures Xor(a, 0) == a
  {
    if a != 0 {
      XorZero(a / 2);
    }
  }

  // x ^ y ^ y == x
  lemma XorCancel(x: nat, y: nat)
    ensures Xor(Xor(x, y), y) == x
  {
    XorAssoc(x, y, y);
    XorSelf(y);
    XorZero(x);
  }

  lemma {:induction false} XorBound(a: nat, b: nat, k: nat)
    requires a < Pow2(k) && b < Pow2(k)
    ensures Xor(a, b) < Pow2(k)
  {
    if k > 0 && (a != 0 || b != 0) {
      XorBound(a / 2, b / 2, k - 1);
    }
  }

  lemma {:induction false} ShrXor(a: nat, b: nat, k: nat)
    ensures Shr(Xor(a, b), k) == Xor(Shr(a, k), Shr(b, k))
  {
    if k > 0 {
      XorBits(a, b);
      ShrXor(a / 2, b / 2, k - 1);
    }
  }

  lemma {:induction false} ShrShr(a: nat, j: nat, k: nat)
    ensures Shr(Shr(a, j), k) == Shr(a, j + k)
  {
    if j > 0 {
      ShrShr(a / 2, j - 1, k);
    }
  }

  // Shifting is floor division by a power of two.
  lemma {:induction false} ShrIsDivision(a: nat, k: nat)
    ensures Shr(a, k) == a / Pow2(k)
  {
    if k > 0 {
      ShrIsDivision(a / 2, k - 1);
      HalfDivision(a, Pow2(k - 1));
    }
  }

  lemma HalfDivision(a: nat, p: nat)
    requires p > 0
    ensures a / (2 * p) == a / 2 / p
  {
    var q, r := a / 2 / p, a / 2 % p;
    assert q * (2 * p) == 2 * (q * p);
    DivUnique(a, 2 * p, q, 2 * r + a % 2);
  }

  lemma {:induction false} ShrAll(a: nat, n: nat, k: nat)
    requires a < Pow2(n) && n <= k
    ensures Shr(a, k) == 0
    decreases k
  {
    if n > 0 {
      ShrAll(a / 2, n - 1, k - 1);
    } else if k > 0 {
      ShrAll(0, 0, k - 1);
    }
  }

  lemma {:induction false} ShrBound(a: nat, k: nat)
    ensures Shr(a, k) <= a
  {
    if k > 0 {
      ShrBound(a / 2, k - 1);
    }
  }

  // ---- z ^ (z >> s) and its inverse ----

  function XorShift(z: nat, s: nat): nat {
    Xor(z, Shr(z, s))
  }

  function UnXorShift(y: nat, s: nat): nat {
    Xor(Xor(y, Shr(y, s)), Shr(y, 2 * s))
  }

  // x ^ (x >> s) ^ (x >> 2s), shifted in once more, leaves x ^ (x >> 3s).
  lemma Telescope(x: nat, s: nat)
    ensures Xor(UnXorShift(x, s), Shr(UnXorShift(x, s), s)) == Xor(x, Shr(x, 3 * s))
    ensures UnXorShift(XorShift(x, s), s) == Xor(x, Shr(x, 3 * s))
  {
    var a, b, c, d := x, Shr(x, s), Shr(x, 2 * s), Shr(x, 3 * s);
    ShrShr(x, s, s);
    ShrShr(x, 2 * s, s);
    ShrShr(x, s, 2 * s);
    // left to right: (a^b^c) ^ (b^c^d)
    ShrXor(Xor(a, b), c, s);
    ShrXor(a, b, s);
    Cancel4(a, b, c, d);
    // right to left: (a^b) ^ (b^c) ^ (c^d)
    ShrXor(a, b, 2 * s);
    Cancel3(a, b, c, d);
  }

  lemma Cancel4(a: nat, b: nat, c: nat, d: nat)
    ensures Xor(Xor(Xor(a, b), c), Xor(Xor(b, c), d)) == Xor(a, d)
  {
    XorAssoc(a, b, c);
    XorAssoc(a, Xor(b, c), Xor(Xor(b, c), d));
    XorAssoc(Xor(b, c), Xor(b, c), d);
    XorSelf(Xor(b, c));
    XorComm(0, d);
    XorZero(d);
  }

  lemma Cancel3(a: nat, b: nat, c: nat, d: nat)
    ensures Xor(Xor(Xor(a, b), Xor(b, c)), Xor(c, d)) == Xor(a, d)
  {
    XorAssoc(Xor(a, b), b, c);
    XorCancel(a, b);
    XorAssoc(Xor(a, c), c, d);
    XorCancel(a, c);
  }

  lemma XorShiftInverse(x: nat, s: nat, n: nat)
    requires x < Pow2(n) && n <= 3 * s
    ensures UnXorShift(XorShift(x, s), s) == x
    ensures XorShift(UnXorShift(x, s), s) == x
    ensures XorShift(x, s) < Pow2(n) && UnXorShift(x, s) < Pow2(n)
  {
    Telescope(x, s);
    ShrAll(x, n, 3 * s);
    XorZero(x);
    ShrBound(x, s);
    ShrBound(x, 2 * s);
    XorBound(x, Shr(x, s), n);
    XorBound(Xor(x, Shr(x, s)), Shr(x, 2 * s), n);
  }
}
