// The per-request service time: a splitmix64 draw keyed by (seed, index), once
// with Python's masked unbounded integers, once with C++'s uint64_t wraparound.
module ServiceSequence {
  import opened Basics
  import opened Bits

  const WORD := 0x1_0000_0000_0000_0000
  const GAMMA := 0x9E3779B97F4A7C15
  const MUL1 := 0xBF58476D1CE4E5B9
  const MUL2 := 0x94D049BB133111EB

  predicate IsWord(z: int) {
    0 <= z < WORD
  }

  // std::int64_t
  predicate IsInt64(x: int) {
    -0x8000_0000_0000_0000 <= x < 0x8000_0000_0000_0000
  }

  datatype Args = Args(isFixed: bool, serviceMs: real, seed: int, low: real, high: real, pHigh: real)

  // ---- Python ----

  // x & (2^64 - 1), for x of either sign
  function Mask64(x: int): (z: nat)
    ensures IsWord(z)
  {
    x % WORD
  }

  function PyStart(seed: int, idx: int): nat {
    Mask64(seed + idx * GAMMA)
  }

  function PyMix(z: nat): nat {
    var z1 := Mask64(Xor(z, Shr(z, 30)) * MUL1);
    var z2 := Mask64(Xor(z1, Shr(z1, 27)) * MUL2);
    Xor(z2, Shr(z2, 31))
  }

  function PyServiceFor(idx: int, args: Args): real {
    if args.isFixed then args.serviceMs
    else
      var z := PyMix(PyStart(args.seed, idx));
      if z as real / WORD as real < args.pHigh then args.high else args.low
  }

  // ---- C++ ----

  // static_cast<std::uint64_t> of a signed 64-bit value
  function Cast64(x: int): (z: nat)
    requires IsInt64(x)
    ensures IsWord(z)
  {
    if x >= 0 then x else x + WORD
  }

  function Add64(a: nat, b: nat): (z: nat)
    requires IsWord(a) && IsWord(b)
    ensures IsWord(z)
  {
    if a + b < WORD then a + b else a + b - WORD
  }

  // The low 64 bits of the product.
  function Mul64(a: nat, b: nat): (z: nat)
    requires IsWord(a) && IsWord(b)
    ensures IsWord(z)
  {
    a * b - a * b / WORD * WORD
  }

  function CppStart(seed: int, idx: int): (z: nat)
    requires IsInt64(seed) && IsInt64(idx)
    ensures IsWord(z)
  {
    Add64(Cast64(seed), Mul64(Cast64(idx), GAMMA))
  }

  // z ^ (z >> s) on uint64_t
  function CppXorShift(z: nat, s: nat): (y: nat)
    requires IsWord(z)
    ensures IsWord(y) && y == XorShift(z, s)
  {
    WordXorShift(z, s);
    XorShift(z, s)
  }

  lemma Pow2Add8(k: nat)
    ensures Pow2(k + 8) == 256 * Pow2(k)
  {
    assert Pow2(k + 4) == 16 * Pow2(k) by {
      assert Pow2(k + 2) == 4 * Pow2(k);
    }
    assert Pow2(k + 6) == 4 * Pow2(k + 4);
  }

  lemma WordIsPow2()
    ensures Pow2(64) == WORD
  {
    Pow2Add8(0);
    Pow2Add8(8);
    Pow2Add8(16);
    Pow2Add8(24);
    Pow2Add8(32);
    Pow2Add8(40);
    Pow2Add8(48);
    Pow2Add8(56);
  }

  lemma WordXorShift(z: nat, s: nat)
    requires IsWord(z)
    ensures IsWord(XorShift(z, s))
  {
    WordIsPow2();
    ShrBound(z, s);
    XorBound(z, Shr(z, s), 64);
  }

  function CppMix(z: nat): (w: nat)
    requires IsWord(z)
    ensures IsWord(w)
  {
    var z1 := Mul64(CppXorShift(z, 30), MUL1);
    var z2 := Mul64(CppXorShift(z1, 27), MUL2);
    CppXorShift(z2, 31)
  }

  function CppServiceFor(idx: int, args: Args): real
    requires IsInt64(args.seed) && IsInt64(idx)
  {
    if args.isFixed then args.serviceMs
    else
      var z := CppMix(CppStart(args.seed, idx));
      if z as real / WORD as real < args.pHigh then args.high else args.low
  }

  // ---- The two agree at every stage ----

  lemma ModUnique(x: int, t: int, z: int, m: nat)
    requires x == t * m + z && 0 <= z < m
    ensures x % m == z
  {
    var q, r := x / m, x % m;
    assert x == q * m + r;
    if q < t {
      SmallerQuotient(q, r, t, z, m);
    } else if t < q {
      SmallerQuotient(t, z, q, r, m);
    }
  }

  lemma MulIsMasked(a: nat, b: nat)
    requires IsWord(a) && IsWord(b)
    ensures Mul64(a, b) == Mask64(a * b)
  {
  }

  lemma StartsAgree(seed: int, idx: int)
    requires IsInt64(seed) && IsInt64(idx)
    ensures CppStart(seed, idx) == PyStart(seed, idx)
  {
    var ci, cs := Cast64(idx), Cast64(seed);
    var m := Mul64(ci, GAMMA);
    MulIsMasked(ci, GAMMA);
    var k := ci * GAMMA / WORD;
    var wi := if idx >= 0 then 0 else GAMMA;
    assert ci * GAMMA == idx * GAMMA + wi * WORD;
    var ws := if seed >= 0 then 0 else 1;
    var carry := if cs + m < WORD then 0 else 1;
    var t := carry + k - wi - ws;
    assert seed + idx * GAMMA == t * WORD + CppStart(seed, idx);
    ModUnique(seed + idx * GAMMA, t, CppStart(seed, idx), WORD);
  }

  lemma MixesAgree(z: nat)
    requires IsWord(z)
    ensures CppMix(z) == PyMix(z)
  {
    MulIsMasked(CppXorShift(z, 30), MUL1);
    var z1 := Mul64(CppXorShift(z, 30), MUL1);
    MulIsMasked(CppXorShift(z1, 27), MUL2);
  }

  // For every int64 seed, negative ones included, and every index, both languages
  // make the same choice.
  lemma ServiceSequencesAgree(idx: int, args: Args)
    requires IsInt64(args.seed) && IsInt64(idx)
    ensures CppServiceFor(idx, args) == PyServiceFor(idx, args)
  {
    StartsAgree(args.seed, idx);
    MixesAgree(CppStart(args.seed, idx));
  }

  // ---- The mix is a bijection on 64-bit words ----

  const GAMMA_INV := 0xF1DE83E19937733D
  const MUL1_INV := 0x96DE1B173F119089
  const MUL2_INV := 0x319642B2D24D8EC3

  function UnMix(w: nat): nat {
    var z2 := UnXorShift(w, 31);
    var z1 := UnXorShift(Mask64(z2 * MUL2_INV), 27);
    UnXorShift(Mask64(z1 * MUL1_INV), 30)
  }

  // Multiplying by c and then by its inverse modulo m changes nothing.
  lemma MulInverse(x: nat, c: nat, d: nat, k: nat, m: nat)
    requires x < m && c * d == k * m + 1
    ensures (x * c % m) * d % m == x
  {
    var q, r := x * c / m, x * c % m;
    assert x * c == q * m + r;
    calc {
      r * d;
      (x * c - q * m) * d;
      x * c * d - q * m * d;
      x * (c * d) - q * d * m;
      x * (k * m + 1) - q * d * m;
      x * k * m + x - q * d * m;
      (x * k - q * d) * m + x;
    }
    ModUnique(r * d, x * k - q * d, x, m);
  }

  lemma Words(z: nat, s: nat)
    requires IsWord(z) && 64 <= 3 * s
    ensures IsWord(XorShift(z, s)) && IsWord(UnXorShift(z, s))
    ensures UnXorShift(XorShift(z, s), s) == z && XorShift(UnXorShift(z, s), s) == z
  {
    WordIsPow2();
    XorShiftInverse(z, s, 64);
  }

  lemma Mul1Inverse(z: nat)
    requires IsWord(z)
    ensures Mask64(Mask64(z * MUL1) * MUL1_INV) == z && Mask64(Mask64(z * MUL1_INV) * MUL1) == z
  {
    MulInverse(z, MUL1, MUL1_INV, 0x70C3BCA78F27F46C, WORD);
    MulInverse(z, MUL1_INV, MUL1, 0x70C3BCA78F27F46C, WORD);
  }

  lemma Mul2Inverse(z: nat)
    requires IsWord(z)
    ensures Mask64(Mask64(z * MUL2) * MUL2_INV) == z && Mask64(Mask64(z * MUL2_INV) * MUL2) == z
  {
    MulInverse(z, MUL2, MUL2_INV, 0x1CD336EDA85F1453, WORD);
    MulInverse(z, MUL2_INV, MUL2, 0x1CD336EDA85F1453, WORD);
  }

  lemma UnMixMix(z: nat)
    requires IsWord(z)
    ensures IsWord(PyMix(z)) && UnMix(PyMix(z)) == z
  {
    Words(z, 30);
    Mul1Inverse(XorShift(z, 30));
    var z1 := Mask64(XorShift(z, 30) * MUL1);
    Words(z1, 27);
    Mul2Inverse(XorShift(z1, 27));
    Words(Mask64(XorShift(z1, 27) * MUL2), 31);
  }

  lemma MixUnMix(w: nat)
    requires IsWord(w)
    ensures IsWord(UnMix(w)) && PyMix(UnMix(w)) == w
  {
    Words(w, 31);
    var z2 := UnXorShift(w, 31);
    Mul2Inverse(z2);
    Words(Mask64(z2 * MUL2_INV), 27);
    var z1 := UnXorShift(Mask64(z2 * MUL2_INV), 27);
    Mul1Inverse(z1);
    Words(Mask64(z1 * MUL1_INV), 30);
  }

  // The index that a mixed word came from.
  function IndexOf(seed: int, w: nat): nat {
    Mask64((UnMix(w) - seed) * GAMMA_INV)
  }

  // d is i*g up to multiples of m, and h inverts g modulo m.
  lemma Undo(d: int, i: nat, g: nat, h: nat, t: int, k: nat, m: nat)
    requires i < m && d == i * g - t * m && g * h == k * m + 1
    ensures d * h % m == i
  {
    calc {
      d * h;
      i * (g * h) - t * h * m;
      i * (k * m + 1) - t * h * m;
      (i * k - t * h) * m + i;
    }
    ModUnique(d * h, i * k - t * h, i, m);
  }

  lemma IndexRecovered(seed: int, idx: nat)
    requires IsWord(idx)
    ensures IndexOf(seed, PyMix(PyStart(seed, idx))) == idx
  {
    var z := PyStart(seed, idx);
    UnMixMix(z);
    var t := (seed + idx * GAMMA) / WORD;
    Undo(z - seed, idx, GAMMA, GAMMA_INV, t, 0x957BBF35006ED677, WORD);
  }

  // For a fixed seed, different indices below 2^64 draw different words.
  lemma DistinctDraws(seed: int, i: nat, j: nat)
    requires IsWord(i) && IsWord(j) && i != j
    ensures PyMix(PyStart(seed, i)) != PyMix(PyStart(seed, j))
  {
    IndexRecovered(seed, i);
    IndexRecovered(seed, j);
  }

  // The sum that undoes Undo: i is d*h up to multiples of m, so i*g is d again.
  lemma Redo(d: int, i: int, g: nat, h: nat, t: int, k: nat, m: nat)
    requires i == d * h - t * m && g * h == k * m + 1
    ensures i * g == (d * k - t * g) * m + d
  {
    calc {
      i * g;
      d * (g * h) - t * g * m;
      d * (k * m + 1) - t * g * m;
      (d * k - t * g) * m + d;
    }
  }

  // Every word is drawn: by the index computed back from it.
  lemma WordHasIndex(seed: int, w: nat)
    requires IsWord(w)
    ensures IsWord(IndexOf(seed, w)) && PyMix(PyStart(seed, IndexOf(seed, w))) == w
  {
    MixUnMix(w);
    var d := UnMix(w) - seed;
    var t := d * GAMMA_INV / WORD;
    Redo(d, IndexOf(seed, w), GAMMA, GAMMA_INV, t, 0x957BBF35006ED677, WORD);
    ModUnique(seed + IndexOf(seed, w) * GAMMA, d * 0x957BBF35006ED677 - t * GAMMA, UnMix(w), WORD);
  }

  // ---- The generator, as a table of rounds ----

  // One round of splitmix64: shift right, exclusive or, multiply modulo 2^64.
  datatype Round = Round(shift: nat, factor: nat)

  function Rounds(z: nat, rounds: seq<Round>): nat
    decreases |rounds|
  {
    if rounds == [] then z
    else Rounds(XorShift(z, rounds[0].shift) * rounds[0].factor % WORD, rounds[1..])
  }

  const SPLITMIX64 := [Round(30, 0xBF58476D1CE4E5B9), Round(27, 0x94D049BB133111EB), Round(31, 1)]

  // What an index draws is the published generator's word for that index.
  lemma DrawIsSplitmix64(seed: int, idx: int)
    ensures PyMix(PyStart(seed, idx)) == Rounds((seed + idx * 0x9E3779B97F4A7C15) % 0x1_0000_0000_0000_0000, SPLITMIX64)
  {
    var z := PyStart(seed, idx);
    var z1 := Mask64(XorShift(z, 30) * MUL1);
    var z2 := Mask64(XorShift(z1, 27) * MUL2);
    WordXorShift(z2, 31);
    LastRounds(z2);
    assert SPLITMIX64[1..][1..] == [Round(31, 1)];
    assert Rounds(z, SPLITMIX64) == Rounds(z1, SPLITMIX64[1..]) == Rounds(z2, SPLITMIX64[1..][1..]);
  }

  lemma LastRounds(z: nat)
    requires IsWord(XorShift(z, 31))
    ensures Rounds(z, [Round(31, 1)]) == XorShift(z, 31)
  {
    var y := XorShift(z, 31) * 1 % WORD;
    assert Rounds(z, [Round(31, 1)]) == Rounds(y, [Round(31, 1)][1..]);
  }

  // ---- Which service time is drawn ----

  function Ceil(x: real): int {
    -((-x).Floor)
  }

  // The word an index draws decides: below p_high * 2^64 it gets the high service time.
  lemma HighIff(idx: int, args: Args)
    requires !args.isFixed
    ensures PyServiceFor(idx, args)
         == if PyMix(PyStart(args.seed, idx)) < Ceil(args.pHigh * WORD as real) then args.high else args.low
  {
    var z := PyMix(PyStart(args.seed, idx));
    BelowIff(z, args.pHigh);
  }

  lemma BelowIff(z: nat, p: real)
    ensures z as real / WORD as real < p <==> z < Ceil(p * WORD as real)
  {
    var draw := z as real / WORD as real;
    assert draw * WORD as real == z as real;
  }

  // The indices that draw the first m words.
  ghost function FirstDraws(seed: int, m: nat): set<nat> {
    Image(w => IndexOf(seed, w), m)
  }

  lemma DistinctIndices(seed: int, v: nat, w: nat)
    requires v < w < WORD
    ensures IndexOf(seed, v) != IndexOf(seed, w)
  {
    WordHasIndex(seed, v);
    WordHasIndex(seed, w);
  }

  lemma CountDraws(seed: int, m: nat)
    requires m <= WORD
    ensures |FirstDraws(seed, m)| == m
  {
    var f: nat -> nat := w => IndexOf(seed, w);
    forall i: nat, j: nat | i < j < m
      ensures f(i) != f(j)
    {
      DistinctIndices(seed, i, j);
    }
    ImageSize(f, m);
  }

  ghost function HighIndices(args: Args): set<nat> {
    set i: nat | i < WORD && PyServiceFor(i, args) == args.high
  }

  // Over the 2^64 indices of one seed exactly ceil(p_high * 2^64) get the high service
  // time: p_high is the exact share of high draws, rounded up to whole words.
  lemma HighShare(args: Args)
    requires !args.isFixed && args.low != args.high && 0.0 <= args.pHigh <= 1.0
    ensures |HighIndices(args)| == Ceil(args.pHigh * WORD as real)
  {
    var m := Ceil(args.pHigh * WORD as real);
    assert 0 <= m <= WORD;
    forall i: nat
      ensures i in HighIndices(args) <==> i in FirstDraws(args.seed, m)
    {
      HighIff(i, args);
      FirstDrawsAre(args.seed, i, m);
    }
    assert HighIndices(args) == FirstDraws(args.seed, m);
    CountDraws(args.seed, m);
  }

  lemma FirstDrawsAre(seed: int, i: nat, m: nat)
    requires m <= WORD
    ensures i in FirstDraws(seed, m) <==> i < WORD && PyMix(PyStart(seed, i)) < m
  {
    var f: nat -> nat := w => IndexOf(seed, w);
    if i in FirstDraws(seed, m) {
      var w: nat :| w < m && f(w) == i;
      WordHasIndex(seed, w);
    }
    if i < WORD {
      IndexRecovered(seed, i);
      assert f(PyMix(PyStart(seed, i))) == i;
    }
  }

  // The ends, for every index: never high from p_high 0 down, always from 1 up; the
  // fixed pattern ignores the draw; a larger p_high only moves indices from low to high.
  lemma ShareEnds(idx: int, args: Args, more: real)
    ensures args.isFixed ==> PyServiceFor(idx, args) == args.serviceMs
    ensures !args.isFixed && args.pHigh <= 0.0 ==> PyServiceFor(idx, args) == args.low
    ensures !args.isFixed && args.pHigh >= 1.0 ==> PyServiceFor(idx, args) == args.high
    ensures !args.isFixed && args.pHigh <= more && args.low != args.high && PyServiceFor(idx, args) == args.high ==>
              PyServiceFor(idx, args.(pHigh := more)) == args.high
  {
    var z := PyMix(PyStart(args.seed, idx));
    UnMixMix(PyStart(args.seed, idx));
    var draw := z as real / WORD as real;
    assert draw * WORD as real == z as real;
    assert 0.0 <= draw < 1.0;
  }
}
