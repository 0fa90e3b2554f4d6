// The "req-%06d" request id: printing, parsing back, and sorting records by it.
module RequestIds {
  import opened Basics

  const WIDTH: nat := 6
  const INT_MAX := 0x7FFF_FFFF

  function Pow10(k: nat): (p: nat)
    ensures p >= 1
  {
    if k == 0 then 1 else 10 * Pow10(k - 1)
  }

  // ---- Printing ----

  function Digit(d: nat): char
    requires d < 10
  {
    '0' + d as char
  }

  function Decimal(n: nat): (s: string)
    ensures |s| >= 1
  {
    if n < 10 then [Digit(n)] else Decimal(n / 10) + [Digit(n % 10)]
  }

  function Zeros(k: nat): string {
    seq(k, _ => '0')
  }

  // %0*d for a non-negative number
  function Padded(n: nat, width: nat): string {
    Zeros(if |Decimal(n)| < width then width - |Decimal(n)| else 0) + Decimal(n)
  }

  function RequestId(idx: nat): string {
    "req-" + Padded(idx, WIDTH)
  }

  // ---- Parsing ----

  predicate IsDigit(c: char) {
    '0' <= c <= '9'
  }

  function DigitValue(c: char): (d: nat)
    requires IsDigit(c)
    ensures d < 10
  {
    (c as int) - ('0' as int)
  }

  // The number a string starts with.
  function Leading(s: string, acc: nat): nat {
    if s == [] || !IsDigit(s[0]) then acc else Leading(s[1..], 10 * acc + DigitValue(s[0]))
  }

  predicate IsSpace(c: char) {
    c == ' ' || c == '\t' || c == '\n' || c == '\r' || c as int == 11 || c as int == 12
  }

  function SkipSpaces(s: string): string {
    if s != [] && IsSpace(s[0]) then SkipSpaces(s[1..]) else s
  }

  // std::stoi: spaces, an optional sign, then digits; None where it throws.
  function Stoi(s: string): Option<int> {
    var t := SkipSpaces(s);
    var negative := t != [] && t[0] == '-';
    var u := if t != [] && (t[0] == '-' || t[0] == '+') then t[1..] else t;
    if u == [] || !IsDigit(u[0]) then None
    else
      var n: int := Leading(u, 0);
      if negative then (if n <= INT_MAX + 1 then Some(-n) else None)
      else if n <= INT_MAX then Some(n) else None
  }

  // The part after the last dash, as find_last_of('-') delimits it.
  function AfterLastDash(s: string): (r: Option<string>)
    ensures r.None? <==> '-' !in s
    ensures r.Some? ==> '-' !in r.value && |r.value| < |s| && s[|s| - |r.value|..] == r.value
                        && s[|s| - |r.value| - 1] == '-'
  {
    if s == [] then None
    else
      var rest := AfterLastDash(s[1..]);
      if rest.Some? then rest
      else if s[0] == '-' then Some(s[1..]) else None
  }

  // -1 for an id without a dash or a number.
  function IdxFromRequestId(id: string): int {
    var tail := AfterLastDash(id);
    if tail.None? then -1
    else if Stoi(tail.value).None? then -1 else Stoi(tail.value).value
  }

  // ---- Values of digit strings ----

  predicate AllDigits(s: string) {
    forall k :: 0 <= k < |s| ==> IsDigit(s[k])
  }

  function Value(s: string): nat
    requires AllDigits(s)
  {
    if s == [] then 0 else DigitValue(s[0]) * Pow10(|s| - 1) + Value(s[1..])
  }

  lemma {:induction false} ValueBound(s: string)
    requires AllDigits(s)
    ensures Value(s) < Pow10(|s|)
  {
    if s != [] {
      ValueBound(s[1..]);
      MulLe(DigitValue(s[0]), 9, Pow10(|s| - 1));
    }
  }

  lemma TenTimes(d: nat, p: nat)
    ensures d * (10 * p) == 10 * (d * p)
  {
  }

  lemma {:induction false} ValueSnoc(s: string, c: char)
    requires AllDigits(s) && IsDigit(c)
    ensures AllDigits(s + [c]) && Value(s + [c]) == 10 * Value(s) + DigitValue(c)
  {
    if s == [] {
      assert s + [c] == [c];
    } else {
      assert (s + [c])[1..] == s[1..] + [c];
      ValueSnoc(s[1..], c);
      TenTimes(DigitValue(s[0]), Pow10(|s| - 1));
    }
  }

  lemma {:induction false} DecimalValue(n: nat)
    ensures AllDigits(Decimal(n)) && Value(Decimal(n)) == n
  {
    if n >= 10 {
      DecimalValue(n / 10);
      ValueSnoc(Decimal(n / 10), Digit(n % 10));
    }
  }

  lemma {:induction false} ZerosValue(k: nat, s: string)
    requires AllDigits(s)
    ensures AllDigits(Zeros(k) + s) && Value(Zeros(k) + s) == Value(s)
  {
    if k == 0 {
      assert Zeros(0) + s == s;
    } else {
      ZerosValue(k - 1, s);
      assert (Zeros(k) + s)[1..] == Zeros(k - 1) + s;
    }
  }

  // The padded number has the value it prints, whatever its size.
  lemma PaddedValue(n: nat, width: nat)
    ensures AllDigits(Padded(n, width)) && Value(Padded(n, width)) == n && |Padded(n, width)| >= 1
  {
    DecimalValue(n);
    ZerosValue(if |Decimal(n)| < width then width - |Decimal(n)| else 0, Decimal(n));
  }

  lemma {:induction false} DecimalLength(n: nat, w: nat)
    requires w >= 1
    ensures |Decimal(n)| <= w <==> n < Pow10(w)
  {
    if n >= 10 && w > 1 {
      DecimalLength(n / 10, w - 1);
    }
  }

  lemma {:induction false} LeadingValue(s: string, acc: nat)
    requires AllDigits(s)
    ensures Leading(s, acc) == acc * Pow10(|s|) + Value(s)
  {
    if s != [] {
      LeadingValue(s[1..], 10 * acc + DigitValue(s[0]));
      var p := Pow10(|s| - 1);
      assert (10 * acc + DigitValue(s[0])) * p == acc * (10 * p) + DigitValue(s[0]) * p;
    }
  }

  // ---- Round trip ----

  lemma {:induction false} AfterDash(prefix: string, tail: string)
    requires '-' !in tail
    ensures AfterLastDash(prefix + ['-'] + tail) == Some(tail)
  {
    if prefix == [] {
      assert (prefix + ['-'] + tail)[1..] == tail;
    } else {
      assert (prefix + ['-'] + tail)[1..] == prefix[1..] + ['-'] + tail;
      AfterDash(prefix[1..], tail);
    }
  }

  // Every index a C++ int can hold is recovered from its id; a larger number is no index.
  lemma ParseRecoversIndex(idx: nat)
    ensures IdxFromRequestId(RequestId(idx)) == if idx <= INT_MAX then idx else -1
  {
    var p := Padded(idx, WIDTH);
    PaddedValue(idx, WIDTH);
    assert "req-" + p == "req" + ['-'] + p;
    AfterDash("req", p);
    StoiOfDigits(p);
  }

  lemma LeadingFromZero(s: string)
    requires AllDigits(s)
    ensures Leading(s, 0) == Value(s)
  {
    LeadingValue(s, 0);
  }

  lemma StoiOfDigits(p: string)
    requires AllDigits(p) && |p| >= 1
    ensures Stoi(p) == if Value(p) <= INT_MAX then Some(Value(p)) else None
  {
    LeadingFromZero(p);
    assert IsDigit(p[0]);
    assert SkipSpaces(p) == p;
  }

  // Whatever the id, the result is -1 or an index; without a dash it is -1.
  lemma ParseIsIndexOrMinusOne(id: string)
    ensures -1 <= IdxFromRequestId(id) <= INT_MAX
    ensures '-' !in id ==> IdxFromRequestId(id) == -1
  {
    var tail := AfterLastDash(id);
    if tail.Some? {
      NoSignAppears(tail.value);
    }
  }

  lemma {:induction false} NoSignAppears(s: string)
    requires '-' !in s
    ensures '-' !in SkipSpaces(s)
  {
    if s != [] && IsSpace(s[0]) {
      NoSignAppears(s[1..]);
    }
  }

  // ---- Order ----

  // std::string's operator<
  predicate LexLess(a: string, b: string) {
    if b == [] then false
    else if a == [] then true
    else a[0] < b[0] || (a[0] == b[0] && LexLess(a[1..], b[1..]))
  }

  lemma {:induction false} SameWidthOrder(a: string, b: string)
    requires AllDigits(a) && AllDigits(b) && |a| == |b|
    ensures LexLess(a, b) <==> Value(a) < Value(b)
  {
    if a != [] {
      SameWidthOrder(a[1..], b[1..]);
      ValueBound(a[1..]);
      ValueBound(b[1..]);
      var p := Pow10(|a| - 1);
      if a[0] < b[0] {
        SmallerQuotient(DigitValue(a[0]), Value(a[1..]), DigitValue(b[0]), Value(b[1..]), p);
      } else if b[0] < a[0] {
        SmallerQuotient(DigitValue(b[0]), Value(b[1..]), DigitValue(a[0]), Value(a[1..]), p);
      }
    }
  }

  lemma {:induction false} CommonPrefix(p: string, a: string, b: string)
    ensures LexLess(p + a, p + b) == LexLess(a, b)
  {
    if p == [] {
      assert p + a == a && p + b == b;
    } else {
      assert (p + a)[1..] == p[1..] + a && (p + b)[1..] == p[1..] + b;
      CommonPrefix(p[1..], a, b);
    }
  }

  // Numbers that fit the width are printed in order.
  lemma PaddedOrder(i: nat, j: nat, width: nat)
    requires width >= 1 && i < Pow10(width) && j < Pow10(width)
    ensures LexLess(Padded(i, width), Padded(j, width)) <==> i < j
  {
    PaddedValue(i, width);
    PaddedValue(j, width);
    DecimalLength(i, width);
    DecimalLength(j, width);
    SameWidthOrder(Padded(i, width), Padded(j, width));
  }

  // Below 10^6 the order of ids is the order of indices.
  lemma IdOrderIsIndexOrder(i: nat, j: nat)
    requires i < Pow10(WIDTH) && j < Pow10(WIDTH)
    ensures LexLess(RequestId(i), RequestId(j)) <==> i < j
  {
    CommonPrefix("req-", Padded(i, WIDTH), Padded(j, WIDTH));
    PaddedOrder(i, j, WIDTH);
  }

  // "req-1000000" sorts before "req-999999".
  lemma MillionSortsEarly()
    ensures LexLess(RequestId(1000000), RequestId(999999)) && !LexLess(RequestId(999999), RequestId(1000000))
  {
    assert Decimal(999999) == "999999" by {
      assert Decimal(999) == "999";
      assert Decimal(99999) == "99999";
    }
    assert Decimal(1000000) == "1000000" by {
      assert Decimal(100) == "100";
      assert Decimal(10000) == "10000";
    }
    assert Zeros(0) == "";
    CommonPrefix("req-", Padded(1000000, WIDTH), Padded(999999, WIDTH));
    CommonPrefix("req-", Padded(999999, WIDTH), Padded(1000000, WIDTH));
  }

  // What std::sort by request_id leaves: no later id is smaller.
  ghost predicate SortedById(indices: seq<nat>) {
    forall i, j :: 0 <= i < j < |indices| ==> !LexLess(RequestId(indices[j]), RequestId(indices[i]))
  }

  lemma {:induction false} RangeCounts(n: nat, x: nat)
    ensures multiset(Range(0, n))[x] == if x < n then 1 else 0
  {
    if n > 0 {
      assert Range(0, n) == Range(0, n - 1) + [n - 1];
      RangeCounts(n - 1, x);
    }
  }

  lemma TwiceCounts(s: seq<nat>, i: nat, j: nat)
    requires i < j < |s| && s[i] == s[j]
    ensures multiset(s)[s[i]] >= 2
  {
    assert s == s[..j] + [s[j]] + s[j + 1..];
    assert s[i] in s[..j];
  }

  // Strictly increasing indices below n, n of them, are 0, 1, ..., n-1.
  lemma {:induction false} IncreasingIsRange(s: seq<nat>, n: nat)
    requires |s| == n && (forall i, j :: 0 <= i < j < n ==> s[i] < s[j]) && (forall i :: 0 <= i < n ==> s[i] < n)
    ensures s == Range(0, n)
  {
    if n > 0 {
      var t := s[..n - 1];
      forall i | 0 <= i < |t|
        ensures t[i] < n - 1
      {
        assert t[i] == s[i] < s[n - 1];
      }
      IncreasingIsRange(t, n - 1);
      if n > 1 {
        assert s[n - 2] == t[n - 2];
      }
      assert s == s[..n - 1] + [s[n - 1]];
    }
  }

  lemma RangeUnsorted(n: nat)
    requires n > 1000000
    ensures !SortedById(Range(0, n))
  {
    MillionSortsEarly();
    var s := Range(0, n);
    assert s[999999] == 999999 && s[1000000] == 1000000;
  }

  // Sorting the records of requests 0..n-1 by id restores submission order if and
  // only if there are at most 10^6 of them.
  lemma SortRestoresOrderIff(indices: seq<nat>, n: nat)
    requires multiset(indices) == multiset(Range(0, n)) && SortedById(indices)
    ensures indices == Range(0, n) <==> n <= 1000000
  {
    assert Pow10(WIDTH) == 1000000;
    assert |indices| == |multiset(indices)| == |Range(0, n)|;
    if n <= 1000000 {
      forall i | 0 <= i < n
        ensures indices[i] < n
      {
        assert indices[i] in multiset(indices);
        RangeCounts(n, indices[i]);
      }
      forall i, j | 0 <= i < j < n
        ensures indices[i] < indices[j]
      {
        IdOrderIsIndexOrder(indices[j], indices[i]);
        if indices[i] == indices[j] {
          TwiceCounts(indices, i, j);
          RangeCounts(n, indices[i]);
        }
      }
      IncreasingIsRange(indices, n);
    } else {
      RangeUnsorted(n);
    }
  }
}
