// The dataflow probe's check that completion followed submission.
module Inversions {

  // Pairs (i, j), i before j, where the later request finished earlier.
  ghost function InvertedPairs(ends: seq<int>): set<(nat, nat)> {
    set i: nat, j: nat | i < j < |ends| && ends[i] > ends[j] :: (i, j)
  }

  // The inverted pairs the nested loops have seen when they are at (i, j).
  ghost function Seen(ends: seq<int>, i: nat, j: nat): set<(nat, nat)> {
    set p | p in InvertedPairs(ends) && (p.0 < i || (p.0 == i && p.1 < j))
  }

  lemma SeenNext(ends: seq<int>, i: nat, j: nat)
    requires i < j < |ends|
    ensures |Seen(ends, i, j + 1)| == |Seen(ends, i, j)| + (if ends[i] > ends[j] then 1 else 0)
  {
    var added := if ends[i] > ends[j] then {(i, j)} else {};
    var next := Seen(ends, i, j) + added;
    forall p: (nat, nat)
      ensures p in Seen(ends, i, j + 1) <==> p in next
    {
      if p == (i, j) {
        PairIsInverted(ends, i, j);
      }
    }
    assert Seen(ends, i, j + 1) == next;
    assert Seen(ends, i, j) !! added;
  }

  lemma PairIsInverted(ends: seq<int>, i: nat, j: nat)
    requires i < j < |ends|
    ensures (i, j) in InvertedPairs(ends) <==> ends[i] > ends[j]
  {
  }

  // end_ns_inversions counts exactly the inverted pairs.
  method EndNsInversions(ends: seq<int>) returns (inv: nat)
    ensures inv == |InvertedPairs(ends)|
    ensures inv == 0 <==> forall i, j :: 0 <= i < j < |ends| ==> ends[i] <= ends[j]
  {
    inv := 0;
    assert Seen(ends, 0, 1) == {};
    for i := 0 to |ends|
      invariant inv == |Seen(ends, i, i + 1)|
    {
      for j := i + 1 to |ends|
        invariant inv == |Seen(ends, i, j)|
      {
        SeenNext(ends, i, j);
        if ends[i] > ends[j] {
          inv := inv + 1;
        }
      }
      assert Seen(ends, i, |ends|) == Seen(ends, i + 1, i + 2);
    }
    assert Seen(ends, |ends|, |ends| + 1) == InvertedPairs(ends);
    NoneInverted(ends);
  }

  lemma NoneInverted(ends: seq<int>)
    ensures |InvertedPairs(ends)| == 0 <==> forall i, j :: 0 <= i < j < |ends| ==> ends[i] <= ends[j]
  {
    if i: nat, j: nat :| i < j < |ends| && ends[i] > ends[j] {
      assert (i, j) in InvertedPairs(ends);
    } else {
      assert InvertedPairs(ends) == {};
    }
  }
}
