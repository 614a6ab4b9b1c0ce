/**
  trivialCount: one table of 256 counters, one increment per input byte.
  It is the reference the other kernels are measured against.
 */
module Trivial {
  import opened ByteCounts

  /**
    Count every byte of src[0 .. n) in a single zeroed table and return the
    table together with its counter for the byte value 0 (the C function
    returns only `count[0]`).
   */
  method TrivialCount(src: array<uint8>, n: nat) returns (r: nat, counts: seq<nat>)
    requires n <= src.Length
    ensures |counts| == ALPHABET
    ensures counts == Histogram(src[..n])
    ensures r == Occ(src[..n], 0)
  {
    var count := new nat[ALPHABET](v => 0);
    var i := 0;
    while i < n
      invariant i <= n
      invariant forall v :: 0 <= v < ALPHABET ==> count[v] == Occ(src[..i], v)
    {
      var b := src[i];
      assert src[..i + 1][..i] == src[..i];
      count[b] := count[b] + 1;
      i := i + 1;
    }
    r, counts := count[0], count[..];
  }

  /** The table trivialCount builds is the multiplicity function of the input's multiset. */
  lemma TrivialIsMultiset(s: seq<uint8>, counts: seq<nat>)
    requires |counts| == ALPHABET
    requires forall v :: 0 <= v < ALPHABET ==> counts[v] == Occ(s, v)
    ensures forall v: uint8 :: counts[v] == multiset(s)[v]
    ensures SumCounts(counts, ALPHABET) == |s|
  {
    forall v: uint8
      ensures counts[v] == multiset(s)[v]
    {
      OccIsMultiplicity(s, v);
    }
    SumCountsIsSumOcc(s, counts, ALPHABET);
    HistogramTotal(s);
  }

  /** Sum of the first k counters of a table. */
  function SumCounts(counts: seq<nat>, k: nat): nat
    requires k <= |counts|
  {
    if k == 0 then 0 else SumCounts(counts, k - 1) + counts[k - 1]
  }

  lemma {:induction false} SumCountsIsSumOcc(s: seq<uint8>, counts: seq<nat>, k: nat)
    requires k <= |counts| == ALPHABET
    requires forall v :: 0 <= v < ALPHABET ==> counts[v] == Occ(s, v)
    ensures SumCounts(counts, k) == SumOcc(s, k)
  {
    if k > 0 {
      SumCountsIsSumOcc(s, counts, k - 1);
    }
  }
}
