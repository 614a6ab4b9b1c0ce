/**
  The logical result every counting kernel computes: how often each byte
  value occurs in a buffer. Every kernel in countbench.c is compared with
  this definition; trivialCount is its direct imperative transcription.
 */
module ByteCounts {

  /** An unsigned 8-bit value: the element type of every input buffer. */
  type uint8 = x: int | 0 <= x < 0x100

  /** Unsigned 32-bit words (U32, unsigned); C's wrap-around is written out as `% WORD`. */
  const WORD: int := 0x1_0000_0000
  type u32 = x: int | 0 <= x < 0x1_0000_0000

  /** Number of byte values, and so the number of live counters per table. */
  const ALPHABET: nat := 0x100

  /** Occurrences of the value v in s (counted from the back, as a running count grows). */
  function Occ(s: seq<uint8>, v: int): (c: nat)
    ensures c <= |s|
    ensures !(0 <= v < ALPHABET) ==> c == 0
  {
    if |s| == 0 then 0
    else Occ(s[..|s| - 1], v) + (if s[|s| - 1] == v then 1 else 0)
  }

  /** The 256-entry histogram of s. */
  function Histogram(s: seq<uint8>): (h: seq<nat>)
    ensures |h| == ALPHABET
  {
    seq(ALPHABET, v requires 0 <= v < ALPHABET => Occ(s, v))
  }

  /** Occ agrees with the multiplicity of v in the multiset of s. */
  lemma {:induction false} OccIsMultiplicity(s: seq<uint8>, v: uint8)
    ensures Occ(s, v) == multiset(s)[v]
  {
    if |s| > 0 {
      var init, last := s[..|s| - 1], s[|s| - 1];
      assert s == init + [last];
      OccIsMultiplicity(init, v);
    }
  }

  /** Sum of the counters for the values 0 .. k-1. */
  function SumOcc(s: seq<uint8>, k: nat): (r: nat)
    ensures |s| == 0 ==> r == 0
  {
    if k == 0 then 0 else SumOcc(s, k - 1) + Occ(s, k - 1)
  }

  lemma {:induction false} SumOccPush(s: seq<uint8>, b: uint8, k: nat)
    ensures SumOcc(s + [b], k) == SumOcc(s, k) + (if b < k then 1 else 0)
  {
    if k > 0 {
      SumOccPush(s, b, k - 1);
      assert (s + [b])[..|s + [b]| - 1] == s;
    }
  }

  /** Every byte lands in exactly one counter: the 256 counters add up to the buffer length. */
  lemma {:induction false} HistogramTotal(s: seq<uint8>)
    ensures SumOcc(s, ALPHABET) == |s|
  {
    if |s| > 0 {
      var init, last := s[..|s| - 1], s[|s| - 1];
      HistogramTotal(init);
      assert s == init + [last];
      SumOccPush(init, last, ALPHABET);
    }
  }

  /** A buffer filled with one value v has all its bytes in counter v and none elsewhere. */
  lemma {:induction false} UniformBuffer(s: seq<uint8>, v: uint8, w: int)
    requires forall i :: 0 <= i < |s| ==> s[i] == v
    ensures Occ(s, w) == if w == v then |s| else 0
  {
    if |s| > 0 {
      UniformBuffer(s[..|s| - 1], v, w);
    }
  }
}
