/**
  How the multi-table kernels of countbench.c split their work. Each kernel
  walks the input in aligned 16-byte blocks; lane j of a block (the byte at
  offset j) always goes to the same count table, and every byte past the
  part the unrolled loop covers goes to table 0. A Layout records the lane
  map and the length of the loop-covered prefix; Tally is what a table holds
  once a prefix of the input has been counted under that layout.
 */
module Lanes {
  import opened ByteCounts

  /** Bytes per aligned block. */
  const BLOCK: nat := 16

  datatype LaneMap =
    | Direct(tables: nat)  // lane j goes to table j % tables (count_vec, the port-7 kernels, hist_*)
    | Paired               // count2x64: lane j < 8 to table 2j, lane j >= 8 to table 2(j-8)+1

  predicate ValidLanes(m: LaneMap)
  {
    m.Direct? ==> 0 < m.tables <= BLOCK
  }

  /** Number of count tables a lane map uses. */
  function Rows(m: LaneMap): nat
  {
    if m.Direct? then m.tables else BLOCK
  }

  /** The table that lane j of a block is counted in. */
  function TableOf(m: LaneMap, j: nat): (t: nat)
    requires ValidLanes(m) && j < BLOCK
    ensures t < Rows(m)
  {
    match m
    case Direct(k) => j % k
    case Paired => if j < 8 then 2 * j else 2 * (j - 8) + 1
  }

  /** The lane that count2x64 sends to table t (inverse of TableOf(Paired, _)). */
  function PairedLane(t: nat): nat
  {
    if t % 2 == 0 then t / 2 else 8 + t / 2
  }

  /** Under count2x64's lane map, table t receives exactly one lane of each block. */
  lemma PairedLaneInverse(t: nat, j: nat)
    requires t < BLOCK && j < BLOCK
    ensures PairedLane(t) < BLOCK
    ensures TableOf(Paired, j) == t <==> j == PairedLane(t)
  {
  }

  datatype Layout = Layout(lanes: LaneMap, limit: nat)

  /** The table that position k of the input is counted in. */
  function Owner(L: Layout, k: nat): (t: nat)
    requires ValidLanes(L.lanes)
    ensures t < Rows(L.lanes)
    ensures k >= L.limit ==> t == 0
  {
    if k < L.limit then TableOf(L.lanes, k % BLOCK) else 0
  }

  /** Value of counter [t][v] once positions 0 .. n-1 of s are counted under layout L. */
  function Tally(s: seq<uint8>, n: nat, L: Layout, t: nat, v: int): (c: nat)
    requires ValidLanes(L.lanes) && n <= |s|
    ensures c <= n
    ensures t >= Rows(L.lanes) || !(0 <= v < ALPHABET) ==> c == 0
  {
    if n == 0 then 0
    else Tally(s, n - 1, L, t, v) + (if Owner(L, n - 1) == t && s[n - 1] == v then 1 else 0)
  }

  /** Sum of counter [t][v] over the tables t = 0 .. k-1. */
  function TableSum(s: seq<uint8>, n: nat, L: Layout, v: int, k: nat): (r: nat)
    requires ValidLanes(L.lanes) && n <= |s|
    ensures n == 0 ==> r == 0
  {
    if k == 0 then 0 else TableSum(s, n, L, v, k - 1) + Tally(s, n, L, k - 1, v)
  }

  lemma {:induction false} TableSumStep(s: seq<uint8>, n: nat, L: Layout, v: int, k: nat)
    requires ValidLanes(L.lanes) && n < |s|
    ensures TableSum(s, n + 1, L, v, k)
         == TableSum(s, n, L, v, k) + (if Owner(L, n) < k && s[n] == v then 1 else 0)
  {
    if k > 0 {
      TableSumStep(s, n, L, v, k - 1);
    }
  }

  /**
    The partition property: however the positions are dealt out to the
    tables, the tables together hold the histogram of the counted prefix.
   */
  lemma {:induction false} TalliesPartition(s: seq<uint8>, n: nat, L: Layout, v: int)
    requires ValidLanes(L.lanes) && n <= |s|
    ensures TableSum(s, n, L, v, Rows(L.lanes)) == Occ(s[..n], v)
  {
    if n > 0 {
      TalliesPartition(s, n - 1, L, v);
      TableSumStep(s, n - 1, L, v, Rows(L.lanes));
      assert s[..n][..n - 1] == s[..n - 1];
    }
  }

  /**
    count2x64 counts a block table by table rather than position by
    position: after one aligned block, each table has gained exactly the
    byte of its lane. Stated for the first k lanes, by induction on k.
   */
  lemma {:induction false} PairedBlock(s: seq<uint8>, p: nat, L: Layout, t: nat, v: int, k: nat)
    requires L.lanes == Paired && p % BLOCK == 0 && p + BLOCK <= L.limit && p + BLOCK <= |s|
    requires t < BLOCK && k <= BLOCK
    ensures Tally(s, p + k, L, t, v)
         == Tally(s, p, L, t, v) + (if PairedLane(t) < k && s[p + PairedLane(t)] == v then 1 else 0)
  {
    if k > 0 {
      var q := p + k - 1;
      PairedBlock(s, p, L, t, v, k - 1);
      BlockOffset(p, k - 1);
      PairedLaneInverse(t, k - 1);
      assert Owner(L, q) == t <==> k - 1 == PairedLane(t);
    }
  }

  lemma BlockOffset(p: nat, j: nat)
    requires p % BLOCK == 0 && j < BLOCK
    ensures (p + j) % BLOCK == j
  {
  }

  /** Position q + j, where q is lane firstLane of an aligned block, is lane firstLane + j. */
  lemma OwnerInBlock(L: Layout, q: nat, firstLane: nat, j: nat)
    requires ValidLanes(L.lanes) && firstLane <= q && (q - firstLane) % BLOCK == 0
    requires firstLane + j < BLOCK && q + j < L.limit
    ensures Owner(L, q + j) == TableOf(L.lanes, firstLane + j)
  {
    BlockOffset(q - firstLane, firstLane + j);
  }

  /** p rounded down to a multiple of 16 (the C expression `p & ~15`). */
  function AlignDown16(p: nat): (a: nat)
    ensures a <= p < a + BLOCK && a % BLOCK == 0
  {
    p - p % BLOCK
  }
}
