/**
  The count tables of the multi-table kernels (rows of COUNT_SIZE = 256 + 8
  counters, the 8 extra counters per row keep equal bytes of different rows
  off the same 4 KiB alias), the operations every kernel performs on them
  (memset, incrementing one counter per byte, the final reduction), and the
  static storage some kernels reuse from call to call.
 */
module CountTables {
  import opened ByteCounts
  import opened Lanes

  /** Counters per table row: 256 live counters and 8 padding counters. */
  const COUNT_SIZE: nat := 256 + 8

  /** Rows of the kernels that keep 16 tables. */
  const TABLES: nat := 16

  /** A table set of the right shape for a lane layout. */
  ghost predicate Shaped(count: array2<nat>, L: Layout)
    reads {}
  {
    ValidLanes(L.lanes) && count.Length0 == Rows(L.lanes) && count.Length1 == COUNT_SIZE
  }

  /** Every counter holds its tally for the first n positions of s under layout L. */
  ghost predicate Holds(count: array2<nat>, s: seq<uint8>, n: nat, L: Layout)
    reads count
    requires ValidLanes(L.lanes) && n <= |s|
  {
    forall t, v :: 0 <= t < count.Length0 && 0 <= v < count.Length1 ==> count[t, v] == Tally(s, n, L, t, v)
  }

  /**
    The state after the reduction: row 0 holds the histogram of the first n
    bytes; every other counter (rows 1.., padding of row 0) still holds its tally.
   */
  ghost predicate Reduced(count: array2<nat>, s: seq<uint8>, n: nat, L: Layout)
    reads count
    requires ValidLanes(L.lanes) && n <= |s|
  {
    forall t, v :: 0 <= t < count.Length0 && 0 <= v < count.Length1 ==>
      count[t, v] == if t == 0 && v < ALPHABET then Occ(s[..n], v) else Tally(s, n, L, t, v)
  }

  /** Sum of column v over rows 0 .. k-1. */
  function ColumnSum(count: array2<nat>, v: nat, k: nat): nat
    reads count
    requires k <= count.Length0 && v < count.Length1
  {
    if k == 0 then 0 else ColumnSum(count, v, k - 1) + count[k - 1, v]
  }

  /** memset(count, 0, sizeof(count)). */
  method Zero(count: array2<nat>)
    modifies count
    ensures forall t, v :: 0 <= t < count.Length0 && 0 <= v < count.Length1 ==> count[t, v] == 0
  {
    forall t, v | 0 <= t < count.Length0 && 0 <= v < count.Length1 {
      count[t, v] := 0;
    }
  }

  /** Zeroed tables hold the tallies of the empty prefix. */
  lemma ZeroHolds(count: array2<nat>, s: seq<uint8>, L: Layout)
    requires ValidLanes(L.lanes)
    requires forall t, v :: 0 <= t < count.Length0 && 0 <= v < count.Length1 ==> count[t, v] == 0
    ensures Holds(count, s, 0, L)
  {
  }

  /**
    The 16-row reduction `count[0][i] += count[idx][i]` for i < 256 and
    idx = 1 .. 15: column i of row 0 becomes the column's sum over all rows;
    nothing else changes.
   */
  method Reduce(count: array2<nat>)
    requires count.Length0 == TABLES && count.Length1 == COUNT_SIZE
    modifies count
    ensures forall v :: 0 <= v < ALPHABET ==> count[0, v] == old(ColumnSum(count, v, TABLES))
    ensures forall t, v :: 0 <= t < TABLES && 0 <= v < COUNT_SIZE && !(t == 0 && v < ALPHABET) ==>
      count[t, v] == old(count[t, v])
  {
    for i := 0 to ALPHABET
      invariant forall v :: 0 <= v < i ==> count[0, v] == old(ColumnSum(count, v, TABLES))
      invariant forall t, v :: 0 <= t < TABLES && i <= v < COUNT_SIZE ==> count[t, v] == old(count[t, v])
      invariant forall t, v :: 1 <= t < TABLES && 0 <= v < COUNT_SIZE ==> count[t, v] == old(count[t, v])
    {
      assert old(ColumnSum(count, i, 1)) == old(ColumnSum(count, i, 0)) + old(count[0, i]);
      for idx := 1 to TABLES
        invariant count[0, i] == old(ColumnSum(count, i, idx))
        invariant forall v :: 0 <= v < i ==> count[0, v] == old(ColumnSum(count, v, TABLES))
        invariant forall t, v :: 0 <= t < TABLES && i < v < COUNT_SIZE ==> count[t, v] == old(count[t, v])
        invariant forall t, v :: 1 <= t < TABLES && 0 <= v < COUNT_SIZE ==> count[t, v] == old(count[t, v])
      {
        count[0, i] := count[0, i] + count[idx, i];
      }
    }
  }

  /** When every counter holds its tally, each column sums to the histogram entry. */
  lemma {:induction false} ColumnSumOfTallies(count: array2<nat>, s: seq<uint8>, n: nat, L: Layout, v: nat, k: nat)
    requires Shaped(count, L) && n <= |s| && Holds(count, s, n, L)
    requires v < COUNT_SIZE && k <= count.Length0
    ensures ColumnSum(count, v, k) == TableSum(s, n, L, v, k)
  {
    if k > 0 {
      ColumnSumOfTallies(count, s, n, L, v, k - 1);
    }
  }

  lemma TalliesSumToHistogram(count: array2<nat>, s: seq<uint8>, n: nat, L: Layout)
    requires Shaped(count, L) && n <= |s| && Holds(count, s, n, L)
    ensures forall v :: 0 <= v < ALPHABET ==> ColumnSum(count, v, count.Length0) == Occ(s[..n], v)
  {
    forall v | 0 <= v < ALPHABET
      ensures ColumnSum(count, v, count.Length0) == Occ(s[..n], v)
    {
      ColumnSumOfTallies(count, s, n, L, v, count.Length0);
      TalliesPartition(s, n, L, v);
    }
  }

  /** The reduction applied to 16 tables that hold the tallies of the whole input. */
  method ReduceTables(count: array2<nat>, ghost s: seq<uint8>, ghost n: nat, ghost L: Layout)
    requires Shaped(count, L) && count.Length0 == TABLES && n <= |s| && Holds(count, s, n, L)
    modifies count
    ensures Reduced(count, s, n, L)
  {
    TalliesSumToHistogram(count, s, n, L);
    Reduce(count);
  }

  /**
    The reduction of the hist_* kernels, `bin[i] = c0[i] + c1[i] + ...` for
    i < 256, into a separate array of COUNT_SIZE counters.
   */
  method SumRows(c: array2<nat>, bin: array<nat>, ghost s: seq<uint8>, ghost n: nat, ghost L: Layout)
    requires Shaped(c, L) && n <= |s| && Holds(c, s, n, L) && bin.Length == COUNT_SIZE
    modifies bin
    ensures forall v :: 0 <= v < ALPHABET ==> bin[v] == Occ(s[..n], v)
    ensures forall v :: ALPHABET <= v < COUNT_SIZE ==> bin[v] == old(bin[v])
  {
    TalliesSumToHistogram(c, s, n, L);
    for i := 0 to ALPHABET
      invariant forall v :: 0 <= v < i ==> bin[v] == Occ(s[..n], v)
      invariant forall v :: i <= v < COUNT_SIZE ==> bin[v] == old(bin[v])
    {
      bin[i] := ColumnSum(c, i, c.Length0);
    }
  }

  /** One counter increment: the byte at position n goes to the table that owns n. */
  method Bump(count: array2<nat>, row: nat, b: uint8, ghost s: seq<uint8>, ghost n: nat, ghost L: Layout)
    requires Shaped(count, L) && n < |s| && s[n] == b && Owner(L, n) == row
    requires Holds(count, s, n, L)
    modifies count
    ensures Holds(count, s, n + 1, L)
  {
    count[row, b] := count[row, b] + 1;
  }

  /**
    Count a run of bytes that the kernel holds in registers: byte j of the
    run is at position q + j of the input and is lane firstLane + j of its
    block, so it goes to the table the lane map gives for that lane.
   */
  method CountBytes(count: array2<nat>, cells: seq<uint8>, firstLane: nat, L: Layout, ghost s: seq<uint8>, ghost q: nat)
    requires Shaped(count, L) && q + |cells| <= |s| && q + |cells| <= L.limit
    requires firstLane <= q && (q - firstLane) % BLOCK == 0 && firstLane + |cells| <= BLOCK
    requires forall j :: 0 <= j < |cells| ==> cells[j] == s[q + j]
    requires Holds(count, s, q, L)
    modifies count
    ensures Holds(count, s, q + |cells|, L)
  {
    for j := 0 to |cells|
      invariant Holds(count, s, q + j, L)
    {
      var row := TableOf(L.lanes, firstLane + j);
      OwnerInBlock(L, q, firstLane, j);
      Bump(count, row, cells[j], s, q + j, L);
    }
  }

  /**
    The scalar tail every kernel ends with, `count[0][src[i]]++` for the
    positions from .. to-1, which lie past the loop-covered prefix.
   */
  method CountTail(count: array2<nat>, src: array<uint8>, from: nat, to: nat, L: Layout)
    requires Shaped(count, L) && from <= to <= src.Length && L.limit <= from
    requires Holds(count, src[..], from, L)
    modifies count
    ensures Holds(count, src[..], to, L)
  {
    for i := from to to
      invariant Holds(count, src[..], i, L)
    {
      Bump(count, 0, src[i], src[..], i, L);
    }
  }

  /**
    Process-wide static storage: the function-local `static U32
    count[16][COUNT_SIZE]` of count_vec, port7vec and count8reload, and the
    global g_count that storePort7 and reloadPort7 share. Each kernel
    re-zeroes its table on entry; there is a single caller at any time.
   */
  class Statics {
    const countVec: array2<nat>
    const port7Vec: array2<nat>
    const count8Reload: array2<nat>
    const gCount: array2<nat>

    ghost predicate Valid()
      reads {}
    {
      && countVec.Length0 == TABLES && countVec.Length1 == COUNT_SIZE
      && port7Vec.Length0 == TABLES && port7Vec.Length1 == COUNT_SIZE
      && count8Reload.Length0 == TABLES && count8Reload.Length1 == COUNT_SIZE
      && gCount.Length0 == TABLES && gCount.Length1 == COUNT_SIZE
    }

    /** Static storage starts zeroed and each table is its own object. */
    constructor ()
      ensures Valid()
      ensures forall t, v :: 0 <= t < TABLES && 0 <= v < COUNT_SIZE ==>
        countVec[t, v] == 0 && port7Vec[t, v] == 0 && count8Reload[t, v] == 0 && gCount[t, v] == 0
      ensures fresh(countVec) && fresh(port7Vec) && fresh(count8Reload) && fresh(gCount)
      ensures countVec != port7Vec && countVec != count8Reload && countVec != gCount
      ensures port7Vec != count8Reload && port7Vec != gCount && count8Reload != gCount
    {
      countVec := new nat[TABLES, COUNT_SIZE]((t, v) => 0);
      port7Vec := new nat[TABLES, COUNT_SIZE]((t, v) => 0);
      count8Reload := new nat[TABLES, COUNT_SIZE]((t, v) => 0);
      gCount := new nat[TABLES, COUNT_SIZE]((t, v) => 0);
    }
  }
}
