/**
  The multi-table kernels without software pipelining: count_vec,
  count2x64 and the five hist_* kernels. Each walks the aligned prefix
  (srcSize & ~15) one 16-byte block at a time, gives every lane of a block
  a fixed count table, counts the remaining 0 .. 15 bytes in table 0, and
  sums the tables.
 */
module LaneKernels {
  import opened ByteCounts
  import opened Lanes
  import opened CountTables

  /** Layout of count_vec: lane j of every aligned block goes to table j. */
  function CountVecLayout(n: nat): Layout
  {
    Layout(Direct(TABLES), AlignDown16(n))
  }

  /**
    count_vec: a 16-byte vector is loaded one block ahead (the first load
    reads src[0 .. 16) even for short inputs, the last one the block at the
    aligned size), its 16 bytes are extracted into tables 0 .. 15, the tail
    goes to table 0 and the static tables are reduced into row 0.
   */
  method CountVec(st: Statics, src: array<uint8>, n: nat) returns (r: nat)
    requires st.Valid() && n <= src.Length
    requires src.Length >= AlignDown16(n) + BLOCK
    modifies st.countVec
    ensures Reduced(st.countVec, src[..], n, CountVecLayout(n))
    ensures r == Occ(src[..n], 0)
  {
    var count := st.countVec;
    var L := CountVecLayout(n);
    Zero(count);
    ZeroHolds(count, src[..], L);
    var remainder := n % BLOCK;
    var size := n - remainder;
    CountVecBlocks(count, src, size, L);
    CountTail(count, src, size, n, L);
    ReduceTables(count, src[..], n, L);
    r := count[0, 0];
  }

  /** The vector loop of count_vec over the aligned prefix [0, size). */
  method CountVecBlocks(count: array2<nat>, src: array<uint8>, size: nat, L: Layout)
    requires Shaped(count, L) && L.lanes == Direct(TABLES) && size == L.limit
    requires size % BLOCK == 0 && src.Length >= size + BLOCK
    requires Holds(count, src[..], 0, L)
    modifies count
    ensures Holds(count, src[..], size, L)
  {
    ghost var s := src[..];
    var nextVec := src[0..BLOCK];
    var i := BLOCK;
    ghost var q: nat := 0;  // bytes counted: i less the preloaded block
    while i <= size
      invariant i == q + BLOCK && q <= size && q % BLOCK == 0
      invariant nextVec == s[q..q + BLOCK]
      invariant Holds(count, s, q, L)
      decreases size + BLOCK - i
    {
      var vec := nextVec;
      nextVec := src[i..i + BLOCK];
      assert |vec| == BLOCK;
      CountBytes(count, vec, 0, L, s, q);
      i := i + BLOCK;
      q := q + BLOCK;
    }
    assert q == size && src[..] == s;
  }

  /** Row 0 of a table set, as the 256 live counters. */
  function Row0(count: array2<nat>): (h: seq<nat>)
    reads count
    requires count.Length0 > 0 && count.Length1 >= ALPHABET
    ensures |h| == ALPHABET && forall v :: 0 <= v < ALPHABET ==> h[v] == count[0, v]
  {
    seq(ALPHABET, v requires 0 <= v < ALPHABET reads count => count[0, v])
  }

  /** A 64-bit word shifted right by 16 bits: its bytes move down two lanes. */
  function ShiftRight16(w: seq<uint8>): (r: seq<uint8>)
    requires |w| == 8
    ensures |r| == 8 && forall j :: 0 <= j < 6 ==> r[j] == w[j + 2]
  {
    w[2..] + [0, 0]
  }

  /**
    Table t holds its tally for the block start p plus, when t < done,
    the byte of its lane in the block at p (count2x64 fills the tables of
    a block four at a time, in table order).
   */
  ghost predicate HoldsBlock(count: array2<nat>, s: seq<uint8>, p: nat, L: Layout, done: nat)
    reads count
    requires L.lanes == Paired && p + BLOCK <= |s|
  {
    forall t, v :: 0 <= t < count.Length0 && 0 <= v < count.Length1 ==>
      count[t, v] == Tally(s, p, L, t, v)
                     + (if t < done && t < BLOCK && s[p + PairedLane(t)] == v then 1 else 0)
  }

  /**
    ASM_INC_TABLES at offset o: the low two bytes of the first word go to
    tables o and o + 2, those of the second word to tables o + 1 and o + 3.
   */
  method IncTables(count: array2<nat>, w0: seq<uint8>, w1: seq<uint8>, o: nat, L: Layout, ghost s: seq<uint8>, ghost p: nat)
    requires Shaped(count, L) && L.lanes == Paired && p + BLOCK <= |s|
    requires o % 4 == 0 && o + 4 <= BLOCK && |w0| >= 2 && |w1| >= 2
    requires w0[0] == s[p + o / 2] && w0[1] == s[p + o / 2 + 1]
    requires w1[0] == s[p + 8 + o / 2] && w1[1] == s[p + 8 + o / 2 + 1]
    requires HoldsBlock(count, s, p, L, o)
    modifies count
    ensures HoldsBlock(count, s, p, L, o + 4)
  {
    BumpPaired(count, o + 0, w0[0], L, s, p);
    BumpPaired(count, o + 1, w1[0], L, s, p);
    BumpPaired(count, o + 2, w0[1], L, s, p);
    BumpPaired(count, o + 3, w1[1], L, s, p);
  }

  /** One `incl` of ASM_INC_TABLES: table t gains the byte of its lane in the block at p. */
  method BumpPaired(count: array2<nat>, t: nat, b: uint8, L: Layout, ghost s: seq<uint8>, ghost p: nat)
    requires Shaped(count, L) && L.lanes == Paired && p + BLOCK <= |s|
    requires t < BLOCK && b == s[p + PairedLane(t)]
    requires HoldsBlock(count, s, p, L, t)
    modifies count
    ensures HoldsBlock(count, s, p, L, t + 1)
  {
    count[t, b] := count[t, b] + 1;
  }

  /** One loop iteration of count2x64: the two 64-bit halves of a block through four ASM_INC_TABLES. */
  method CountPairedBlock(count: array2<nat>, data0: seq<uint8>, data1: seq<uint8>, L: Layout, ghost s: seq<uint8>, ghost p: nat)
    requires Shaped(count, L) && L.lanes == Paired
    requires p % BLOCK == 0 && p + BLOCK <= L.limit && p + BLOCK <= |s|
    requires data0 == s[p..p + 8] && data1 == s[p + 8..p + BLOCK]
    requires Holds(count, s, p, L)
    modifies count
    ensures Holds(count, s, p + BLOCK, L)
  {
    var d0, d1 := data0, data1;
    IncTables(count, d0, d1, 0, L, s, p);
    d0, d1 := ShiftRight16(d0), ShiftRight16(d1);
    IncTables(count, d0, d1, 4, L, s, p);
    d0, d1 := ShiftRight16(d0), ShiftRight16(d1);
    IncTables(count, d0, d1, 8, L, s, p);
    d0, d1 := ShiftRight16(d0), ShiftRight16(d1);
    IncTables(count, d0, d1, 12, L, s, p);
    forall t, v | 0 <= t < count.Length0 && 0 <= v < count.Length1
      ensures count[t, v] == Tally(s, p + BLOCK, L, t, v)
    {
      PairedBlock(s, p, L, t, v, BLOCK);
      PairedLaneInverse(t, 0);
    }
  }

  /** Layout of count2x64: lane j < 8 to table 2j, lane 8 + j to table 2j + 1. */
  function Count2x64Layout(n: nat): Layout
  {
    Layout(Paired, AlignDown16(n))
  }

  /**
    count2x64 on inputs of at least 32 bytes (below that the C code jumps
    over its memset and counts into uninitialised stack memory). The next
    block's two words are loaded before the current one is counted, so the
    last load reads the 16 bytes at the aligned size.
   */
  method Count2x64(src: array<uint8>, n: nat) returns (r: nat, hist: seq<nat>)
    requires 32 <= n <= src.Length
    requires src.Length >= AlignDown16(n) + BLOCK
    ensures |hist| == ALPHABET && forall v :: 0 <= v < ALPHABET ==> hist[v] == Occ(src[..n], v)
    ensures r == Occ(src[..n], 0)
  {
    var count := new nat[TABLES, COUNT_SIZE]((t, v) => 0);
    var L := Count2x64Layout(n);
    ZeroHolds(count, src[..], L);
    var remainder := n % BLOCK;
    var size := n - remainder;
    Count2x64Blocks(count, src, size, L);
    CountTail(count, src, size, n, L);
    ReduceTables(count, src[..], n, L);
    r, hist := count[0, 0], Row0(count);
  }

  /** The loop of count2x64 over the aligned prefix [0, size). */
  method Count2x64Blocks(count: array2<nat>, src: array<uint8>, size: nat, L: Layout)
    requires Shaped(count, L) && L.lanes == Paired && size == L.limit
    requires size % BLOCK == 0 && src.Length >= size + BLOCK
    requires Holds(count, src[..], 0, L)
    modifies count
    ensures Holds(count, src[..], size, L)
  {
    ghost var s := src[..];
    var next0, next1 := src[0..8], src[8..BLOCK];
    var p := 0;
    while p != size
      invariant p <= size && p % BLOCK == 0
      invariant next0 == s[p..p + 8] && next1 == s[p + 8..p + BLOCK]
      invariant Holds(count, s, p, L)
      decreases size - p
    {
      var data0, data1 := next0, next1;
      ghost var at := p;
      p := p + BLOCK;
      next0, next1 := src[p..p + 8], src[p + 8..p + BLOCK];
      CountPairedBlock(count, data0, data1, L, s, at);
    }
    assert src[..] == s;
  }

  /** The word widths of the hist_* kernels, in bytes. */
  predicate WordWidth(W: nat)
  {
    W == 4 || W == 8 || W == 16
  }

  /** Offsets within a block at which a W-byte word of a hist_* loop starts (or the block ends). */
  predicate WordBoundary(W: nat, lane: nat)
  {
    lane == 0 || lane == BLOCK || (W <= 8 && lane == 8) || (W == 4 && (lane == 4 || lane == 12))
  }

  /**
    The hist_T_B kernels (T tables, B = 8 * W bit words): a W-byte word is
    preloaded one step ahead, byte k of a word goes to table k mod T, every
    loop iteration takes the 16 / W words of one block, the bytes past
    inlen & ~15 go to table 0, and bin[i] sums the T tables.
   */
  method HistCount(src: array<uint8>, n: nat, T: nat, W: nat) returns (r: nat, hist: seq<nat>)
    requires (T == 4 || T == 8) && WordWidth(W)
    requires n <= src.Length && src.Length >= AlignDown16(n) + W
    ensures |hist| == ALPHABET && forall v :: 0 <= v < ALPHABET ==> hist[v] == Occ(src[..n], v)
    ensures r == Occ(src[..n], 0)
  {
    var c := new nat[T, COUNT_SIZE]((t, v) => 0);
    var bin := new nat[COUNT_SIZE](v => 0);
    var L := Layout(Direct(T), AlignDown16(n));
    ZeroHolds(c, src[..], L);
    var end := AlignDown16(n);
    var cp := src[0..W];
    var ip := 0;
    while ip != end
      invariant ip <= end && ip % BLOCK == 0
      invariant cp == src[ip..ip + W]
      invariant Holds(c, src[..], ip, L)
      decreases end - ip
    {
      cp := HistBlock(c, src, ip, cp, W, L);
      ip := ip + BLOCK;
    }
    CountTail(c, src, end, n, L);
    SumRows(c, bin, src[..], n, L);
    r, hist := bin[0], bin[..ALPHABET];
  }

  /**
    One iteration of a hist_* loop: the 16 / W words of the block at ip,
    each counted while the next word is loaded; returns the preloaded word
    of the next block.
   */
  method HistBlock(c: array2<nat>, src: array<uint8>, ip0: nat, cp0: seq<uint8>, W: nat, L: Layout) returns (cp: seq<uint8>)
    requires Shaped(c, L) && L.lanes.Direct? && WordWidth(W)
    requires ip0 % BLOCK == 0 && ip0 + BLOCK <= L.limit && L.limit + W <= src.Length
    requires cp0 == src[ip0..ip0 + W]
    requires Holds(c, src[..], ip0, L)
    modifies c
    ensures cp == src[ip0 + BLOCK..ip0 + BLOCK + W]
    ensures Holds(c, src[..], ip0 + BLOCK, L)
  {
    ghost var s := src[..];
    var blockEnd := ip0 + BLOCK;
    var ip := ip0;
    cp := cp0;
    while ip != blockEnd
      invariant ip0 <= ip <= blockEnd && WordBoundary(W, ip - ip0)
      invariant cp == s[ip..ip + W]
      invariant Holds(c, s, ip, L)
      decreases blockEnd - ip
    {
      var word := cp;
      var at := ip;
      ip := ip + W;
      cp := src[ip..ip + W];
      BlockOffset(ip0, at - ip0);
      assert |word| == W;
      CountBytes(c, word, at - ip0, L, s, at);
    }
  }

  /** hist_4_32: four tables, 32-bit words. */
  method Hist4x32(src: array<uint8>, n: nat) returns (r: nat, hist: seq<nat>)
    requires n <= src.Length && src.Length >= AlignDown16(n) + 4
    ensures |hist| == ALPHABET && forall v :: 0 <= v < ALPHABET ==> hist[v] == Occ(src[..n], v)
    ensures r == Occ(src[..n], 0)
  {
    r, hist := HistCount(src, n, 4, 4);
  }

  /** hist_4_64: four tables, 64-bit words. */
  method Hist4x64(src: array<uint8>, n: nat) returns (r: nat, hist: seq<nat>)
    requires n <= src.Length && src.Length >= AlignDown16(n) + 8
    ensures |hist| == ALPHABET && forall v :: 0 <= v < ALPHABET ==> hist[v] == Occ(src[..n], v)
    ensures r == Occ(src[..n], 0)
  {
    r, hist := HistCount(src, n, 4, 8);
  }

  /** hist_8_64: eight tables, 64-bit words. */
  method Hist8x64(src: array<uint8>, n: nat) returns (r: nat, hist: seq<nat>)
    requires n <= src.Length && src.Length >= AlignDown16(n) + 8
    ensures |hist| == ALPHABET && forall v :: 0 <= v < ALPHABET ==> hist[v] == Occ(src[..n], v)
    ensures r == Occ(src[..n], 0)
  {
    r, hist := HistCount(src, n, 8, 8);
  }

  /** hist_4_128: four tables, 128-bit vectors. */
  method Hist4x128(src: array<uint8>, n: nat) returns (r: nat, hist: seq<nat>)
    requires n <= src.Length && src.Length >= AlignDown16(n) + BLOCK
    ensures |hist| == ALPHABET && forall v :: 0 <= v < ALPHABET ==> hist[v] == Occ(src[..n], v)
    ensures r == Occ(src[..n], 0)
  {
    r, hist := HistCount(src, n, 4, BLOCK);
  }

  /** hist_8_128: eight tables, 128-bit vectors. */
  method Hist8x128(src: array<uint8>, n: nat) returns (r: nat, hist: seq<nat>)
    requires n <= src.Length && src.Length >= AlignDown16(n) + BLOCK
    ensures |hist| == ALPHABET && forall v :: 0 <= v < ALPHABET ==> hist[v] == Occ(src[..n], v)
    ensures r == Occ(src[..n], 0)
  {
    r, hist := HistCount(src, n, 8, BLOCK);
  }
}
