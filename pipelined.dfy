/**
  The software-pipelined kernels storePort7, reloadPort7, count8reload and
  port7vec. Each keeps the next 4 or 8 bytes (or pre-scaled indices) in
  registers one step ahead of the byte it counts, stops the loop early
  enough that the look-ahead stays inside the input, then steps the
  cursor back over the bytes it had loaded but not counted, so that the
  scalar tail counts them in table 0.
 */
module Pipelined {
  import opened ByteCounts
  import opened Lanes
  import opened CountTables

  /**
    End of the loop-covered prefix of storePort7: 4 bytes are preloaded,
    the remaining length is cut down by (len % 16) + 16, and the cursor is
    rewound by the 4 preloaded bytes. Inputs under 32 bytes skip the loop.
   */
  function StoreLimit(n: nat): (r: nat)
    ensures n < 32 ==> r == 0
    ensures n >= 32 ==> r % BLOCK == 0 && r + 20 <= n < r + 36
  {
    if n < 32 then 0 else n - 4 - ((n - 4) % BLOCK + BLOCK)
  }

  /** The same for reloadPort7 and count8reload, which preload 8 bytes. */
  function ReloadLimit(n: nat): (r: nat)
    ensures n < 32 ==> r == 0
    ensures n >= 32 ==> r % BLOCK == 0 && r + 24 <= n < r + 40
  {
    if n < 32 then 0 else n - 8 - ((n - 8) % BLOCK + BLOCK)
  }

  /**
    The same for port7vec (inputs of at least 72 bytes): 8 indices are
    preloaded, the length is cut down by (len % 32) + 64.
   */
  function Port7Limit(n: nat): (r: nat)
    requires n >= 72
    ensures r % 32 == 0 && r + 72 <= n < r + 104
  {
    n - 8 - ((n - 8) % 32 + 64)
  }

  /** StoreLimit is the only 16-aligned prefix that leaves between 20 and 35 bytes for the tail. */
  lemma StoreLimitUnique(n: nat, m: nat)
    requires n >= 32 && m % BLOCK == 0 && m + 20 <= n < m + 36
    ensures m == StoreLimit(n)
  {
  }

  /** ReloadLimit is the only 16-aligned prefix that leaves between 24 and 39 bytes for the tail. */
  lemma ReloadLimitUnique(n: nat, m: nat)
    requires n >= 32 && m % BLOCK == 0 && m + 24 <= n < m + 40
    ensures m == ReloadLimit(n)
  {
  }

  /** Port7Limit is the only 32-aligned prefix that leaves between 72 and 103 bytes for the tail. */
  lemma Port7LimitUnique(n: nat, m: nat)
    requires n >= 72 && m % 32 == 0 && m + 72 <= n < m + 104
    ensures m == Port7Limit(n)
  {
  }

  /** Layout of the 16-table pipelined kernels for a loop-covered prefix of the given length. */
  function Lane16(limit: nat): Layout
  {
    Layout(Direct(TABLES), limit)
  }

  /**
    storePort7: count the input in the sixteen rows of g_count. Four bytes
    are loaded ahead of the four being counted; bytes past StoreLimit(n),
    including the four preloaded ones the loop never counted, go to row 0.
   */
  method StorePort7(st: Statics, src: array<uint8>, n: nat) returns (r: nat)
    requires st.Valid() && n <= src.Length
    modifies st.gCount
    ensures Reduced(st.gCount, src[..], n, Lane16(StoreLimit(n)))
    ensures r == Occ(src[..n], 0)
  {
    var count := st.gCount;
    var L := Lane16(StoreLimit(n));
    Zero(count);
    ZeroHolds(count, src[..], L);
    var c, remainder := 0, n;  // below 32 bytes the tail counts everything
    if n >= 32 {
      c, remainder := StoreLoop(count, src, n, L);
    }
    CountTail(count, src, c, c + remainder, L);
    ReduceTables(count, src[..], n, L);
    r := count[0, 0];
  }

  /**
    The unrolled loop of storePort7, from the preload to the rewind; returns
    the rewound cursor and the number of bytes left for the tail.
   */
  method StoreLoop(count: array2<nat>, src: array<uint8>, n: nat, L: Layout) returns (c: nat, remainder: nat)
    requires Shaped(count, L) && n >= 32 && n <= src.Length && L.lanes == Direct(TABLES) && L.limit == StoreLimit(n)
    requires Holds(count, src[..], 0, L)
    modifies count
    ensures c == L.limit && c + remainder == n
    ensures Holds(count, src[..], L.limit, L)
  {
    ghost var s := src[..];
    var b4567 := src[0..4];
    c := 4;
    var size := n - 4;
    remainder := size % BLOCK + BLOCK;
    size := size - remainder;
    var endSrc := c + size;
    ghost var q: nat := 0;  // bytes counted: the cursor less the four preloaded
    assert endSrc == L.limit + 4 && L.limit % BLOCK == 0;
    while c < endSrc
      invariant c == q + 4 && q <= L.limit && q % BLOCK == 0
      invariant b4567 == s[q..q + 4]
      invariant Holds(count, s, q, L)
      decreases endSrc - c
    {
      CongruentBelow(q, L.limit, BLOCK);
      b4567 := StoreBlock(count, src, b4567, L, s, c, q);
      c := c + BLOCK;
      q := q + BLOCK;
    }
    assert q == L.limit && src[..] == s;
    c := c - 4;  // redo the four that were preloaded
    remainder := remainder + 4;
  }

  /**
    One iteration of storePort7 at cursor c: the four preloaded bytes
    s[c - 4 .. c) and the next twelve are counted in tables 0 .. 15 while
    the following group of four is loaded; returns s[c + 12 .. c + 16).
   */
  method StoreBlock(count: array2<nat>, src: array<uint8>, b4567: seq<uint8>, L: Layout, ghost s: seq<uint8>, c: nat, ghost q: nat)
      returns (next: seq<uint8>)
    requires Shaped(count, L) && L.lanes == Direct(TABLES) && s == src[..]
    requires c == q + 4 && q % BLOCK == 0 && q + BLOCK <= L.limit && q + BLOCK + 4 <= |s|
    requires b4567 == s[q..q + 4]
    requires Holds(count, s, q, L)
    modifies count
    ensures next == s[q + BLOCK..q + BLOCK + 4]
    ensures Holds(count, s, q + BLOCK, L)
  {
    var b0123 := src[c..c + 4];
    CountBytes(count, b4567, 0, L, s, q);
    next := src[c + 4..c + 8];
    CountBytes(count, b0123, 4, L, s, q + 4);
    b0123 := src[c + 8..c + 12];
    CountBytes(count, next, 8, L, s, q + 8);
    next := src[c + 12..c + 16];
    CountBytes(count, b0123, 12, L, s, q + 12);
  }

  /**
    Count four bytes held in registers into the tables of lanes
    firstLane .. firstLane + 3, reloading each register from src[at + k]
    after its increment (ASM_INC_GLOBAL_OFFSET_MULTIPLE_BYTES_RELOAD and
    ASM_INC_OFFSET_BASE_BYTE_MULTIPLE_RELOAD).
   */
  method IncReload(count: array2<nat>, regs: seq<uint8>, src: array<uint8>, at: nat, firstLane: nat, L: Layout, ghost s: seq<uint8>, ghost q: nat)
      returns (next: seq<uint8>)
    requires Shaped(count, L) && s == src[..] && at + 4 <= src.Length
    requires q + 4 <= L.limit && q + 4 <= |s| && firstLane <= q && (q - firstLane) % BLOCK == 0 && firstLane + 4 <= BLOCK
    requires regs == s[q..q + 4]
    requires Holds(count, s, q, L)
    modifies count
    ensures next == s[at..at + 4]
    ensures Holds(count, s, q + 4, L)
  {
    next := [];
    for k := 0 to 4
      invariant next == s[at..at + k]
      invariant Holds(count, s, q + k, L)
    {
      var row := TableOf(L.lanes, firstLane + k);
      OwnerInBlock(L, q, firstLane, k);
      Bump(count, row, regs[k], s, q + k, L);
      next := next + [src[at + k]];
    }
  }

  /**
    The shared body of reloadPort7 and count8reload: 8 bytes are loaded
    ahead, each group of four registers is counted and reloaded in turn,
    and the 8 bytes loaded but not counted are re-read by the tail.
   */
  method ReloadCount(count: array2<nat>, src: array<uint8>, n: nat) returns (r: nat)
    requires count.Length0 == TABLES && count.Length1 == COUNT_SIZE && n <= src.Length
    modifies count
    ensures Reduced(count, src[..], n, Lane16(ReloadLimit(n)))
    ensures r == Occ(src[..n], 0)
  {
    var L := Lane16(ReloadLimit(n));
    Zero(count);
    ZeroHolds(count, src[..], L);
    var c, remainder := 0, n;  // below 32 bytes the tail counts everything
    if n >= 32 {
      c, remainder := ReloadLoop(count, src, n, L);
    }
    CountTail(count, src, c, c + remainder, L);
    ReduceTables(count, src[..], n, L);
    r := count[0, 0];
  }

  /**
    The unrolled loop of the reload kernels, from the preload to the rewind;
    returns the rewound cursor and the number of bytes left for the tail.
   */
  method ReloadLoop(count: array2<nat>, src: array<uint8>, n: nat, L: Layout) returns (c: nat, remainder: nat)
    requires Shaped(count, L) && n >= 32 && n <= src.Length && L.lanes == Direct(TABLES) && L.limit == ReloadLimit(n)
    requires Holds(count, src[..], 0, L)
    modifies count
    ensures c == L.limit && c + remainder == n
    ensures Holds(count, src[..], L.limit, L)
  {
    ghost var s := src[..];
    var b0123, b4567 := src[0..4], src[4..8];
    c := 8;
    var size := n - 8;
    remainder := size % BLOCK + BLOCK;
    size := size - remainder;
    var endSrc := c + size;
    ghost var q: nat := 0;  // bytes counted: the cursor less the eight preloaded
    assert endSrc == L.limit + 8 && L.limit % BLOCK == 0;
    while c < endSrc
      invariant c == q + 8 && q <= L.limit && q % BLOCK == 0
      invariant b0123 == s[q..q + 4] && b4567 == s[q + 4..q + 8]
      invariant Holds(count, s, q, L)
      decreases endSrc - c
    {
      CongruentBelow(q, L.limit, BLOCK);
      b0123, b4567 := ReloadBlock(count, src, b0123, b4567, L, s, c, q);
      c := c + BLOCK;
      q := q + BLOCK;
    }
    assert q == L.limit && src[..] == s;
    c := c - 8;  // redo the eight that were preloaded
    remainder := remainder + 8;
  }

  /**
    One iteration of the reload kernels at cursor c: the eight preloaded
    bytes s[c - 8 .. c) and the next eight are counted in tables 0 .. 15,
    each register reloaded right after its increment; returns the two
    register groups, now s[c + 8 .. c + 16).
   */
  method ReloadBlock(count: array2<nat>, src: array<uint8>, b0123: seq<uint8>, b4567: seq<uint8>, L: Layout, ghost s: seq<uint8>, c: nat, ghost q: nat)
      returns (n0123: seq<uint8>, n4567: seq<uint8>)
    requires Shaped(count, L) && L.lanes == Direct(TABLES) && s == src[..]
    requires c == q + 8 && q % BLOCK == 0 && q + BLOCK <= L.limit && q + BLOCK + 8 <= |s|
    requires b0123 == s[q..q + 4] && b4567 == s[q + 4..q + 8]
    requires Holds(count, s, q, L)
    modifies count
    ensures n0123 == s[q + BLOCK..q + BLOCK + 4] && n4567 == s[q + BLOCK + 4..q + BLOCK + 8]
    ensures Holds(count, s, q + BLOCK, L)
  {
    n0123 := IncReload(count, b0123, src, c, 0, L, s, q);
    n4567 := IncReload(count, b4567, src, c + 4, 4, L, s, q + 4);
    n0123 := IncReload(count, n0123, src, c + 8, 8, L, s, q + 8);
    n4567 := IncReload(count, n4567, src, c + 12, 12, L, s, q + 12);
  }

  /** reloadPort7: the reload kernel on g_count. */
  method ReloadPort7(st: Statics, src: array<uint8>, n: nat) returns (r: nat)
    requires st.Valid() && n <= src.Length
    modifies st.gCount
    ensures Reduced(st.gCount, src[..], n, Lane16(ReloadLimit(n)))
    ensures r == Occ(src[..n], 0)
  {
    r := ReloadCount(st.gCount, src, n);
  }

  /** count8reload: the reload kernel on its own static table. */
  method Count8Reload(st: Statics, src: array<uint8>, n: nat) returns (r: nat)
    requires st.Valid() && n <= src.Length
    modifies st.count8Reload
    ensures Reduced(st.count8Reload, src[..], n, Lane16(ReloadLimit(n)))
    ensures r == Occ(src[..n], 0)
  {
    r := ReloadCount(st.count8Reload, src, n);
  }

  /**
    A 16-byte load zero-extended to 16-bit words and shifted left by 2:
    each word is the byte offset of the byte's 32-bit counter.
   */
  function Scale(v: seq<uint8>): (w: seq<nat>)
    ensures |w| == |v| && forall j :: 0 <= j < |v| ==> w[j] == 4 * (v[j] as int) && w[j] / 4 == v[j]
  {
    seq(|v|, j requires 0 <= j < |v| => 4 * (v[j] as int))
  }

  /** _mm256_store_si256 of sixteen scaled words into the staging buffer at word `at`. */
  method StoreWords(buffer: array<nat>, words: seq<nat>, at: nat)
    requires |words| == BLOCK && at + BLOCK <= buffer.Length
    modifies buffer
    ensures forall k :: at <= k < at + BLOCK ==> buffer[k] == words[k - at]
    ensures forall k :: 0 <= k < buffer.Length && !(at <= k < at + BLOCK) ==> buffer[k] == old(buffer[k])
  {
    forall k | at <= k < at + BLOCK {
      buffer[k] := words[k - at];
    }
  }

  /** w holds the scaled bytes s[q .. q + |w|), in order. */
  ghost predicate ScaledRun(w: seq<nat>, s: seq<uint8>, q: nat)
  {
    q + |w| <= |s| && forall k :: 0 <= k < |w| ==> w[k] == 4 * (s[q + k] as int)
  }

  /** Words lo .. hi - 1 of the staging buffer hold the scaled bytes s[q .. q + hi - lo), in order. */
  ghost predicate BufferRun(buffer: array<nat>, lo: nat, hi: nat, s: seq<uint8>, q: nat)
    reads buffer
  {
    lo <= hi <= buffer.Length && q + (hi - lo) <= |s|
    && forall k :: lo <= k < hi ==> buffer[k] == 4 * (s[q + k - lo] as int)
  }

  /**
    Eight increments of port7vec: index register k (a scaled byte) is
    counted in the table of lane firstLane + k, then reloaded from word
    `at + k` of the staging buffer.
   */
  method IncReloadScaled(count: array2<nat>, regs: seq<nat>, buffer: array<nat>, at: nat, firstLane: nat, L: Layout, ghost s: seq<uint8>, ghost q: nat, ghost lo: nat, ghost qb: nat, ghost qr: nat)
      returns (next: seq<nat>)
    requires Shaped(count, L) && BufferRun(buffer, lo, lo + BLOCK, s, qb) && lo <= at && at + 8 <= lo + BLOCK
    requires qr == qb + at - lo
    requires q + 8 <= L.limit && firstLane <= q && (q - firstLane) % BLOCK == 0 && firstLane + 8 <= BLOCK
    requires |regs| == 8 && ScaledRun(regs, s, q)
    requires Holds(count, s, q, L)
    modifies count
    ensures |next| == 8 && ScaledRun(next, s, qr)
    ensures Holds(count, s, q + 8, L)
  {
    next := [];
    for k := 0 to 8
      invariant next == buffer[at..at + k]
      invariant Holds(count, s, q + k, L)
    {
      var row := TableOf(L.lanes, firstLane + k);
      var col := regs[k] / 4;
      assert col == s[q + k];
      OwnerInBlock(L, q, firstLane, k);
      Bump(count, row, col, s, q + k, L);
      next := next + [buffer[at + k]];
    }
    RunOfBuffer(buffer, lo, lo + BLOCK, s, qb, at, next);
  }

  /**
    One iteration of port7vec at cursor c (the C code's endSrc + negCount):
    the eight index registers hold s[c - 8 .. c) scaled, the staging buffer
    the next 32 scaled bytes s[c .. c + 32) and vec0 the raw bytes
    s[c + 32 .. c + 48). Thirty-two bytes are counted, and on exit the
    same holds at c + 32.
   */
  method Port7Step(count: array2<nat>, buffer: array<nat>, src: array<uint8>, regs: seq<nat>, vec0: seq<uint8>, L: Layout, ghost s: seq<uint8>, c: nat, ghost q: nat)
      returns (nextRegs: seq<nat>, nextVec0: seq<uint8>)
    requires Shaped(count, L) && L.lanes == Direct(TABLES) && s == src[..] && buffer.Length == 32
    requires c == q + 8 && q % 32 == 0 && q + 32 <= L.limit && q + 88 <= |s|
    requires |regs| == 8 && ScaledRun(regs, s, q) && BufferRun(buffer, 0, 32, s, q + 8)
    requires vec0 == s[q + 40..q + 56]
    requires Holds(count, s, q, L)
    modifies count, buffer
    ensures |nextRegs| == 8 && ScaledRun(nextRegs, s, q + 32) && BufferRun(buffer, 0, 32, s, q + 32 + 8)
    ensures nextVec0 == s[q + 32 + 40..q + 32 + 56]
    ensures Holds(count, s, q + 32, L)
  {
    var words0 := Scale(vec0);
    var vec1;
    nextRegs, vec1 := Port7Half(count, buffer, src, regs, words0, L, s, c, 0);
    var words1 := Scale(vec1);
    nextRegs, nextVec0 := Port7Half(count, buffer, src, nextRegs, words1, L, s, c, BLOCK);
  }

  /**
    Half an iteration of port7vec (h = 0: the first half, h = 16: the
    second): sixteen bytes are counted through the index registers, which
    are refilled from buffer words h .. h + 15, the next raw vector is
    loaded, and the scaled vector loaded earlier is stored into those
    sixteen words.
   */
  method Port7Half(count: array2<nat>, buffer: array<nat>, src: array<uint8>, regs: seq<nat>, words: seq<nat>, L: Layout, ghost s: seq<uint8>, c: nat, h: nat)
      returns (nextRegs: seq<nat>, loaded: seq<uint8>)
    requires Shaped(count, L) && L.lanes == Direct(TABLES) && s == src[..] && buffer.Length == 32
    requires h == 0 || h == BLOCK
    requires c >= 8 && c % 32 == 8 && c + 24 <= L.limit && c + 80 <= |s|
    requires |regs| == 8 && ScaledRun(regs, s, c - 8 + h)
    requires BufferRun(buffer, 0, h, s, c + 32) && BufferRun(buffer, h, 32, s, c + h)
    requires |words| == BLOCK && ScaledRun(words, s, c + 32 + h)
    requires Holds(count, s, c - 8 + h, L)
    modifies count, buffer
    ensures |nextRegs| == 8 && ScaledRun(nextRegs, s, c + 8 + h)
    ensures BufferRun(buffer, 0, h + BLOCK, s, c + 32) && BufferRun(buffer, h + BLOCK, 32, s, c + h + BLOCK)
    ensures loaded == s[c + 48 + h..c + 64 + h]
    ensures Holds(count, s, c + 8 + h, L)
  {
    nextRegs, loaded := Port7Count(count, buffer, src, regs, L, s, c, h);
    StoreWords(buffer, words, h);
  }

  /**
    The counting part of a half iteration: the eight registers are counted
    in tables 0 .. 7 and refilled from buffer words h .. h + 7, the next
    raw vector is loaded, and the refilled registers are counted in tables
    8 .. 15 and refilled from words h + 8 .. h + 15.
   */
  method Port7Count(count: array2<nat>, buffer: array<nat>, src: array<uint8>, regs: seq<nat>, L: Layout, ghost s: seq<uint8>, c: nat, h: nat)
      returns (nextRegs: seq<nat>, loaded: seq<uint8>)
    requires Shaped(count, L) && L.lanes == Direct(TABLES) && s == src[..] && buffer.Length == 32
    requires h == 0 || h == BLOCK
    requires c >= 8 && c % 32 == 8 && c + 24 <= L.limit && c + 80 <= |s|
    requires |regs| == 8 && ScaledRun(regs, s, c - 8 + h)
    requires BufferRun(buffer, h, h + BLOCK, s, c + h)
    requires Holds(count, s, c - 8 + h, L)
    modifies count
    ensures |nextRegs| == 8 && ScaledRun(nextRegs, s, c + 8 + h)
    ensures loaded == s[c + 48 + h..c + 64 + h]
    ensures Holds(count, s, c + 8 + h, L)
  {
    ghost var q := c - 8 + h;
    assert q % BLOCK == 0 by {
      assert (c - 8) % 32 == 0;
    }
    nextRegs := IncReloadScaled(count, regs, buffer, h, 0, L, s, q, h, c + h, c + h);
    loaded := src[c + 48 + h..c + 64 + h];
    var refilled := nextRegs;
    nextRegs := IncReloadScaled(count, refilled, buffer, h + 8, 8, L, s, c + h, h, c + h, c + 8 + h);
  }

  /** Consecutive words read out of a buffer run are a run of scaled bytes. */
  lemma RunOfBuffer(buffer: array<nat>, lo: nat, hi: nat, s: seq<uint8>, q: nat, at: nat, w: seq<nat>)
    requires BufferRun(buffer, lo, hi, s, q)
    requires lo <= at && at + |w| <= hi && w == buffer[at..at + |w|]
    ensures ScaledRun(w, s, q + at - lo)
  {
    forall k | 0 <= k < |w|
      ensures w[k] == 4 * (s[q + at - lo + k] as int)
    {
      assert w[k] == buffer[at + k];
    }
  }

  /** Two distinct numbers with the same remainder modulo m (16 or 32) are at least m apart. */
  lemma CongruentBelow(x: int, y: int, m: nat)
    requires (m == BLOCK || m == 32) && x % m == y % m && x < y
    ensures x + m <= y
  {
  }

  /**
    port7vec (AVX2 builds), for inputs of at least 72 bytes: the loop
    counts [0, Port7Limit(n)) through eight index registers refilled from
    a 32-word staging buffer that always holds the next 32 scaled bytes,
    and the tail re-reads the 8 bytes the registers held when it stopped.
   */
  method Port7Vec(st: Statics, src: array<uint8>, n: nat) returns (r: nat)
    requires st.Valid() && 72 <= n <= src.Length
    modifies st.port7Vec
    ensures Reduced(st.port7Vec, src[..], n, Lane16(Port7Limit(n)))
    ensures r == Occ(src[..n], 0)
  {
    var count := st.port7Vec;
    var L := Lane16(Port7Limit(n));
    Zero(count);
    ZeroHolds(count, src[..], L);
    var endSrc, remainder := Port7Loop(count, src, n, L);
    CountTail(count, src, endSrc, endSrc + remainder, L);
    ReduceTables(count, src[..], n, L);
    r := count[0, 0];
  }

  /**
    The staging-buffer loop of port7vec, from the first loads to the rewind;
    returns where the tail starts re-reading and how many bytes it counts.
   */
  method Port7Loop(count: array2<nat>, src: array<uint8>, n: nat, L: Layout) returns (endSrc: nat, remainder: nat)
    requires Shaped(count, L) && 72 <= n <= src.Length && L.lanes == Direct(TABLES) && L.limit == Port7Limit(n)
    requires Holds(count, src[..], 0, L)
    modifies count
    ensures endSrc == L.limit && endSrc + remainder == n
    ensures Holds(count, src[..], L.limit, L)
  {
    ghost var s := src[..];
    var buffer := new nat[32];
    var regs, vec0 := Port7Prime(buffer, src, s);
    var size := n - 8;
    remainder := size % 32 + 64;
    size := size - remainder;
    endSrc := 8 + size;
    var negCount: int := -size;
    assert endSrc == L.limit + 8 && L.limit % 32 == 0 && L.limit + 72 <= |s|;
    ghost var q: nat := 0;  // bytes counted: the cursor endSrc + negCount less 8
    while negCount != 0
      invariant q + 8 == endSrc + negCount && q <= L.limit && q % 32 == 0
      invariant |regs| == 8 && ScaledRun(regs, s, q)
      invariant BufferRun(buffer, 0, 32, s, q + 8)
      invariant vec0 == s[q + 40..q + 56]
      invariant Holds(count, s, q, L)
      decreases -negCount
    {
      CongruentBelow(q, L.limit, 32);
      regs, vec0 := Port7Step(count, buffer, src, regs, vec0, L, s, endSrc + negCount, q);
      negCount := negCount + 32;
      q := q + 32;
    }
    assert q == L.limit && src[..] == s;
    remainder := remainder + 8;  // loaded to registers but not counted
    endSrc := endSrc - 8;        // the part the tail re-reads
  }

  /**
    The set-up of port7vec: the first 16 bytes are scaled into the staging
    buffer and the first 8 of them loaded into the index registers; then,
    with the cursor at 8, both halves of the buffer are filled with the
    next 32 scaled bytes and the raw bytes after them are loaded.
   */
  method Port7Prime(buffer: array<nat>, src: array<uint8>, ghost s: seq<uint8>) returns (regs: seq<nat>, vec0: seq<uint8>)
    requires buffer.Length == 32 && s == src[..] && |s| >= 72
    modifies buffer
    ensures |regs| == 8 && ScaledRun(regs, s, 0)
    ensures BufferRun(buffer, 0, 32, s, 8)
    ensures vec0 == s[40..56]
  {
    StoreWords(buffer, Scale(src[0..BLOCK]), 0);
    regs := buffer[0..8];
    StoreWords(buffer, Scale(src[8..24]), 0);
    assert BufferRun(buffer, 0, BLOCK, s, 8);
    StoreWords(buffer, Scale(src[24..40]), BLOCK);
    assert BufferRun(buffer, BLOCK, 32, s, 24);
    vec0 := src[40..56];
  }
}
