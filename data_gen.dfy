// The benchmark's input generator: a 32-bit linear congruential generator
// (BMK_rand) and a generator of skewed byte data (BMK_genData) that draws
// bytes from a 2048-slot table in which symbol 0 takes about a fraction p of
// the slots, symbol 1 about p of the rest, and so on.

module DataGen {
  import opened ByteCounts

  const PRIME1: int := 2654435761
  const PRIME2: int := 2246822519
  /** The inverse of PRIME1 modulo 2^32 (PRIME1 is odd, so it has one). */
  const PRIME1_INVERSE: int := 0x0e8b_2f51

  const PROBATABLESIZE: nat := 2048

  // ---------------------------------------------------------------------
  // BMK_rand
  // ---------------------------------------------------------------------

  /** The new value of `*seed`: seed * PRIME1 + PRIME2 in 32-bit arithmetic.
      Both constants are odd, so the low bit of the state flips at every
      step; BMK_rand returns only the top 21 bits. */
  function NextSeed(seed: u32): (r: u32)
    ensures r % 2 != seed % 2
  {
    var x := seed * PRIME1 + PRIME2;
    // PRIME1 == 2 * 1327217880 + 1 and PRIME2 == 2 * 1123411259 + 1
    var half := seed * 1327217880 + 1123411259 - (x / WORD) * 0x8000_0000;
    assert x % WORD == 2 * half + seed + 1;
    x % WORD
  }

  /** What BMK_rand returns for the updated seed: its top 21 bits. */
  function RandOutput(next: u32): (r: nat)
    ensures r < 0x20_0000
    ensures r * 2048 <= next < r * 2048 + 2048
  {
    next / 2048
  }

  /** The step run backwards: it recovers a seed from its successor. */
  function PrevSeed(next: u32): u32 {
    ((next - PRIME2) * PRIME1_INVERSE) % WORD
  }

  /** PRIME1 * PRIME1_INVERSE == INVERSE_CARRY * 2^32 + 1. */
  const INVERSE_CARRY: int := 150801925

  /** Adding whole words does not change a remainder modulo 2^32. */
  lemma ShiftedWord(d: u32, j: int)
    ensures (d + j * WORD) % WORD == d
  {
  }

  /** No two seeds have the same successor: the step is a permutation of the
      2^32 states. */
  lemma {:induction false} PrevNextSeed(seed: u32)
    ensures PrevSeed(NextSeed(seed)) == seed
  {
    var q := (seed * PRIME1 + PRIME2) / WORD;
    assert NextSeed(seed) == seed * PRIME1 + PRIME2 - q * WORD;
    assert PRIME1 * PRIME1_INVERSE == INVERSE_CARRY * WORD + 1;
    var j := seed * INVERSE_CARRY - q * PRIME1_INVERSE;
    assert (NextSeed(seed) - PRIME2) * PRIME1_INVERSE == seed + j * WORD;
    ShiftedWord(seed, j);
  }

  /** Every state has a predecessor: the step is onto. */
  lemma {:induction false} NextPrevSeed(next: u32)
    ensures NextSeed(PrevSeed(next)) == next
  {
    var q := ((next - PRIME2) * PRIME1_INVERSE) / WORD;
    assert PrevSeed(next) == (next - PRIME2) * PRIME1_INVERSE - q * WORD;
    assert PRIME1 * PRIME1_INVERSE == INVERSE_CARRY * WORD + 1;
    var j := (next - PRIME2) * INVERSE_CARRY - q * PRIME1;
    assert PrevSeed(next) * PRIME1 + PRIME2 == next + j * WORD;
    ShiftedWord(next, j);
  }

  /** The table slot `BMK_rand(&seed) & (PROBATABLESIZE-1)` drawn by a seed;
      on a non-negative value the mask is the remainder modulo 2048. */
  function Slot(seed: u32): (r: nat)
    ensures r < PROBATABLESIZE
  {
    RandOutput(NextSeed(seed)) % PROBATABLESIZE
  }

  // ---------------------------------------------------------------------
  // BMK_genData: the probability table
  // ---------------------------------------------------------------------

  /** The clamp applied to p before the table is built. */
  function ClampP(p: real): (r: real)
    ensures 0.005 <= r <= 1.0
    ensures p < 0.01 ==> r == 0.005
    ensures 0.01 <= p <= 1.0 ==> r == p
    ensures p >= 1.0 ==> r == 1.0
  {
    if p < 0.01 then 0.005 else if p > 1.0 then 1.0 else p
  }

  /** The number of slots given to the next symbol: remaining * p rounded
      down, but at least one. */
  function Step(remaining: nat, p: real): (n: nat)
    requires 0 < remaining && 0.0 <= p <= 1.0
    ensures 1 <= n <= remaining
    ensures p == 1.0 ==> n == remaining
  {
    var x := remaining as real * p;
    assert 0.0 <= x <= remaining as real by {
      assert remaining as real * (1.0 - p) >= 0.0;
    }
    var f := x.Floor;
    if f == 0 then 1 else f
  }

  /** Fewer remaining slots never give a longer run. */
  lemma StepMonotone(r1: nat, r2: nat, p: real)
    requires 0 < r1 <= r2 && 0.0 <= p <= 1.0
    ensures Step(r1, p) <= Step(r2, p)
  {
    assert (r2 - r1) as real * p >= 0.0;
  }

  /** The run of symbol s + 1 is no longer than the run of symbol s: the
      table gives each later byte at most as many slots as the one before.
      The table continues with a run of s of length n, then a run of s + 1
      of length m <= n. */
  lemma NextRunNoLonger(remaining: nat, s: nat, p: real)
    requires 0 < remaining && 0.0 <= p <= 1.0
    requires remaining - Step(remaining, p) > 0
    ensures Step(remaining - Step(remaining, p), p) <= Step(remaining, p)
    ensures forall k :: 0 <= k < Step(remaining, p) + Step(remaining - Step(remaining, p), p) ==>
      Symbols(remaining, s, p)[k] == if k < Step(remaining, p) then s else s + 1
  {
    var n := Step(remaining, p);
    var m := Step(remaining - n, p);
    StepMonotone(remaining - n, remaining, p);
    var rest := Symbols(remaining - n, s + 1, p);
    assert Symbols(remaining, s, p) == seq(n, _ => s) + rest;
    assert rest == seq(m, _ => s + 1) + Symbols(remaining - n - m, s + 2, p);
  }

  /** The symbol counters `s` written to the slots still to fill, in slot
      order, when `remaining` slots are left and `s` is the next symbol. */
  function Symbols(remaining: nat, s: nat, p: real): (r: seq<nat>)
    requires 0.0 <= p <= 1.0
    ensures |r| == remaining
    ensures forall k :: 0 <= k < |r| ==> s <= r[k] < s + remaining
    decreases remaining
  {
    if remaining == 0 then []
    else
      var n := Step(remaining, p);
      seq(n, _ => s) + Symbols(remaining - n, s + 1, p)
  }

  /** The counters never decrease along the table and never skip a value. */
  lemma {:induction false} SymbolsClimb(remaining: nat, s: nat, p: real)
    requires 0.0 <= p <= 1.0
    ensures remaining > 0 ==> Symbols(remaining, s, p)[0] == s
    ensures forall k :: 0 <= k < remaining - 1 ==>
      Symbols(remaining, s, p)[k] <= Symbols(remaining, s, p)[k + 1]
        <= Symbols(remaining, s, p)[k] + 1
    decreases remaining
  {
    if remaining > 0 {
      var n := Step(remaining, p);
      var r := Symbols(remaining, s, p);
      var rest := Symbols(remaining - n, s + 1, p);
      assert r == seq(n, _ => s) + rest;
      SymbolsClimb(remaining - n, s + 1, p);
      forall k | 0 <= k < remaining - 1
        ensures r[k] <= r[k + 1] <= r[k] + 1
      {
        if k + 1 < n {
        } else if k + 1 == n {
          assert r[k + 1] == rest[0];
        } else {
          assert r[k] == rest[k - n] && r[k + 1] == rest[k - n + 1];
        }
      }
    }
  }

  /** The first ⌊2048·p⌋ slots (at least one) hold symbol 0. */
  lemma FirstRunIsZero(p: real)
    requires 0.0 <= p <= 1.0
    ensures forall k :: 0 <= k < Step(PROBATABLESIZE, p) ==>
      Symbols(PROBATABLESIZE, 0, p)[k] == 0
  {
    var n := Step(PROBATABLESIZE, p);
    assert Symbols(PROBATABLESIZE, 0, p)
        == seq(n, _ => 0) + Symbols(PROBATABLESIZE - n, 1, p);
  }

  /** `(char)s`: the byte stored for symbol counter s. */
  function SymbolByte(s: nat): (b: uint8)
    ensures s < ALPHABET ==> b == s
  {
    s % ALPHABET
  }

  /** The table as built for probability p (already clamped). */
  function Table(p: real): (t: seq<uint8>)
    requires 0.0 <= p <= 1.0
    ensures |t| == PROBATABLESIZE
  {
    var syms := Symbols(PROBATABLESIZE, 0, p);
    seq(PROBATABLESIZE, k requires 0 <= k < PROBATABLESIZE => SymbolByte(syms[k]))
  }

  /** With p = 1 the first step fills every slot with symbol 0. */
  lemma FullProbabilityTable()
    ensures forall k :: 0 <= k < PROBATABLESIZE ==> Table(1.0)[k] == 0
  {
    assert Symbols(PROBATABLESIZE, 0, 1.0)
        == seq(PROBATABLESIZE, _ => 0) + Symbols(0, 1, 1.0);
  }

  /** The build loop: it writes `Step(remaining, p)` copies of each symbol
      until no slot remains. */
  method BuildTable(p: real) returns (table: array<uint8>)
    requires 0.0 <= p <= 1.0
    ensures fresh(table)
    ensures table[..] == Table(p)
  {
    table := new uint8[PROBATABLESIZE];
    ghost var all := Symbols(PROBATABLESIZE, 0, p);
    var remaining: nat := PROBATABLESIZE;
    var pos: nat := 0;
    var s: nat := 0;
    while remaining != 0
      invariant pos + remaining == PROBATABLESIZE
      invariant all[pos..] == Symbols(remaining, s, p)
      invariant forall k :: 0 <= k < pos ==> table[k] == SymbolByte(all[k])
      decreases remaining
    {
      var n := Step(remaining, p);
      ghost var start := pos;
      assert all[start..] == seq(n, _ => s) + Symbols(remaining - n, s + 1, p);
      pos := WriteRun(table, pos, n, s);
      forall k | start <= k < pos
        ensures table[k] == SymbolByte(all[k])
      {
        assert all[k] == all[start..][k - start];
      }
      s := s + 1;
      remaining := remaining - n;
      assert all[pos..] == all[start..][n..];
    }
  }

  /** `while (pos<end) table[pos++]=(char)s;` */
  method WriteRun(table: array<uint8>, pos: nat, n: nat, s: nat) returns (end: nat)
    requires pos + n <= table.Length
    modifies table
    ensures end == pos + n
    ensures forall k :: 0 <= k < table.Length ==>
      table[k] == if pos <= k < end then SymbolByte(s) else old(table[k])
  {
    end := pos + n;
    var i := pos;
    while i < end
      invariant pos <= i <= end
      invariant forall k :: 0 <= k < table.Length ==>
        table[k] == if pos <= k < i then SymbolByte(s) else old(table[k])
    {
      table[i] := SymbolByte(s);
      i := i + 1;
    }
  }

  // ---------------------------------------------------------------------
  // BMK_genData: the fill
  // ---------------------------------------------------------------------

  /** The generator's state after `k` calls, starting from `seed`. */
  function SeedAfter(seed: u32, k: nat): u32
    decreases k
  {
    if k == 0 then seed else NextSeed(SeedAfter(seed, k - 1))
  }

  /** The `len` bytes drawn from `table` by a generator in state `seed`:
      byte k is the slot chosen by the (k + 1)-th call. */
  function Draw(table: seq<uint8>, seed: u32, len: nat): (r: seq<uint8>)
    requires |table| == PROBATABLESIZE
    ensures |r| == len
    ensures forall k :: 0 <= k < len ==> r[k] in table
  {
    seq(len, k requires 0 <= k < len => table[Slot(SeedAfter(seed, k))])
  }

  /** What BMK_genData writes into a buffer of `len` bytes. */
  function Generated(p: real, len: nat): (r: seq<uint8>)
    ensures |r| == len
  {
    Draw(Table(ClampP(p)), 1, len)
  }

  /** For p >= 1 the generated buffer is all zero bytes, so every kernel
      counts `len` zeros on it. */
  lemma FullProbabilityData(p: real, len: nat)
    requires p >= 1.0
    ensures Generated(p, len) == seq(len, _ => 0)
    ensures Occ(Generated(p, len), 0) == len
  {
    FullProbabilityTable();
    assert Generated(p, len) == seq(len, _ => 0);
    UniformBuffer(seq(len, _ => 0), 0, 0);
  }

  /** BMK_genData: clamp p, build the table, then fill the first `buffSize`
      bytes of the buffer from it. */
  method GenData(buffer: array<uint8>, buffSize: nat, p: real)
    requires buffSize <= buffer.Length
    modifies buffer
    ensures buffer[..buffSize] == Generated(p, buffSize)
    ensures buffer[buffSize..] == old(buffer[buffSize..])
  {
    var q := ClampP(p);
    var table := BuildTable(q);
    Fill(buffer, buffSize, table);
  }

  /** The fill loop of BMK_genData: `*op++ = table[BMK_rand(&seed) & 2047]`
      from seed 1 until `buffSize` bytes are written. */
  method Fill(buffer: array<uint8>, buffSize: nat, table: array<uint8>)
    requires buffSize <= buffer.Length && table.Length == PROBATABLESIZE && table != buffer
    modifies buffer
    ensures buffer[..buffSize] == Draw(table[..], 1, buffSize)
    ensures buffer[buffSize..] == old(buffer[buffSize..])
  {
    ghost var want := Draw(table[..], 1, buffSize);
    var seed: u32 := 1;
    var op := 0;
    while op < buffSize
      invariant op <= buffSize
      invariant seed == SeedAfter(1, op)
      invariant forall k :: 0 <= k < op ==> buffer[k] == want[k]
      invariant forall k :: buffSize <= k < buffer.Length ==> buffer[k] == old(buffer[k])
    {
      var r := Slot(seed);
      assert want[op] == table[r];
      buffer[op] := table[r];
      seed := NextSeed(seed);
      op := op + 1;
    }
    assert buffer[..buffSize] == want;
  }
}
