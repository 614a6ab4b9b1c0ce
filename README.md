# countbench, modelled in Dafny

countbench measures how fast a byte histogram can be computed. Every
kernel counts how often each of the 256 byte values occurs in a buffer and
returns the count for byte 0. The multi-table kernels split the input over
several count tables to break store-to-load dependencies, then sum the tables.

This project models:

- the kernels `trivialCount`, `count_vec`, `count2x64`, `storePort7`,
  `reloadPort7`, `count8reload`, `port7vec` and the five `hist_*` kernels;
- the 16-row reduction that ends the multi-table kernels;
- the data generator (`BMK_rand`, `BMK_genData`);
- the millisecond clock arithmetic (`BMK_GetMilliStart`, `BMK_GetMilliSpan`);
- the driver `fullSpeedBench`, with its switch from algorithm numbers to
  kernels and the sweep `main` runs.

The central result is that every kernel computes the histogram. Each
multi-table kernel is a method over an `array<uint8>` and an `array2<nat>`
of count tables. `count_vec` and the four pipelined kernels keep
16 × COUNT_SIZE counters in static storage. Their contracts say that
afterwards row 0 holds the histogram of the input and every other counter
holds what the kernel's lane layout puts there. `count2x64` keeps its 16
tables in a local array, and the `hist_*` kernels keep 4 or 8 local tables
that they sum into a separate `bin` array. Their contracts speak of the
histogram they return.

A layout (`Lanes.Layout`) records two things: which table each of the 16 byte
lanes of an aligned block goes to, and how long the loop-covered prefix is.
Bytes past that prefix go to table 0. `Lanes.Tally` is the value of one counter
after a prefix has been counted. `Lanes.TalliesPartition` proves that the
tables of any layout together hold the histogram. `CountTables.Reduce` then
proves that the reduction moves that sum into row 0.

Modules, one file each:

| file | module | contents |
|---|---|---|
| byte_counts.dfy | `ByteCounts` | `Occ` and `Histogram`, the reference result; the `uint8` and `u32` machine types |
| lanes.dfy | `Lanes` | lane maps, layouts, `Tally`, the partition lemma |
| count_tables.dfy | `CountTables` | the 16-row tables: memset, increments, scalar tail, reduction, static storage |
| trivial.dfy | `Trivial` | `trivialCount` |
| lane_kernels.dfy | `LaneKernels` | `count_vec`, `count2x64`, `hist_*` |
| pipelined.dfy | `Pipelined` | `storePort7`, `reloadPort7`, `count8reload`, `port7vec` |
| data_gen.dfy | `DataGen` | `BMK_rand`, `BMK_genData` |
| timer.dfy | `Timer` | `BMK_GetMilliStart`, `BMK_GetMilliSpan` arithmetic |
| bench.dfy | `Bench` | the algorithm switch, the sweep, `fullSpeedBench` |

SIMD registers are modelled as sequences of the bytes they hold, lane `j`
being byte `j` (little-endian). Each loaded word is a slice of the input, so
a read past the allocation is a failed bounds check. Each kernel therefore
states how far it reads ahead, as a `requires` on `src.Length`.

The function-local `static U32 count[16][COUNT_SIZE]` tables and the global
`g_count` are the fields of the class `CountTables.Statics`. Each kernel that
uses one names only that table in its `modifies` clause.

Short inputs get no special treatment beyond what the code does:

- One might expect a buffer under 32 bytes to fall back entirely to the
  scalar path. `count_vec` and the `hist_*` kernels have no such branch: they
  run their block loop over `srcSize & ~15` bytes for every length.
- `count2x64` below 32 bytes jumps over its `memset` (see "## Left out").

## Model

| member | source | states |
|---|---|---|
| ByteCounts.OccIsMultiplicity | countbench.c:229-250 | the per-value count used as the reference is the multiplicity of the value in the input's multiset |
| ByteCounts.HistogramTotal | countbench.c:229-250 | the 256 counters of a histogram add up to the buffer length: every byte is counted exactly once |
| ByteCounts.UniformBuffer | countbench.c:229-250 | a buffer filled with one value v has all its bytes in counter v and none in any other counter |
| Trivial.TrivialCount | countbench.c:229-250 | after one pass with `count[*src++]++` over a zeroed table, the table is the histogram: counter v is the number of occurrences of v in src[0..n), and the result is the counter for 0 |
| Trivial.TrivialIsMultiset | countbench.c:229-250 | trivialCount's table is the multiset of the input, and its counters sum to n |
| Lanes.TableOf | countbench.c:1112-1130 | the table a lane is counted in exists: it is below the number of tables of the lane map |
| Lanes.PairedLaneInverse | countbench.c:1112-1130 | under count2x64's lane map each of the 16 tables receives exactly one lane of each block (lane j<8 to table 2j, lane 8+j to table 2j+1) |
| Lanes.Owner | countbench.c:339-343 | every byte at or past the loop-covered prefix is counted in table 0 |
| Lanes.TalliesPartition | countbench.c:345-350 | whatever the lane layout, the sum over all tables of counter v equals the occurrences of v in the counted prefix |
| Lanes.PairedBlock | countbench.c:1144-1173 | counting one aligned block table by table, as count2x64 does, adds to each table exactly the byte of its lane |
| Lanes.AlignDown16 | countbench.c:277-278 | `srcSize - srcSize % 16` is the largest multiple of 16 not above srcSize |
| CountTables.Zero | countbench.c:276 | memset leaves every counter of every table at zero |
| CountTables.ZeroHolds | countbench.c:276 | zeroed tables are the tallies of the empty prefix |
| CountTables.Reduce | countbench.c:345-350 | for every i < 256, count[0][i] becomes the sum of column i over the 16 rows, and nothing else changes |
| CountTables.TalliesSumToHistogram | countbench.c:345-350 | when every table holds its tally, column v sums to the histogram entry for v |
| CountTables.ReduceTables | countbench.c:345-350 | after the reduction, row 0 holds the histogram and every other counter still holds its tally |
| CountTables.SumRows | countbench.c:1227-1228 | `bin[i] = c0[i]+c1[i]+...` leaves the histogram of the input in bin[0..256) |
| CountTables.Bump | countbench.c:256-264 | one increment counts the next byte in the table that owns its position |
| CountTables.CountBytes | countbench.c:289-335 | extracting consecutive lanes of a loaded vector into their tables counts those bytes |
| CountTables.CountTail | countbench.c:339-343 | the scalar remainder loop counts the bytes from the end of the loop-covered prefix to srcSize in table 0 |
| CountTables.Statics.constructor | countbench.c:275 | the static tables start zeroed, are 16 × COUNT_SIZE, and are four distinct objects |
| LaneKernels.CountVec | countbench.c:273-353 | count_vec leaves the histogram in row 0 of its static tables, lane j of each aligned block in table j, and returns the count of byte 0; it needs 16 readable bytes past the aligned size |
| LaneKernels.CountVecBlocks | countbench.c:279-337 | the vector loop, loading one block ahead, counts exactly the aligned prefix |
| LaneKernels.ShiftRight16 | countbench.c:1159-1161 | shifting a 64-bit word right by 16 drops its two low bytes and moves the rest down |
| LaneKernels.BumpPaired | countbench.c:1115-1120 | one `incl` of ASM_INC_TABLES counts the byte of a table's lane, so the block's first t+1 tables have been counted |
| LaneKernels.IncTables | countbench.c:1112-1130 | one ASM_INC_TABLES counts bytes 0 and 1 of each of the two words into their paired tables |
| LaneKernels.CountPairedBlock | countbench.c:1150-1172 | the four ASM_INC_TABLES steps of one iteration count the whole 16-byte block |
| LaneKernels.Count2x64 | countbench.c:1132-1188 | for inputs of at least 32 bytes, count2x64 returns the full histogram and the count of byte 0 |
| LaneKernels.Count2x64Blocks | countbench.c:1143-1173 | the loop, loading the next two words before counting the current ones, counts exactly the aligned prefix |
| LaneKernels.HistCount | countbench.c:1193-1370 | a hist_T_B kernel returns the full histogram and bin[0], for every input length; it needs W readable bytes past the aligned size |
| LaneKernels.HistBlock | countbench.c:1201-1225 | one iteration counts the 16 / W words of a block, each while the next word is preloaded |
| LaneKernels.Hist4x32 | countbench.c:1193-1232 | hist_4_32 computes the histogram and bin[0] |
| LaneKernels.Hist4x64 | countbench.c:1234-1267 | hist_4_64 computes the histogram and bin[0] |
| LaneKernels.Hist8x64 | countbench.c:1269-1302 | hist_8_64 computes the histogram and bin[0] |
| LaneKernels.Hist4x128 | countbench.c:1305-1337 | hist_4_128 computes the histogram and bin[0] |
| LaneKernels.Hist8x128 | countbench.c:1339-1370 | hist_8_128 computes the histogram and bin[0] |
| Pipelined.StoreLimit | countbench.c:808-813 | after the 4-byte preload and the cut of (len % 16) + 16, the loop covers a 16-aligned prefix that leaves 20 to 35 bytes for the tail, or nothing below 32 bytes |
| Pipelined.StoreLimitUnique | countbench.c:808-862 | that prefix is the only 16-aligned one with this property |
| Pipelined.ReloadLimit | countbench.c:940-945 | with an 8-byte preload the loop leaves 24 to 39 bytes for the tail |
| Pipelined.ReloadLimitUnique | countbench.c:940-980 | that prefix is the only 16-aligned one with this property |
| Pipelined.Port7Limit | countbench.c:427-434 | port7vec's loop covers a 32-aligned prefix leaving 72 to 103 bytes |
| Pipelined.Port7LimitUnique | countbench.c:427-544 | that prefix is the only 32-aligned one with this property |
| Pipelined.StorePort7 | countbench.c:794-878 | storePort7 leaves the histogram in row 0 of g_count and returns the count of byte 0, for every length |
| Pipelined.StoreLoop | countbench.c:801-862 | the unrolled loop counts exactly the prefix StoreLimit(n); after the 4-byte rewind the cursor is at StoreLimit(n) and cursor + remainder == n, so the tail counts exactly the rest |
| Pipelined.StoreBlock | countbench.c:817-857 | one iteration counts 16 bytes while the next 4 are preloaded |
| Pipelined.IncReload | countbench.c:949-974 | counting 4 register-held bytes while reloading the next 4 |
| Pipelined.ReloadCount | countbench.c:923-996 | the reload kernel leaves the histogram in row 0 and returns the count of byte 0 |
| Pipelined.ReloadLoop | countbench.c:930-980 | the loop counts exactly the prefix ReloadLimit(n); after the 8-byte rewind the cursor is at ReloadLimit(n) and cursor + remainder == n |
| Pipelined.ReloadBlock | countbench.c:949-974 | one iteration counts 16 bytes while the next 8 are reloaded |
| Pipelined.ReloadPort7 | countbench.c:923-996 | reloadPort7 computes the histogram in g_count |
| Pipelined.Count8Reload | countbench.c:1028-1103 | count8reload computes the histogram in its own static table |
| Pipelined.Scale | countbench.c:437-438 | zero-extending to 16 bits and shifting left by 2 gives each byte's counter offset, from which the byte is recovered |
| Pipelined.StoreWords | countbench.c:439 | a 256-bit store writes 16 words into the staging buffer and leaves the rest of it unchanged |
| Pipelined.Port7Vec | countbench.c:395-567 | port7vec, for inputs of at least 72 bytes, leaves the histogram in row 0 and returns the count of byte 0 |
| Pipelined.Port7Loop | countbench.c:416-544 | the staging-buffer loop counts exactly the prefix Port7Limit(n); after `remainder += 8; endSrc -= 8` the tail starts at Port7Limit(n) and endSrc + remainder == n |
| Pipelined.Port7Count | countbench.c:452-541 | a quarter of the loop body counts 16 staged bytes through the eight index registers, reloading them from the buffer, and loads the next raw vector |
| Pipelined.Port7Prime | countbench.c:416-447 | before the loop the registers hold the scaled bytes 0..8, the buffer the scaled bytes 8..40, vec0 the bytes 40..56 |
| Pipelined.Port7Step | countbench.c:452-541 | one iteration counts 32 bytes and keeps registers, staging buffer and vector 32 bytes ahead |
| Pipelined.Port7Half | countbench.c:452-541 | half an iteration counts 16 bytes through the index registers and refills the buffer half it drained |
| Pipelined.IncReloadScaled | countbench.c:452-541 | counting 8 scaled indices while reloading the next 8 from the staging buffer |
| DataGen.NextSeed | countbench.c:186 | the 32-bit state update; both constants are odd, so the low bit of the state alternates from step to step |
| DataGen.RandOutput | countbench.c:187 | `seed >> 11` is below 2^21 and is the seed's 2048-wide bucket |
| DataGen.PrevNextSeed | countbench.c:184-188 | the 32-bit step `seed * PRIME1 + PRIME2` is injective: the inverse step recovers the seed |
| DataGen.NextPrevSeed | countbench.c:184-188 | the step is onto: every 32-bit state has a predecessor |
| DataGen.Slot | countbench.c:224 | `BMK_rand(&seed) & 2047` is a valid table index |
| DataGen.ClampP | countbench.c:201-202 | p below 0.01 becomes exactly 0.005, p in [0.01, 1] is unchanged, and p >= 1 becomes 1 |
| DataGen.Step | countbench.c:212-214 | each symbol gets between 1 and `remaining` slots, and all of them when p = 1 |
| DataGen.StepMonotone | countbench.c:212-214 | `(unsigned)(remaining * p)`, at least 1, never grows when fewer slots remain |
| DataGen.NextRunNoLonger | countbench.c:210-219 | the build loop writes a run of symbol s and then a run of s + 1 that is no longer, so each later byte gets at most as many table slots (and so as much probability) as the one before |
| DataGen.Symbols | countbench.c:210-219 | the build loop fills exactly the 2048 slots, with symbols between s and s + remaining |
| DataGen.SymbolsClimb | countbench.c:210-219 | the table starts with symbol 0, and along the table the symbol never decreases and never skips a value |
| DataGen.FirstRunIsZero | countbench.c:210-219 | the first max(1, floor(2048·p)) slots hold symbol 0 |
| DataGen.SymbolByte | countbench.c:216 | `(char)s` stores symbols below 256 unchanged |
| DataGen.FullProbabilityTable | countbench.c:210-219 | with p = 1 every slot holds symbol 0 |
| DataGen.BuildTable | countbench.c:209-219 | the build loop produces exactly the table `Table(p)` |
| DataGen.WriteRun | countbench.c:215-216 | `while (pos<end) table[pos++]=(char)s` writes n copies of the symbol and nothing else |
| DataGen.Draw | countbench.c:221-226 | the bytes drawn all come from the table |
| DataGen.FullProbabilityData | countbench.c:190-227 | for p >= 1 the generated data is all zeros, so every kernel must report buffSize |
| DataGen.Fill | countbench.c:221-226 | the fill loop writes byte k as the table slot chosen by the (k+1)-th step from seed 1, and nothing past buffSize |
| DataGen.GenData | countbench.c:190-227 | BMK_genData writes `Generated(p, buffSize)` into the buffer and leaves the rest unchanged |
| Timer.MilliStart | countbench.c:164-171 | a sample is the reading's millisecond count modulo 0x100000 × 1000 |
| Timer.MilliSpan | countbench.c:173-180 | for two samples, the span is their distance modulo the window, and so below it |
| Timer.SpanIsElapsed | countbench.c:164-180 | for readings less than one window apart, the span is the exact elapsed milliseconds, including across a wrap |
| Bench.Lookup | countbench.c:1383-1451 | the switch accepts exactly 1-7 and 10-13, and 20 in AVX2 builds; only 7 selects vecavx |
| Bench.LabelsMatchKernels | countbench.c:1383-1451 | every accepted number is labelled with the name of the function it calls, except 5, labelled reloadPort7 but calling storePort7 |
| Bench.UnreachableKernels | countbench.c:1383-1451 | no number runs reloadPort7 or hist_8_64 |
| Bench.SweepIds | countbench.c:1599-1618 | the sweep `main` runs uses only accepted numbers, and includes 7 exactly in a TESTING build |
| Bench.ReadExtent | countbench.c:273-1370 | each kernel reads at most 16 bytes past the n bytes it counts |
| Bench.RunKernel | countbench.c:1475 | every modelled kernel returns the number of zero bytes in the input |
| Bench.TimedRound | countbench.c:1473-1478 | after ITERATIONS runs on the same input, errorCode is the count of zero bytes |
| Bench.OverReadAsWritten | countbench.c:1375-1376 | with the 64 KiB allocation as written, count_vec reads 16 bytes past it, and count2x64 and hist_4_32 also read past it |
| Bench.Allocation | countbench.c:1375-1376 | one extra block of allocation covers the read-ahead of every modelled kernel |
| Bench.FullSpeedBench | countbench.c:1373-1494 | with the corrected allocation: unknown numbers end the run; otherwise the report carries the label from the switch and the zero count of the generated 64 KiB, or 0 when no round ran |

## Left out

- vecavx (algorithm 7): a 128-bit variant of port7vec with four 16-byte
  staging buffers. The switch accepts 7 in every build; only the sweep in
  `main` runs it in TESTING builds alone. vecavx is not part of this model.
  Bench.FullSpeedBench therefore requires `algNb != 7`.
- Bench.FullSpeedBench: allocates the benched size plus one block
  (`Bench.Allocation`), the corrected allocation from "## Findings". The
  source mallocs exactly 64 KiB, and with that allocation the kernels'
  look-ahead would read outside the buffer.
- Bench.FullSpeedBench: `ftime`, the busy-wait for a clock tick, the timing
  doubles, `bestTime` and every display call are left out. The clock is I/O;
  its arithmetic is modelled separately in `Timer`. The C function always
  returns 0 and calls `exit(-1)` for an unknown number. The model returns an
  `Outcome` instead, holding the label and the final `errorCode`.
- Bench.FullSpeedBench: `nbBenchs` is a `nat`. In the C code `benchNb` and
  `nbBenchs` are both `U32`, so `benchNb <= nbBenchs` never becomes false
  when `nbBenchs == 0xFFFFFFFF` and the loop never ends. The model's loop
  ends for every `nbBenchs`.
- Bench.FullSpeedBench: `if (errorCode < 0) exit(-1)` is not modelled as a
  branch. Every modelled kernel returns a count, which is never negative.
- `main`'s argument parsing, `usage`/`badusage`, the `pause` prompt and
  `likwid` markers are left out: they are command-line and I/O handling.
  Only the order of the sweep is modelled (`Bench.SweepIds`).
- DEBUG printing (`DEBUG_ACTIVE`, `DEBUG_PRINT`, `debug_should_print`) and the
  IACA markers have no effect on the counts, so they are left out.
- DataGen.Step: `(unsigned)(remaining * p)` is computed in double precision.
  The model uses exact reals and their floor, so a product that rounds across
  an integer in binary floating point may differ by one slot. A NaN p is not
  modelled.
- DataGen.GenData: the one-time "Generating ... KB" message and its `static
  done` flag are display only.
- Counters are `nat`, not `U32`. A wrap-around would take 2^32 occurrences of
  one byte value in one table, and inputs here are 64 KiB.
- LaneKernels.Count2x64: requires at least 32 bytes. Below that the C code
  jumps over its `memset`, so it counts into uninitialised stack memory and
  its result is undefined.
- Pipelined.Port7Vec: requires at least 72 bytes. Below that, `srcSize -=
  remainder` wraps around in `size_t` and the loop reads far outside the
  buffer.
- The SIMD instructions themselves (`_mm_extract_epi8`, `ASM_SHIFT_RIGHT`, the
  inline-asm increments) are modelled by the bytes they deliver. Their encoding,
  register allocation and prefetching are not modelled.

## Findings

| source | as written | input that shows it | evidently intended | confidence | as-written member | corrected member |
|---|---|---|---|---|---|---|
| countbench.c:1375-1376 | `malloc(benchedSize)` allocates exactly 64 KiB, but count_vec, count2x64 and the hist_* kernels load the word at the aligned size before testing for the end | the default 65536-byte run: count_vec's last load reads bytes 65536..65552 | an allocation with one block (16 bytes) of slack after the benched data | not executed | Bench.OverReadAsWritten | Bench.Allocation |
