// The benchmark driver: the table from algorithm numbers to kernels, the
// number of bytes each kernel reads from its input, and fullSpeedBench, which
// generates a 64 KiB input and runs the selected kernel on it repeatedly.

module Bench {
  import opened ByteCounts
  import opened Lanes
  import opened CountTables
  import Trivial
  import LaneKernels
  import Pipelined
  import DataGen

  datatype Option<T> = None | Some(value: T)

  /** The counting functions the driver can call. */
  datatype Kernel =
    | TrivialCount | Count2x64 | CountVec | StorePort7 | ReloadPort7
    | Count8Reload | VecAvx | Hist4x128 | Hist8x128 | Hist4x32 | Hist4x64
    | Hist8x64 | Port7Vec

  /** A row of the driver's switch: the label it displays and the function it
      calls. */
  datatype Entry = Entry(name: string, kernel: Kernel)

  /** The C identifier of each kernel. */
  function KernelName(k: Kernel): string {
    match k
    case TrivialCount => "trivialCount"
    case Count2x64 => "count2x64"
    case CountVec => "count_vec"
    case StorePort7 => "storePort7"
    case ReloadPort7 => "reloadPort7"
    case Count8Reload => "count8reload"
    case VecAvx => "vecavx"
    case Hist4x128 => "hist_4_128"
    case Hist8x128 => "hist_8_128"
    case Hist4x32 => "hist_4_32"
    case Hist4x64 => "hist_4_64"
    case Hist8x64 => "hist_8_64"
    case Port7Vec => "port7vec"
  }

  /** The algorithm numbers the switch accepts; 20 exists only in an AVX2
      build. */
  function KnownIds(avx2: bool): set<nat> {
    {1, 2, 3, 4, 5, 6, 7, 10, 11, 12, 13} + (if avx2 then {20} else {})
  }

  /** fullSpeedBench's switch: the accepted numbers, and which one selects
      the vecavx kernel. */
  function Lookup(algNb: nat, avx2: bool): (r: Option<Entry>)
    ensures r.Some? <==> algNb in KnownIds(avx2)
    ensures r.Some? ==> (r.value.kernel == VecAvx <==> algNb == 7)
  {
    match algNb
    case 1 => Some(Entry("trivialCount", TrivialCount))
    case 2 => Some(Entry("count2x64", Count2x64))
    case 3 => Some(Entry("count_vec", CountVec))
    case 4 => Some(Entry("storePort7", StorePort7))
    case 5 => Some(Entry("reloadPort7", StorePort7))
    case 6 => Some(Entry("count8reload", Count8Reload))
    case 7 => Some(Entry("vecavx", VecAvx))
    case 10 => Some(Entry("hist_4_128", Hist4x128))
    case 11 => Some(Entry("hist_8_128", Hist8x128))
    case 12 => Some(Entry("hist_4_32", Hist4x32))
    case 13 => Some(Entry("hist_4_64", Hist4x64))
    case 20 => if avx2 then Some(Entry("port7vec", Port7Vec)) else None
    case _ => None
  }

  /** Every accepted number is displayed under the name of the function it
      calls, except 5, which is labelled reloadPort7 but calls storePort7. */
  lemma LabelsMatchKernels(algNb: nat, avx2: bool)
    requires Lookup(algNb, avx2).Some?
    ensures Lookup(algNb, avx2).value.name == KernelName(Lookup(algNb, avx2).value.kernel)
        <==> algNb != 5
  {
  }

  /** Because of the mislabelled entry, reloadPort7 is never run, and
      hist_8_64 has no number at all. */
  lemma UnreachableKernels(algNb: nat, avx2: bool)
    ensures Lookup(algNb, avx2).Some? ==>
      Lookup(algNb, avx2).value.kernel != ReloadPort7
      && Lookup(algNb, avx2).value.kernel != Hist8x64
  {
  }

  /** The numbers main runs when no algorithm is chosen, in order; 7 only in
      a TESTING build and 20 only in an AVX2 build. */
  function SweepIds(testing: bool, avx2: bool): (ids: seq<nat>)
    ensures forall i :: 0 <= i < |ids| ==> ids[i] in KnownIds(avx2)
    ensures testing <==> 7 in ids
  {
    [1, 2, 3, 4, 5, 6] + (if testing then [7] else []) + [10, 11, 12, 13]
      + (if avx2 then [20] else [])
  }

  /** Look-ahead: how many bytes from the start of `src` a kernel reads for
      an input of `n` bytes. count_vec, count2x64 and the hist kernels load
      the block after the last aligned one before testing for the end. */
  function ReadExtent(k: Kernel, n: nat): (e: nat)
    requires k != VecAvx
    ensures n <= e <= n + BLOCK
  {
    match k
    case CountVec => AlignDown16(n) + BLOCK
    case Count2x64 => AlignDown16(n) + BLOCK
    case Hist4x128 => AlignDown16(n) + BLOCK
    case Hist8x128 => AlignDown16(n) + BLOCK
    case Hist4x32 => Max(n, AlignDown16(n) + 4)
    case Hist4x64 => Max(n, AlignDown16(n) + 8)
    case Hist8x64 => Max(n, AlignDown16(n) + 8)
    case _ => n
  }

  function Max(a: nat, b: nat): nat {
    if a < b then b else a
  }

  /** The smallest input a kernel handles: count2x64 skips its memset below
      32 bytes and port7vec's pointer arithmetic wraps below 72. */
  function MinSize(k: Kernel): nat
  {
    match k
    case Count2x64 => 32
    case Port7Vec => 72
    case _ => 0
  }

  /** Runs one kernel; every one of them returns the number of zero bytes. */
  method RunKernel(k: Kernel, st: Statics, src: array<uint8>, n: nat) returns (r: nat)
    requires k != VecAvx && st.Valid()
    requires MinSize(k) <= n <= src.Length && ReadExtent(k, n) <= src.Length
    modifies st.countVec, st.port7Vec, st.count8Reload, st.gCount
    ensures r == Occ(src[..n], 0)
  {
    match k
    case TrivialCount => { var counts; r, counts := Trivial.TrivialCount(src, n); }
    case Count2x64 => { var h; r, h := LaneKernels.Count2x64(src, n); }
    case CountVec => r := LaneKernels.CountVec(st, src, n);
    case StorePort7 => r := Pipelined.StorePort7(st, src, n);
    case ReloadPort7 => r := Pipelined.ReloadPort7(st, src, n);
    case Count8Reload => r := Pipelined.Count8Reload(st, src, n);
    case Hist4x128 => { var h; r, h := LaneKernels.Hist4x128(src, n); }
    case Hist8x128 => { var h; r, h := LaneKernels.Hist8x128(src, n); }
    case Hist4x32 => { var h; r, h := LaneKernels.Hist4x32(src, n); }
    case Hist4x64 => { var h; r, h := LaneKernels.Hist4x64(src, n); }
    case Hist8x64 => { var h; r, h := LaneKernels.Hist8x64(src, n); }
    case Port7Vec => r := Pipelined.Port7Vec(st, src, n);
  }

  /** DEFAULT_BLOCKSIZE: 64 KiB. */
  const BENCHED_SIZE: nat := 0x1_0000
  const ITERATIONS: nat := 10000

  /** The driver's allocation as written: exactly the benched size. */
  function AllocationAsWritten(size: nat): nat {
    size
  }

  /** At the benched size the look-ahead of count_vec passes the end of the
      allocation as written by a whole block. */
  lemma OverReadAsWritten()
    ensures ReadExtent(CountVec, BENCHED_SIZE) == AllocationAsWritten(BENCHED_SIZE) + BLOCK
    ensures ReadExtent(Count2x64, BENCHED_SIZE) > AllocationAsWritten(BENCHED_SIZE)
    ensures ReadExtent(Hist4x32, BENCHED_SIZE) > AllocationAsWritten(BENCHED_SIZE)
  {
  }

  /** The allocation with one block of slack after the benched bytes, which
      covers the look-ahead of every modelled kernel. */
  function Allocation(size: nat): (a: nat)
    ensures forall k :: k != VecAvx ==> ReadExtent(k, size) <= a
    ensures a == size + BLOCK
  {
    size + BLOCK
  }

  /** What fullSpeedBench ends with. */
  datatype Outcome =
    | UnknownAlgorithm                                  // exit(-1)
    | Completed(name: string, errorCode: nat)           // the final report

  /** fullSpeedBench: generate the input, select the kernel, and run it
      ITERATIONS times in each of `nbBenchs` rounds. Every run zeroes its
      tables first, so every run returns the same count; the report shows the
      last one. */
  method FullSpeedBench(st: Statics, proba: real, nbBenchs: nat, algNb: nat, avx2: bool)
    returns (outcome: Outcome)
    requires st.Valid() && algNb != 7
    modifies st.countVec, st.port7Vec, st.count8Reload, st.gCount
    ensures outcome == UnknownAlgorithm <==> Lookup(algNb, avx2).None?
    ensures outcome.Completed? ==> outcome.name == Lookup(algNb, avx2).value.name
    ensures outcome.Completed? ==>
      outcome.errorCode == if nbBenchs == 0 then 0 else Occ(DataGen.Generated(proba, BENCHED_SIZE), 0)
  {
    var benchedSize := BENCHED_SIZE;
    var buffer := new uint8[Allocation(benchedSize)];
    DataGen.GenData(buffer, benchedSize, proba);
    ghost var data := buffer[..benchedSize];
    assert data == DataGen.Generated(proba, BENCHED_SIZE);
    var entry := Lookup(algNb, avx2);
    if entry.None? {
      return UnknownAlgorithm;
    }
    var k := entry.value.kernel;
    var errorCode: nat := 0;
    var benchNb := 1;
    while benchNb <= nbBenchs
      invariant 1 <= benchNb <= nbBenchs + 1
      invariant buffer[..benchedSize] == data
      invariant errorCode == if benchNb == 1 then 0 else Occ(data, 0)
    {
      errorCode := TimedRound(k, st, buffer, benchedSize);
      benchNb := benchNb + 1;
    }
    assert errorCode == if nbBenchs == 0 then 0 else Occ(data, 0);
    return Completed(entry.value.name, errorCode);
  }

  /** One round of the benchmark: ITERATIONS runs of the kernel on the same
      input, keeping the last result. */
  method TimedRound(k: Kernel, st: Statics, src: array<uint8>, n: nat) returns (errorCode: nat)
    requires k != VecAvx && st.Valid()
    requires MinSize(k) <= n <= src.Length && ReadExtent(k, n) <= src.Length
    modifies st.countVec, st.port7Vec, st.count8Reload, st.gCount
    ensures errorCode == Occ(src[..n], 0)
  {
    errorCode := RunKernel(k, st, src, n);
    var loopNb := 1;
    while loopNb < ITERATIONS
      invariant errorCode == Occ(src[..n], 0)
    {
      errorCode := RunKernel(k, st, src, n);
      loopNb := loopNb + 1;
    }
  }
}
