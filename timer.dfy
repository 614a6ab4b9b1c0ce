// The benchmark's millisecond clock: a sample is the wall-clock time reduced
// to a 2^20-second window and expressed in milliseconds, and the span between
// two samples undoes one wrap of that window.

module Timer {
  import opened ByteCounts

  /** Samples cycle through [0, STAMP_RANGE): 0x100000 seconds of 1000 ms. */
  const STAMP_RANGE: nat := 0x10_0000 * 1000

  /** BMK_GetMilliStart on a clock reading of `time` seconds (whose low 20
      bits `time & 0xFFFFF` are kept; on a two's complement value that is the
      remainder modulo 2^20, also for a negative time) and `millitm`
      milliseconds. The sample is the reading's millisecond count modulo the
      window. */
  function MilliStart(time: int, millitm: nat): (r: u32)
    requires millitm < 1000
    ensures r < STAMP_RANGE
    ensures r == (time * 1000 + millitm) % STAMP_RANGE
  {
    (time % 0x10_0000) * 1000 + millitm
  }

  /** BMK_GetMilliSpan's arithmetic on a start sample and the current sample:
      the 32-bit difference, plus one window when the clock has wrapped. For
      two samples it is their distance modulo the window. */
  function MilliSpan(start: u32, current: u32): (r: u32)
    ensures start < STAMP_RANGE && current < STAMP_RANGE ==>
      r == (current - start) % STAMP_RANGE
    ensures start < STAMP_RANGE && current < STAMP_RANGE ==> r < STAMP_RANGE
  {
    var span := (current - start) % WORD;
    if start > current then
      assert span == current - start + WORD;
      var r := (span + STAMP_RANGE) % WORD;
      assert start < STAMP_RANGE ==> r == current - start + STAMP_RANGE;
      r
    else
      assert span == current - start;
      span
  }

  /** The span between two readings taken less than one window apart is the
      exact number of elapsed milliseconds, even across a wrap. */
  lemma {:induction false} SpanIsElapsed(t0: int, ms0: nat, t1: int, ms1: nat)
    requires ms0 < 1000 && ms1 < 1000
    requires t0 * 1000 + ms0 <= t1 * 1000 + ms1 < t0 * 1000 + ms0 + STAMP_RANGE
    ensures MilliSpan(MilliStart(t0, ms0), MilliStart(t1, ms1))
         == (t1 * 1000 + ms1) - (t0 * 1000 + ms0)
  {
    var a := t0 * 1000 + ms0;
    var b := t1 * 1000 + ms1;
    var sa: int := MilliStart(t0, ms0);
    var sb: int := MilliStart(t1, ms1);
    var k := b / STAMP_RANGE - a / STAMP_RANGE;
    assert sb - sa == (b - a) - k * STAMP_RANGE;
    ShiftedRemainder(b - a, k);
  }

  /** Adding whole windows does not change a remainder modulo the window. */
  lemma ShiftedRemainder(d: nat, k: int)
    requires d < STAMP_RANGE
    ensures (d - k * STAMP_RANGE) % STAMP_RANGE == d
  {
    var x := d - k * STAMP_RANGE;
    assert x == -k * STAMP_RANGE + d;
  }
}
