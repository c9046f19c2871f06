/**
 * The C stream consumers. The hard real-time consumer refuses to run
 * while a fault is active and checks the latency bound before overrun, so
 * with a bound below the capacity every fall-behind is reported as
 * LATENCY_EXCEEDED. The best-effort consumer skips to two samples behind
 * the writer on overrun or when its lag passes a threshold, and never
 * touches the fault state.
 */
module ConsumerC {
  import opened Common
  import opened Samples
  import opened KeyingStreamC
  import opened FaultRs
  import opened FaultC

  datatype HardRtResult = HardRtOk | HardRtNoData | HardRtFault

  class HardRtConsumer {
    const stream: KeyingStream
    const fault: FaultC.FaultState
    var readIdx: u32
    const maxLag: u32

    /** hard_rt_consumer_init: a positive latency bound; start at the write position. */
    constructor Init(s: KeyingStream, f: FaultC.FaultState, maxLag: u32)
      requires maxLag > 0
      ensures stream == s && fault == f && this.maxLag == maxLag
      ensures readIdx == s.writeIdx
    {
      stream, fault, this.maxLag := s, f, maxLag;
      readIdx := s.writeIdx;
    }

    /**
     * hard_rt_consumer_tick: an active fault answers FAULT at once and
     * changes nothing; a lag above max_lag records LATENCY_EXCEEDED with the
     * lag; a lag of zero is NO_DATA; an overrun records OVERRUN; otherwise
     * the sample at the cursor is returned and the cursor advances by one.
     */
    method Tick(outIn: Sample) returns (r: HardRtResult, out: Sample)
      requires stream.Valid()
      modifies this, fault
      ensures fault.active == old(fault.active) || r == HardRtFault
      ensures old(fault.active) ==>
        r == HardRtFault && out == outIn && readIdx == old(readIdx) && unchanged(fault)
      ensures !old(fault.active) && stream.Lag(old(readIdx)) > maxLag ==>
        r == HardRtFault && out == outIn && readIdx == old(readIdx) &&
        fault.active && fault.code == CodeToU8(LatencyExceeded) && fault.data == stream.Lag(old(readIdx)) &&
        fault.count == WrapAdd(old(fault.count), 1)
      ensures !old(fault.active) && stream.Lag(old(readIdx)) == 0 ==>
        r == HardRtNoData && out == outIn && readIdx == old(readIdx) && unchanged(fault)
      ensures !old(fault.active) && 0 < stream.Lag(old(readIdx)) <= maxLag && stream.IsOverrun(old(readIdx)) ==>
        r == HardRtFault && out == outIn && readIdx == old(readIdx) &&
        fault.active && fault.code == CodeToU8(Overrun) && fault.data == stream.Lag(old(readIdx)) &&
        fault.count == WrapAdd(old(fault.count), 1)
      ensures !old(fault.active) && 0 < stream.Lag(old(readIdx)) <= maxLag && !stream.IsOverrun(old(readIdx)) ==>
        r == HardRtOk && out == At(stream.written, |stream.written| - stream.Lag(old(readIdx))) &&
        readIdx == WrapAdd(old(readIdx), 1) && unchanged(fault)
    {
      if fault.IsActive() {
        return HardRtFault, outIn;
      }
      var lag := stream.Lag(readIdx);
      if lag > maxLag {
        fault.Set(LatencyExceeded, lag);
        return HardRtFault, outIn;
      }
      if lag == 0 {
        return HardRtNoData, outIn;
      }
      if stream.IsOverrun(readIdx) {
        fault.Set(Overrun, lag);
        return HardRtFault, outIn;
      }
      var ok;
      ok, out := stream.Read(readIdx, outIn);
      if !ok {
        // Unreachable: a positive lag that is not an overrun always reads.
        assert false;
      }
      readIdx := WrapAdd(readIdx, 1);
      r := HardRtOk;
    }

    /** hard_rt_consumer_resync: jump to the write position. */
    method Resync()
      modifies this
      ensures readIdx == stream.writeIdx && Lag() == 0
    {
      readIdx := stream.writeIdx;
    }

    /** hard_rt_consumer_lag */
    function Lag(): (l: u32)
      reads this, stream
      ensures (readIdx + l) % U32 == stream.writeIdx
    {
      stream.Lag(readIdx)
    }
  }

  /**
   * Because the latency check comes first, a consumer whose bound is below
   * the capacity never records OVERRUN: every lag that overruns also
   * exceeds the bound.
   */
  lemma OverrunShadowedByLatency(st: KeyingStream, maxLag: u32, idx: u32)
    requires maxLag < st.capacity
    ensures st.IsOverrun(idx) ==> st.Lag(idx) > maxLag
  {
  }

  class BestEffortConsumer {
    const stream: KeyingStream
    var readIdx: u32
    var dropped: u32
    const skipThreshold: u32

    /** best_effort_consumer_init: start at the write position with nothing dropped. */
    constructor Init(s: KeyingStream, skipThreshold: u32)
      ensures stream == s && readIdx == s.writeIdx && dropped == 0 && this.skipThreshold == skipThreshold
    {
      stream, this.skipThreshold := s, skipThreshold;
      readIdx, dropped := s.writeIdx, 0;
    }

    /** Whether a tick at `idx` skips ahead: overrun, or a lag past a non-zero threshold. */
    predicate ShouldSkip(idx: u32)
      reads this, stream
    {
      stream.IsOverrun(idx) || (skipThreshold > 0 && stream.Lag(idx) > skipThreshold)
    }

    /** Where a skip lands: two samples behind the writer, or the writer itself while it is at 2 or below. */
    function SkipTarget(): (t: u32)
      reads this, stream
      ensures stream.writeIdx > 2 ==> stream.Lag(t) == 2
      ensures stream.writeIdx <= 2 ==> stream.Lag(t) == 0
    {
      if stream.writeIdx > 2 then stream.writeIdx - 2 else stream.writeIdx
    }

    /**
     * best_effort_consumer_tick: nothing when caught up. A skip adds the
     * (wrapping) distance skipped to `dropped` and lands on SkipTarget;
     * the read that follows returns the sample there and advances, except
     * in a one-slot stream, where the target is already overwritten: the
     * cursor then jumps to the writer and one more sample counts as dropped.
     */
    method Tick(outIn: Sample) returns (ok: bool, out: Sample)
      requires stream.Valid()
      modifies this
      ensures stream.Lag(old(readIdx)) == 0 ==>
        !ok && out == outIn && readIdx == old(readIdx) && dropped == old(dropped)
      ensures stream.Lag(old(readIdx)) != 0 && !ShouldSkip(old(readIdx)) ==>
        ok && out == At(stream.written, |stream.written| - stream.Lag(old(readIdx))) &&
        readIdx == WrapAdd(old(readIdx), 1) && dropped == old(dropped)
      ensures stream.Lag(old(readIdx)) != 0 && ShouldSkip(old(readIdx)) && stream.writeIdx <= 2 ==>
        !ok && out == outIn && readIdx == stream.writeIdx &&
        dropped == WrapAdd(old(dropped), WrapSub(stream.writeIdx, old(readIdx)))
      ensures stream.Lag(old(readIdx)) != 0 && ShouldSkip(old(readIdx)) && stream.writeIdx > 2 && stream.capacity >= 2 ==>
        ok && out == At(stream.written, |stream.written| - 2) &&
        readIdx == stream.writeIdx - 1 &&
        dropped == WrapAdd(old(dropped), WrapSub(stream.writeIdx - 2, old(readIdx)))
      ensures stream.Lag(old(readIdx)) != 0 && ShouldSkip(old(readIdx)) && stream.writeIdx > 2 && stream.capacity < 2 ==>
        !ok && out == outIn && readIdx == stream.writeIdx &&
        dropped == WrapAdd(WrapAdd(old(dropped), WrapSub(stream.writeIdx - 2, old(readIdx))), 1)
    {
      var lag := stream.Lag(readIdx);
      if lag == 0 {
        return false, outIn;
      }
      if ShouldSkip(readIdx) {
        var skipTo := stream.WritePosition();
        if skipTo > 2 {
          skipTo := skipTo - 2;
        }
        var skipped := WrapSub(skipTo, readIdx);
        dropped := WrapAdd(dropped, skipped);
        readIdx := skipTo;
        lag := stream.Lag(readIdx);
        if lag == 0 {
          return false, outIn;
        }
      }
      ok, out := stream.Read(readIdx, outIn);
      if !ok {
        readIdx := stream.WritePosition();
        dropped := WrapAdd(dropped, 1);
        return;
      }
      readIdx := WrapAdd(readIdx, 1);
    }

    /** best_effort_consumer_lag */
    function Lag(): (l: u32)
      reads this, stream
      ensures (readIdx + l) % U32 == stream.writeIdx
    {
      stream.Lag(readIdx)
    }

    /** best_effort_consumer_reset_dropped */
    method ResetDropped()
      modifies this
      ensures dropped == 0 && readIdx == old(readIdx)
    {
      dropped := 0;
    }
  }

  /**
   * Test scenario: ten raw writes into a 64-slot stream with max_lag 5 —
   * the tick records LATENCY_EXCEEDED with lag 10; the next tick sees the
   * active fault and answers FAULT without touching the record again.
   */
  method HardRtLatency() returns (r1: HardRtResult, code: FaultCode, data: u32, r2: HardRtResult, count: u32)
    ensures r1 == HardRtFault && code == LatencyExceeded && data == 10
    ensures r2 == HardRtFault && count == 1
  {
    Pow2Literals();
    var st := new KeyingStream.Init(64);
    var f := new FaultC.FaultState.Init();
    var c := new HardRtConsumer.Init(st, f, 5);
    FillCounting(st, 10);
    var o: Sample;
    r1, o := c.Tick(Empty);
    code, data := f.GetCode(), f.data;
    r2, o := c.Tick(Empty);
    count := f.count;
  }

  /** Raw-writes `n` samples whose audio levels count 0, 1, 2, ... into an empty 64-slot stream. */
  method FillCounting(st: KeyingStream, n: nat)
    requires n < 256 && st.Valid() && st.capacity == 64 && |st.written| == 0 && st.writeIdx == 0
    modifies st, st.buffer
    ensures st.Valid() && st.capacity == 64 && |st.written| == n && st.writeIdx == n
    ensures forall k :: 0 <= k < n ==> st.written[k].audioLevel == k as bv8
  {
    var i := 0;
    while i < n
      invariant 0 <= i <= n && st.Valid() && st.capacity == 64 && |st.written| == i && st.writeIdx == i
      invariant forall k :: 0 <= k < i ==> st.written[k].audioLevel == k as bv8
      modifies st, st.buffer
    {
      var _ := st.PushRaw(Empty.(audioLevel := i as bv8));
      i := i + 1;
    }
  }

  /** Test scenario: a best-effort consumer 100 samples behind a 64-slot stream lands two behind the writer. */
  method BestEffortSkipsToNearLatest() returns (ok: bool, s: Sample, dropped: u32, lag: u32)
    ensures ok && s.audioLevel == 98 && dropped == 98 && lag == 1
  {
    Pow2Literals();
    var st := new KeyingStream.Init(64);
    var c := new BestEffortConsumer.Init(st, 0);
    FillCounting(st, 100);
    assert c.readIdx == 0 && st.writeIdx == 100 && c.ShouldSkip(0);
    assert st.written[98].audioLevel == 98;
    ok, s := c.Tick(Empty);
    assert c.readIdx == 99;
    dropped, lag := c.dropped, c.Lag();
  }
}
