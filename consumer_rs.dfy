/**
 * The Rust stream consumers. A hard real-time consumer treats falling
 * behind as a fault (recorded in the shared fault state); a best-effort
 * consumer skips ahead and counts what it dropped.
 */
module ConsumerRs {
  import opened Common
  import opened Samples
  import opened KeyingStreamRs
  import opened FaultRs

  datatype TickResult = Ok(sample: Option<Sample>) | Err(code: FaultCode)

  class HardRtConsumer {
    const stream: KeyingStream
    const fault: FaultState
    var readIdx: u32
    const maxLag: u32

    /** HardRtConsumer::new: start at the stream's current write position. */
    constructor (s: KeyingStream, f: FaultState, maxLag: u32)
      ensures stream == s && fault == f && this.maxLag == maxLag
      ensures readIdx == s.writeIdx
    {
      stream, fault, this.maxLag := s, f, maxLag;
      readIdx := s.writeIdx;
    }

    /**
     * tick: overrun is checked first and recorded with the lag; then a lag
     * above max_lag is recorded as LatencyExceeded. Otherwise a successful
     * read returns the sample and advances by one, and an empty stream
     * returns Ok(None) without moving. A fault never moves the reader.
     */
    method Tick() returns (r: TickResult)
      requires stream.Valid()
      modifies this, fault
      ensures stream.IsOverrun(old(readIdx)) ==>
        r == Err(Overrun) && readIdx == old(readIdx) &&
        fault.active && fault.code == CodeToU8(Overrun) && fault.data == stream.Lag(old(readIdx)) &&
        fault.count == WrapAdd(old(fault.count), 1)
      ensures !stream.IsOverrun(old(readIdx)) && stream.Lag(old(readIdx)) > maxLag ==>
        r == Err(LatencyExceeded) && readIdx == old(readIdx) &&
        fault.active && fault.code == CodeToU8(LatencyExceeded) && fault.data == stream.Lag(old(readIdx)) &&
        fault.count == WrapAdd(old(fault.count), 1)
      ensures !stream.IsOverrun(old(readIdx)) && stream.Lag(old(readIdx)) <= maxLag ==>
        unchanged(fault) &&
        (if stream.Lag(old(readIdx)) == 0
         then r == Ok(None) && readIdx == old(readIdx)
         else r == Ok(Some(At(stream.written, |stream.written| - stream.Lag(old(readIdx))))) &&
              readIdx == WrapAdd(old(readIdx), 1))
    {
      if stream.IsOverrun(readIdx) {
        var lag := stream.Lag(readIdx);
        fault.Set(Overrun, lag);
        return Err(Overrun);
      }
      var lag := stream.Lag(readIdx);
      if lag > maxLag {
        fault.Set(LatencyExceeded, lag);
        return Err(LatencyExceeded);
      }
      var s := stream.Read(readIdx);
      match s {
        case Some(v) =>
          readIdx := WrapAdd(readIdx, 1);
          r := Ok(Some(v));
        case None =>
          r := Ok(None);
      }
    }

    /** resync: jump to the stream's write position, so the lag becomes zero. */
    method Resync()
      modifies this
      ensures readIdx == stream.writeIdx && stream.Lag(readIdx) == 0
    {
      readIdx := stream.writeIdx;
    }

    function Lag(): (l: u32)
      reads this, stream
      ensures (readIdx + l) % U32 == stream.writeIdx
    {
      stream.Lag(readIdx)
    }
  }

  class BestEffortConsumer {
    const stream: KeyingStream
    var readIdx: u32
    var dropped: u32

    /** BestEffortConsumer::new: start at the write position with nothing dropped. */
    constructor (s: KeyingStream)
      ensures stream == s && readIdx == s.writeIdx && dropped == 0
    {
      stream := s;
      readIdx, dropped := s.writeIdx, 0;
    }

    /**
     * tick: after an overrun, jump to half a buffer behind the writer and add
     * the distance skipped to `dropped` (saturating); then read and advance
     * on success. It never reports an error and never lowers `dropped`.
     */
    method Tick() returns (r: Option<Sample>)
      requires stream.Valid()
      modifies this
      ensures stream.IsOverrun(old(readIdx)) ==>
        dropped == SatAdd(old(dropped), stream.Lag(old(readIdx))) &&
        (r.Some? <==> stream.capacity >= 2) &&
        (r.Some? ==> r.value == At(stream.written, |stream.written| - stream.capacity / 2) &&
                     readIdx == WrapAdd(WrapSub(stream.writeIdx, stream.capacity / 2), 1)) &&
        (r.None? ==> readIdx == stream.writeIdx)
      ensures !stream.IsOverrun(old(readIdx)) ==>
        dropped == old(dropped) &&
        (r.Some? <==> stream.Lag(old(readIdx)) != 0) &&
        (r.Some? ==> r.value == At(stream.written, |stream.written| - stream.Lag(old(readIdx))) &&
                     readIdx == WrapAdd(old(readIdx), 1)) &&
        (r.None? ==> readIdx == old(readIdx))
      ensures dropped >= old(dropped)
      ensures r.Some? ==> stream.Lag(readIdx) < stream.Lag(old(readIdx))
    {
      if stream.IsOverrun(readIdx) {
        var write := stream.WriteHead();
        var skipped := WrapSub(write, readIdx);
        readIdx := WrapSub(write, stream.capacity / 2);
        dropped := SatAdd(dropped, skipped);
      }
      r := stream.Read(readIdx);
      if r.Some? {
        readIdx := WrapAdd(readIdx, 1);
      }
    }

    /** DrainIterator: tick until the stream yields nothing; the samples come out in order. */
    method Drain() returns (out: seq<Sample>)
      requires stream.Valid()
      modifies this
      ensures stream.Lag(readIdx) == 0
      ensures dropped >= old(dropped)
      ensures !stream.IsOverrun(old(readIdx)) ==>
        dropped == old(dropped) && |out| == stream.Lag(old(readIdx)) &&
        forall i :: 0 <= i < |out| ==> out[i] == At(stream.written, |stream.written| - stream.Lag(old(readIdx)) + i)
    {
      out := [];
      ghost var start := stream.Lag(readIdx);
      while true
        invariant dropped >= old(dropped)
        invariant !stream.IsOverrun(old(readIdx)) ==>
          dropped == old(dropped) && |out| + stream.Lag(readIdx) == start && !stream.IsOverrun(readIdx) &&
          forall i :: 0 <= i < |out| ==> out[i] == At(stream.written, |stream.written| - start + i)
        decreases stream.Lag(readIdx)
      {
        ghost var before := readIdx;
        var s := Tick();
        if s.None? {
          return;
        }
        if !stream.IsOverrun(old(readIdx)) {
          stream.LagStep(before);
        }
        out := out + [s.value];
      }
    }

    /** reset_dropped: the only way `dropped` goes down. */
    method ResetDropped()
      modifies this
      ensures dropped == 0 && readIdx == old(readIdx)
    {
      dropped := 0;
    }
  }

  /** Pushes n EMPTY samples into a stream nothing has been written to yet. */
  method PushEmpties(st: KeyingStream, n: nat)
    requires st.Valid() && st.written == [] && n < U32
    modifies st, st.slots
    ensures st.Valid() && |st.written| == n && st.writeIdx == n
  {
    var i := 0;
    while i < n
      invariant 0 <= i <= n && st.Valid() && |st.written| == i
      modifies st, st.slots
    {
      st.PushRaw(Empty);
      i := i + 1;
    }
  }

  /** Test scenario: 10 samples behind with max_lag 5 gives LatencyExceeded and an active fault. */
  method HardRtLagFault() returns (r: TickResult, active: bool)
    ensures r == Err(LatencyExceeded) && active
  {
    Pow2Literals();
    var st := new KeyingStream(64);
    var f := new FaultState();
    var c := new HardRtConsumer(st, f, 5);
    PushEmpties(st, 10);
    r := c.Tick();
    active := f.active;
  }

  /** Test scenario: after an overrun fault, resync and clear make the next tick succeed. */
  method HardRtResync() returns (r: TickResult)
    ensures r.Ok? && r.sample.Some?
  {
    Pow2Literals();
    var st := new KeyingStream(64);
    var f := new FaultState();
    var c := new HardRtConsumer(st, f, 5);
    PushEmpties(st, 100);
    var _ := c.Tick();
    c.Resync();
    assert c.readIdx == 100;
    f.Clear();
    st.PushRaw(Empty);
    assert st.writeIdx == WrapAdd(100, 1) == 101;
    assert st.Lag(c.readIdx) == WrapSub(101, 100) == 1;
    r := c.Tick();
  }

  /** Test scenario: a best-effort consumer 100 samples behind a 64-slot stream skips, reads and counts drops. */
  method BestEffortSkips() returns (r: Option<Sample>, dropped: u32)
    ensures r.Some? && dropped == 100
  {
    Pow2Literals();
    var st := new KeyingStream(64);
    var c := new BestEffortConsumer(st);
    var i := 0;
    while i < 100
      invariant 0 <= i <= 100 && st.Valid() && st.capacity == 64 && |st.written| == i
      modifies st, st.slots
    {
      st.PushRaw(Empty.(gpio := i as bv8));
      i := i + 1;
    }
    r := c.Tick();
    dropped := c.dropped;
  }

  /** Test scenario: five pushes drain as five samples, and a second drain yields none. */
  method BestEffortDrain() returns (first: nat, second: nat)
    ensures first == 5 && second == 0
  {
    Pow2Literals();
    var st := new KeyingStream(64);
    var c := new BestEffortConsumer(st);
    PushEmpties(st, 5);
    var a := c.Drain();
    var b := c.Drain();
    first, second := |a|, |b|;
  }
}
