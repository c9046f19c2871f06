/**
 * The C keying stream (`keying_stream_t`) and its lock-free cursor
 * (`stream_consumer_t`). The ring discipline is that of the Rust stream —
 * a power-of-two buffer behind a monotone 32-bit write index, silence
 * compression and edge flags — but the C stream keeps an explicit mask,
 * reports success from every push and writes reads through an out
 * parameter that a failed read leaves untouched.
 *
 * The ghost `written` is the whole history of slot writes; each of the
 * last `capacity` positions of it sits in its slot.
 */
module KeyingStreamC {
  import opened Common
  import opened Samples

  class KeyingStream {
    const buffer: array<Sample>
    const capacity: nat
    const mask: nat
    var writeIdx: u32
    var idleTicks: u32
    var lastSample: Sample
    ghost var written: seq<Sample>

    ghost predicate Valid()
      reads this, buffer
    {
      buffer.Length == capacity && IsPow2(capacity) && capacity <= 0x8000_0000 && U32 % capacity == 0 &&
      mask == capacity - 1 &&
      writeIdx == |written| % U32 &&
      forall p :: |written| - capacity <= p < |written| ==> buffer[p % capacity] == At(written, p)
    }

    /** stream_init: capacity a power of two, mask = capacity - 1, indices zero, buffer zeroed. */
    constructor Init(n: nat)
      requires IsPow2(n) && n <= 0x8000_0000
      ensures Valid() && fresh(buffer)
      ensures capacity == n && mask == n - 1
      ensures written == [] && writeIdx == 0 && idleTicks == 0 && lastSample == Empty
      ensures forall k :: 0 <= k < n ==> buffer[k] == Empty
    {
      buffer := new Sample[n](_ => Empty);
      capacity, mask := n, n - 1;
      writeIdx, idleTicks, lastSample := 0, 0, Empty;
      written := [];
      new;
      Pow2Literals();
      Pow2Divides(n, U32);
    }

    /** stream_write_slot: fetch-and-add the write index, store at the old index's slot. */
    method WriteSlot(s: Sample) returns (ok: bool)
      requires Valid()
      modifies this, buffer
      ensures Valid() && ok
      ensures written == old(written) + [s]
      ensures writeIdx == WrapAdd(old(writeIdx), 1)
      ensures buffer[old(writeIdx) % capacity] == s
      ensures forall k :: 0 <= k < capacity && k != old(writeIdx) % capacity ==> buffer[k] == old(buffer[k])
      ensures idleTicks == old(idleTicks) && lastSample == old(lastSample)
    {
      ghost var n := |written|;
      var idx := writeIdx;
      writeIdx := WrapAdd(writeIdx, 1);
      buffer[idx % capacity] := s;
      written := written + [s];
      WrapAddStep(n);
      ModCongruent(idx, n, U32, capacity);
      forall p | |written| - capacity <= p < |written|
        ensures buffer[p % capacity] == At(written, p)
      {
        if p < n {
          ModDistinct(p, n, capacity);
        }
      }
      ok := true;
    }

    /**
     * stream_push: a changed sample flushes pending idle ticks as one
     * silence marker, is stored with edge flags and becomes the last
     * sample; an unchanged one only counts an idle tick. Always succeeds.
     */
    method Push(s: Sample) returns (ok: bool)
      requires Valid()
      modifies this, buffer
      ensures Valid() && ok
      ensures HasChangeFrom(s, old(lastSample)) ==>
        written == old(written) + PushedSlots(old(idleTicks), old(lastSample), s) &&
        idleTicks == 0 && lastSample == s
      ensures !HasChangeFrom(s, old(lastSample)) ==>
        written == old(written) && idleTicks == WrapAdd(old(idleTicks), 1) && lastSample == old(lastSample)
    {
      if HasChangeFrom(s, lastSample) {
        var idle := idleTicks;
        idleTicks := 0;
        if idle > 0 {
          ok := WriteSlot(Silence(idle));
          if !ok {
            return;
          }
        }
        ok := WriteSlot(WithEdgesFrom(s, lastSample));
        if !ok {
          return;
        }
        lastSample := s;
      } else {
        idleTicks := WrapAdd(idleTicks, 1);
      }
      ok := true;
    }

    /** stream_push_raw: one slot write, no compression, no edge flags. */
    method PushRaw(s: Sample) returns (ok: bool)
      requires Valid()
      modifies this, buffer
      ensures Valid() && ok
      ensures written == old(written) + [s] && writeIdx == WrapAdd(old(writeIdx), 1)
      ensures idleTicks == old(idleTicks) && lastSample == old(lastSample)
    {
      ok := WriteSlot(s);
    }

    /** stream_flush: a silence marker iff idle ticks are pending; the counter is reset. */
    method Flush()
      requires Valid()
      modifies this, buffer
      ensures Valid()
      ensures written == old(written) + (if old(idleTicks) > 0 then [Silence(old(idleTicks))] else [])
      ensures idleTicks == 0 && lastSample == old(lastSample)
    {
      var idle := idleTicks;
      idleTicks := 0;
      if idle > 0 {
        var _ := WriteSlot(Silence(idle));
      }
    }

    /**
     * stream_read: succeeds iff 0 < write - idx <= capacity, and then
     * yields the sample written `write - idx` writes ago; on failure the
     * caller's out value is left as it was.
     */
    method Read(idx: u32, outIn: Sample) returns (ok: bool, out: Sample)
      requires Valid()
      ensures ok <==> 0 < Lag(idx) <= capacity
      ensures ok <==> Lag(idx) != 0 && !IsOverrun(idx)
      ensures ok ==> out == At(written, |written| - Lag(idx))
      ensures !ok ==> out == outIn
    {
      var write := writeIdx;
      var behind := WrapSub(write, idx);
      if behind == 0 {
        return false, outIn;
      }
      if behind > capacity {
        return false, outIn;
      }
      SlotOfLag(|written|, writeIdx, idx, capacity);
      ok, out := true, buffer[idx % capacity];
    }

    /** stream_write_position: the number of slot writes so far, modulo 2^32. */
    function WritePosition(): (w: u32)
      reads this, buffer
      requires Valid()
      ensures w == |written| % U32
    {
      writeIdx
    }

    /** stream_lag: wrapping distance from a reader at `idx` to the writer. */
    function Lag(idx: u32): (l: u32)
      reads this
      ensures (idx + l) % U32 == writeIdx
    {
      WrapSub(writeIdx, idx)
    }

    /** stream_is_overrun: lag beyond the capacity means the reader's slot was overwritten. */
    predicate IsOverrun(idx: u32)
      reads this
    {
      Lag(idx) > capacity
    }
  }

  /** A reader's cursor into a stream: the stream is shared, the index is the reader's own. */
  class StreamConsumer {
    const stream: KeyingStream
    var readIdx: u32

    /** consumer_init: start at the current write position (lag zero). */
    constructor Init(s: KeyingStream)
      ensures stream == s && readIdx == s.writeIdx
    {
      stream := s;
      readIdx := s.writeIdx;
    }

    /** consumer_init_at: start at an explicit position. */
    constructor InitAt(s: KeyingStream, position: u32)
      ensures stream == s && readIdx == position
    {
      stream := s;
      readIdx := position;
    }

    /** consumer_next: read at the cursor and advance by one only when the read succeeded. */
    method Next(outIn: Sample) returns (ok: bool, out: Sample)
      requires stream.Valid()
      modifies this
      ensures ok <==> 0 < stream.Lag(old(readIdx)) <= stream.capacity
      ensures ok ==> out == At(stream.written, |stream.written| - stream.Lag(old(readIdx))) &&
                     readIdx == WrapAdd(old(readIdx), 1) && Lag() == stream.Lag(old(readIdx)) - 1
      ensures !ok ==> out == outIn && readIdx == old(readIdx)
    {
      ok, out := stream.Read(readIdx, outIn);
      if !ok {
        return;
      }
      readIdx := WrapAdd(readIdx, 1);
    }

    /** consumer_peek: the same read as `Next`, without moving the cursor. */
    method Peek(outIn: Sample) returns (ok: bool, out: Sample)
      requires stream.Valid()
      ensures ok <==> 0 < stream.Lag(readIdx) <= stream.capacity
      ensures ok ==> out == At(stream.written, |stream.written| - stream.Lag(readIdx))
      ensures !ok ==> out == outIn
    {
      ok, out := stream.Read(readIdx, outIn);
    }

    /** consumer_lag */
    function Lag(): (l: u32)
      reads this, stream
      ensures (readIdx + l) % U32 == stream.writeIdx
    {
      stream.Lag(readIdx)
    }

    /** consumer_is_overrun */
    predicate IsOverrun()
      reads this, stream
    {
      stream.IsOverrun(readIdx)
    }

    /** consumer_skip_to_latest: jump to the write position and report how many samples were skipped. */
    method SkipToLatest() returns (skipped: u32)
      modifies this
      ensures readIdx == stream.writeIdx && Lag() == 0
      ensures skipped == stream.Lag(old(readIdx))
    {
      var oldIdx := readIdx;
      readIdx := stream.writeIdx;
      skipped := WrapSub(readIdx, oldIdx);
    }

    /**
     * consumer_resync: move to the oldest position still in the buffer,
     * write - capacity, or to 0 while the write position is below the
     * capacity; afterwards the cursor is never overrun.
     */
    method Resync()
      requires stream.Valid()
      modifies this
      ensures readIdx == if stream.writeIdx >= stream.capacity then stream.writeIdx - stream.capacity else 0
      ensures Lag() == if stream.writeIdx >= stream.capacity then stream.capacity else stream.writeIdx
      ensures !IsOverrun()
    {
      var writePos := stream.WritePosition();
      var capacity := stream.capacity;
      if writePos >= capacity {
        readIdx := writePos - capacity;
      } else {
        readIdx := 0;
      }
    }
  }

  /** Test scenario: one pushed key-down sample reads back at position 0 with its key and audio level. */
  method PushThenRead() returns (pushed: bool, position: u32, ok: bool, s: Sample)
    ensures pushed && position == 1 && ok && s.localKey == 1 && s.audioLevel == 128
  {
    Pow2Literals();
    var st := new KeyingStream.Init(64);
    pushed := st.Push(Empty.(localKey := 1, audioLevel := 128));
    position := st.WritePosition();
    ok, s := st.Read(0, Empty);
  }

  /** Pushes samples with key values 0, 1, 2, 3, 4 into a fresh 64-slot stream. */
  method PushKeys0To4() returns (st: KeyingStream)
    ensures fresh(st) && fresh(st.buffer) && st.Valid() && st.capacity == 64
    ensures |st.written| == 5 && st.written[0] == Silence(1) && st.written[3].localKey == 3
  {
    Pow2Literals();
    st := new KeyingStream.Init(64);
    var _ := st.Push(Empty);
    assert st.written == [] && st.idleTicks == 1 && st.lastSample == Empty;
    var k1, k2, k3, k4 := Empty.(localKey := 1), Empty.(localKey := 2), Empty.(localKey := 3), Empty.(localKey := 4);
    assert HasChangeFrom(k1, Empty) && HasChangeFrom(k2, k1) && HasChangeFrom(k3, k2) && HasChangeFrom(k4, k3);
    var _ := st.Push(k1);
    assert st.written == [Silence(1), WithEdgesFrom(k1, Empty)] && st.idleTicks == 0 && st.lastSample == k1;
    var _ := st.Push(k2);
    assert |st.written| == 3 && st.lastSample == k2;
    var _ := st.Push(k3);
    assert |st.written| == 4 && st.written[3] == WithEdgesFrom(k3, k2) && st.lastSample == k3;
    var _ := st.Push(k4);
  }

  /**
   * Test scenario: pushes with key values 0..4 — the first equals EMPTY and
   * becomes one idle tick, so position 0 holds a silence marker of one tick
   * and position 3 holds the sample with key 3; reading never consumes.
   */
  method MultipleReaders() returns (first: Sample, third: Sample, again: Sample)
    ensures first == Silence(1) && first.localKey == 0
    ensures third.localKey == 3
    ensures again == first
  {
    var st := PushKeys0To4();
    assert st.writeIdx == 5;
    var ok;
    ok, first := st.Read(0, Empty);
    ok, third := st.Read(3, Empty);
    ok, again := st.Read(0, Empty);
  }

  /** Test scenario: ten EMPTY pushes are all compressed, so nothing is written and a reader at 0 has no lag. */
  method EmptyPushesWriteNothing() returns (lag: u32, idle: u32)
    ensures lag == 0 && idle == 10
  {
    Pow2Literals();
    var st := new KeyingStream.Init(64);
    var i := 0;
    while i < 10
      invariant 0 <= i <= 10 && st.Valid() && st.written == [] && st.idleTicks == i && st.lastSample == Empty
      modifies st, st.buffer
    {
      var _ := st.Push(Empty);
      i := i + 1;
    }
    lag, idle := st.Lag(0), st.idleTicks;
  }
}
