/**
 * The Rust keying stream: a single-producer, multi-consumer ring of N
 * samples (N a power of two) behind a monotone u32 write index. Runs of
 * unchanged samples are compressed into one silence marker; every stored
 * sample carries edge flags against the previous concrete sample.
 *
 * The ghost `written` is the whole history of slot writes; the u32 write
 * index is its length modulo 2^32, and each of the last N positions of the
 * history sits in its slot (positions before the first write read as
 * EMPTY, the value every slot starts with).
 */
module KeyingStreamRs {
  import opened Common
  import opened Samples

  class KeyingStream {
    const capacity: nat
    const slots: array<Sample>
    var writeIdx: u32
    var idleTicks: u32
    var lastSample: Sample
    ghost var written: seq<Sample>

    ghost predicate Valid()
      reads this, slots
    {
      slots.Length == capacity && IsPow2(capacity) && capacity <= 0x8000_0000 && U32 % capacity == 0 &&
      writeIdx == |written| % U32 &&
      forall p :: |written| - capacity <= p < |written| ==> slots[p % capacity] == At(written, p)
    }

    /** KeyingStream::new: all slots EMPTY, indices zero, last sample EMPTY; N must be a power of two. */
    constructor (n: nat)
      requires IsPow2(n) && n <= 0x8000_0000
      ensures Valid() && fresh(slots)
      ensures capacity == n && written == [] && writeIdx == 0 && idleTicks == 0 && lastSample == Empty
    {
      capacity := n;
      slots := new Sample[n](_ => Empty);
      writeIdx, idleTicks, lastSample := 0, 0, Empty;
      written := [];
      new;
      Pow2Literals();
      Pow2Divides(n, U32);
    }

    /** write_slot: store at the current write index (masked) and advance the index by one, wrapping at 2^32. */
    method WriteSlot(s: Sample)
      requires Valid()
      modifies this, slots
      ensures Valid()
      ensures written == old(written) + [s]
      ensures writeIdx == WrapAdd(old(writeIdx), 1)
      ensures slots[old(writeIdx) % capacity] == s
      ensures forall k :: 0 <= k < capacity && k != old(writeIdx) % capacity ==> slots[k] == old(slots[k])
      ensures idleTicks == old(idleTicks) && lastSample == old(lastSample)
    {
      ghost var n := |written|;
      var idx := writeIdx;
      slots[idx % capacity] := s;
      writeIdx := WrapAdd(writeIdx, 1);
      written := written + [s];
      WrapAddStep(n);
      ModCongruent(idx, n, U32, capacity);
      forall p | |written| - capacity <= p < |written|
        ensures slots[p % capacity] == At(written, p)
      {
        if p < n {
          ModDistinct(p, n, capacity);
        }
      }
    }

    /**
     * push: a sample that differs from the last concrete sample first flushes
     * the idle count as a silence marker, then is stored with edge flags and
     * becomes the last sample; an unchanged sample only counts one idle tick.
     */
    method Push(s: Sample)
      requires Valid()
      modifies this, slots
      ensures Valid()
      ensures HasChangeFrom(s, old(lastSample)) ==>
        written == old(written) + PushedSlots(old(idleTicks), old(lastSample), s) &&
        idleTicks == 0 && lastSample == s
      ensures !HasChangeFrom(s, old(lastSample)) ==>
        written == old(written) && idleTicks == WrapAdd(old(idleTicks), 1) && lastSample == old(lastSample)
    {
      var last := lastSample;
      if HasChangeFrom(s, last) {
        var idle := idleTicks;
        idleTicks := 0;
        if idle > 0 {
          WriteSlot(Silence(idle));
        }
        WriteSlot(WithEdgesFrom(s, last));
        lastSample := s;
      } else {
        idleTicks := WrapAdd(idleTicks, 1);
      }
    }

    /** push_raw: store the sample as is, without compression or edge flags. */
    method PushRaw(s: Sample)
      requires Valid()
      modifies this, slots
      ensures Valid()
      ensures written == old(written) + [s] && writeIdx == WrapAdd(old(writeIdx), 1)
      ensures idleTicks == old(idleTicks) && lastSample == old(lastSample)
    {
      WriteSlot(s);
    }

    /** flush: one silence marker iff idle ticks are pending; the counter goes back to zero. */
    method Flush()
      requires Valid()
      modifies this, slots
      ensures Valid()
      ensures written == old(written) + (if old(idleTicks) > 0 then [Silence(old(idleTicks))] else [])
      ensures idleTicks == 0 && lastSample == old(lastSample)
    {
      var idle := idleTicks;
      idleTicks := 0;
      if idle > 0 {
        WriteSlot(Silence(idle));
      }
    }

    /** write_head: the number of slot writes so far, modulo 2^32. */
    function WriteHead(): (w: u32)
      reads this, slots
      requires Valid()
      ensures w == |written| % U32
    {
      writeIdx
    }

    /** The write index counts the samples written, modulo 2^32. */
    lemma WriteHeadCounts()
      requires Valid()
      ensures writeIdx == |written| % U32
    {
    }

    /** lag: how far a reader at `idx` is behind the writer, with wrap-around. */
    function Lag(idx: u32): (l: u32)
      reads this
      ensures (idx + l) % U32 == writeIdx
    {
      WrapSub(writeIdx, idx)
    }

    /** A reader that advances by one slot is one sample less behind. */
    lemma LagStep(idx: u32)
      requires Lag(idx) != 0
      ensures Lag(WrapAdd(idx, 1)) == Lag(idx) - 1
    {
    }

    /** is_overrun: the reader's slot has been overwritten. */
    predicate IsOverrun(idx: u32)
      reads this
    {
      Lag(idx) > capacity
    }

    /**
     * read: a sample exactly when the reader is inside the window
     * 0 < write - idx <= N; it is the sample written `lag` writes ago
     * (EMPTY if fewer writes ever happened).
     */
    method Read(idx: u32) returns (r: Option<Sample>)
      requires Valid()
      ensures r.Some? <==> 0 < Lag(idx) <= capacity
      ensures r.Some? <==> Lag(idx) != 0 && !IsOverrun(idx)
      ensures r.Some? ==> r.value == At(written, |written| - Lag(idx))
    {
      var behind := WrapSub(writeIdx, idx);
      if behind == 0 {
        return None;
      }
      if behind > capacity {
        return None;
      }
      SlotOfLag(|written|, writeIdx, idx, capacity);
      r := Some(slots[idx % capacity]);
    }
  }

  /** Test scenario: `count` identical (EMPTY) pushes then a flush leave one silence marker of `count` ticks. */
  method IdenticalPushesThenFlush(count: u32) returns (head: u32, first: Option<Sample>)
    requires 0 < count
    ensures head == 1
    ensures first == Some(Silence(count))
    ensures count <= 0xFFFF ==> first.value.configGen == count
  {
    Pow2Literals();
    var st := new KeyingStream(64);
    var i: u32 := 0;
    while i < count
      invariant 0 <= i <= count
      invariant st.Valid() && st.capacity == 64 && st.written == [] && st.idleTicks == i && st.lastSample == Empty
      modifies st, st.slots
    {
      st.Push(Empty);
      i := i + 1;
    }
    st.Flush();
    head := st.WriteHead();
    first := st.Read(0);
  }

  /** Test scenario: key up then key down; the stored key-down sample carries the local edge flag. */
  method EdgeDetection() returns (second: Option<Sample>)
    ensures second.Some? && HasLocalEdge(second.value) && second.value.localKey == 1
  {
    Pow2Literals();
    var st := new KeyingStream(64);
    KeyUpThenDown(st);
    st.WriteHeadCounts();
    assert st.Lag(1) == 1;
    second := st.Read(1);
  }

  /** An unchanged sample, then key down: one idle tick becomes a silence marker ahead of the key-down sample. */
  method KeyUpThenDown(st: KeyingStream)
    requires st.Valid() && st.written == [] && st.idleTicks == 0 && st.lastSample == Empty
    modifies st, st.slots
    ensures st.Valid() && |st.written| == 2 && st.written[1] == WithEdgesFrom(Empty.(localKey := 1), Empty)
  {
    st.Push(Empty);
    st.Push(Empty.(localKey := 1));
  }

  /** Test scenario: 100 raw writes into 64 slots overrun readers at 0 and 30 but not at 50 or 99. */
  method OverrunDetection() returns (o0: bool, o30: bool, o50: bool, o99: bool)
    ensures o0 && o30 && !o50 && !o99
  {
    Pow2Literals();
    var st := new KeyingStream(64);
    var i := 0;
    while i < 100
      invariant 0 <= i <= 100
      invariant st.Valid() && st.capacity == 64 && |st.written| == i
      modifies st, st.slots
    {
      st.PushRaw(Empty.(gpio := i as bv8));
      i := i + 1;
    }
    o0, o30, o50, o99 := st.IsOverrun(0), st.IsOverrun(30), st.IsOverrun(50), st.IsOverrun(99);
  }
}
