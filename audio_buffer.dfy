/**
 * The lock-free single-producer / single-consumer ring of i16 audio
 * samples. Its capacity N is a power of two; a push into a full ring
 * drops the oldest sample instead of refusing the new one, and a read
 * that runs dry pads its output with silence.
 */
module AudioBuffer {
  import opened Common

  /** A signed 16-bit PCM sample. */
  type i16 = x: int | -0x8000 <= x < 0x8000

  /** The queue after one push: the sample joins at the back, the oldest leaves when n are held. */
  function AfterPush(c: seq<i16>, s: i16, n: nat): (r: seq<i16>)
    requires 0 < n && |c| <= n
    ensures |r| <= n && r != [] && r[|r| - 1] == s
    ensures |c| < n ==> r == c + [s]
    ensures |c| == n ==> r[..|r| - 1] == c[1..]
  {
    if |c| < n then c + [s] else c[1..] + [s]
  }

  /** The queue after pushing every sample of `xs` in order. */
  function Pushes(c: seq<i16>, xs: seq<i16>, n: nat): (r: seq<i16>)
    requires 0 < n && |c| <= n
    ensures |r| <= n
    decreases |xs|
  {
    if xs == [] then c else Pushes(AfterPush(c, xs[0], n), xs[1..], n)
  }

  /** The smaller of two counts. */
  function Min(a: nat, b: nat): nat
  {
    if a <= b then a else b
  }

  /**
   * Pushing keeps exactly the newest n samples of everything pushed: the
   * queue is the tail of `c + xs` of length min(n, |c| + |xs|).
   */
  lemma {:induction false} PushesKeepNewest(c: seq<i16>, xs: seq<i16>, n: nat)
    requires 0 < n && |c| <= n
    ensures |Pushes(c, xs, n)| == Min(n, |c| + |xs|)
    ensures Pushes(c, xs, n) == (c + xs)[|c| + |xs| - Min(n, |c| + |xs|)..]
    decreases |xs|
  {
    if xs != [] {
      var c' := AfterPush(c, xs[0], n);
      PushesKeepNewest(c', xs[1..], n);
      assert Pushes(c, xs, n) == Pushes(c', xs[1..], n);
      PushShifts(c, xs, n);
    }
  }

  /** One push moves the first sample of xs behind c, dropping c's oldest when c is full. */
  lemma PushShifts(c: seq<i16>, xs: seq<i16>, n: nat)
    requires 0 < n && |c| <= n && xs != []
    ensures var all, len := c + xs, |c| + |xs|;
      var rest := AfterPush(c, xs[0], n) + xs[1..];
      rest[|rest| - Min(n, |rest|)..] == all[len - Min(n, len)..]
  {
    var all, len := c + xs, |c| + |xs|;
    if |c| < n {
      assert AfterPush(c, xs[0], n) + xs[1..] == all;
    } else {
      assert AfterPush(c, xs[0], n) + xs[1..] == all[1..];
      assert all[1..][len - 1 - n..] == all[len - n..];
    }
  }

  /** A ring of capacity n whose `contents` are the queued samples, oldest first. */
  class AudioRingBuffer {
    const n: nat
    const buffer: array<i16>
    var writeIdx: u32
    var readIdx: u32
    ghost var contents: seq<i16>

    ghost predicate Valid()
      reads this, buffer
    {
      IsPow2(n) && n < U32 && buffer.Length == n && |contents| <= n &&
      writeIdx == (readIdx + |contents|) % U32 &&
      forall k | 0 <= k < |contents| :: buffer[(readIdx + k) % n] == contents[k]
    }

    /** new: N zeroed slots, both indices at 0, nothing queued. */
    constructor (capacity: nat)
      requires IsPow2(capacity) && capacity < U32
      ensures Valid() && n == capacity && fresh(buffer)
      ensures contents == [] && writeIdx == 0 && readIdx == 0
      ensures forall k | 0 <= k < buffer.Length :: buffer[k] == 0
    {
      n := capacity;
      buffer := new i16[capacity](_ => 0);
      writeIdx, readIdx := 0, 0;
      contents := [];
    }

    /** N divides the 2^32 positions of a u32 index, so positions and slots agree. */
    lemma RingDividesWord()
      requires Valid()
      ensures n > 0 && U32 % n == 0
    {
      Pow2Literals();
      Pow2Divides(n, U32);
    }

    /** The unsigned distance write - read is the number of queued samples. */
    lemma Fill()
      requires Valid()
      ensures WrapSub(writeIdx, readIdx) == |contents|
    {
      if readIdx + |contents| >= U32 {
        assert writeIdx == readIdx + |contents| - U32;
      }
    }

    /**
     * push: a full ring (write - read >= N) first advances the read index,
     * dropping the oldest sample; the sample then goes into slot write & (N-1).
     */
    method Push(sample: i16)
      requires Valid()
      modifies this, buffer
      ensures Valid()
      ensures contents == AfterPush(old(contents), sample, n)
      ensures |old(contents)| < n ==> readIdx == old(readIdx)
      ensures |old(contents)| == n ==> readIdx == WrapAdd(old(readIdx), 1)
    {
      Fill();
      RingDividesWord();
      if WrapSub(writeIdx, readIdx) >= n {
        DropOldest();
      }
      Append(sample);
    }

    /** Advances the read index past the oldest sample of a full ring. */
    method DropOldest()
      requires Valid() && |contents| == n
      modifies this
      ensures Valid() && contents == old(contents)[1..]
      ensures readIdx == WrapAdd(old(readIdx), 1) && writeIdx == old(writeIdx)
    {
      StepRead();
      readIdx := WrapAdd(readIdx, 1);
      contents := contents[1..];
    }

    /** Once the read index steps past the oldest sample, the rest are where Valid wants them. */
    lemma StepRead()
      requires Valid() && contents != []
      ensures writeIdx == (WrapAdd(readIdx, 1) + (|contents| - 1)) % U32
      ensures forall k | 0 <= k < |contents| - 1 :: buffer[(WrapAdd(readIdx, 1) + k) % n] == contents[1..][k]
    {
      RingDividesWord();
      forall k | 0 <= k < |contents| - 1
        ensures buffer[(WrapAdd(readIdx, 1) + k) % n] == contents[1..][k]
      {
        SlotAfterStep(readIdx, k, n);
      }
      SlotAfterStep(readIdx, |contents| - 1, U32);
    }

    /** Writes the sample into the slot after the newest and advances the write index. */
    method Append(sample: i16)
      requires Valid() && |contents| < n
      modifies this, buffer
      ensures Valid() && contents == old(contents) + [sample]
      ensures readIdx == old(readIdx)
    {
      RingDividesWord();
      var slot := writeIdx % n;
      ghost var m := |contents|;
      SlotOfPosition(readIdx + m, n);
      ghost var before := buffer[..];
      buffer[slot] := sample;
      RingWrite(before, buffer[..], contents, readIdx, slot, sample);
      contents := contents + [sample];
      WrapAddStep(readIdx + m);
      writeIdx := WrapAdd(writeIdx, 1);
    }

    /** pop: the oldest sample, or None when the ring is empty (write == read). */
    method Pop() returns (r: Option<i16>)
      requires Valid()
      modifies this
      ensures Valid() && writeIdx == old(writeIdx)
      ensures r.None? <==> old(contents) == []
      ensures r.Some? ==> r.value == old(contents)[0] && contents == old(contents)[1..]
      ensures r.None? ==> contents == old(contents) && readIdx == old(readIdx)
    {
      Fill();
      if writeIdx == readIdx {
        return None;
      }
      RingDividesWord();
      SlotOfPosition(readIdx, n);
      var sample := buffer[readIdx % n];
      StepRead();
      readIdx := WrapAdd(readIdx, 1);
      contents := contents[1..];
      return Some(sample);
    }

    /**
     * read_into: pops into each output slot in turn and writes silence (0)
     * once the ring runs dry; the count is the number of samples popped.
     */
    method ReadInto(output: array<i16>) returns (count: nat)
      requires Valid() && output != buffer
      modifies this, output
      ensures Valid() && writeIdx == old(writeIdx)
      ensures count == Min(output.Length, |old(contents)|)
      ensures forall k | 0 <= k < count :: output[k] == old(contents)[k]
      ensures forall k | count <= k < output.Length :: output[k] == 0
      ensures contents == old(contents)[count..]
    {
      ghost var c0 := contents;
      count := 0;
      var i := 0;
      while i < output.Length
        invariant Valid() && writeIdx == old(writeIdx) && i <= output.Length
        invariant count == Min(i, |c0|)
        invariant contents == c0[count..]
        invariant forall k | 0 <= k < count :: output[k] == c0[k]
        invariant forall k | count <= k < i :: output[k] == 0
      {
        var r := Pop();
        if r.Some? {
          assert c0[count..][1..] == c0[count + 1..];
          output[i] := r.value;
          count := count + 1;
        } else {
          assert count == |c0|;
          output[i] := 0;
        }
        i := i + 1;
      }
    }

    /** len: the distance write - read, capped at N. */
    function Len(): (r: nat)
      reads this, buffer
      requires Valid()
      ensures r == |contents| && r <= n
    {
      assert readIdx + |contents| >= U32 ==> writeIdx == readIdx + |contents| - U32;
      var d := WrapSub(writeIdx, readIdx);
      if d < n then d else n
    }

    /** is_empty */
    function IsEmpty(): (r: bool)
      reads this, buffer
      requires Valid()
      ensures r <==> contents == []
    {
      Len() == 0
    }

    /** available: the free room, N - len. */
    function Available(): (r: nat)
      reads this, buffer
      requires Valid()
      ensures r == n - |contents|
      ensures r == 0 <==> |contents| == n
    {
      n - Len()
    }

    /** clear: the read index catches up with the write index. */
    method Clear()
      requires Valid()
      modifies this
      ensures Valid() && contents == [] && writeIdx == old(writeIdx) && readIdx == writeIdx
    {
      readIdx := writeIdx;
      contents := [];
    }
  }

  /**
   * Six pushes into a ring of four keep the last four; the first two are
   * dropped and pops return the rest oldest first.
   */
  lemma OverflowDropsOldest()
    ensures Pushes([], [1, 2, 3, 4, 5, 6], 4) == [3, 4, 5, 6]
  {
    PushesKeepNewest([], [1, 2, 3, 4, 5, 6], 4);
    assert ([] + [1, 2, 3, 4, 5, 6])[2..] == [3, 4, 5, 6];
  }

  /** Two samples read into five output slots: two popped, three padded with silence, ring empty. */
  method ReadIntoUnderrun() returns (count: nat, out: seq<i16>, empty: bool)
    ensures count == 2 && out == [100, 200, 0, 0, 0] && empty
  {
    Pow2Literals();
    var ring := new AudioRingBuffer(64);
    ring.Push(100);
    ring.Push(200);
    assert ring.contents == [100, 200];
    var output := new i16[5](_ => 7);
    count := ring.ReadInto(output);
    assert count == 2 && ring.contents == [];
    assert output[0] == 100 && output[1] == 200 && output[2] == 0 && output[3] == 0 && output[4] == 0;
    out := output[..];
    empty := ring.IsEmpty();
  }

  /** Ten pushes into an empty ring of 64 leave room for 54 more. */
  method AvailableAfterTen() returns (before: nat, after: nat)
    ensures before == 64 && after == 54
  {
    Pow2Literals();
    var ring := new AudioRingBuffer(64);
    before := ring.Available();
    var i := 0;
    while i < 10
      invariant 0 <= i <= 10 && ring.Valid() && ring.n == 64 && |ring.contents| == i
      invariant fresh(ring.buffer)
    {
      ring.Push(i * 100);
      i := i + 1;
    }
    after := ring.Available();
  }
}
