/**
 * The lock-free log stream: a 256-entry ring the real-time path pushes
 * log lines into and a background task drains. A full ring refuses the
 * line and counts it as dropped instead of blocking.
 */
module LogStream {
  import opened Common

  /** LOG_MAX_MSG_LEN */
  const MaxMsgLen: nat := 120
  /** LOG_BUFFER_SIZE */
  const BufferSize: nat := 256

  /** A log entry: timestamp, level and the stored message bytes (their count is the entry's len). */
  datatype Entry = Entry(timestampUs: int, level: nat, msg: seq<u8>)

  /** A zeroed entry. */
  const Blank := Entry(0, 0, [])

  /** How many message bytes a push keeps. */
  function CopyLen(len: nat): (n: nat)
    ensures n <= MaxMsgLen && n <= len
    ensures n == len || n == MaxMsgLen
  {
    if len > MaxMsgLen then MaxMsgLen else len
  }

  /** The entry a push writes: the message cut to 120 bytes. */
  function Stored(timestampUs: int, level: nat, msg: seq<u8>, len: nat): (e: Entry)
    requires CopyLen(len) <= |msg|
    ensures e.timestampUs == timestampUs && e.level == level
    ensures |e.msg| <= MaxMsgLen && e.msg <= msg
    ensures len <= MaxMsgLen ==> |e.msg| == len
    ensures len > MaxMsgLen ==> |e.msg| == MaxMsgLen
  {
    Entry(timestampUs, level, msg[..CopyLen(len)])
  }

  /** log_level_str: the five level names, "?????" for any other value. */
  function LevelStr(level: int): (s: string)
    ensures |s| == 5 <==> level !in {1, 2}
    ensures s == "?????" <==> !(0 <= level <= 4)
  {
    match level
    case 0 => "ERROR"
    case 1 => "WARN"
    case 2 => "INFO"
    case 3 => "DEBUG"
    case 4 => "TRACE"
    case _ => "?????"
  }

  /** 256 slots divide the 2^32 positions of a u32 index. */
  lemma RingDividesWord()
    ensures U32 % BufferSize == 0
  {
    Pow2Literals();
    Pow2Divides(BufferSize, U32);
  }

  /** A log stream; `pending` is the queue of pushed, not yet drained entries, oldest first. */
  class Stream {
    const entries: array<Entry>
    var writeIdx: u32
    var readIdx: u32
    var dropped: u32
    ghost var pending: seq<Entry>

    ghost predicate Valid()
      reads this, entries
    {
      entries.Length == BufferSize && |pending| <= BufferSize &&
      writeIdx == (readIdx + |pending|) % U32 &&
      forall k | 0 <= k < |pending| :: entries[(readIdx + k) % BufferSize] == pending[k]
    }

    /** LOG_STREAM_INIT */
    constructor ()
      ensures Valid() && fresh(entries)
      ensures pending == [] && writeIdx == 0 && readIdx == 0 && dropped == 0
    {
      entries := new Entry[BufferSize](_ => Blank);
      writeIdx, readIdx, dropped := 0, 0, 0;
      pending := [];
    }

    /** log_stream_init */
    method Init()
      requires Valid()
      modifies this, entries
      ensures Valid()
      ensures pending == [] && writeIdx == 0 && readIdx == 0 && dropped == 0
      ensures forall k | 0 <= k < entries.Length :: entries[k] == Blank
    {
      writeIdx, readIdx, dropped := 0, 0, 0;
      pending := [];
      forall k | 0 <= k < entries.Length {
        entries[k] := Blank;
      }
    }

    /** The unsigned distance write - read is the number of pending entries. */
    lemma Fill()
      requires Valid()
      ensures WrapSub(writeIdx, readIdx) == |pending|
    {
      if readIdx + |pending| >= U32 {
        assert writeIdx == readIdx + |pending| - U32;
      }
    }

    /**
     * log_stream_push: a ring holding 256 entries (write - read >= 256)
     * refuses the line and counts it as dropped; otherwise the entry, cut
     * to 120 bytes, is queued behind the others.
     */
    method Push(timestampUs: int, level: nat, msg: seq<u8>, len: nat) returns (ok: bool)
      requires Valid() && CopyLen(len) <= |msg|
      modifies this, entries
      ensures Valid() && readIdx == old(readIdx)
      ensures ok <==> WrapSub(old(writeIdx), old(readIdx)) < BufferSize
      ensures ok <==> |old(pending)| < BufferSize
      ensures ok ==> pending == old(pending) + [Stored(timestampUs, level, msg, len)] && dropped == old(dropped)
      ensures !ok ==> pending == old(pending) && writeIdx == old(writeIdx) && dropped == WrapAdd(old(dropped), 1)
    {
      Fill();
      if WrapSub(writeIdx, readIdx) >= BufferSize {
        dropped := WrapAdd(dropped, 1);
        return false;
      }
      Publish(Stored(timestampUs, level, msg, len));
      return true;
    }

    /** Fills the next free slot and publishes it by advancing the write index. */
    method Publish(e: Entry)
      requires Valid() && |pending| < BufferSize
      modifies this, entries
      ensures Valid() && pending == old(pending) + [e]
      ensures readIdx == old(readIdx) && dropped == old(dropped)
    {
      var slot := writeIdx % BufferSize;
      ghost var n := |pending|;
      RingDividesWord();
      SlotOfPosition(readIdx + n, BufferSize);
      ghost var before := entries[..];
      entries[slot] := e;
      RingWrite(before, entries[..], pending, readIdx, slot, e);
      pending := pending + [e];
      WrapAddStep(readIdx + n);
      writeIdx := WrapAdd(writeIdx, 1);
    }

    /**
     * log_stream_drain: the oldest pending entry, or false (and `out`
     * untouched) when the ring is empty.
     */
    method Drain(outIn: Entry) returns (ok: bool, out: Entry)
      requires Valid()
      modifies this
      ensures Valid() && writeIdx == old(writeIdx) && dropped == old(dropped)
      ensures ok <==> old(pending) != []
      ensures ok ==> out == old(pending)[0] && pending == old(pending)[1..]
      ensures !ok ==> out == outIn && pending == old(pending) && readIdx == old(readIdx)
    {
      if readIdx == writeIdx {
        assert |pending| == 0 by {
          Fill();
        }
        return false, outIn;
      }
      Fill();
      out := entries[readIdx % BufferSize];
      assert out == pending[0];
      ghost var rest := pending[1..];
      forall k | 0 <= k < |rest|
        ensures entries[(WrapAdd(readIdx, 1) + k) % BufferSize] == rest[k]
      {
        RingDividesWord();
        SlotAfterStep(readIdx, k, BufferSize);
      }
      readIdx := WrapAdd(readIdx, 1);
      pending := rest;
      ok := true;
    }

    /** log_stream_dropped */
    function Dropped(): (r: u32)
      reads this
      ensures r == dropped
    {
      dropped
    }

    /** log_stream_has_entries */
    function HasEntries(): (r: bool)
      reads this, entries
      requires Valid()
      ensures r <==> pending != []
    {
      assert readIdx + |pending| >= U32 ==> writeIdx == readIdx + |pending| - U32;
      readIdx != writeIdx
    }

    /** log_stream_reset_dropped */
    method ResetDropped()
      requires Valid()
      modifies this
      ensures Valid() && dropped == 0
      ensures pending == old(pending) && writeIdx == old(writeIdx) && readIdx == old(readIdx)
    {
      dropped := 0;
    }
  }

  /**
   * n pushes into a fresh stream: the first 256 are accepted and every
   * later one is counted as dropped.
   */
  method Flood(n: nat) returns (accepted: nat, droppedCount: u32)
    ensures accepted == if n <= BufferSize then n else BufferSize
    ensures droppedCount == (n - accepted) % U32
  {
    var s := new Stream();
    accepted := 0;
    var i := 0;
    while i < n
      invariant s.Valid() && i <= n
      invariant accepted == |s.pending| == if i <= BufferSize then i else BufferSize
      invariant s.dropped == (i - accepted) % U32
    {
      var ok := s.Push(i, 2, [], 0);
      if ok {
        accepted := accepted + 1;
      } else {
        WrapAddStep(i - accepted);
      }
      i := i + 1;
    }
    droppedCount := s.Dropped();
  }

  /** Two lines pushed are drained in the order they were pushed, then the stream is empty. */
  method FirstInFirstOut(a: seq<u8>, b: seq<u8>) returns (first: Entry, second: Entry, third: bool)
    requires |a| <= MaxMsgLen && |b| <= MaxMsgLen
    ensures first.msg == a && second.msg == b && !third
  {
    var s := new Stream();
    var okA := s.Push(1, 2, a, |a|);
    var okB := s.Push(2, 2, b, |b|);
    var ok1, ok2: bool;
    var last: Entry;
    ok1, first := s.Drain(Blank);
    ok2, second := s.Drain(Blank);
    third, last := s.Drain(Blank);
  }
}
