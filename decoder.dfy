/**
 * The CW decoder's event side: the dot/dash pattern being accumulated, the
 * 128-entry circular buffer of decoded characters with their timestamps, the
 * IDLE/RECEIVING state and the statistics counters. Key events arrive already
 * classified; the timing classifier and the stream consumer that produce them
 * are outside this module.
 */
module Decoder {
  import opened Common
  import MorseTable

  const BufferSize: nat := 128
  const MaxPatternLen: nat := 8

  /** decoded_char_t */
  datatype DecodedChar = DecodedChar(character: char, timestamp: int)

  const NoChar := DecodedChar('\0', 0)

  /** decoder_state_t */
  datatype DState = Idle | Receiving

  /** key_event_t */
  datatype KeyEvent = Dit | Dah | IntraGap | CharGap | WordGap | Unknown

  /** decoder_stats_t; the sample counters belong to the stream side. */
  datatype Stats = Stats(charsDecoded: u32, wordsDecoded: u32, errors: u32, samplesProcessed: u32, samplesDropped: u32)

  /**
   * The decoder's state: the buffer with its write position `head`, the
   * number of characters held, the pop position `read`, the pattern so far.
   */
  datatype Dec = Dec(buf: seq<DecodedChar>, head: nat, count: nat, read: nat,
                     pattern: seq<char>, state: DState, stats: Stats)

  /**
   * Until the buffer first fills, the write position equals the count; the
   * decoder is RECEIVING exactly while a pattern is being accumulated.
   */
  ghost predicate WellFormed(d: Dec)
  {
    |d.buf| == BufferSize && d.head < BufferSize && d.count <= BufferSize && d.read < BufferSize &&
    (d.count < BufferSize ==> d.head == d.count) &&
    |d.pattern| <= MaxPatternLen && MorseTable.IsElements(d.pattern) &&
    (d.state == Receiving <==> d.pattern != [])
  }

  /** The state decoder_init and decoder_reset leave: everything zeroed. */
  function Empty(): (d: Dec)
    ensures WellFormed(d)
  {
    Dec(seq(BufferSize, _ => NoChar), 0, 0, 0, [], Idle, Stats(0, 0, 0, 0, 0))
  }

  /** `len` consecutive buffer entries starting at `from`, wrapping at the end of the array. */
  function Span(buf: seq<DecodedChar>, from: nat, len: nat): (r: seq<DecodedChar>)
    requires |buf| == BufferSize && len <= BufferSize
    ensures |r| == len
  {
    seq(len, i requires 0 <= i < len => buf[(from + i) % BufferSize])
  }

  /** Writing the slot just past a span extends the span by that entry. */
  lemma SpanSnoc(buf: seq<DecodedChar>, from: nat, len: nat, x: DecodedChar)
    requires |buf| == BufferSize && len < BufferSize
    ensures Span(buf[(from + len) % BufferSize := x], from, len + 1) == Span(buf, from, len) + [x]
  {
    var p := (from + len) % BufferSize;
    var s := Span(buf[p := x], from, len + 1);
    forall i | 0 <= i < len
      ensures s[i] == buf[(from + i) % BufferSize]
    {
      ModDistinct(from + i, from + len, BufferSize);
    }
  }

  /** Dropping the first entry of a span starts it one slot later. */
  lemma SpanTail(buf: seq<DecodedChar>, from: nat, len: nat)
    requires |buf| == BufferSize && 0 < len <= BufferSize
    ensures Span(buf, (from + 1) % BufferSize, len - 1) == Span(buf, from, len)[1..]
  {
    var later := Span(buf, (from + 1) % BufferSize, len - 1);
    var whole := Span(buf, from, len);
    forall i | 0 <= i < len - 1
      ensures later[i] == whole[i + 1]
    {
      ModOffset(from + 1, i, BufferSize);
    }
  }

  /** The characters the buffer holds, oldest first. */
  function Recent(d: Dec): (r: seq<DecodedChar>)
    requires WellFormed(d)
    ensures |r| == d.count
  {
    Span(d.buf, (d.head + BufferSize - d.count) % BufferSize, d.count)
  }

  /** A buffer of at most 128 keeps the newest 128. */
  function Keep(xs: seq<DecodedChar>): (r: seq<DecodedChar>)
    ensures |r| == if |xs| > BufferSize then BufferSize else |xs|
  {
    if |xs| > BufferSize then xs[|xs| - BufferSize..] else xs
  }

  /** The characters not yet popped: from the pop position up to the write position. */
  function Unread(d: Dec): (r: seq<DecodedChar>)
    requires WellFormed(d)
    ensures |r| < BufferSize
  {
    Span(d.buf, d.read, (d.head - d.read) % BufferSize)
  }

  /** buffer_push */
  function PushChar(d: Dec, c: char, ts: int): (r: Dec)
    requires WellFormed(d)
    ensures WellFormed(r) && r.pattern == d.pattern && r.state == d.state && r.stats == d.stats
  {
    d.(buf := d.buf[d.head := DecodedChar(c, ts)],
       head := (d.head + 1) % BufferSize,
       count := if d.count < BufferSize then d.count + 1 else d.count)
  }

  /** The count saturates at 128 and, once full, the oldest character is overwritten. */
  lemma PushRecent(d: Dec, c: char, ts: int)
    requires WellFormed(d)
    ensures Recent(PushChar(d, c, ts)) == Keep(Recent(d) + [DecodedChar(c, ts)])
  {
    var x := DecodedChar(c, ts);
    if d.count < BufferSize {
      PushRecentFilling(d, x);
    } else {
      PushRecentFull(d, x);
    }
  }

  lemma PushRecentFilling(d: Dec, x: DecodedChar)
    requires WellFormed(d) && d.count < BufferSize
    ensures Recent(PushChar(d, x.character, x.timestamp)) == Recent(d) + [x]
  {
    var r := PushChar(d, x.character, x.timestamp);
    assert (d.head + BufferSize - d.count) % BufferSize == 0;
    assert (r.head + BufferSize - r.count) % BufferSize == 0;
    SpanSnoc(d.buf, 0, d.count, x);
  }

  lemma PushRecentFull(d: Dec, x: DecodedChar)
    requires WellFormed(d) && d.count == BufferSize
    ensures Recent(PushChar(d, x.character, x.timestamp)) == Recent(d)[1..] + [x]
  {
    var r := PushChar(d, x.character, x.timestamp);
    var from := (d.head + 1) % BufferSize;
    assert (d.head + BufferSize - d.count) % BufferSize == d.head;
    assert (r.head + BufferSize - r.count) % BufferSize == from;
    SpanTail(d.buf, d.head, BufferSize);
    ModOffset(d.head + 1, BufferSize - 1, BufferSize);
    SpanSnoc(d.buf, from, BufferSize - 1, x);
  }

  /**
   * A push appends to the unread characters while fewer than 127 are
   * waiting; the push that brings the write position round to the pop
   * position leaves nothing unread.
   */
  lemma PushUnread(d: Dec, c: char, ts: int)
    requires WellFormed(d)
    ensures |Unread(d)| < BufferSize - 1 ==> Unread(PushChar(d, c, ts)) == Unread(d) + [DecodedChar(c, ts)]
    ensures |Unread(d)| == BufferSize - 1 ==> Unread(PushChar(d, c, ts)) == []
  {
    var len := (d.head - d.read) % BufferSize;
    assert (d.read + len) % BufferSize == d.head;
    if len < BufferSize - 1 {
      assert ((d.head + 1) % BufferSize - d.read) % BufferSize == len + 1;
      SpanSnoc(d.buf, d.read, len, DecodedChar(c, ts));
    } else {
      assert ((d.head + 1) % BufferSize - d.read) % BufferSize == 0;
    }
  }

  /** decoder_pop_char: NUL with timestamp 0 when nothing is unread. */
  function Pop(d: Dec): (r: (Dec, DecodedChar))
    requires WellFormed(d)
    ensures WellFormed(r.0) && r.0.buf == d.buf && r.0.count == d.count && r.0.pattern == d.pattern
  {
    if d.read == d.head then (d, NoChar)
    else (d.(read := (d.read + 1) % BufferSize), d.buf[d.read])
  }

  /** Pop hands out the oldest unread character and removes it from the unread ones. */
  lemma PopUnread(d: Dec)
    requires WellFormed(d)
    ensures Unread(d) == [] ==> Pop(d) == (d, NoChar)
    ensures Unread(d) != [] ==> Pop(d).1 == Unread(d)[0] && Unread(Pop(d).0) == Unread(d)[1..]
  {
    var len := (d.head - d.read) % BufferSize;
    if len > 0 {
      UnreadStep(d.head, d.read);
      SpanTail(d.buf, d.read, len);
    }
  }

  /** One pop shortens the distance from the pop position to the write position by one. */
  lemma UnreadStep(head: nat, read: nat)
    requires head < BufferSize && read < BufferSize && head != read
    ensures (head - (read + 1) % BufferSize) % BufferSize == (head - read) % BufferSize - 1
  {
    if read + 1 < BufferSize {
      assert (read + 1) % BufferSize == read + 1;
      if head > read {
        assert (head - read) % BufferSize == head - read;
        assert (head - read - 1) % BufferSize == head - read - 1;
      } else {
        assert (head - read) % BufferSize == head - read + BufferSize;
        assert (head - read - 1) % BufferSize == head - read - 1 + BufferSize;
      }
    } else {
      assert (read + 1) % BufferSize == 0;
      assert (head - read) % BufferSize == head - read + BufferSize;
    }
  }

  /** finalize_pattern: look the pattern up, record the character or count an error, start afresh. */
  function Finalize(d: Dec, ts: int): (r: Dec)
    requires WellFormed(d)
    ensures WellFormed(r) && r.read == d.read
    ensures d.pattern == [] ==> r == d
    ensures d.pattern != [] ==> r.pattern == [] && r.state == Idle
  {
    if d.pattern == [] then d
    else
      var c := MorseTable.Decode(Some(d.pattern));
      var e := if c != '\0' then
        var p := PushChar(d, c, ts);
        p.(stats := p.stats.(charsDecoded := WrapAdd(p.stats.charsDecoded, 1)))
      else d.(stats := d.stats.(errors := WrapAdd(d.stats.errors, 1)));
      e.(pattern := [], state := Idle)
  }

  /** decoder_handle_event */
  function Handle(d: Dec, e: KeyEvent, ts: int): (r: Dec)
    requires WellFormed(d)
    ensures WellFormed(r)
  {
    match e
    case Dit => d.(pattern := if |d.pattern| < MaxPatternLen then d.pattern + ['.'] else d.pattern, state := Receiving)
    case Dah => d.(pattern := if |d.pattern| < MaxPatternLen then d.pattern + ['-'] else d.pattern, state := Receiving)
    case IntraGap => d
    case CharGap => Finalize(d, ts)
    case WordGap =>
      var f := PushChar(Finalize(d, ts), ' ', ts);
      f.(stats := f.stats.(wordsDecoded := WrapAdd(f.stats.wordsDecoded, 1)))
    case Unknown => d
  }

  /** Dits and dahs extend the pattern while it is shorter than 8, and the decoder is receiving. */
  lemma MarkExtendsPattern(d: Dec, e: KeyEvent, ts: int)
    requires WellFormed(d) && (e == Dit || e == Dah)
    ensures var r := Handle(d, e, ts);
      r.state == Receiving && r.buf == d.buf && r.count == d.count && r.stats == d.stats &&
      (|d.pattern| < MaxPatternLen ==> r.pattern == d.pattern + [if e == Dit then '.' else '-']) &&
      (|d.pattern| == MaxPatternLen ==> r.pattern == d.pattern)
  {
  }

  /** Two states with the same buffer, write position and count hold the same characters. */
  lemma SameRing(a: Dec, b: Dec)
    requires WellFormed(a) && WellFormed(b) && a.buf == b.buf && a.head == b.head && a.count == b.count
    ensures Recent(a) == Recent(b) && LastChar(a) == LastChar(b)
  {
  }

  /**
   * A character gap ends the character: a known pattern adds its character
   * to the buffer and counts it, an unknown one counts an error.
   */
  lemma CharGapDecodes(d: Dec, ts: int)
    requires WellFormed(d) && d.pattern != []
    ensures var r := Handle(d, CharGap, ts); var c := MorseTable.Decode(Some(d.pattern));
      WellFormed(r) && r.pattern == [] && r.state == Idle &&
      (c != '\0' ==> Recent(r) == Keep(Recent(d) + [DecodedChar(c, ts)]) &&
                     r.stats == d.stats.(charsDecoded := WrapAdd(d.stats.charsDecoded, 1))) &&
      (c == '\0' ==> Recent(r) == Recent(d) && r.stats == d.stats.(errors := WrapAdd(d.stats.errors, 1)))
  {
    var c := MorseTable.Decode(Some(d.pattern));
    var r := Handle(d, CharGap, ts);
    if c != '\0' {
      var p := PushChar(d, c, ts);
      PushRecent(d, c, ts);
      SameRing(r, p);
    } else {
      SameRing(r, d);
    }
  }

  /** A character gap with no pattern changes nothing; an intra-character gap never does. */
  lemma GapWithoutPattern(d: Dec, ts: int)
    requires WellFormed(d)
    ensures d.pattern == [] ==> Handle(d, CharGap, ts) == d
    ensures Handle(d, IntraGap, ts) == d && Handle(d, Unknown, ts) == d
  {
  }

  /** A word gap ends the character as a character gap would, then adds a space and counts a word. */
  lemma WordGapAddsSpace(d: Dec, ts: int)
    requires WellFormed(d)
    ensures var f := Finalize(d, ts); var r := Handle(d, WordGap, ts);
      Recent(r) == Keep(Recent(f) + [DecodedChar(' ', ts)]) &&
      r.stats == f.stats.(wordsDecoded := WrapAdd(f.stats.wordsDecoded, 1)) && r.state == f.state
  {
    var f := Finalize(d, ts);
    var p := PushChar(f, ' ', ts);
    var r := Handle(d, WordGap, ts);
    assert r == p.(stats := p.stats.(wordsDecoded := WrapAdd(f.stats.wordsDecoded, 1)));
    PushRecent(f, ' ', ts);
    SameRing(p, r);
  }

  /** The newest n characters of xs, as a string. */
  function Newest(xs: seq<DecodedChar>, n: nat): (s: string)
    requires n <= |xs|
    ensures |s| == n && forall i | 0 <= i < n :: s[i] == xs[|xs| - n + i].character
  {
    seq(n, i requires 0 <= i < n => xs[|xs| - n + i].character)
  }

  /** How many characters decoder_get_text hands out: all, or max_len - 1 when fewer fit. */
  function TextLen(d: Dec, maxLen: nat): (n: nat)
    requires WellFormed(d) && maxLen > 0
    ensures n <= d.count && n < maxLen
    ensures n == d.count || n == maxLen - 1
  {
    if d.count < maxLen - 1 then d.count else maxLen - 1
  }

  /** decoder_get_last_char: the newest character, or NUL with timestamp 0 when there is none. */
  function LastChar(d: Dec): (c: DecodedChar)
    requires WellFormed(d)
    ensures d.count == 0 ==> c == NoChar
    ensures d.count > 0 ==> c == Recent(d)[d.count - 1]
  {
    if d.count == 0 then NoChar
    else d.buf[(d.head + BufferSize - 1) % BufferSize]
  }

  /** After any push the newest character is the one pushed. */
  lemma LastCharAfterPush(d: Dec, c: char, ts: int)
    requires WellFormed(d)
    ensures LastChar(PushChar(d, c, ts)) == DecodedChar(c, ts)
  {
    PushRecent(d, c, ts);
  }

  /** Reset leaves nothing to read, no pattern and no statistics. */
  lemma ResetEmpties()
    ensures Recent(Empty()) == [] && Unread(Empty()) == [] && LastChar(Empty()) == NoChar
    ensures Empty().state == Idle && Empty().pattern == [] && Empty().stats == Stats(0, 0, 0, 0, 0)
  {
  }

  /** The slot decoder_get_text reads for position i of its output is that of the i-th of the newest n characters. */
  lemma TextIndex(head: nat, count: nat, n: nat, i: nat)
    requires head < BufferSize && count <= BufferSize && (count < BufferSize ==> head == count) && i < n <= count
    ensures ((if count >= BufferSize then head else 0) + count - n + i) % BufferSize ==
            ((head + BufferSize - count) % BufferSize + (count - n + i)) % BufferSize
  {
    ModOffset(head + BufferSize - count, count - n + i, BufferSize);
    if count < BufferSize {
      ModAddMultiple(count - n + i, 1, BufferSize);
    }
  }

  /** Entry i of the newest n characters sits in the slot decoder_get_text reads for it. */
  lemma NewestAt(d: Dec, n: nat, i: nat)
    requires WellFormed(d) && i < n <= d.count
    ensures Recent(d)[d.count - n..][i] ==
            d.buf[((if d.count >= BufferSize then d.head else 0) + d.count - n + i) % BufferSize]
  {
    TextIndex(d.head, d.count, n, i);
  }

  /** The decoder's static state, updated in place. */
  class DecoderState {
    const buffer: array<DecodedChar>
    const patternBuf: array<char>
    var head: nat
    var count: nat
    var readPos: nat
    var patternLen: nat
    var state: DState
    var stats: Stats

    ghost predicate Valid()
      reads this, buffer, patternBuf
    {
      buffer.Length == BufferSize && patternBuf.Length == MaxPatternLen + 1 &&
      patternLen <= MaxPatternLen && WellFormed(Snapshot())
    }

    function Snapshot(): Dec
      reads this, buffer, patternBuf
    {
      Dec(buffer[..], head, count, readPos,
          if patternLen <= patternBuf.Length then patternBuf[..patternLen] else [], state, stats)
    }

    /** decoder_init */
    constructor Init()
      ensures Valid() && Snapshot() == Empty() && fresh(buffer) && fresh(patternBuf)
    {
      buffer := new DecodedChar[BufferSize](_ => NoChar);
      patternBuf := new char[MaxPatternLen + 1](_ => '\0');
      head, count, readPos, patternLen := 0, 0, 0, 0;
      state := Idle;
      stats := Stats(0, 0, 0, 0, 0);
      new;
      assert buffer[..] == Empty().buf;
    }

    /** decoder_reset */
    method Reset()
      requires Valid()
      modifies this, buffer, patternBuf
      ensures Valid() && Snapshot() == Empty()
    {
      head, count, readPos, patternLen := 0, 0, 0, 0;
      state := Idle;
      stats := Stats(0, 0, 0, 0, 0);
      forall i | 0 <= i < buffer.Length {
        buffer[i] := NoChar;
      }
      forall i | 0 <= i < patternBuf.Length {
        patternBuf[i] := '\0';
      }
      assert buffer[..] == Empty().buf;
    }

    /** buffer_push */
    method BufferPush(c: char, ts: int)
      requires Valid()
      modifies this, buffer
      ensures Valid() && Snapshot() == PushChar(old(Snapshot()), c, ts)
    {
      buffer[head] := DecodedChar(c, ts);
      head := (head + 1) % BufferSize;
      if count < BufferSize {
        count := count + 1;
      }
    }

    /** Append one element to the pattern if there is room. */
    method AddElement(el: char)
      requires Valid() && (el == '.' || el == '-')
      modifies this, patternBuf
      ensures Valid() && state == Receiving
      ensures var s := old(Snapshot());
        Snapshot() == s.(pattern := if |s.pattern| < MaxPatternLen then s.pattern + [el] else s.pattern, state := Receiving)
    {
      if patternLen < MaxPatternLen {
        patternBuf[patternLen] := el;
        patternLen := patternLen + 1;
      }
      state := Receiving;
    }

    /** finalize_pattern */
    method FinalizePattern(ts: int)
      requires Valid()
      modifies this, buffer, patternBuf
      ensures Valid() && Snapshot() == Finalize(old(Snapshot()), ts)
    {
      if patternLen == 0 {
        return;
      }
      patternBuf[patternLen] := '\0';
      var decoded := MorseTable.TableLookup(Some(patternBuf[..patternLen]));
      if decoded != '\0' {
        BufferPush(decoded, ts);
        stats := stats.(charsDecoded := WrapAdd(stats.charsDecoded, 1));
      } else {
        stats := stats.(errors := WrapAdd(stats.errors, 1));
      }
      patternLen := 0;
      state := Idle;
    }

    /** decoder_handle_event */
    method HandleEvent(e: KeyEvent, ts: int)
      requires Valid()
      modifies this, buffer, patternBuf
      ensures Valid() && Snapshot() == Handle(old(Snapshot()), e, ts)
    {
      match e
      case Dit => AddElement('.');
      case Dah => AddElement('-');
      case IntraGap =>
      case CharGap => FinalizePattern(ts);
      case WordGap =>
        FinalizePattern(ts);
        BufferPush(' ', ts);
        stats := stats.(wordsDecoded := WrapAdd(stats.wordsDecoded, 1));
      case Unknown =>
    }

    /**
     * decoder_get_text: the newest min(count, max_len - 1) characters, oldest
     * first, then a NUL. The caller's buffer holds max_len characters.
     */
    method GetText(out: array<char>, maxLen: nat) returns (n: nat)
      requires Valid() && maxLen <= out.Length && out != patternBuf
      modifies out
      ensures maxLen == 0 ==> n == 0 && out[..] == old(out[..])
      ensures maxLen > 0 ==> (n == TextLen(Snapshot(), maxLen) && out[n] == '\0' &&
        out[..n] == Newest(Recent(Snapshot()), n) && out[n + 1..] == old(out[n + 1..]))
    {
      if maxLen == 0 {
        return 0;
      }
      n := if count < maxLen - 1 then count else maxLen - 1;
      if n == 0 {
        out[0] := '\0';
        assert out[1..] == old(out[1..]);
        return 0;
      }
      CopyNewest(out, n);
      ghost var copied := out[..n];
      assert out[n + 1..] == old(out[n..])[1..];
      ghost var rest := out[n + 1..];
      out[n] := '\0';
      assert out[..n] == copied && out[n + 1..] == rest;
    }

    /** The copy loop of decoder_get_text: the newest n characters into out[0..n). */
    method CopyNewest(out: array<char>, n: nat)
      requires Valid() && 0 < n <= count && n <= out.Length && out != patternBuf
      modifies out
      ensures out[..n] == Newest(Recent(Snapshot()), n) && out[n..] == old(out[n..])
    {
      var start := if count >= BufferSize then head else 0;
      ghost var d := Snapshot();
      ghost var text := Newest(Recent(d), n);
      forall i | 0 <= i < n
        ensures text[i] == buffer[(start + count - n + i) % BufferSize].character
      {
        NewestAt(d, n, i);
      }
      CopyCharacters(out, start, n, text);
      assert out[..n] == text;
    }

    /** The copy loop of decoder_get_text: the characters of n entries from the slot after `start + count - n`. */
    method CopyCharacters(out: array<char>, start: nat, n: nat, ghost text: string)
      requires buffer.Length == BufferSize && n <= count && n <= out.Length && |text| == n
      requires forall i | 0 <= i < n :: text[i] == buffer[(start + count - n + i) % BufferSize].character
      modifies out
      ensures forall k | 0 <= k < n :: out[k] == text[k]
      ensures forall k | n <= k < out.Length :: out[k] == old(out[k])
    {
      for i := 0 to n
        invariant forall k | 0 <= k < i :: out[k] == text[k]
        invariant forall k | n <= k < out.Length :: out[k] == old(out[k])
      {
        out[i] := buffer[(start + count - n + i) % BufferSize].character;
      }
    }

    /** decoder_get_text_with_timestamps: the newest min(count, max_count) entries, oldest first. */
    method GetTextWithTimestamps(out: array<DecodedChar>, maxCount: nat) returns (n: nat)
      requires Valid() && maxCount <= out.Length && out != buffer
      modifies out
      ensures n == (if count < maxCount then count else maxCount)
      ensures out[..n] == Recent(Snapshot())[count - n..] && out[n..] == old(out[n..])
    {
      n := if count < maxCount then count else maxCount;
      if n == 0 {
        return 0;
      }
      var start := if count >= BufferSize then head else 0;
      ghost var d := Snapshot();
      ghost var text := Recent(d)[count - n..];
      forall i | 0 <= i < n
        ensures text[i] == buffer[(start + count - n + i) % BufferSize]
      {
        NewestAt(d, n, i);
      }
      CopyEntries(out, start, n, text);
      assert out[..n] == text;
    }

    /** The copy loop of decoder_get_text_with_timestamps: n entries from the slot after `start + count - n`. */
    method CopyEntries(out: array<DecodedChar>, start: nat, n: nat, ghost text: seq<DecodedChar>)
      requires buffer.Length == BufferSize && n <= count && n <= out.Length && out != buffer && |text| == n
      requires forall i | 0 <= i < n :: text[i] == buffer[(start + count - n + i) % BufferSize]
      modifies out
      ensures forall k | 0 <= k < n :: out[k] == text[k]
      ensures forall k | n <= k < out.Length :: out[k] == old(out[k])
    {
      for i := 0 to n
        invariant forall k | 0 <= k < i :: out[k] == text[k]
        invariant forall k | n <= k < out.Length :: out[k] == old(out[k])
      {
        out[i] := buffer[(start + count - n + i) % BufferSize];
      }
    }

    /** decoder_get_last_char */
    function GetLastChar(): (c: DecodedChar)
      reads this, buffer, patternBuf
      requires Valid()
      ensures c == LastChar(Snapshot())
    {
      if count == 0 then NoChar
      else buffer[(head + BufferSize - 1) % BufferSize]
    }

    /** decoder_pop_char */
    method PopChar() returns (c: DecodedChar)
      requires Valid()
      modifies this
      ensures Valid() && (Snapshot(), c) == Pop(old(Snapshot()))
    {
      if readPos == head {
        return NoChar;
      }
      c := buffer[readPos];
      readPos := (readPos + 1) % BufferSize;
    }

    /** decoder_get_current_pattern: at most max_len - 1 elements, then a NUL. */
    method GetCurrentPattern(out: array<char>, maxLen: nat) returns (n: nat)
      requires Valid() && maxLen <= out.Length && out != patternBuf
      modifies out
      ensures maxLen == 0 ==> n == 0
      ensures maxLen > 0 ==> (n == (if patternLen < maxLen - 1 then patternLen else maxLen - 1) &&
        out[..n] == Snapshot().pattern[..n] && out[n] == '\0')
    {
      if maxLen == 0 {
        return 0;
      }
      n := if patternLen < maxLen - 1 then patternLen else maxLen - 1;
      forall i | 0 <= i < n {
        out[i] := patternBuf[i];
      }
      out[n] := '\0';
    }
  }

  lemma DecodeE()
    ensures MorseTable.Decode(Some(".")) == 'E'
  {
    MorseTable.TableAt(4);
    assert MorseTable.Table[4] == MorseTable.LetterEntries[4] == MorseTable.Entry(".", 'E');
    MorseTable.DecodeAt(4);
  }

  lemma DecodeT()
    ensures MorseTable.Decode(Some("-")) == 'T'
  {
    MorseTable.TableAt(19);
    assert MorseTable.Table[19] == MorseTable.LetterEntries[19] == MorseTable.Entry("-", 'T');
    MorseTable.DecodeAt(19);
  }

  /** "E" at 2000 then "T" at 4000 come back in order with their timestamps. */
  lemma DecodesEThenT()
    ensures var d1 := Handle(Handle(Empty(), Dit, 1000), CharGap, 2000);
      var d2 := Handle(Handle(d1, Dah, 3000), CharGap, 4000);
      Recent(d2) == [DecodedChar('E', 2000), DecodedChar('T', 4000)] && d2.stats.charsDecoded == 2
  {
    var d0 := Handle(Empty(), Dit, 1000);
    assert d0.pattern == ".";
    DecodeE();
    PushRecent(d0, 'E', 2000);
    var d1 := Handle(d0, CharGap, 2000);
    assert Recent(d1) == [DecodedChar('E', 2000)] && d1.stats.charsDecoded == 1;
    var d1a := Handle(d1, Dah, 3000);
    assert d1a.pattern == "-";
    DecodeT();
    PushRecent(d1a, 'T', 4000);
  }

  lemma DecodeHash()
    ensures MorseTable.Decode(Some("........")) == '#'
  {
    MorseTable.TableAt(56);
    assert MorseTable.Table[56] == MorseTable.SignEntries[2] == MorseTable.Entry("........", '#');
    MorseTable.DecodeAt(56);
  }

  /**
   * Ten dits keep only the first eight, and eight dits are the error
   * prosign, which the table maps to '#': a character, not an error.
   */
  lemma TenDitsDecodeAsHash(d: Dec, ts: int)
    requires WellFormed(d) && d.pattern == "........"
    ensures Handle(d, Dit, ts).pattern == d.pattern
    ensures var r := Handle(d, CharGap, ts); LastChar(r) == DecodedChar('#', ts) && r.stats.errors == d.stats.errors
  {
    DecodeHash();
    var p := PushChar(d, '#', ts);
    LastCharAfterPush(d, '#', ts);
    var r := Handle(d, CharGap, ts);
    SameRing(r, p);
  }
}
