/**
 * CWNet framing. A frame is a command byte whose bits 7-6 give the
 * category and bits 5-0 the command, followed — for the short and long
 * block categories — by a one-byte or a two-byte little-endian length and
 * that many payload bytes. Category 3 is reserved and is an error.
 *
 * `Decode` states, on a whole byte sequence that starts at a frame
 * boundary, what the first frame is. The streaming parser is a class whose
 * state is proved to track the bytes of the frame in progress (`Tracks`),
 * and each call to `Parse` is proved to answer what `Decode` says about
 * those bytes followed by the new chunk.
 */
module CwnetFrame {
  import opened Common

  datatype Category = NoPayload | ShortPayload | LongPayload | Reserved

  /** cwnet_frame_get_category: bits 7-6 of the command byte. */
  function CategoryOf(b: u8): (c: Category)
    ensures c == Reserved <==> b >= 0xC0
    ensures c == NoPayload <==> b < 0x40
    ensures c == ShortPayload <==> 0x40 <= b < 0x80
  {
    match b / 64
    case 0 => NoPayload
    case 1 => ShortPayload
    case 2 => LongPayload
    case _ => Reserved
  }

  function CategoryBits(c: Category): nat
  {
    match c
    case NoPayload => 0
    case ShortPayload => 1
    case LongPayload => 2
    case Reserved => 3
  }

  /** cwnet_frame_get_command: bits 5-0 of the command byte. */
  function CommandOf(b: u8): (cmd: u8)
    ensures cmd < 64
  {
    b % 64
  }

  /** Category and command together are the whole byte: nothing is lost by splitting it. */
  lemma CommandByteSplit(b: u8)
    ensures b == CategoryBits(CategoryOf(b)) * 64 + CommandOf(b)
  {
  }

  /** The command byte with a given category and command: the inverse of the split. */
  function CommandByte(c: Category, cmd: u8): (b: u8)
    requires cmd < 64
    ensures CategoryOf(b) == c && CommandOf(b) == cmd
  {
    CategoryBits(c) * 64 + cmd
  }

  /** Length of the header (command byte and length bytes) of each category. */
  function HeaderLen(c: Category): nat
  {
    match c
    case NoPayload => 1
    case ShortPayload => 2
    case LongPayload => 3
    case Reserved => 1
  }

  /** What the first frame of a byte sequence is: incomplete, a reserved category, or a frame with its payload b[start..end]. */
  datatype Decoded = NeedMore | Invalid(end: nat) | Frame(command: u8, start: nat, end: nat)

  function Decode(b: seq<u8>): (d: Decoded)
    ensures d.Invalid? ==> d.end == 1 <= |b|
    ensures d.Frame? ==> 1 <= d.start <= d.end <= |b| && d.command < 64
    ensures d.Frame? ==> d.start == HeaderLen(CategoryOf(b[0])) && d.command == CommandOf(b[0])
  {
    if |b| == 0 then NeedMore
    else
      var cat, cmd := CategoryOf(b[0]), CommandOf(b[0]);
      match cat
      case Reserved => Invalid(1)
      case NoPayload => Frame(cmd, 1, 1)
      case ShortPayload =>
        if |b| < 2 || |b| < 2 + b[1] as int then NeedMore else Frame(cmd, 2, 2 + b[1] as int)
      case LongPayload =>
        if |b| < 3 || |b| < 3 + LongLen(b[1], b[2]) then NeedMore else Frame(cmd, 3, 3 + LongLen(b[1], b[2]))
  }

  /** The two-byte little-endian length of a long block. */
  function LongLen(lo: u8, hi: u8): (n: nat)
    ensures n < 0x1_0000 && n % 256 == lo && n / 256 == hi
  {
    lo as int + 256 * hi as int
  }

  /** The end of a decoded frame or error. */
  function EndOf(d: Decoded): nat
    requires !d.NeedMore?
  {
    d.end
  }

  /** Bytes after the end of the first frame do not change what it is. */
  lemma {:induction false} DecodeExtends(b: seq<u8>, more: seq<u8>)
    requires !Decode(b).NeedMore?
    ensures Decode(b + more) == Decode(b)
  {
    assert (b + more)[0] == b[0];
    if |b| >= 2 { assert (b + more)[1] == b[1]; }
    if |b| >= 3 { assert (b + more)[2] == b[2]; }
  }

  /** Every proper prefix of a frame, up to its last byte, is still incomplete. */
  lemma {:induction false} DecodePrefixNeedsMore(b: seq<u8>, k: nat)
    requires !Decode(b).NeedMore? && k < EndOf(Decode(b))
    ensures Decode(b[..k]) == NeedMore
  {
    if k >= 1 { assert b[..k][0] == b[0]; }
    if k >= 2 { assert b[..k][1] == b[1]; }
    if k >= 3 { assert b[..k][2] == b[2]; }
  }

  /** A frame is decided by its own bytes: its prefix up to its end decodes the same. */
  lemma {:induction false} DecodeOwnBytes(b: seq<u8>)
    requires !Decode(b).NeedMore?
    ensures Decode(b[..EndOf(Decode(b))]) == Decode(b)
  {
    var e := EndOf(Decode(b));
    assert b[..e][0] == b[0];
    if e >= 2 { assert b[..e][1] == b[1]; }
    if e >= 3 { assert b[..e][2] == b[2]; }
  }

  /** The encoded form of a frame: command byte, length bytes as the category needs, payload. */
  function Encode(c: Category, cmd: u8, payload: seq<u8>): (b: seq<u8>)
    requires cmd < 64 && c != Reserved
    requires c == NoPayload ==> |payload| == 0
    requires c == ShortPayload ==> |payload| < 0x100
    requires c == LongPayload ==> |payload| < 0x1_0000
    ensures |b| == HeaderLen(c) + |payload| && b[HeaderLen(c)..] == payload
  {
    match c
    case NoPayload => [CommandByte(c, cmd)]
    case ShortPayload => [CommandByte(c, cmd), |payload|] + payload
    case LongPayload => [CommandByte(c, cmd), |payload| % 256, |payload| / 256] + payload
  }

  /** The payload length announced by the header of a short or long block. */
  ghost function PayloadLenOf(p: seq<u8>): nat
    requires |p| >= 1 && (CategoryOf(p[0]) == ShortPayload || CategoryOf(p[0]) == LongPayload)
    requires |p| >= HeaderLen(CategoryOf(p[0]))
  {
    if CategoryOf(p[0]) == ShortPayload then p[1] else LongLen(p[1], p[2])
  }

  /**
   * Appending payload bytes to an incomplete block keeps its header; the
   * block stays incomplete until the announced length is reached and is a
   * frame ending exactly there once it is.
   */
  lemma PayloadExtend(p: seq<u8>, more: seq<u8>)
    requires |p| >= 1 && (CategoryOf(p[0]) == ShortPayload || CategoryOf(p[0]) == LongPayload)
    requires |p| >= HeaderLen(CategoryOf(p[0])) && Decode(p) == NeedMore
    requires |p| + |more| <= HeaderLen(CategoryOf(p[0])) + PayloadLenOf(p)
    ensures var b, h := p + more, HeaderLen(CategoryOf(p[0]));
      |p| < h + PayloadLenOf(p) &&
      b[0] == p[0] && b[1] == p[1] && (h == 3 ==> b[2] == p[2]) && b[h..] == p[h..] + more &&
      (|b| < h + PayloadLenOf(p) ==> Decode(b) == NeedMore) &&
      (|b| == h + PayloadLenOf(p) ==> Decode(b) == Frame(CommandOf(p[0]), h, |b|))
  {
    var b, h := p + more, HeaderLen(CategoryOf(p[0]));
    assert b[0] == p[0] && b[1] == p[1];
    if h == 3 { assert b[2] == p[2]; }
    assert b[h..] == p[h..] + more;
  }

  /** Decoding an encoded frame, whatever follows it, gives back its command and payload. */
  lemma EncodeDecode(c: Category, cmd: u8, payload: seq<u8>, rest: seq<u8>)
    requires cmd < 64 && c != Reserved
    requires c == NoPayload ==> |payload| == 0
    requires c == ShortPayload ==> |payload| < 0x100
    requires c == LongPayload ==> |payload| < 0x1_0000
    ensures var b := Encode(c, cmd, payload) + rest;
      Decode(b) == Frame(cmd, HeaderLen(c), HeaderLen(c) + |payload|) &&
      b[HeaderLen(c)..HeaderLen(c) + |payload|] == payload
  {
    var e := Encode(c, cmd, payload);
    var b := e + rest;
    assert b[0] == e[0] == CommandByte(c, cmd);
    if c != NoPayload { assert b[1] == e[1]; }
    if c == LongPayload { assert b[2] == e[2]; }
    assert b[HeaderLen(c)..HeaderLen(c) + |payload|] == e[HeaderLen(c)..] == payload;
  }

  datatype Status = ParseOk | ParseNeedMore | ParseError

  /** Where the payload of a completed frame lies: nowhere, inside the caller's chunk at an offset, or in the parser's buffer. */
  datatype PayloadRef = NoData | InInput(offset: nat) | InBuffer

  datatype ParseResult = ParseResult(status: Status, command: u8, payloadLen: u16, payload: PayloadRef, consumed: nat)

  const BufSize: nat := 256

  datatype PState = ExpectCommand | ExpectLength1 | ExpectLength2 | ExpectPayload

  class FrameParser {
    var state: PState
    var command: u8
    var category: Category
    var payloadLen: u16
    var payloadReceived: u16
    var lengthByte1: u8
    const buf: array<u8>
    /** The bytes of the frame in progress. */
    ghost var pending: seq<u8>

    /**
     * The parser's fields are exactly what the bytes of the frame in
     * progress determine, and the buffer holds the payload bytes received
     * so far as long as they fit.
     */
    ghost predicate Tracks(p: seq<u8>)
      reads this, buf
    {
      buf.Length == BufSize && Decode(p) == NeedMore && HeaderTracks(p) && BufferTracks(p)
    }

    /** The state and header fields follow the header bytes received so far. */
    ghost predicate HeaderTracks(p: seq<u8>)
      reads this
    {
      (|p| == 0 ==> state == ExpectCommand && command == 0 && category == NoPayload &&
                    payloadLen == 0 && payloadReceived == 0 && lengthByte1 == 0) &&
      (|p| >= 1 ==> command == p[0] && category == CategoryOf(p[0])) &&
      (|p| == 1 ==> state == ExpectLength1 && payloadLen == 0 && payloadReceived == 0 && lengthByte1 == 0) &&
      (|p| >= 2 && category == ShortPayload ==>
         state == ExpectPayload && payloadLen == p[1] && payloadReceived == |p| - 2 && lengthByte1 == 0) &&
      (|p| == 2 && category == LongPayload ==>
         state == ExpectLength2 && lengthByte1 == p[1] && payloadLen == 0 && payloadReceived == 0) &&
      (|p| >= 3 && category == LongPayload ==>
         state == ExpectPayload && lengthByte1 == p[1] && payloadLen == LongLen(p[1], p[2]) && payloadReceived == |p| - 3)
    }

    /** While the payload still fits, the buffer holds the payload bytes received so far. */
    ghost predicate BufferTracks(p: seq<u8>)
      reads this, buf
    {
      state == ExpectPayload && payloadReceived <= BufSize && buf.Length == BufSize && |p| >= HeaderLen(category) ==>
        buf[..payloadReceived] == p[HeaderLen(category)..]
    }

    ghost predicate Valid()
      reads this, buf
    {
      Tracks(pending)
    }

    /** cwnet_frame_parser_init: every field zero, waiting for a command byte. */
    constructor Init()
      ensures Valid() && pending == [] && fresh(buf)
    {
      state, command, category := ExpectCommand, 0, NoPayload;
      payloadLen, payloadReceived, lengthByte1 := 0, 0, 0;
      buf := new u8[BufSize](_ => 0);
      pending := [];
    }

    /** cwnet_frame_parser_reset: forget the frame in progress (the buffer's bytes stay). */
    method Reset()
      requires buf.Length == BufSize
      modifies this
      ensures Valid() && pending == []
    {
      state, command, category := ExpectCommand, 0, NoPayload;
      payloadLen, payloadReceived, lengthByte1 := 0, 0, 0;
      pending := [];
    }

    /** memcpy of a chunk into the buffer at an offset. */
    method CopyIn(at: nat, src: seq<u8>)
      requires at + |src| <= buf.Length
      modifies buf
      ensures buf[..at + |src|] == old(buf[..at]) + src
    {
      forall i | 0 <= i < |src| {
        buf[at + i] := src[i];
      }
      assert buf[..at + |src|] == old(buf[..at]) + src;
    }

    /**
     * One step of the parse loop at `pos`: consumes one header byte, or as
     * much payload as the chunk holds. When it completes a frame or meets a
     * reserved category, `done` is set, `r` is the answer and the parser is
     * reset; otherwise the consumed bytes join the frame in progress.
     */
    method Step(data: seq<u8>, pos: nat) returns (done: bool, r: ParseResult, next: nat)
      requires Valid() && pos < |data|
      modifies this, buf
      ensures Valid() && pos < next <= |data|
      ensures var b := old(pending) + data[pos..next];
        if done then
          pending == [] && StepDone(r, b, |old(pending)|, pos, buf[..])
        else
          pending == b && 1 <= |b| && (next < |data| ==> |b| <= HeaderLen(CategoryOf(b[0])))
    {
      if state == ExpectPayload {
        done, r, next := StepPayload(data, pos);
      } else {
        next := pos + 1;
        assert data[pos..next] == [data[pos]];
        done, r := StepHeader(data[pos], pos);
      }
    }

    /** A header byte: the command byte, or one of the length bytes. */
    method StepHeader(x: u8, pos: nat) returns (done: bool, r: ParseResult)
      requires Valid() && state != ExpectPayload
      modifies this
      ensures Valid()
      ensures var b := old(pending) + [x];
        if done then
          pending == [] && StepDone(r, b, |old(pending)|, pos, buf[..]) && r.payload == NoData
        else
          pending == b && 1 <= |b| <= HeaderLen(CategoryOf(b[0]))
    {
      ghost var p0 := pending;
      r := ParseResult(ParseNeedMore, 0, 0, NoData, 0);
      var next := pos + 1;
      match state {
        case ExpectCommand =>
          command, category := x, CategoryOf(x);
          assert p0 == [] && p0 + [x] == [x];
          if category == Reserved {
            Reset();
            return true, ParseResult(ParseError, 0, 0, NoData, next);
          }
          if category == NoPayload {
            Reset();
            return true, ParseResult(ParseOk, CommandOf(x), 0, NoData, next);
          }
          state := ExpectLength1;
          pending := [x];
          return false, r;
        case ExpectLength1 =>
          assert |p0| == 1;
          if category == ShortPayload {
            payloadLen := x;
            payloadReceived := 0;
            if x == 0 {
              var cmd := CommandOf(command);
              Reset();
              return true, ParseResult(ParseOk, cmd, 0, NoData, next);
            }
            state := ExpectPayload;
          } else {
            lengthByte1 := x;
            state := ExpectLength2;
          }
          pending := p0 + [x];
          return false, r;
        case ExpectLength2 =>
          assert |p0| == 2;
          payloadLen := LongLen(lengthByte1, x);
          payloadReceived := 0;
          if payloadLen == 0 {
            var cmd := CommandOf(command);
            Reset();
            return true, ParseResult(ParseOk, cmd, 0, NoData, next);
          }
          state := ExpectPayload;
          pending := p0 + [x];
          return false, r;
      }
    }

    /** The payload state of the parse loop. */
    method StepPayload(data: seq<u8>, pos: nat) returns (done: bool, r: ParseResult, next: nat)
      requires Valid() && pos < |data| && state == ExpectPayload
      modifies this, buf
      ensures Valid() && pos < next <= |data|
      ensures var b := old(pending) + data[pos..next];
        if done then
          pending == [] && StepDone(r, b, |old(pending)|, pos, buf[..])
        else
          pending == b && 1 <= |b| && (next < |data| ==> |b| <= HeaderLen(CategoryOf(b[0])))
    {
      assert |pending| >= HeaderLen(category) && payloadReceived == |pending| - HeaderLen(category);
      if |data| - pos >= payloadLen - payloadReceived {
        r, next := FinishPayload(data, pos);
        done := true;
      } else {
        BufferPayload(data, pos);
        r, next, done := ParseResult(ParseNeedMore, 0, 0, NoData, 0), |data|, false;
      }
    }

    /** The chunk holds the rest of the payload: the frame is complete. */
    method FinishPayload(data: seq<u8>, pos: nat) returns (r: ParseResult, next: nat)
      requires Valid() && pos < |data| && state == ExpectPayload
      requires |data| - pos >= payloadLen - payloadReceived
      modifies this, buf
      ensures Valid() && pos < next <= |data|
      ensures var b := old(pending) + data[pos..next];
        pending == [] && StepDone(r, b, |old(pending)|, pos, buf[..])
    {
      ghost var p0 := pending;
      ghost var h := HeaderLen(category);
      assert |p0| >= h && payloadReceived == |p0| - h && payloadLen == PayloadLenOf(p0);
      var needed := payloadLen - payloadReceived;
      next := pos + needed;
      ghost var b := p0 + data[pos..next];
      PayloadExtend(p0, data[pos..next]);
      ghost var d := Decode(b);
      assert d == Frame(CommandOf(command), h, |b|) && b[h..] == p0[h..] + data[pos..next];
      var ref: PayloadRef;
      if payloadReceived == 0 {
        ref := InInput(pos);
      } else {
        if payloadReceived + needed <= BufSize {
          assert buf[..payloadReceived] == p0[h..];
          CopyIn(payloadReceived, data[pos..next]);
          assert buf[..payloadLen] == b[h..];
        }
        ref := InBuffer;
      }
      var cmd, len := CommandOf(command), payloadLen;
      ghost var bytes := buf[..];
      Reset();
      r := ParseResult(ParseOk, cmd, len, ref, next);
      assert Answers(r, d, |p0|, pos);
      assert buf[..] == bytes;
    }

    /** The chunk ends inside the payload: keep what fits in the buffer and wait for more. */
    method BufferPayload(data: seq<u8>, pos: nat)
      requires Valid() && pos < |data| && state == ExpectPayload
      requires |data| - pos < payloadLen - payloadReceived
      modifies this, buf
      ensures Valid() && pending == old(pending) + data[pos..]
    {
      ghost var p0 := pending;
      assert |p0| >= HeaderLen(category) && payloadReceived == |p0| - HeaderLen(category) && payloadLen == PayloadLenOf(p0);
      var remaining := |data| - pos;
      PayloadExtend(p0, data[pos..]);
      if payloadReceived + remaining <= BufSize {
        CopyIn(payloadReceived, data[pos..]);
      }
      payloadReceived := payloadReceived + remaining;
      pending := p0 + data[pos..];
    }

    /**
     * Between steps, the frame in progress is the pending bytes followed by
     * the first `pos` bytes of the chunk, and inside the chunk it is still
     * within its header.
     */
    ghost predicate InChunk(p0: seq<u8>, data: seq<u8>, pos: nat)
      reads this
    {
      pos <= |data| && pending == p0 + data[..pos] &&
      (0 < pos < |data| ==> 1 <= |pending| <= HeaderLen(CategoryOf(pending[0])))
    }

    /** One step of the parse loop, with its outcome seen from the start of the chunk. */
    method Advance(data: seq<u8>, pos: nat, ghost p0: seq<u8>) returns (done: bool, r: ParseResult, next: nat)
      requires Valid() && pos < |data| && InChunk(p0, data, pos)
      modifies this, buf
      ensures Valid() && pos < next <= |data|
      ensures done ==> ChunkOutcome(r, p0, data, pending, buf[..])
      ensures !done ==> InChunk(p0, data, next)
    {
      ghost var before := pending;
      done, r, next := Step(data, pos);
      if done {
        FinishedInChunk(p0, data, pos, next, before, r, buf[..]);
      } else {
        assert p0 + data[..next] == before + data[pos..next];
      }
    }

    /**
     * cwnet_frame_parse on a chunk (`None` stands for a NULL pointer): the
     * answer is what `Decode` says about the frame in progress followed by
     * the chunk — the frame, with the bytes of the chunk it used; the
     * reserved-category error; or NEED_MORE with the whole chunk consumed
     * and added to the frame in progress.
     */
    method Parse(chunk: Option<seq<u8>>) returns (r: ParseResult)
      requires Valid()
      modifies this, buf
      ensures Valid()
      ensures ChunkOutcome(r, old(pending), if chunk.Some? then chunk.value else [], pending, buf[..])
    {
      var data := if chunk.Some? then chunk.value else [];
      ghost var p0 := pending;
      if |data| == 0 {
        assert p0 + data == p0;
        r := ParseResult(ParseNeedMore, 0, 0, NoData, 0);
        assert ChunkOutcome(r, p0, data, pending, buf[..]);
        return;
      }
      var pos := 0;
      while pos < |data|
        invariant 0 <= pos <= |data| && Valid()
        invariant InChunk(p0, data, pos)
        decreases |data| - pos
      {
        var done, res, next := Advance(data, pos, p0);
        if done {
          return res;
        }
        pos := next;
      }
      assert data[..pos] == data;
      r := ParseResult(ParseNeedMore, 0, 0, NoData, pos);
      assert ChunkOutcome(r, p0, data, pending, buf[..]);
    }
  }

  /**
   * A frame finished at `next` by the step at `pos` is the first frame of
   * the pending bytes followed by the whole chunk, and the step's answer
   * is the chunk's answer.
   */
  lemma FinishedInChunk(p0: seq<u8>, data: seq<u8>, pos: nat, next: nat, before: seq<u8>, r: ParseResult, bytes: seq<u8>)
    requires pos < next <= |data| && before == p0 + data[..pos]
    requires StepDone(r, before + data[pos..next], |before|, pos, bytes)
    requires 0 < pos ==> 1 <= |before| <= HeaderLen(CategoryOf(before[0]))
    ensures ChunkOutcome(r, p0, data, [], bytes)
  {
    var c := p0 + data;
    var b := before + data[pos..next];
    var d := Decode(b);
    ChunkSplit(p0, data, pos, next, before);
    DecodeExtends(b, data[next..]);
    assert Decode(c) == d;
    if pos > 0 && d.Frame? {
      assert before[0] == b[0];
      assert |p0| + pos <= d.start;
    }
    AnswersRebase(r, d, |p0|, pos);
    if d.Frame? {
      assert c[d.start..d.end] == b[d.start..d.end];
    }
  }

  /** The bytes up to a step's end, followed by the rest of the chunk, are all the bytes. */
  lemma ChunkSplit(p0: seq<u8>, data: seq<u8>, pos: nat, next: nat, before: seq<u8>)
    requires pos <= next <= |data| && before == p0 + data[..pos]
    ensures p0 + data == (before + data[pos..next]) + data[next..]
  {
    assert data == data[..pos] + data[pos..next] + data[next..];
  }

  /**
   * A step that read from offset `pos` of the chunk finished the first
   * frame of `b` (or met a reserved category) exactly at the end of `b`,
   * `already` bytes of `b` having arrived before: `r` answers it, and a
   * payload answered from the buffer is there in full when it fits.
   */
  ghost predicate StepDone(r: ParseResult, b: seq<u8>, already: nat, pos: nat, bytes: seq<u8>)
  {
    var d := Decode(b);
    !d.NeedMore? && EndOf(d) == |b| && Answers(r, d, already, pos) &&
    (r.payload == InBuffer && r.payloadLen <= BufSize ==> r.payloadLen <= |bytes| && bytes[..r.payloadLen] == b[d.start..d.end])
  }

  /**
   * What a call on a chunk `data` answers when `p0` were the bytes of the
   * frame in progress, leaving `after` in progress and the buffer holding
   * `bytes`: NEED_MORE with the whole chunk consumed and added to the
   * frame in progress; or the answer for the first frame of `p0 + data`,
   * with nothing left in progress; a payload answered from the buffer is
   * there in full when it fits.
   */
  ghost predicate ChunkOutcome(r: ParseResult, p0: seq<u8>, data: seq<u8>, after: seq<u8>, bytes: seq<u8>)
  {
    var b := p0 + data;
    var d := Decode(b);
    (d.NeedMore? ==> r == ParseResult(ParseNeedMore, 0, 0, NoData, |data|) && after == b) &&
    (!d.NeedMore? ==> Answers(r, d, |p0|, 0) && after == []) &&
    (d.Frame? && r.payload == InBuffer && r.payloadLen <= BufSize ==>
       r.payloadLen <= |bytes| && bytes[..r.payloadLen] == b[d.start..d.end])
  }

  /** An answer computed in the middle of a chunk, seen from the chunk's start. */
  lemma AnswersRebase(r: ParseResult, d: Decoded, already: nat, pos: nat)
    requires Answers(r, d, already + pos, pos)
    requires pos > 0 && d.Frame? ==> already + pos <= d.start
    ensures Answers(r, d, already, 0)
  {
  }

  /**
   * The answer `r` when the first frame `d` of some bytes is finished by
   * input read from offset `pos` of the caller's chunk, `already` of its
   * bytes having arrived before: OK with the command, the payload length
   * and the count of chunk bytes used up to the frame's end; ERROR after
   * the one command byte; a payload that started in this chunk is
   * referenced in place, one that started earlier is in the buffer.
   */
  ghost predicate Answers(r: ParseResult, d: Decoded, already: nat, pos: nat)
  {
    match d
    case NeedMore => false
    case Invalid(end) => end >= already && r == ParseResult(ParseError, 0, 0, NoData, pos + end - already)
    case Frame(cmd, start, end) =>
      end - start < 0x1_0000 && end >= already &&
      r.status == ParseOk && r.command == cmd && r.payloadLen == end - start && r.consumed == pos + end - already &&
      (end == start ==> r.payload == NoData) &&
      (end > start && already <= start ==> r.payload == InInput(pos + start - already)) &&
      (end > start && already > start ==> r.payload == InBuffer)
  }
}
