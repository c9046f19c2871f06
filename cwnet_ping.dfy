/**
 * CWNet PING: the 16-byte payload the server uses to measure latency and
 * to hand out its clock (type, sequence id, two reserved bytes and three
 * little-endian signed 32-bit timestamps t0, t1, t2), and the client's
 * timer that follows the server's clock through an offset.
 */
module CwnetPing {
  import opened Common

  const PayloadSize: nat := 16

  /** cwnet_ping_type_t; the type byte is stored as received. */
  const Request: u8 := 0
  const Response1: u8 := 1
  const Response2: u8 := 2

  /** The modulus read_synced reduces by: 2^31 - 1. */
  const SyncModulus: int := 2147483647

  datatype Ping = Ping(kind: u8, id: u8, t0: i32, t1: i32, t2: i32)

  /** C's `%` by 2^31 - 1: the remainder takes the dividend's sign. */
  function CRem(a: int): (r: int)
    ensures -SyncModulus < r < SyncModulus
    ensures a >= 0 ==> r >= 0
    ensures a <= 0 ==> r <= 0
    ensures (a - r) % SyncModulus == 0
    ensures -SyncModulus < a < SyncModulus ==> r == a
  {
    if a >= 0 then a % SyncModulus else -((-a) % SyncModulus)
  }

  /** Two's-complement reading of a 32-bit pattern. */
  function ToI32(v: u32): (r: i32)
    ensures (r - v) % U32 == 0
  {
    if v < 0x8000_0000 then v else v - U32
  }

  /** The 32-bit pattern of a signed value (the `(uint32_t)` cast). */
  function ToU32(t: i32): (r: u32)
    ensures ToI32(r) == t
  {
    if t >= 0 then t else t + U32
  }

  /** Four bytes, least significant first, read as an unsigned 32-bit value. */
  function LeU32(b0: u8, b1: u8, b2: u8, b3: u8): (r: u32)
  {
    b0 + 0x100 * (b1 + 0x100 * (b2 + 0x100 * b3))
  }

  /** The four little-endian bytes of a signed 32-bit value. */
  function LeBytes(t: i32): (r: seq<u8>)
    ensures |r| == 4
    ensures LeU32(r[0], r[1], r[2], r[3]) == ToU32(t)
  {
    var v := ToU32(t);
    var w1 := v / 0x100;
    var w2 := w1 / 0x100;
    [v % 0x100, w1 % 0x100, w2 % 0x100, w2 / 0x100]
  }

  /** The signed little-endian 32-bit value at `off`. */
  function LeI32At(p: seq<u8>, off: nat): (r: i32)
    requires off + 4 <= |p|
    ensures p[off..off + 4] == LeBytes(r)
  {
    var v := LeU32(p[off], p[off + 1], p[off + 2], p[off + 3]);
    LeBytesOfLeU32(p[off], p[off + 1], p[off + 2], p[off + 3]);
    ToI32(v)
  }

  /** Reading four bytes and writing them back gives the same bytes. */
  lemma LeBytesOfLeU32(b0: u8, b1: u8, b2: u8, b3: u8)
    ensures LeBytes(ToI32(LeU32(b0, b1, b2, b3))) == [b0, b1, b2, b3]
  {
    var v := LeU32(b0, b1, b2, b3);
    assert ToU32(ToI32(v)) == v;
    assert v % 0x100 == b0 && v / 0x100 == b1 + 0x100 * (b2 + 0x100 * b3);
    var w1 := v / 0x100;
    assert w1 % 0x100 == b1 && w1 / 0x100 == b2 + 0x100 * b3;
  }

  /**
   * cwnet_ping_parse: a missing payload or one shorter than 16 bytes is
   * refused; otherwise type and id are bytes 0 and 1, bytes 2-3 are
   * skipped and t0, t1, t2 are read from offsets 4, 8 and 12.
   */
  function Parse(payload: Option<seq<u8>>): (r: Option<Ping>)
    ensures r.Some? <==> payload.Some? && |payload.value| >= PayloadSize
    ensures r.Some? ==>
      var p := payload.value;
      r.value.kind == p[0] && r.value.id == p[1] &&
      p[4..8] == LeBytes(r.value.t0) && p[8..12] == LeBytes(r.value.t1) && p[12..16] == LeBytes(r.value.t2)
  {
    if payload.None? || |payload.value| < PayloadSize then None
    else
      var p := payload.value;
      Some(Ping(p[0], p[1], LeI32At(p, 4), LeI32At(p, 8), LeI32At(p, 12)))
  }

  /** The 16-byte payload carrying a ping: type, id, two zero reserved bytes, t0, t1, t2. */
  function PingBytes(p: Ping): (r: seq<u8>)
    ensures |r| == PayloadSize
  {
    [p.kind, p.id, 0, 0] + LeBytes(p.t0) + LeBytes(p.t1) + LeBytes(p.t2)
  }

  /** The payload of a RESPONSE_1 answering request `id`/`t0` at our time `t1`. */
  function ResponseBytes(id: u8, t0: i32, t1: i32): (r: seq<u8>)
    ensures |r| == PayloadSize
  {
    PingBytes(Ping(Response1, id, t0, t1, 0))
  }

  /** Every timestamp survives being written and read back. */
  lemma LeRoundTrip(t: i32)
    ensures var b := LeBytes(t); ToI32(LeU32(b[0], b[1], b[2], b[3])) == t
  {
  }

  /** Distinct timestamps have distinct byte images. */
  lemma LeBytesInjective(t: i32, u: i32)
    requires LeBytes(t) == LeBytes(u)
    ensures t == u
  {
    LeRoundTrip(t);
    LeRoundTrip(u);
  }

  lemma LeBytesZero()
    ensures LeBytes(0) == [0, 0, 0, 0]
  {
  }

  /** Parsing the bytes of a ping gives the ping back. */
  lemma ParsePingBytes(p: Ping)
    ensures Parse(Some(PingBytes(p))) == Some(p)
  {
    var b := PingBytes(p);
    var q := Parse(Some(b)).value;
    assert b[4..8] == LeBytes(p.t0) && b[8..12] == LeBytes(p.t1) && b[12..16] == LeBytes(p.t2);
    LeBytesInjective(q.t0, p.t0);
    LeBytesInjective(q.t1, p.t1);
    LeBytesInjective(q.t2, p.t2);
  }

  /**
   * A built response parses back as RESPONSE_1 with the request's id and
   * t0, our time as t1 and t2 zero.
   */
  lemma ParseResponse(id: u8, t0: i32, t1: i32)
    ensures Parse(Some(ResponseBytes(id, t0, t1))) == Some(Ping(Response1, id, t0, t1, 0))
  {
    ParsePingBytes(Ping(Response1, id, t0, t1, 0));
  }

  /**
   * cwnet_ping_build_response: refuses a missing request, a missing buffer
   * or one shorter than 16 bytes without writing; otherwise the first 16
   * bytes become the RESPONSE_1 payload and the rest of the buffer is kept.
   */
  method BuildResponse(request: Option<Ping>, buffer: array?<u8>, ourTime: i32) returns (ok: bool)
    modifies buffer
    ensures ok <==> request.Some? && buffer != null && buffer.Length >= PayloadSize
    ensures ok ==> buffer[..PayloadSize] == ResponseBytes(request.value.id, request.value.t0, ourTime)
    ensures ok ==> buffer[PayloadSize..] == old(buffer[PayloadSize..])
    ensures !ok && buffer != null ==> buffer[..] == old(buffer[..])
  {
    if request.None? || buffer == null || buffer.Length < PayloadSize {
      return false;
    }
    ghost var before := buffer[..];
    PutHeader(buffer, request.value.id);
    PutLe32(buffer, 4, request.value.t0);
    PutLe32(buffer, 8, ourTime);
    ghost var r := ResponseBytes(request.value.id, request.value.t0, ourTime);
    LeBytesZero();
    assert r == [Response1, request.value.id, 0, 0] + LeBytes(request.value.t0) + LeBytes(ourTime) + [0, 0, 0, 0];
    forall i | 0 <= i < PayloadSize
      ensures buffer[i] == r[i]
    {
      if i < 4 {
      } else if i < 8 {
        assert r[i] == LeBytes(request.value.t0)[i - 4];
      } else if i < 12 {
        assert r[i] == LeBytes(ourTime)[i - 8];
      } else {
        assert r[i] == 0;
      }
    }
    assert buffer[..PayloadSize] == r;
    assert buffer[PayloadSize..] == before[PayloadSize..];
    return true;
  }

  /** The memset of the payload and its type and id bytes: bytes 2-15 are zero. */
  method PutHeader(buffer: array<u8>, id: u8)
    requires PayloadSize <= buffer.Length
    modifies buffer
    ensures buffer[0] == Response1 && buffer[1] == id
    ensures forall i | 2 <= i < PayloadSize :: buffer[i] == 0
    ensures forall i | PayloadSize <= i < buffer.Length :: buffer[i] == old(buffer[i])
  {
    forall i | 0 <= i < PayloadSize {
      buffer[i] := 0;
    }
    buffer[0] := Response1;
    buffer[1] := id;
  }

  /** Stores the four little-endian bytes of `t` at `off`, leaving the other bytes alone. */
  method PutLe32(buffer: array<u8>, off: nat, t: i32)
    requires off + 4 <= buffer.Length
    modifies buffer
    ensures forall i | 0 <= i < 4 :: buffer[off + i] == LeBytes(t)[i]
    ensures forall i | 0 <= i < buffer.Length && (i < off || off + 4 <= i) :: buffer[i] == old(buffer[i])
  {
    var b := LeBytes(t);
    forall i | 0 <= i < 4 {
      buffer[off + i] := b[i];
    }
  }

  /** The 32-bit signed subtraction as the target performs it (wrapping). */
  function SubI32(a: i32, b: i32): (r: i32)
    ensures (r - (a - b)) % U32 == 0
    ensures I32Min <= a - b <= I32Max ==> r == a - b
  {
    ToI32((a - b) % U32)
  }

  /**
   * cwnet_ping_calc_latency: the round trip t2 - t0 of a RESPONSE_2, and
   * -1 for a missing ping or any other type.
   */
  function CalcLatency(response: Option<Ping>): (r: i32)
    ensures response.None? || response.value.kind != Response2 ==> r == -1
    ensures response.Some? && response.value.kind == Response2 && I32Min <= response.value.t2 - response.value.t0 <= I32Max ==>
      r == response.value.t2 - response.value.t0
  {
    if response.None? || response.value.kind != Response2 then -1
    else SubI32(response.value.t2, response.value.t0)
  }

  /** cwnet_timer_t: the server's clock is our clock plus `offset`. */
  class Timer {
    var offset: int

    /** The offset stays well inside 64 bits, so the C arithmetic never overflows. */
    ghost predicate Valid()
      reads this
    {
      -U32 < offset < U32
    }

    /** cwnet_timer_init: no offset. */
    constructor Init()
      ensures Valid() && offset == 0
    {
      offset := 0;
    }

    /**
     * cwnet_timer_read_synced_ms: our clock plus the offset, reduced with
     * C's remainder by 2^31 - 1.
     */
    function ReadSynced(local: i32): (r: i32)
      reads this
      requires Valid()
      ensures -SyncModulus < r < SyncModulus
      ensures (local + offset - r) % SyncModulus == 0
      ensures -SyncModulus < local + offset < SyncModulus ==> r == local + offset
    {
      CRem(local + offset)
    }

    /**
     * cwnet_timer_sync_to_server: afterwards the synced clock reads
     * `server` at local time `local` — exactly when `server` is not one of
     * the two 32-bit values the reduction by 2^31 - 1 folds — and runs on
     * with our clock from there.
     */
    method SyncToServer(server: i32, local: i32)
      requires Valid()
      modifies this
      ensures Valid() && offset == server - local
      ensures ReadSynced(local) == server <==> -SyncModulus < server < SyncModulus
      ensures forall later: i32 :: ReadSynced(later) == CRem(server + (later - local))
    {
      var currentSynced := local + offset;
      var delta := currentSynced - server;
      offset := offset - delta;
    }
  }

  /** cwnet_timer_read_synced_ms with a missing timer reads 0. */
  method ReadSyncedMs(timer: Timer?, local: i32) returns (r: i32)
    requires timer != null ==> timer.Valid()
    ensures timer == null ==> r == 0
    ensures timer != null ==> r == timer.ReadSynced(local)
  {
    if timer == null {
      return 0;
    }
    r := timer.ReadSynced(local);
  }

  /**
   * The sequence of test_ping_full_sequence: after syncing to the
   * request's t0, our response carries the request's id, its t0 and the
   * synced time as t1.
   */
  method FullSequence(local: i32) returns (response: Option<Ping>)
    ensures response == Some(Ping(Response1, 1, 10000, 10000, 0))
  {
    var request := Parse(Some(PingBytes(Ping(Request, 1, 10000, 0, 0))));
    ParsePingBytes(Ping(Request, 1, 10000, 0, 0));
    var timer := new Timer.Init();
    timer.SyncToServer(request.value.t0, local);
    var synced := timer.ReadSynced(local);
    var buffer := new u8[PayloadSize];
    var ok := BuildResponse(request, buffer, synced);
    ParseResponse(1, 10000, 10000);
    response := Parse(Some(buffer[..]));
  }
}
