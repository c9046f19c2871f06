/**
 * The CWNet client: a connection state machine (DISCONNECTED, CONNECTING,
 * READY) fed by the socket layer's events and by received bytes, which it
 * frames with the streaming frame parser. It answers the server's PING
 * requests (synchronising its timer to the server's clock first), keeps
 * the latency the server reports, reports received key events and sends
 * its own.
 *
 * The callbacks of the C client are observed rather than called: frames
 * handed to the send callback, state-change notifications and received
 * key events are appended to logs, the send callback's return value and
 * the clock's reading are parameters.
 *
 * The frames the client builds put the command in bits 7-2 and the
 * category in bits 1-0, and write the PING response's length high byte
 * first, while the frame parser (and the protocol) read the category from
 * bits 7-6, the command from bits 5-0 and long lengths low byte first.
 * `Layout` selects the frame builder: `AsWritten` is the C code,
 * `Corrected` builds frames the parser reads back, identifies with
 * CONNECT and answers a PING in a short block, as the host tests expect.
 */
module CwnetClient {
  import opened Common
  import opened CwnetFrame
  import P = CwnetPing

  const MaxUsernameLen: nat := 32
  const MaxHostLen: nat := 64

  /**
   * cwnet_cmd_t. The IDENT command send_ident names is not among the
   * enumerators; as written its value is the one the 0x61 IDENT byte of
   * its comment implies. Corrected, the client identifies with CONNECT.
   */
  const CmdWelcome: u8 := 0x00
  const CmdConnect: u8 := 0x01
  const CmdDisconnect: u8 := 0x02
  const CmdPing: u8 := 0x03
  const CmdCwUp: u8 := 0x14
  const CmdCwDown: u8 := 0x15
  const CmdIdent: u8 := 0x18

  datatype State = Disconnected | Connecting | Ready

  datatype Err = Ok | InvalidArg | NotReady | SendFailed | ProtocolError

  datatype Layout = AsWritten | Corrected

  /** The copied configuration and which callbacks were registered. */
  datatype Cfg = Cfg(host: seq<u8>, port: u16, username: seq<u8>,
                     hasSend: bool, hasTime: bool, hasStateCb: bool, hasCwCb: bool)

  /** cwnet_client_config_t; strings are their bytes before the terminating NUL, a missing pointer is `None`. */
  datatype ClientConfig = ClientConfig(host: Option<seq<u8>>, port: u16, username: Option<seq<u8>>,
                                       hasSend: bool, hasTime: bool, hasStateCb: bool, hasCwCb: bool)

  /**
   * Everything the client holds except the frame parser: configuration,
   * connection state, latency, timer offset, and the logs of frames sent,
   * state-change notifications and received key events.
   */
  datatype Snap = Snap(cfg: Cfg, state: State, latency: i32, offset: int,
                       sent: seq<seq<u8>>, notes: seq<(State, State)>, events: seq<(bool, i32)>)

  ghost predicate SnapValid(s: Snap)
  {
    -U32 < s.offset < U32 && |s.cfg.username| < MaxUsernameLen && |s.cfg.host| < MaxHostLen
  }

  // ----- frame builders -----

  /** The command byte the client writes: `(cmd << 2) | category` as written, `(category << 6) | cmd` corrected. */
  function CmdByte(l: Layout, c: Category, cmd: u8): (b: u8)
    requires cmd < 64 && c != Reserved
    ensures l == Corrected ==> CategoryOf(b) == c && CommandOf(b) == cmd
  {
    match l
    case AsWritten => (cmd as int * 4 + CategoryBits(c)) % 0x100
    case Corrected => CommandByte(c, cmd)
  }

  /** send_ident: a short block carrying the username. */
  function IdentFrame(l: Layout, user: seq<u8>): (f: seq<u8>)
    requires |user| < MaxUsernameLen
    ensures l == Corrected ==> f == Encode(ShortPayload, CmdConnect, user)
  {
    [CmdByte(l, ShortPayload, IdentCmd(l)), |user|] + user
  }

  /** The command of the identification frame: IDENT as written, CONNECT corrected. */
  function IdentCmd(l: Layout): u8
  {
    match l
    case AsWritten => CmdIdent
    case Corrected => CmdConnect
  }

  /**
   * send_ping_response: as written a long block whose length is written
   * high byte first; corrected, the short block the server's PING request
   * comes in, carrying the 16-byte RESPONSE_1 payload.
   */
  function PingResponseFrame(l: Layout, payload: seq<u8>): (f: seq<u8>)
    requires |payload| == P.PayloadSize
    ensures l == Corrected ==> f == Encode(ShortPayload, CmdPing, payload)
  {
    match l
    case AsWritten => [CmdByte(l, LongPayload, CmdPing), 0x00, P.PayloadSize] + payload
    case Corrected => [CmdByte(l, ShortPayload, CmdPing), P.PayloadSize] + payload
  }

  function CwCmd(keyDown: bool): u8
  {
    if keyDown then CmdCwDown else CmdCwUp
  }

  /** send_cw_event: a short block carrying the 4-byte little-endian synced timestamp. */
  function CwEventFrame(l: Layout, keyDown: bool, ts: i32): (f: seq<u8>)
    ensures l == Corrected ==> f == Encode(ShortPayload, CwCmd(keyDown), P.LeBytes(ts))
  {
    [CmdByte(l, ShortPayload, CwCmd(keyDown)), 4] + P.LeBytes(ts)
  }

  // ----- the state machine on values -----

  /** set_state: a notification is logged only on a real change, and only with a callback registered. */
  function SetState(s: Snap, n: State): (t: Snap)
    ensures t.cfg == s.cfg && t.offset == s.offset && t.latency == s.latency && t.sent == s.sent && t.events == s.events
  {
    if s.state == n then s
    else s.(state := n, notes := if s.cfg.hasStateCb then s.notes + [(s.state, n)] else s.notes)
  }

  /** send_frame: -1 without a send callback, otherwise the callback's answer. */
  function Send(s: Snap, frame: seq<u8>, answer: int): (r: (Snap, int))
    ensures r.0.cfg == s.cfg && r.0.offset == s.offset && r.0.state == s.state && r.0.latency == s.latency
    ensures r.0.sent == (if s.cfg.hasSend then s.sent + [frame] else s.sent)
  {
    if !s.cfg.hasSend then (s, -1) else (s.(sent := s.sent + [frame]), answer)
  }

  /** get_local_time: 0 without a time callback. */
  function LocalTime(s: Snap, now: i32): i32
  {
    if s.cfg.hasTime then now else 0
  }

  /** The synced clock at local time `now` (cwnet_timer_read_synced_ms). */
  function Synced(s: Snap, now: i32): i32
    requires SnapValid(s)
  {
    P.CRem(LocalTime(s, now) + s.offset)
  }

  /** cwnet_client_on_connected (after the parser reset): CONNECTING, then IDENT is sent. */
  function Connected(l: Layout, s: Snap, answer: int): (t: Snap)
    requires SnapValid(s)
    ensures SnapValid(t) && t.state == Connecting
    ensures t.sent == (if s.cfg.hasSend then s.sent + [IdentFrame(l, s.cfg.username)] else s.sent)
  {
    var s1 := SetState(s, Connecting);
    Send(s1, IdentFrame(l, s1.cfg.username), answer).0
  }

  /** cwnet_client_on_disconnected (after the parser reset). */
  function Disconnect(s: Snap): Snap
  {
    SetState(s, Disconnected)
  }

  /** handle_ping on a PING payload. */
  function OnPing(l: Layout, s: Snap, payload: Option<seq<u8>>, now: i32, answer: int): (t: Snap)
    requires SnapValid(s)
    ensures SnapValid(t) && t.state == s.state && t.cfg == s.cfg && t.events == s.events
  {
    match P.Parse(payload)
    case None => s
    case Some(ping) =>
      if ping.kind == P.Request then
        var s1 := s.(offset := ping.t0 - LocalTime(s, now));
        var reply := P.ResponseBytes(ping.id, ping.t0, Synced(s1, now));
        Send(s1, PingResponseFrame(l, reply), answer).0
      else if ping.kind == P.Response2 then
        var lat := P.CalcLatency(Some(ping));
        if lat >= 0 then s.(latency := lat) else s
      else s
  }

  /** handle_cw_event: the first four payload bytes are the timestamp, 0 when there are fewer. */
  function OnCwEvent(s: Snap, keyDown: bool, payload: Option<seq<u8>>): (t: Snap)
  {
    if !s.cfg.hasCwCb then s
    else
      var ts := if payload.Some? && |payload.value| >= 4 then P.LeI32At(payload.value, 0) else 0;
      s.(events := s.events + [(keyDown, ts)])
  }

  /** process_frame: dispatch on the command; unknown commands are ignored. */
  function OnFrame(l: Layout, s: Snap, cmd: u8, payload: Option<seq<u8>>, now: i32, answer: int): (t: Snap)
    requires SnapValid(s)
    ensures SnapValid(t)
  {
    if cmd == CmdWelcome then (if s.state == Connecting then SetState(s, Ready) else s)
    else if cmd == CmdPing then OnPing(l, s, payload, now, answer)
    else if cmd == CmdCwDown then OnCwEvent(s, true, payload)
    else if cmd == CmdCwUp then OnCwEvent(s, false, payload)
    else s
  }

  /** cwnet_client_send_key_event: NOT_READY outside READY; SEND_FAILED unless the whole frame went out. */
  function KeyEvent(l: Layout, s: Snap, keyDown: bool, now: i32, answer: int): (r: (Snap, Err))
    requires SnapValid(s)
    ensures SnapValid(r.0) && r.0.state == s.state
    ensures s.state != Ready ==> r == (s, NotReady)
  {
    if s.state != Ready then (s, NotReady)
    else
      var frame := CwEventFrame(l, keyDown, Synced(s, now));
      var (t, n) := Send(s, frame, answer);
      (t, if n < 0 || n != |frame| then SendFailed else Ok)
  }

  /** The payload a frame hands to process_frame: none when it is empty. */
  function PayloadOf(b: seq<u8>, d: Decoded): Option<seq<u8>>
    requires d.Frame? && d.end <= |b| && d.start <= d.end
  {
    if d.start == d.end then None else Some(b[d.start..d.end])
  }

  // ----- properties of the state machine -----

  /** The state-change callback hears exactly the real changes. */
  lemma NotifiesOnlyOnChange(s: Snap, n: State)
    ensures SetState(s, n).state == n
    ensures SetState(s, n).notes == (if s.state != n && s.cfg.hasStateCb then s.notes + [(s.state, n)] else s.notes)
  {
  }

  /** WELCOME moves CONNECTING to READY and changes nothing in any other state. */
  lemma WelcomeOnlyFromConnecting(l: Layout, s: Snap, payload: Option<seq<u8>>, now: i32, answer: int)
    requires SnapValid(s)
    ensures var t := OnFrame(l, s, CmdWelcome, payload, now, answer);
      t.state == (if s.state == Connecting then Ready else s.state) &&
      t.latency == s.latency && t.offset == s.offset && t.sent == s.sent && t.events == s.events
  {
  }

  /** on_disconnected reaches DISCONNECTED from any state, and key events are then refused. */
  lemma DisconnectedRefusesKeyEvents(l: Layout, s: Snap, keyDown: bool, now: i32, answer: int)
    requires SnapValid(s)
    ensures Disconnect(s).state == Disconnected
    ensures KeyEvent(l, Disconnect(s), keyDown, now, answer) == (Disconnect(s), NotReady)
  {
  }

  /** The latency changes only on a RESPONSE_2 PING whose t2 - t0 is not negative, and then becomes it. */
  lemma LatencyOnlyFromResponse2(l: Layout, s: Snap, cmd: u8, payload: Option<seq<u8>>, now: i32, answer: int)
    requires SnapValid(s)
    ensures var t := OnFrame(l, s, cmd, payload, now, answer);
      t.latency != s.latency ==>
        cmd == CmdPing && P.Parse(payload).Some? && P.Parse(payload).value.kind == P.Response2 &&
        t.latency == P.CalcLatency(P.Parse(payload)) >= 0
  {
  }

  /** A PING request sets the synced clock to the server's t0 (outside the two values the reduction folds). */
  lemma PingRequestSyncs(l: Layout, s: Snap, payload: Option<seq<u8>>, now: i32, answer: int)
    requires SnapValid(s)
    requires P.Parse(payload).Some? && P.Parse(payload).value.kind == P.Request
    requires -P.SyncModulus < P.Parse(payload).value.t0 < P.SyncModulus
    ensures var t := OnFrame(l, s, CmdPing, payload, now, answer);
      SnapValid(t) && Synced(t, now) == P.Parse(payload).value.t0
  {
  }

  /**
   * With the corrected layout, a key event one client sends is, once a
   * parser has framed it, reported by a receiving client as the same key
   * transition with the same timestamp.
   */
  lemma KeyEventRoundTrip(s: Snap, r: Snap, keyDown: bool, now: i32, answer: int, rnow: i32, ranswer: int, rest: seq<u8>)
    requires SnapValid(s) && SnapValid(r) && s.state == Ready && s.cfg.hasSend && r.cfg.hasCwCb
    ensures var frame := KeyEvent(Corrected, s, keyDown, now, answer).0.sent[|s.sent|];
      var b := frame + rest;
      var d := Decode(b);
      d.Frame? && d.end == |frame| &&
      OnFrame(Corrected, r, d.command, PayloadOf(b, d), rnow, ranswer).events == r.events + [(keyDown, Synced(s, now))]
  {
    var ts := Synced(s, now);
    var frame := CwEventFrame(Corrected, keyDown, ts);
    EncodeDecode(ShortPayload, CwCmd(keyDown), P.LeBytes(ts), rest);
    var b := frame + rest;
    assert b[2..6] == P.LeBytes(ts);
    var payload := b[2..6];
    assert payload[0..4] == P.LeBytes(P.LeI32At(payload, 0));
    P.LeRoundTrip(ts);
    P.LeRoundTrip(P.LeI32At(payload, 0));
  }

  /**
   * As written, a key-up frame is read by the frame parser as command 0x11
   * instead of CW_UP (0x14).
   */
  lemma KeyUpMisreadAsWritten(ts: i32)
    ensures Decode(CwEventFrame(AsWritten, false, ts)) == Frame(0x11, 2, 6)
  {
  }

  /** The key-down byte is the same in both layouts (0x55), so key-down frames are unaffected. */
  lemma KeyDownCoincides(ts: i32)
    ensures CwEventFrame(AsWritten, true, ts) == CwEventFrame(Corrected, true, ts)
  {
  }

  /**
   * As written, a PING response is read by the frame parser as the
   * one-byte, payload-less command 0x0E; IDENT as command 0x21.
   */
  lemma PingResponseMisreadAsWritten(payload: seq<u8>)
    requires |payload| == P.PayloadSize
    ensures Decode(PingResponseFrame(AsWritten, payload)) == Frame(0x0E, 1, 1)
    ensures CommandOf(IdentFrame(AsWritten, [])[0]) == 0x21
  {
  }

  /** Corrected, every frame the client builds is read back whole with its command and payload. */
  lemma CorrectedFramesDecode(user: seq<u8>, reply: seq<u8>, keyDown: bool, ts: i32)
    requires |user| < MaxUsernameLen && |reply| == P.PayloadSize
    ensures var f := IdentFrame(Corrected, user);
      Decode(f) == Frame(CmdConnect, 2, |f|) && f[2..] == user
    ensures var f := PingResponseFrame(Corrected, reply);
      Decode(f) == Frame(CmdPing, 2, |f|) && f[2..] == reply
    ensures var f := CwEventFrame(Corrected, keyDown, ts);
      Decode(f) == Frame(CwCmd(keyDown), 2, |f|) && f[2..] == P.LeBytes(ts)
  {
    EncodeDecode(ShortPayload, CmdConnect, user, []);
    assert IdentFrame(Corrected, user) + [] == IdentFrame(Corrected, user);
    EncodeDecode(ShortPayload, CmdPing, reply, []);
    assert PingResponseFrame(Corrected, reply) + [] == PingResponseFrame(Corrected, reply);
    EncodeDecode(ShortPayload, CwCmd(keyDown), P.LeBytes(ts), []);
    assert CwEventFrame(Corrected, keyDown, ts) + [] == CwEventFrame(Corrected, keyDown, ts);
  }

  /** C string copy with truncation to fit a buffer of `max` bytes including the NUL. */
  function Truncate(s: seq<u8>, max: nat): (t: seq<u8>)
    requires max > 0
    ensures |t| < max && t <= s
    ensures |s| < max ==> t == s
  {
    if |s| < max then s else s[..max - 1]
  }

  // ----- the client object -----

  class Client {
    const layout: Layout
    const parser: FrameParser
    const timer: P.Timer
    var cfg: Cfg
    var state: State
    var latency: i32
    var sent: seq<seq<u8>>
    var notes: seq<(State, State)>
    var events: seq<(bool, i32)>

    function Snapshot(): Snap
      reads this, timer
    {
      Snap(cfg, state, latency, timer.offset, sent, notes, events)
    }

    ghost predicate Valid()
      reads this, parser, parser.buf, timer
    {
      parser.Valid() && timer.Valid() && SnapValid(Snapshot())
    }

    /** A zero-filled client structure, as the caller provides it before init. */
    constructor Zero(l: Layout)
      ensures Valid() && layout == l && parser.pending == []
      ensures Snapshot() == Snap(Cfg([], 0, [], false, false, false, false), Disconnected, 0, 0, [], [], [])
      ensures fresh(parser) && fresh(parser.buf) && fresh(timer)
    {
      layout := l;
      parser := new FrameParser.Init();
      timer := new P.Timer.Init();
      cfg := Cfg([], 0, [], false, false, false, false);
      state, latency := Disconnected, 0;
      sent, notes, events := [], [], [];
    }

    /**
     * cwnet_client_init: a missing configuration or host, an empty host, or
     * a missing send or time callback is INVALID_ARG and leaves the client
     * alone; otherwise the client is cleared, host and username are copied
     * (truncated to fit), and it starts DISCONNECTED with unknown latency,
     * no offset and an empty parser.
     */
    method Init(config: Option<ClientConfig>) returns (err: Err)
      requires Valid()
      modifies this, timer, parser
      ensures Valid()
      ensures err == Ok || err == InvalidArg
      ensures err == InvalidArg <==>
        config.None? || config.value.host.None? || |config.value.host.value| == 0 ||
        !config.value.hasSend || !config.value.hasTime
      ensures err == InvalidArg ==> Snapshot() == old(Snapshot()) && parser.pending == old(parser.pending)
      ensures err == Ok ==> parser.pending == []
      ensures err == Ok ==>
        var c := config.value;
        var user := if c.username.Some? then Truncate(c.username.value, MaxUsernameLen) else [];
        Snapshot() == old(Snapshot()).(
          cfg := Cfg(Truncate(c.host.value, MaxHostLen), c.port, user, c.hasSend, c.hasTime, c.hasStateCb, c.hasCwCb),
          state := Disconnected, latency := -1, offset := 0)
    {
      if config.None? {
        return InvalidArg;
      }
      var c := config.value;
      if c.host.None? || |c.host.value| == 0 {
        return InvalidArg;
      }
      if !c.hasSend || !c.hasTime {
        return InvalidArg;
      }
      var user := if c.username.Some? then Truncate(c.username.value, MaxUsernameLen) else [];
      cfg := Cfg(Truncate(c.host.value, MaxHostLen), c.port, user, c.hasSend, c.hasTime, c.hasStateCb, c.hasCwCb);
      state := Disconnected;
      latency := -1;
      timer.offset := 0;
      parser.Reset();
      return Ok;
    }

    function GetState(): State
      reads this
    {
      state
    }

    function GetLatency(): i32
      reads this
    {
      latency
    }

    /** cwnet_client_get_synced_time at local time `now`. */
    function GetSyncedTime(now: i32): (t: i32)
      reads this, timer
      requires SnapValid(Snapshot())
      ensures t == Synced(Snapshot(), now)
    {
      timer.ReadSynced(LocalTime(Snapshot(), now))
    }

    method SetStateM(n: State)
      modifies this
      ensures Snapshot() == SetState(old(Snapshot()), n)
    {
      if state == n {
        return;
      }
      var previous := state;
      state := n;
      if cfg.hasStateCb {
        notes := notes + [(previous, n)];
      }
    }

    method SendFrame(frame: seq<u8>, answer: int) returns (n: int)
      modifies this
      ensures (Snapshot(), n) == Send(old(Snapshot()), frame, answer)
    {
      if !cfg.hasSend {
        return -1;
      }
      sent := sent + [frame];
      return answer;
    }

    /** cwnet_client_on_connected: reset the parser, go CONNECTING, send IDENT. */
    method OnConnected(answer: int)
      requires Valid()
      modifies this, parser
      ensures Valid() && parser.pending == []
      ensures Snapshot() == Connected(layout, old(Snapshot()), answer)
    {
      parser.Reset();
      SetStateM(Connecting);
      var _ := SendFrame(IdentFrame(layout, cfg.username), answer);
    }

    /** cwnet_client_on_disconnected: reset the parser, go DISCONNECTED. */
    method OnDisconnected()
      requires Valid()
      modifies this, parser
      ensures Valid() && parser.pending == []
      ensures Snapshot() == Disconnect(old(Snapshot()))
    {
      parser.Reset();
      SetStateM(Disconnected);
    }

    /** cwnet_client_send_key_event at local time `now`. */
    method SendKeyEvent(keyDown: bool, now: i32, answer: int) returns (err: Err)
      requires Valid()
      modifies this
      ensures Valid()
      ensures (Snapshot(), err) == KeyEvent(layout, old(Snapshot()), keyDown, now, answer)
    {
      if state != Ready {
        return NotReady;
      }
      ghost var s := Snapshot();
      var ts := timer.ReadSynced(LocalTime(Snapshot(), now));
      assert ts == Synced(s, now);
      var frame := CwEventFrame(layout, keyDown, ts);
      var n := SendFrame(frame, answer);
      assert (Snapshot(), n) == Send(s, frame, answer);
      if n < 0 || n != |frame| {
        return SendFailed;
      }
      return Ok;
    }

    /** handle_ping. */
    method HandlePing(payload: Option<seq<u8>>, now: i32, answer: int)
      requires Valid()
      modifies this, timer
      ensures Valid()
      ensures Snapshot() == OnPing(layout, old(Snapshot()), payload, now, answer)
    {
      var ping := P.Parse(payload);
      if ping.None? {
        return;
      }
      var p := ping.value;
      if p.kind == P.Request {
        AnswerRequest(p, now, answer);
      } else if p.kind == P.Response2 {
        var lat := P.CalcLatency(Some(p));
        if lat >= 0 {
          latency := lat;
        }
      }
    }

    /** The PING REQUEST branch of handle_ping: sync the timer to t0, then send RESPONSE_1. */
    method AnswerRequest(p: P.Ping, now: i32, answer: int)
      requires Valid()
      modifies this, timer
      ensures Valid()
      ensures var s := old(Snapshot());
        var s1 := s.(offset := p.t0 - LocalTime(s, now));
        Snapshot() == Send(s1, PingResponseFrame(layout, P.ResponseBytes(p.id, p.t0, Synced(s1, now))), answer).0
    {
      var local := LocalTime(Snapshot(), now);
      ghost var s1 := Snapshot().(offset := p.t0 - local);
      timer.SyncToServer(p.t0, local);
      assert Snapshot() == s1;
      var ourTime := timer.ReadSynced(local);
      assert ourTime == Synced(s1, now);
      var reply := P.ResponseBytes(p.id, p.t0, ourTime);
      var _ := SendFrame(PingResponseFrame(layout, reply), answer);
    }

    /** handle_cw_event. */
    method HandleCwEvent(keyDown: bool, payload: Option<seq<u8>>)
      modifies this
      ensures Snapshot() == OnCwEvent(old(Snapshot()), keyDown, payload)
    {
      if !cfg.hasCwCb {
        return;
      }
      var ts := 0;
      if payload.Some? && |payload.value| >= 4 {
        ts := P.LeI32At(payload.value, 0);
      }
      events := events + [(keyDown, ts)];
    }

    /** process_frame. */
    method ProcessFrame(cmd: u8, payload: Option<seq<u8>>, now: i32, answer: int)
      requires Valid()
      modifies this, timer
      ensures Valid()
      ensures Snapshot() == OnFrame(layout, old(Snapshot()), cmd, payload, now, answer)
    {
      if cmd == CmdWelcome {
        if state == Connecting {
          SetStateM(Ready);
        }
      } else if cmd == CmdPing {
        HandlePing(payload, now, answer);
      } else if cmd == CmdCwDown {
        HandleCwEvent(true, payload);
      } else if cmd == CmdCwUp {
        HandleCwEvent(false, payload);
      }
    }

    /**
     * cwnet_client_on_data on a chunk (`None` for a NULL pointer): one parse
     * call. A completed frame is processed and the parser reset; a parse
     * error resets the parser; otherwise the chunk joins the frame in
     * progress. Bytes of the chunk after the first frame are not looked at.
     * `seen` is the payload handed to process_frame: the frame's own payload
     * bytes whenever it began in this chunk or fits the parser's buffer.
     */
    method OnData(data: Option<seq<u8>>, now: i32, answer: int) returns (ghost seen: Option<seq<u8>>)
      requires Valid()
      modifies this, timer, parser, parser.buf
      ensures Valid()
      ensures var b := old(parser.pending) + (if data.Some? then data.value else []);
        var d := Decode(b);
        (d.NeedMore? ==> Snapshot() == old(Snapshot()) && parser.pending == b) &&
        (d.Invalid? ==> Snapshot() == old(Snapshot()) && parser.pending == []) &&
        (d.Frame? ==> (parser.pending == [] &&
           Snapshot() == OnFrame(layout, old(Snapshot()), d.command, seen, now, answer) &&
           (d.end - d.start <= BufSize || |old(parser.pending)| <= d.start ==> seen == PayloadOf(b, d))))
    {
      seen := None;
      if data.None? || |data.value| == 0 {
        assert old(parser.pending) + [] == parser.pending;
        return;
      }
      ghost var p0 := parser.pending;
      var chunk := data.value;
      var r := parser.Parse(data);
      ghost var b := p0 + chunk;
      if r.status == ParseOk {
        var payload := PayloadView(r, chunk, p0);
        seen := payload;
        ProcessFrame(r.command, payload, now, answer);
        parser.Reset();
      } else if r.status == ParseError {
        parser.Reset();
      }
    }

    /** The payload pointer of a parse result, as bytes: none, in the chunk, or at the head of the parser's buffer. */
    method PayloadView(r: ParseResult, chunk: seq<u8>, ghost p0: seq<u8>) returns (payload: Option<seq<u8>>)
      requires parser.buf.Length == BufSize && r.status == ParseOk
      requires ChunkOutcome(r, p0, chunk, [], parser.buf[..])
      ensures var b := p0 + chunk;
        var d := Decode(b);
        d.Frame? && r.command == d.command &&
        (d.end - d.start <= BufSize || |p0| <= d.start ==> payload == PayloadOf(b, d))
    {
      ghost var b := p0 + chunk;
      ghost var d := Decode(b);
      assert d.Frame?;
      match r.payload
      case NoData =>
        payload := None;
      case InInput(off) =>
        assert off + r.payloadLen <= |chunk|;
        payload := Some(chunk[off..off + r.payloadLen]);
        assert chunk[off..off + r.payloadLen] == b[d.start..d.end];
      case InBuffer =>
        var n := if r.payloadLen <= BufSize then r.payloadLen else BufSize;
        payload := Some(parser.buf[..n]);
    }
  }

  /** The configuration of the handshake scenarios. */
  function TestConfig(): ClientConfig
  {
    ClientConfig(Some([0x74]), 7373, Some([0x54, 0x45, 0x53, 0x54]), true, true, false, false)
  }

  /** A zero-filled client initialised with the scenario configuration. */
  method Configured(l: Layout) returns (c: Client)
    ensures fresh(c) && fresh(c.parser) && fresh(c.parser.buf) && fresh(c.timer)
    ensures c.Valid() && c.layout == l && c.parser.pending == []
    ensures c.Snapshot().state == Disconnected && c.Snapshot().offset == 0 && c.Snapshot().cfg.hasTime
    ensures c.Snapshot().cfg.hasSend
  {
    c := new Client.Zero(l);
    var err := c.Init(Some(TestConfig()));
  }

  /** WELCOME after the connection is up makes the client READY; garbage then leaves it READY. */
  method HandshakeScenario(l: Layout) returns (afterWelcome: State, afterGarbage: State)
    ensures afterWelcome == Ready && afterGarbage == Ready
  {
    var c := Configured(l);
    c.OnConnected(2);
    var _ := c.OnData(Some([0x00]), 1000, 0);
    afterWelcome := c.GetState();
    var _ := c.OnData(Some([0xFF, 0xFF, 0xFF, 0xFF]), 1000, 0);
    afterGarbage := c.GetState();
  }

  /** A server's PING REQUEST frame: id 1 and server time t0, sent as a short block. */
  function RequestFrame(t0: i32): (f: seq<u8>)
    ensures |f| == 18
  {
    [0x43, 0x10] + P.PingBytes(P.Ping(P.Request, 1, t0, 0, 0))
  }

  lemma RequestFrameReads(t0: i32)
    ensures Decode(RequestFrame(t0)) == Frame(CmdPing, 2, 18)
    ensures P.Parse(Some(RequestFrame(t0)[2..18])) == Some(P.Ping(P.Request, 1, t0, 0, 0))
  {
    var f := RequestFrame(t0);
    assert CategoryOf(f[0]) == ShortPayload && CommandOf(f[0]) == CmdPing && f[1] == 0x10;
    assert f[2..18] == P.PingBytes(P.Ping(P.Request, 1, t0, 0, 0));
    P.ParsePingBytes(P.Ping(P.Request, 1, t0, 0, 0));
  }

  /** A PING request carrying server time 5000, received at local time 100, sets the synced clock to 5000. */
  method PingSyncScenario(l: Layout) returns (before: i32, after: i32)
    ensures before == 0 && after == 5000
  {
    var c := Configured(l);
    before := c.GetSyncedTime(0);
    var ping := RequestFrame(5000);
    RequestFrameReads(5000);
    ghost var s0 := c.Snapshot();
    assert [] + ping == ping;
    var seen := c.OnData(Some(ping), 100, 0);
    assert seen == Some(ping[2..18]);
    PingRequestSyncs(l, s0, seen, 100, 0);
    after := c.GetSyncedTime(100);
  }

  /**
   * On connection the client sends its identification first: corrected,
   * the CONNECT short block, whose first byte is 0x41; as written 0x61.
   */
  method IdentOnConnectScenario(l: Layout) returns (first: u8)
    ensures l == Corrected ==> first == 0x41
    ensures l == AsWritten ==> first == 0x61
  {
    var c := Configured(l);
    c.OnConnected(6);
    assert c.sent[|c.sent| - 1] == IdentFrame(l, c.cfg.username);
    first := c.sent[|c.sent| - 1][0];
  }

  /**
   * A PING request with id 1 and server time 1000, received when READY at
   * local time 1050, is answered with a RESPONSE_1. Corrected, the answer
   * is a short block, so its payload starts at byte 2 with the type
   * RESPONSE_1 (1) and the request's id; as written byte 2 is the low
   * length byte 0x10 of the long block.
   */
  method PingResponseScenario(l: Layout) returns (typeByte: u8, idByte: u8)
    ensures l == Corrected ==> typeByte == 0x01 && idByte == 0x01
    ensures l == AsWritten ==> typeByte == 0x10 && idByte == 0x01
  {
    var c := ReadyClient(l);
    var ping := RequestFrame(1000);
    RequestFrameReads(1000);
    ghost var s0 := c.Snapshot();
    assert c.parser.pending + ping == ping;
    var seen := c.OnData(Some(ping), 1050, 18);
    assert seen == Some(ping[2..18]);
    RequestAnswered(l, s0, ping[2..18], 1000, 1050, 18);
    var f := c.sent[|c.sent| - 1];
    ResponseHead(l, 1, 1000, Synced(s0.(offset := 1000 - LocalTime(s0, 1050)), 1050));
    typeByte, idByte := f[2], f[3];
  }

  /** A client after connection and WELCOME: READY, with nothing in the parser. */
  method ReadyClient(l: Layout) returns (c: Client)
    ensures fresh(c) && fresh(c.parser) && fresh(c.parser.buf) && fresh(c.timer)
    ensures c.Valid() && c.layout == l && c.parser.pending == []
    ensures c.Snapshot().state == Ready && c.Snapshot().cfg.hasSend
  {
    c := Configured(l);
    c.OnConnected(6);
    var _ := c.OnData(Some([0x00]), 1000, 0);
  }

  /** A PING request with id 1 is answered by appending the RESPONSE_1 frame to what was sent. */
  lemma RequestAnswered(l: Layout, s: Snap, payload: seq<u8>, t0: i32, now: i32, answer: int)
    requires SnapValid(s) && s.cfg.hasSend
    requires P.Parse(Some(payload)) == Some(P.Ping(P.Request, 1, t0, 0, 0))
    ensures var s1 := s.(offset := t0 - LocalTime(s, now));
      OnFrame(l, s, CmdPing, Some(payload), now, answer).sent ==
        s.sent + [PingResponseFrame(l, P.ResponseBytes(1, t0, Synced(s1, now)))]
  {
  }

  /** Bytes 2 and 3 of a PING response frame: type and id corrected, the low length byte and type as written. */
  lemma ResponseHead(l: Layout, id: u8, t0: i32, t1: i32)
    ensures var f := PingResponseFrame(l, P.ResponseBytes(id, t0, t1));
      (l == Corrected ==> f[2] == P.Response1 && f[3] == id) &&
      (l == AsWritten ==> f[2] == 0x10 && f[3] == P.Response1)
  {
  }
}
