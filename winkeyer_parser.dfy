/**
 * The Winkeyer 3 host-protocol byte parser: one byte at a time, bytes
 * 0x00-0x1F are commands (0x00 takes an admin sub-command byte), 0x20-0x7E
 * are text, and some commands take one or two parameter bytes. Callbacks
 * are recorded as events; the response buffer is what the call writes
 * into the caller's response array (its length restarts at 0 each byte).
 */
module WinkeyerParser {
  import opened Common

  const Version: u8 := 23

  const CmdAdmin: u8 := 0x00
  const CmdSidetone: u8 := 0x01
  const CmdSpeed: u8 := 0x02
  const CmdWeight: u8 := 0x03
  const CmdPttTiming: u8 := 0x04
  const CmdSpeedPot: u8 := 0x05
  const CmdPause: u8 := 0x06
  const CmdGetSpeedPot: u8 := 0x07
  const CmdBackspace: u8 := 0x08
  const CmdPinConfig: u8 := 0x09
  const CmdClearBuffer: u8 := 0x0A
  const CmdKeyImmediate: u8 := 0x0B
  const CmdHscwSpeed: u8 := 0x0C
  const CmdFarnsworth: u8 := 0x0D
  const CmdWinkeyMode: u8 := 0x0E
  const CmdLoadDefaults: u8 := 0x0F
  const CmdMax: u8 := 0x1F

  const AdminReset: u8 := 0x01
  const AdminHostOpen: u8 := 0x02
  const AdminHostClose: u8 := 0x03
  const AdminEcho: u8 := 0x04

  const TextMin: u8 := 0x20
  const TextMax: u8 := 0x7E

  datatype PState = Idle | AdminWaitSub | WaitParam1 | WaitParam2

  /** winkeyer_parser_t */
  datatype Wk = Wk(state: PState, currentCmd: u8, param1: u8, sessionOpen: bool)

  /** A callback invocation with its arguments. */
  datatype Event =
    | HostOpened | HostClosed | Speed(wpm: u8) | Sidetone(code: u8) | Weight(weight: u8)
    | Text(c: u8) | ClearBuffer | KeyImmediate(down: bool) | Pause(paused: bool)
    | PttTiming(leadIn: u8, tail: u8) | PinConfig(config: u8) | Mode(mode: u8)

  /** The callback slots of winkeyer_callbacks_t; a call passes the set of non-NULL ones. */
  datatype Callback =
    | OnHostOpen | OnHostClose | OnSpeed | OnSidetone | OnWeight | OnText | OnClearBuffer
    | OnKeyImmediate | OnPause | OnPttTiming | OnPinConfig | OnMode

  function SlotOf(e: Event): Callback
  {
    match e
    case HostOpened => OnHostOpen
    case HostClosed => OnHostClose
    case Speed(_) => OnSpeed
    case Sidetone(_) => OnSidetone
    case Weight(_) => OnWeight
    case Text(_) => OnText
    case ClearBuffer => OnClearBuffer
    case KeyImmediate(_) => OnKeyImmediate
    case Pause(_) => OnPause
    case PttTiming(_, _) => OnPttTiming
    case PinConfig(_) => OnPinConfig
    case Mode(_) => OnMode
  }

  /** INVOKE_CALLBACK: the event happens only when its slot is set. */
  function Fire(cb: set<Callback>, e: Event): (r: seq<Event>)
    ensures r == [e] || r == []
    ensures |r| == 1 <==> SlotOf(e) in cb
  {
    if SlotOf(e) in cb then [e] else []
  }

  /** get_param_count: PTT timing takes two, the listed setters one, everything else none. */
  function ParamCount(cmd: u8): (n: nat)
    ensures n <= 2
    ensures n == 2 <==> cmd == CmdPttTiming
    ensures cmd == CmdAdmin || cmd > CmdWinkeyMode ==> n == 0
  {
    if cmd == CmdPttTiming then 2
    else if cmd in {CmdSidetone, CmdSpeed, CmdWeight, CmdSpeedPot, CmdPause, CmdPinConfig,
                    CmdKeyImmediate, CmdHscwSpeed, CmdFarnsworth, CmdWinkeyMode} then 1
    else 0
  }

  /** The result of one byte: the new parser, the callbacks made and the response bytes. */
  datatype Outcome = Outcome(next: Wk, events: seq<Event>, response: seq<u8>)

  /** Admin echo is pending: the next byte is sent back. */
  predicate EchoPending(w: Wk)
  {
    w.currentCmd == CmdAdmin && w.param1 == AdminEcho
  }

  /**
   * What the parser fields always satisfy between bytes: waiting for a
   * parameter means a command that takes one (or a pending echo) is current.
   */
  ghost predicate Valid(w: Wk)
  {
    (w.state == WaitParam1 ==> EchoPending(w) || ParamCount(w.currentCmd) > 0) &&
    (w.state == WaitParam2 ==> ParamCount(w.currentCmd) == 2)
  }

  /** winkeyer_parser_init */
  function Initial(): (w: Wk)
    ensures w.state == Idle && !w.sessionOpen && Valid(w)
  {
    Wk(Idle, 0, 0, false)
  }

  /** process_admin_subcmd */
  function AdminSub(w: Wk, sub: u8, cb: set<Callback>): (r: Outcome)
    requires w.state == AdminWaitSub
    ensures r.next.state == (if sub == AdminEcho then WaitParam1 else Idle)
    ensures r.next.sessionOpen == (if sub == AdminHostOpen then true
                                   else if sub == AdminHostClose || sub == AdminReset then false
                                   else w.sessionOpen)
    ensures r.response == (if sub == AdminHostOpen then [Version] else [])
  {
    if sub == AdminHostOpen then
      Outcome(w.(sessionOpen := true, state := Idle), Fire(cb, HostOpened), [Version])
    else if sub == AdminHostClose then
      Outcome(w.(sessionOpen := false, state := Idle), Fire(cb, HostClosed), [])
    else if sub == AdminReset then
      Outcome(w.(sessionOpen := false, state := Idle), [], [])
    else if sub == AdminEcho then
      Outcome(w.(currentCmd := CmdAdmin, param1 := AdminEcho, state := WaitParam1), [], [])
    else
      Outcome(w.(state := Idle), [], [])
  }

  /** process_command: a command byte read in IDLE. */
  function Command(w: Wk, cmd: u8, cb: set<Callback>): (r: Outcome)
    requires w.state == Idle && cmd <= CmdMax
    ensures r.response == [] && r.next.sessionOpen == w.sessionOpen && r.next.param1 == w.param1
    ensures r.next.state == (if cmd == CmdAdmin then AdminWaitSub
                             else if ParamCount(cmd) > 0 then WaitParam1 else Idle)
    ensures r.events != [] ==> w.sessionOpen && cmd == CmdClearBuffer
  {
    if cmd == CmdAdmin then Outcome(w.(state := AdminWaitSub), [], [])
    else if ParamCount(cmd) > 0 then Outcome(w.(currentCmd := cmd, state := WaitParam1), [], [])
    else if w.sessionOpen && cmd == CmdClearBuffer then Outcome(w, Fire(cb, ClearBuffer), [])
    else Outcome(w, [], [])
  }

  /** The callback a one-parameter command makes with an open session. */
  function SetterEvent(cmd: u8, p: u8): Option<Event>
  {
    if cmd == CmdSpeed then Some(Speed(p))
    else if cmd == CmdSidetone then Some(Sidetone(p))
    else if cmd == CmdWeight then Some(Weight(p))
    else if cmd == CmdPinConfig then Some(PinConfig(p))
    else if cmd == CmdWinkeyMode then Some(Mode(p))
    else if cmd == CmdKeyImmediate then Some(KeyImmediate(p != 0))
    else if cmd == CmdPause then Some(Pause(p != 0))
    else None
  }

  /** process_param1 */
  function Param1(w: Wk, p: u8, cb: set<Callback>): (r: Outcome)
    requires w.state == WaitParam1
    ensures r.next.sessionOpen == w.sessionOpen && r.next.currentCmd == w.currentCmd
    ensures r.response == (if EchoPending(w) then [p] else [])
    ensures r.next.state == (if !EchoPending(w) && ParamCount(w.currentCmd) == 2 then WaitParam2 else Idle)
    ensures r.events != [] ==> w.sessionOpen && !EchoPending(w)
  {
    if EchoPending(w) then Outcome(w.(state := Idle), [], [p])
    else if !w.sessionOpen then
      Outcome(w.(state := if ParamCount(w.currentCmd) == 2 then WaitParam2 else Idle), [], [])
    else if ParamCount(w.currentCmd) == 2 then Outcome(w.(param1 := p, state := WaitParam2), [], [])
    else
      var e := SetterEvent(w.currentCmd, p);
      Outcome(w.(state := Idle), if e.Some? then Fire(cb, e.value) else [], [])
  }

  /** process_param2 */
  function Param2(w: Wk, p: u8, cb: set<Callback>): (r: Outcome)
    requires w.state == WaitParam2
    ensures r.next == w.(state := Idle) && r.response == []
    ensures r.events != [] ==> w.sessionOpen
  {
    if !w.sessionOpen then Outcome(w.(state := Idle), [], [])
    else if w.currentCmd == CmdPttTiming then Outcome(w.(state := Idle), Fire(cb, PttTiming(w.param1, p)), [])
    else Outcome(w.(state := Idle), [], [])
  }

  /** winkeyer_parser_byte on a parser that is not NULL. */
  function Step(w: Wk, b: u8, cb: set<Callback>): (r: Outcome)
    ensures Valid(w) ==> Valid(r.next)
    ensures |r.response| <= 1
    ensures r.next.sessionOpen != w.sessionOpen ==> w.state == AdminWaitSub
  {
    match w.state
    case Idle =>
      if b <= CmdMax then Command(w, b, cb)
      else if TextMin <= b <= TextMax then Outcome(w, if w.sessionOpen then Fire(cb, Text(b)) else [], [])
      else Outcome(w, [], [])
    case AdminWaitSub => AdminSub(w, b, cb)
    case WaitParam1 => Param1(w, b, cb)
    case WaitParam2 => Param2(w, b, cb)
  }

  /** Feeding a byte string: the final parser, every callback in order and the last call's response. */
  function Run(w: Wk, bytes: seq<u8>, cb: set<Callback>): (r: Outcome)
    ensures Valid(w) ==> Valid(r.next)
    decreases |bytes|
  {
    if bytes == [] then Outcome(w, [], [])
    else
      var o := Step(w, bytes[0], cb);
      var rest := Run(o.next, bytes[1..], cb);
      Outcome(rest.next, o.events + rest.events, if |bytes| == 1 then o.response else rest.response)
  }

  lemma RunPair(w: Wk, a: u8, b: u8, cb: set<Callback>)
    ensures var o := Step(w, a, cb); var o2 := Step(o.next, b, cb);
      Run(w, [a, b], cb) == Outcome(o2.next, o.events + o2.events, o2.response)
  {
    var o := Step(w, a, cb);
    var o2 := Step(o.next, b, cb);
    assert [a, b][1..] == [b];
    assert [b][1..] == [];
    assert Run(o.next, [b], cb) == Outcome(o2.next, o2.events + [], o2.response);
    assert o2.events + [] == o2.events;
  }

  /** ADMIN, HOST_OPEN from IDLE: the session opens, the host hears version 23. */
  lemma OpenSession(w: Wk, cb: set<Callback>)
    requires w.state == Idle
    ensures var r := Run(w, [CmdAdmin, AdminHostOpen], cb);
      r.next.state == Idle && r.next.sessionOpen && r.response == [Version] && r.events == Fire(cb, HostOpened)
  {
    RunPair(w, CmdAdmin, AdminHostOpen, cb);
  }

  /** ADMIN, HOST_CLOSE or ADMIN, RESET from IDLE: the session closes and nothing is sent back. */
  lemma CloseSession(w: Wk, sub: u8, cb: set<Callback>)
    requires w.state == Idle && (sub == AdminHostClose || sub == AdminReset)
    ensures var r := Run(w, [CmdAdmin, sub], cb);
      r.next.state == Idle && !r.next.sessionOpen && r.response == [] &&
      r.events == (if sub == AdminHostClose then Fire(cb, HostClosed) else [])
  {
    RunPair(w, CmdAdmin, sub, cb);
  }

  /** ADMIN, ECHO, x from IDLE: x comes back, with or without a session, and the session is kept. */
  lemma EchoReturnsByte(w: Wk, x: u8, cb: set<Callback>)
    requires w.state == Idle
    ensures var r := Run(w, [CmdAdmin, AdminEcho, x], cb);
      r.next.state == Idle && r.next.sessionOpen == w.sessionOpen && r.response == [x] && r.events == []
  {
    var o := Step(w, CmdAdmin, cb);
    RunPair(o.next, AdminEcho, x, cb);
    assert [CmdAdmin, AdminEcho, x][1..] == [AdminEcho, x];
  }

  /**
   * In IDLE a printable byte is passed to on_text only with an open session;
   * 0x7F-0xFF are dropped without any effect.
   */
  lemma TextByte(w: Wk, c: u8, cb: set<Callback>)
    requires w.state == Idle && c > CmdMax
    ensures Step(w, c, cb).next == w && Step(w, c, cb).response == []
    ensures Step(w, c, cb).events == (if w.sessionOpen && c <= TextMax then Fire(cb, Text(c)) else [])
  {
  }

  /** A run of printable bytes with the session open reaches on_text byte for byte. */
  lemma {:induction false} TextForwarded(w: Wk, text: seq<u8>)
    requires w.state == Idle && w.sessionOpen
    requires forall i | 0 <= i < |text| :: TextMin <= text[i] <= TextMax
    ensures Run(w, text, {OnText}).next == w
    ensures Run(w, text, {OnText}).events == seq(|text|, i requires 0 <= i < |text| => Text(text[i]))
    decreases |text|
  {
    if text != [] {
      TextForwarded(w, text[1..]);
      var tail := seq(|text| - 1, i requires 0 <= i < |text| - 1 => Text(text[1..][i]));
      assert [Text(text[0])] + tail == seq(|text|, i requires 0 <= i < |text| => Text(text[i]));
    }
  }

  /**
   * Without a session a command with parameters swallows exactly its
   * parameter bytes and calls nothing, ending back in IDLE.
   */
  lemma ClosedSessionSilent(w: Wk, cmd: u8, params: seq<u8>, cb: set<Callback>)
    requires w.state == Idle && !w.sessionOpen
    requires CmdAdmin < cmd <= CmdMax && |params| == ParamCount(cmd)
    ensures var r := Run(w, [cmd] + params, cb);
      r.next.state == Idle && !r.next.sessionOpen && r.events == [] && r.response == []
  {
    var o := Step(w, cmd, cb);
    assert ([cmd] + params)[1..] == params;
    if |params| == 1 {
      RunPair(w, cmd, params[0], cb);
      assert [cmd] + params == [cmd, params[0]];
    } else if |params| == 2 {
      RunPair(o.next, params[0], params[1], cb);
      assert params == [params[0], params[1]];
    }
  }

  /** PTT_TIMING with an open session waits for both parameters, then reports them together. */
  lemma PttTimingTwoParams(w: Wk, lead: u8, tail: u8, cb: set<Callback>)
    requires w.state == Idle && w.sessionOpen
    ensures Step(w, CmdPttTiming, cb).next.state == WaitParam1
    ensures Step(Step(w, CmdPttTiming, cb).next, lead, cb).next.state == WaitParam2
    ensures var r := Run(w, [CmdPttTiming, lead, tail], cb);
      r.next.state == Idle && r.events == Fire(cb, PttTiming(lead, tail))
  {
    var o := Step(w, CmdPttTiming, cb);
    RunPair(o.next, lead, tail, cb);
    assert [CmdPttTiming, lead, tail][1..] == [lead, tail];
  }

  /** A one-parameter setter with an open session reports its parameter and returns to IDLE. */
  lemma SetterReports(w: Wk, cmd: u8, p: u8, cb: set<Callback>)
    requires w.state == Idle && w.sessionOpen && ParamCount(cmd) == 1
    ensures var r := Run(w, [cmd, p], cb);
      r.next.state == Idle && r.response == [] &&
      r.events == (var e := SetterEvent(cmd, p); if e.Some? then Fire(cb, e.value) else [])
  {
    RunPair(w, cmd, p, cb);
  }

  /** A response byte appears only for HOST_OPEN and for the byte after ECHO. */
  lemma ResponseOnlyForOpenOrEcho(w: Wk, b: u8, cb: set<Callback>)
    ensures Step(w, b, cb).response != [] <==>
      (w.state == AdminWaitSub && b == AdminHostOpen) || (w.state == WaitParam1 && EchoPending(w))
  {
  }

  /** winkeyer_parser_t as the caller owns it. */
  class Parser {
    var state: PState
    var currentCmd: u8
    var param1: u8
    var sessionOpen: bool
    /** The callbacks made so far, in order. */
    var fired: seq<Event>

    function Snapshot(): Wk
      reads this
    {
      Wk(state, currentCmd, param1, sessionOpen)
    }

    /** winkeyer_parser_init */
    constructor Init()
      ensures Snapshot() == Initial() && fired == []
    {
      state, currentCmd, param1, sessionOpen := Idle, 0, 0, false;
      fired := [];
    }

    /** winkeyer_parser_reset: the same as init; callbacks already made stay made. */
    method Reset()
      modifies this
      ensures Snapshot() == Initial() && fired == old(fired)
    {
      state, currentCmd, param1, sessionOpen := Idle, 0, 0, false;
    }

    /** winkeyer_parser_is_open */
    predicate IsOpen()
      reads this
    {
      sessionOpen
    }

    method Invoke(cb: set<Callback>, e: Event)
      modifies this
      ensures Snapshot() == old(Snapshot()) && fired == old(fired) + Fire(cb, e)
    {
      if SlotOf(e) in cb {
        fired := fired + [e];
      }
    }

    /** winkeyer_parser_byte: the response is what lands in the caller's buffer. */
    method Byte(b: u8, cb: set<Callback>) returns (response: seq<u8>)
      modifies this
      ensures var o := Step(old(Snapshot()), b, cb);
        Snapshot() == o.next && fired == old(fired) + o.events && response == o.response
    {
      response := [];
      match state
      case Idle =>
        if b <= CmdMax {
          ProcessCommand(b, cb);
        } else if TextMin <= b <= TextMax && sessionOpen {
          Invoke(cb, Text(b));
        }
      case AdminWaitSub =>
        response := ProcessAdminSub(b, cb);
      case WaitParam1 =>
        response := ProcessParam1(b, cb);
      case WaitParam2 =>
        ProcessParam2(b, cb);
    }

    method ProcessAdminSub(sub: u8, cb: set<Callback>) returns (response: seq<u8>)
      requires state == AdminWaitSub
      modifies this
      ensures var o := AdminSub(old(Snapshot()), sub, cb);
        Snapshot() == o.next && fired == old(fired) + o.events && response == o.response
    {
      response := [];
      if sub == AdminHostOpen {
        sessionOpen := true;
        Invoke(cb, HostOpened);
        response := [Version];
        state := Idle;
      } else if sub == AdminHostClose {
        sessionOpen := false;
        Invoke(cb, HostClosed);
        state := Idle;
      } else if sub == AdminReset {
        sessionOpen := false;
        state := Idle;
      } else if sub == AdminEcho {
        currentCmd := CmdAdmin;
        param1 := AdminEcho;
        state := WaitParam1;
      } else {
        state := Idle;
      }
    }

    method ProcessCommand(cmd: u8, cb: set<Callback>)
      requires state == Idle && cmd <= CmdMax
      modifies this
      ensures var o := Command(old(Snapshot()), cmd, cb);
        Snapshot() == o.next && fired == old(fired) + o.events
    {
      if cmd == CmdAdmin {
        state := AdminWaitSub;
        return;
      }
      if !sessionOpen {
        if ParamCount(cmd) > 0 {
          currentCmd := cmd;
          state := WaitParam1;
        }
        return;
      }
      if ParamCount(cmd) == 0 {
        if cmd == CmdClearBuffer {
          Invoke(cb, ClearBuffer);
        }
      } else {
        currentCmd := cmd;
        state := WaitParam1;
      }
    }

    method ProcessParam1(p: u8, cb: set<Callback>) returns (response: seq<u8>)
      requires state == WaitParam1
      modifies this
      ensures var o := Param1(old(Snapshot()), p, cb);
        Snapshot() == o.next && fired == old(fired) + o.events && response == o.response
    {
      response := [];
      if currentCmd == CmdAdmin && param1 == AdminEcho {
        response := [p];
        state := Idle;
        return;
      }
      if !sessionOpen {
        state := if ParamCount(currentCmd) == 2 then WaitParam2 else Idle;
        return;
      }
      if ParamCount(currentCmd) == 2 {
        param1 := p;
        state := WaitParam2;
        return;
      }
      var e := SetterEvent(currentCmd, p);
      if e.Some? {
        Invoke(cb, e.value);
      }
      state := Idle;
    }

    method ProcessParam2(p: u8, cb: set<Callback>)
      requires state == WaitParam2
      modifies this
      ensures var o := Param2(old(Snapshot()), p, cb);
        Snapshot() == o.next && fired == old(fired) + o.events
    {
      if sessionOpen && currentCmd == CmdPttTiming {
        Invoke(cb, PttTiming(param1, p));
      }
      state := Idle;
    }
  }

  /** The host-open test: after ADMIN the parser waits for a sub-command; after HOST_OPEN it answers 23. */
  method HostOpenScenario() returns (mid: PState, open: bool, response: seq<u8>, fired: seq<Event>)
    ensures mid == AdminWaitSub && open && response == [Version] && fired == [HostOpened]
  {
    var p := new Parser.Init();
    var r0 := p.Byte(CmdAdmin, {OnHostOpen});
    mid := p.state;
    response := p.Byte(AdminHostOpen, {OnHostOpen});
    open, fired := p.IsOpen(), p.fired;
  }
}
