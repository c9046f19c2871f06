/**
 * The Rust iambic keyer: a finite state machine (Idle, SendDit, SendDah,
 * Gap) driven by paddle GPIO samples and a microsecond clock, with PARIS
 * timing, dit/dah memory and the Mode-B bonus element.
 *
 * The transition function is stated on values (`Proc`, `Step`); the class
 * `IambicProcessor` mutates its fields and is proved to follow it. `Step`
 * takes the memory-arming rule as a parameter: `AsWritten` is the rule of
 * the source (arm whenever the machine is busy), `OppositeOnly` the
 * corrected rule (never arm the element being sent, nor in the gap the
 * element just sent), under which a held squeeze alternates.
 */
module IambicRs {
  import opened Common
  import opened Samples

  datatype Mode = ModeA | ModeB
  datatype Element = Dit | Dah
  datatype State = Idle | SendDit | SendDah | Gap

  datatype Config = Config(wpm: u32, mode: Mode, ditMemory: bool, dahMemory: bool)

  /** IambicConfig::with_wpm: Mode B with both memories, at the given speed. */
  function WithWpm(wpm: u32): (c: Config)
    ensures c.wpm == wpm && c.mode == ModeB && c.ditMemory && c.dahMemory
  {
    Config(wpm, ModeB, true, true)
  }

  /** Element::opposite */
  function Opposite(e: Element): (o: Element)
    ensures o != e
  {
    match e
    case Dit => Dah
    case Dah => Dit
  }

  /** dit_duration_us: PARIS timing, 1.2 s / WPM, rounded down to whole microseconds. */
  function DitDuration(c: Config): (d: int)
    requires c.wpm > 0
    ensures 0 <= d && d * c.wpm <= 1_200_000 < (d + 1) * c.wpm
  {
    1_200_000 / c.wpm
  }

  /** dah_duration_us */
  function DahDuration(c: Config): (d: int)
    requires c.wpm > 0
  {
    DitDuration(c) * 3
  }

  /** gap_duration_us */
  function GapDuration(c: Config): (d: int)
    requires c.wpm > 0
  {
    DitDuration(c)
  }

  function Duration(c: Config, e: Element): int
    requires c.wpm > 0
  {
    match e
    case Dit => DitDuration(c)
    case Dah => DahDuration(c)
  }

  /** A dah is three dits, the gap one dit; at 25 WPM a dit lasts 48 ms and at 20 WPM 60 ms. */
  lemma DurationFacts(c: Config)
    requires c.wpm > 0
    ensures DahDuration(c) == 3 * DitDuration(c) && GapDuration(c) == DitDuration(c)
    ensures DitDuration(WithWpm(25)) == 48_000 && DitDuration(WithWpm(20)) == 60_000
    ensures Duration(c, Dit) < Duration(c, Dah) <==> DitDuration(c) > 0
  {
  }

  /** The processor's fields, as a value. */
  datatype Proc = Proc(state: State, elementEnd: int, lastElement: Element,
                       ditPressed: bool, dahPressed: bool, ditMem: bool, dahMem: bool,
                       squeezeSeen: bool, keyDown: bool)

  function SendState(e: Element): State
  {
    match e
    case Dit => SendDit
    case Dah => SendDah
  }

  function MemOf(p: Proc, e: Element): bool
  {
    match e
    case Dit => p.ditMem
    case Dah => p.dahMem
  }

  /** IambicProcessor::new: Idle, key up, last element Dah so that a first squeeze starts with a dit. */
  function NewProc(): (p: Proc)
    ensures p.state == Idle && !p.keyDown && p.lastElement == Dah
    ensures !p.ditMem && !p.dahMem && !p.squeezeSeen && !p.ditPressed && !p.dahPressed
  {
    Proc(Idle, 0, Dah, false, false, false, false, false, false)
  }

  datatype ArmRule = AsWritten | OppositeOnly

  /** May a press of `e` arm its memory in the state of `p`? */
  predicate MayArm(rule: ArmRule, p: Proc, e: Element)
  {
    match rule
    case AsWritten => p.state != Idle
    case OppositeOnly =>
      match p.state
      case Idle => false
      case SendDit => e == Dah
      case SendDah => e == Dit
      case Gap => e != p.lastElement
  }

  /**
   * update_gpio: record the paddles; a new squeeze (both pressed now, not
   * both before) sets squeeze_seen; a pressed paddle arms its memory only
   * if the arming rule allows it here and the config enables it.
   */
  function UpdateGpio(c: Config, p: Proc, gpio: bv8, rule: ArmRule): (q: Proc)
    ensures q.ditPressed == GpioDit(gpio) && q.dahPressed == GpioDah(gpio)
    ensures q.squeezeSeen <==> p.squeezeSeen || (GpioBoth(gpio) && !(p.ditPressed && p.dahPressed))
    ensures q.ditMem <==> p.ditMem || (MayArm(rule, p, Dit) && GpioDit(gpio) && c.ditMemory)
    ensures q.dahMem <==> p.dahMem || (MayArm(rule, p, Dah) && GpioDah(gpio) && c.dahMemory)
    ensures q.state == p.state && q.elementEnd == p.elementEnd && q.lastElement == p.lastElement && q.keyDown == p.keyDown
  {
    var dit, dah := GpioDit(gpio), GpioDah(gpio);
    var wasSqueeze := p.ditPressed && p.dahPressed;
    var seen := if dit && dah && !wasSqueeze then true else p.squeezeSeen;
    var ditMem := if MayArm(rule, p, Dit) && dit && c.ditMemory then true else p.ditMem;
    var dahMem := if MayArm(rule, p, Dah) && dah && c.dahMemory then true else p.dahMem;
    p.(ditPressed := dit, dahPressed := dah, squeezeSeen := seen, ditMem := ditMem, dahMem := dahMem)
  }

  datatype Decision = Decision(p: Proc, next: Option<Element>)

  /**
   * decide_next_element: dit memory, then dah memory (each consumed when
   * used), then the Mode-B bonus — the opposite of the last element once a
   * seen squeeze is released — then the live paddles, a squeeze
   * alternating; with neither paddle pressed squeeze_seen is cleared.
   */
  function DecideNext(c: Config, p: Proc): (d: Decision)
    ensures p.ditMem ==> d == Decision(p.(ditMem := false), Some(Dit))
    ensures !p.ditMem && p.dahMem ==> d == Decision(p.(dahMem := false), Some(Dah))
    ensures !p.ditMem && !p.dahMem && c.mode == ModeB && p.squeezeSeen && !(p.ditPressed && p.dahPressed) ==>
      d == Decision(p.(squeezeSeen := false), Some(Opposite(p.lastElement)))
    ensures !p.ditMem && !p.dahMem && !(c.mode == ModeB && p.squeezeSeen && !(p.ditPressed && p.dahPressed)) ==>
      (p.ditPressed && p.dahPressed ==> d == Decision(p, Some(Opposite(p.lastElement)))) &&
      (p.ditPressed != p.dahPressed ==> d == Decision(p, Some(if p.ditPressed then Dit else Dah))) &&
      (!p.ditPressed && !p.dahPressed ==> d == Decision(p.(squeezeSeen := false), None))
    ensures d.next.None? <==> !p.ditMem && !p.dahMem && !p.ditPressed && !p.dahPressed &&
                              !(c.mode == ModeB && p.squeezeSeen)
  {
    if p.ditMem then Decision(p.(ditMem := false), Some(Dit))
    else if p.dahMem then Decision(p.(dahMem := false), Some(Dah))
    else if c.mode == ModeB && p.squeezeSeen && !(p.ditPressed && p.dahPressed) then
      Decision(p.(squeezeSeen := false), Some(Opposite(p.lastElement)))
    else if p.ditPressed && p.dahPressed then Decision(p, Some(Opposite(p.lastElement)))
    else if p.ditPressed then Decision(p, Some(Dit))
    else if p.dahPressed then Decision(p, Some(Dah))
    else Decision(p.(squeezeSeen := false), None)
  }

  /** start_element: key down, squeeze_seen re-read from the paddles, send until now + duration. */
  function StartElement(c: Config, p: Proc, e: Element, now: int): (q: Proc)
    requires c.wpm > 0
    ensures q.keyDown && q.state == SendState(e) && q.elementEnd == now + Duration(c, e)
    ensures q.squeezeSeen == (p.ditPressed && p.dahPressed)
    ensures q == p.(keyDown := q.keyDown, state := q.state, elementEnd := q.elementEnd, squeezeSeen := q.squeezeSeen)
  {
    p.(keyDown := true, squeezeSeen := p.ditPressed && p.dahPressed, state := SendState(e), elementEnd := now + Duration(c, e))
  }

  /** tick_idle: start the decided element, if any. */
  function TickIdle(c: Config, p: Proc, now: int): Proc
    requires c.wpm > 0
  {
    var d := DecideNext(c, p);
    if d.next.Some? then StartElement(c, d.p, d.next.value, now) else d.p
  }

  /** tick_sending: once the element's end is reached, key up, remember the element and run a gap. */
  function TickSending(c: Config, p: Proc, now: int, e: Element): (q: Proc)
    requires c.wpm > 0
    ensures now >= p.elementEnd ==>
      q == p.(keyDown := false, lastElement := e, state := Gap, elementEnd := now + GapDuration(c))
    ensures now < p.elementEnd ==> q == p
  {
    if now >= p.elementEnd then
      p.(keyDown := false, lastElement := e, state := Gap, elementEnd := now + GapDuration(c))
    else p
  }

  /** tick_gap: once the gap is over, go Idle and decide again within the same tick. */
  function TickGap(c: Config, p: Proc, now: int): Proc
    requires c.wpm > 0
  {
    if now >= p.elementEnd then TickIdle(c, p.(state := Idle), now) else p
  }

  /** tick: update the paddles, then run the state's handler. */
  function Step(c: Config, p: Proc, now: int, gpio: bv8, rule: ArmRule): Proc
    requires c.wpm > 0
  {
    var q := UpdateGpio(c, p, gpio, rule);
    match q.state
    case Idle => TickIdle(c, q, now)
    case SendDit => TickSending(c, q, now, Dit)
    case SendDah => TickSending(c, q, now, Dah)
    case Gap => TickGap(c, q, now)
  }

  /** The sample a tick returns: the paddles as given and the key state; every other field zero. */
  function Output(p: Proc, gpio: bv8): (s: Sample)
    ensures s.gpio == gpio && (s.localKey == 1 <==> p.keyDown) && (s.localKey == 0 <==> !p.keyDown)
    ensures s.audioLevel == 0 && s.flags == 0 && s.configGen == 0
  {
    Sample(gpio, if p.keyDown then 1 else 0, 0, 0, 0)
  }

  /** reset: back to Idle with key up and every latch cleared; the last element is kept. */
  function ResetProc(p: Proc): (q: Proc)
    ensures q.state == Idle && !q.keyDown && !q.ditMem && !q.dahMem && !q.squeezeSeen && q.elementEnd == 0
    ensures q.lastElement == p.lastElement && q.ditPressed == p.ditPressed && q.dahPressed == p.dahPressed
  {
    p.(state := Idle, elementEnd := 0, ditMem := false, dahMem := false, squeezeSeen := false, keyDown := false)
  }

  /** The sending element's end stops a send: key up, element recorded, and the gap runs for one dit. */
  lemma {:induction false} ElementEndEntersGap(c: Config, p: Proc, e: Element, now: int, gpio: bv8, rule: ArmRule)
    requires c.wpm > 0 && p.state == SendState(e) && now >= p.elementEnd
    ensures var q := Step(c, p, now, gpio, rule);
      q.state == Gap && !q.keyDown && q.lastElement == e && q.elementEnd == now + GapDuration(c)
  {
    var u := UpdateGpio(c, p, gpio, rule);
    assert u.state == SendState(e);
  }

  /**
   * The end of a gap returns to Idle and decides within the same tick:
   * the decided element, if any, starts at once with its full duration.
   */
  lemma {:induction false} GapEndDecidesSameTick(c: Config, p: Proc, now: int, gpio: bv8, rule: ArmRule)
    requires c.wpm > 0 && p.state == Gap && now >= p.elementEnd
    ensures var d := DecideNext(c, UpdateGpio(c, p, gpio, rule).(state := Idle));
      var q := Step(c, p, now, gpio, rule);
      (d.next.None? ==> q.state == Idle && q.keyDown == p.keyDown) &&
      (d.next.Some? ==> q.state == SendState(d.next.value) && q.keyDown && q.elementEnd == now + Duration(c, d.next.value))
  {
    var u := UpdateGpio(c, p, gpio, rule);
    assert u.state == Gap && u.elementEnd == p.elementEnd && u.keyDown == p.keyDown;
  }

  /** While Idle, memory is never armed, whatever the rule. */
  lemma IdleNeverArms(c: Config, p: Proc, gpio: bv8, rule: ArmRule)
    requires p.state == Idle
    ensures UpdateGpio(c, p, gpio, rule).ditMem == p.ditMem && UpdateGpio(c, p, gpio, rule).dahMem == p.dahMem
  {
  }

  /** Mode-B bonus: a squeeze released during a dit still yields a dah after the gap (two ticks: element end, gap end). */
  lemma {:induction false} ModeBBonus(c: Config, p: Proc, t1: int, t2: int, rule: ArmRule)
    requires c.wpm > 0 && c.mode == ModeB
    requires p.state == SendDit && p.squeezeSeen && !p.ditMem && !p.dahMem
    requires t1 >= p.elementEnd && t2 >= t1 + GapDuration(c)
    ensures var q := Step(c, Step(c, p, t1, 0, rule), t2, 0, rule);
      q.state == SendDah && q.keyDown && q.elementEnd == t2 + DahDuration(c) && !q.squeezeSeen
  {
    var p1 := Step(c, p, t1, 0, rule);
    ElementEndEntersGap(c, p, Dit, t1, 0, rule);
    assert p1.squeezeSeen && !p1.ditMem && !p1.dahMem && !p1.ditPressed && !p1.dahPressed;
    var u := UpdateGpio(c, p1, 0, rule);
    assert u.state == Gap && u.lastElement == Dit && u.squeezeSeen && !u.ditMem && !u.dahMem;
  }

  /** Mode A has no bonus: the same release leaves the keyer Idle with the key up. */
  lemma {:induction false} ModeANoBonus(c: Config, p: Proc, t1: int, t2: int, rule: ArmRule)
    requires c.wpm > 0 && c.mode == ModeA
    requires p.state == SendDit && !p.ditMem && !p.dahMem
    requires t1 >= p.elementEnd && t2 >= t1 + GapDuration(c)
    ensures var q := Step(c, Step(c, p, t1, 0, rule), t2, 0, rule);
      q.state == Idle && !q.keyDown && !q.squeezeSeen
  {
    var p1 := Step(c, p, t1, 0, rule);
    ElementEndEntersGap(c, p, Dit, t1, 0, rule);
    var u := UpdateGpio(c, p1, 0, rule);
    assert u.state == Gap && !u.ditMem && !u.dahMem && !u.ditPressed && !u.dahPressed;
  }

  /**
   * Dit memory: with dah held from the start and dit tapped during the dah,
   * a dit follows the gap although no paddle is pressed any more.
   */
  lemma {:induction false} DitMemoryDuringDah(c: Config, tap: int, release: int, t1: int, t2: int)
    requires c.wpm > 0 && c.ditMemory
    requires 0 <= tap <= release < DahDuration(c) <= t1 && t2 >= t1 + GapDuration(c)
    ensures var p0 := Step(c, NewProc(), 0, GpioFromPaddles(false, true), AsWritten);
      var p1 := Step(c, p0, tap, GpioFromPaddles(true, true), AsWritten);
      var p2 := Step(c, p1, release, GpioFromPaddles(false, false), AsWritten);
      var p3 := Step(c, p2, t1, GpioFromPaddles(false, false), AsWritten);
      var p4 := Step(c, p3, t2, GpioFromPaddles(false, false), AsWritten);
      p0.state == SendDah && p0.keyDown && p4.state == SendDit && p4.keyDown
  {
    var both, none, dahOnly := GpioFromPaddles(true, true), GpioFromPaddles(false, false), GpioFromPaddles(false, true);
    GpioPaddlesRoundTrip(true, true);
    GpioPaddlesRoundTrip(false, false);
    GpioPaddlesRoundTrip(false, true);
    var p0 := Step(c, NewProc(), 0, dahOnly, AsWritten);
    assert p0.state == SendDah && p0.elementEnd == DahDuration(c) && !p0.ditMem;
    var p1 := Step(c, p0, tap, both, AsWritten);
    var p2 := Step(c, p1, release, none, AsWritten);
    var p3 := Step(c, p2, t1, none, AsWritten);
    assert p1.state == SendDah && p1.ditMem;
    assert p2.state == SendDah && p2.ditMem && p2.elementEnd == DahDuration(c);
    ElementEndEntersGap(c, p2, Dah, t1, none, AsWritten);
  }

  /** A processor in the middle of a squeeze: sending `e` with both paddles held and no memory for `e`. */
  ghost predicate SqueezeSending(p: Proc, e: Element)
  {
    p.state == SendState(e) && p.ditPressed && p.dahPressed && !MemOf(p, e) && p.keyDown
  }

  /** A squeeze from Idle starts with the dit (the opposite of the initial last element). */
  lemma SqueezeStartsWithDit(c: Config, now: int, rule: ArmRule)
    requires c.wpm > 0
    ensures SqueezeSending(Step(c, NewProc(), now, GpioFromPaddles(true, true), rule), Dit)
  {
    GpioPaddlesRoundTrip(true, true);
  }

  /**
   * Under the corrected arming rule a held squeeze alternates: after the
   * element end and the gap end, the opposite element is being sent,
   * whatever the mode and memory settings.
   */
  lemma {:induction false} SqueezeAlternatesCorrected(c: Config, p: Proc, e: Element, t1: int, t2: int)
    requires c.wpm > 0 && SqueezeSending(p, e)
    requires t1 >= p.elementEnd && t2 >= t1 + GapDuration(c)
    ensures var both := GpioFromPaddles(true, true);
      var q := Step(c, Step(c, p, t1, both, OppositeOnly), t2, both, OppositeOnly);
      SqueezeSending(q, Opposite(e)) && q.elementEnd == t2 + Duration(c, Opposite(e))
  {
    var both := GpioFromPaddles(true, true);
    GpioPaddlesRoundTrip(true, true);
    var u1 := UpdateGpio(c, p, both, OppositeOnly);
    assert !MemOf(u1, e) && u1.state == SendState(e);
    var p1 := Step(c, p, t1, both, OppositeOnly);
    assert p1 == u1.(keyDown := false, lastElement := e, state := Gap, elementEnd := t1 + GapDuration(c));
    var u2 := UpdateGpio(c, p1, both, OppositeOnly);
    assert !MemOf(u2, e) && u2.state == Gap && u2.lastElement == e && u2.ditPressed && u2.dahPressed;
    var d := DecideNext(c, u2.(state := Idle));
    assert d.next == Some(Opposite(e)) && !MemOf(d.p, e) && !MemOf(d.p, Opposite(e));
  }

  /**
   * As written, arming in every busy state re-arms the dit memory while a
   * squeezed dit is being sent, so with dit memory enabled a held squeeze
   * sends a dit again instead of alternating.
   */
  lemma {:induction false} SqueezeRepeatsDitAsWritten(c: Config, p: Proc, t1: int, t2: int)
    requires c.wpm > 0 && c.ditMemory && p.state == SendDit && p.ditPressed && p.dahPressed
    requires t1 >= p.elementEnd && t2 >= t1 + GapDuration(c)
    ensures var both := GpioFromPaddles(true, true);
      var q := Step(c, Step(c, p, t1, both, AsWritten), t2, both, AsWritten);
      q.state == SendDit && q.keyDown
  {
    var both := GpioFromPaddles(true, true);
    GpioPaddlesRoundTrip(true, true);
    var p1 := Step(c, p, t1, both, AsWritten);
    ElementEndEntersGap(c, p, Dit, t1, both, AsWritten);
    var u2 := UpdateGpio(c, p1, both, AsWritten);
    assert u2.ditMem && u2.state == Gap;
  }

  /**
   * As written, a single dit whose paddle is still held when the dit ends
   * and released during the gap arms its own memory, so a second dit
   * starts when the gap ends (at 20 WPM: ticks at 0, 60 ms, 90 ms, 121 ms).
   */
  lemma SingleDitRepeatsAsWritten()
    ensures var c := WithWpm(20);
      var dit, none := GpioFromPaddles(true, false), GpioFromPaddles(false, false);
      var p := Step(c, Step(c, Step(c, Step(c, NewProc(), 0, dit, AsWritten), 60_000, dit, AsWritten), 90_000, none, AsWritten), 121_000, none, AsWritten);
      p.state == SendDit && p.keyDown
  {
    var c := WithWpm(20);
    var dit, none := GpioFromPaddles(true, false), GpioFromPaddles(false, false);
    GpioPaddlesRoundTrip(true, false);
    GpioPaddlesRoundTrip(false, false);
    var p0 := Step(c, NewProc(), 0, dit, AsWritten);
    assert p0.state == SendDit && p0.elementEnd == 60_000;
    var p1 := Step(c, p0, 60_000, dit, AsWritten);
    assert p1.state == Gap && p1.ditMem && p1.elementEnd == 120_000;
    var p2 := Step(c, p1, 90_000, none, AsWritten);
    assert p2 == p1.(ditPressed := false);
  }

  /** Under the corrected rule the same single dit ends Idle with the key up. */
  lemma SingleDitStopsCorrected()
    ensures var c := WithWpm(20);
      var dit, none := GpioFromPaddles(true, false), GpioFromPaddles(false, false);
      var p := Step(c, Step(c, Step(c, Step(c, NewProc(), 0, dit, OppositeOnly), 60_000, dit, OppositeOnly), 90_000, none, OppositeOnly), 121_000, none, OppositeOnly);
      p.state == Idle && !p.keyDown
  {
    var c := WithWpm(20);
    var dit, none := GpioFromPaddles(true, false), GpioFromPaddles(false, false);
    GpioPaddlesRoundTrip(true, false);
    GpioPaddlesRoundTrip(false, false);
    var p0 := Step(c, NewProc(), 0, dit, OppositeOnly);
    assert p0.state == SendDit && p0.elementEnd == 60_000;
    var p1 := Step(c, p0, 60_000, dit, OppositeOnly);
    assert p1.state == Gap && !p1.ditMem && !p1.dahMem && p1.elementEnd == 120_000;
    var p2 := Step(c, p1, 90_000, none, OppositeOnly);
    assert p2 == p1.(ditPressed := false);
  }

  class IambicProcessor {
    var config: Config
    var state: State
    var elementEnd: int
    var lastElement: Element
    var ditPressed: bool
    var dahPressed: bool
    var ditMem: bool
    var dahMem: bool
    var squeezeSeen: bool
    var keyDown: bool

    function Snapshot(): Proc
      reads this
    {
      Proc(state, elementEnd, lastElement, ditPressed, dahPressed, ditMem, dahMem, squeezeSeen, keyDown)
    }

    /** IambicProcessor::new */
    constructor (c: Config)
      ensures config == c && Snapshot() == NewProc()
    {
      config := c;
      state, elementEnd, lastElement := Idle, 0, Dah;
      ditPressed, dahPressed, ditMem, dahMem := false, false, false, false;
      squeezeSeen, keyDown := false, false;
    }

    /** set_config: the FSM state is kept. */
    method SetConfig(c: Config)
      modifies this
      ensures config == c && Snapshot() == old(Snapshot())
    {
      config := c;
    }

    /** is_key_down */
    function IsKeyDown(): (k: bool)
      reads this
      ensures k == Snapshot().keyDown
    {
      keyDown
    }

    /** tick: one FSM step; the returned sample carries the paddles and the key state. */
    method Tick(now: int, gpio: bv8) returns (s: Sample)
      requires config.wpm > 0
      modifies this
      ensures config == old(config)
      ensures Snapshot() == Step(config, old(Snapshot()), now, gpio, AsWritten)
      ensures s == Output(Snapshot(), gpio)
    {
      UpdateGpioM(gpio);
      match state {
        case Idle => TickIdleM(now);
        case SendDit => TickSendingM(now, Dit);
        case SendDah => TickSendingM(now, Dah);
        case Gap => TickGapM(now);
      }
      s := Sample(gpio, if keyDown then 1 else 0, 0, 0, 0);
    }

    /** reset */
    method Reset()
      modifies this
      ensures config == old(config) && Snapshot() == ResetProc(old(Snapshot()))
    {
      state, elementEnd := Idle, 0;
      ditMem, dahMem, squeezeSeen, keyDown := false, false, false, false;
    }

    method UpdateGpioM(gpio: bv8)
      modifies this
      ensures config == old(config) && Snapshot() == UpdateGpio(config, old(Snapshot()), gpio, AsWritten)
    {
      var wasSqueeze := ditPressed && dahPressed;
      ditPressed := GpioDit(gpio);
      dahPressed := GpioDah(gpio);
      var isSqueeze := ditPressed && dahPressed;
      if isSqueeze && !wasSqueeze {
        squeezeSeen := true;
      }
      if state != Idle {
        if ditPressed && config.ditMemory {
          ditMem := true;
        }
        if dahPressed && config.dahMemory {
          dahMem := true;
        }
      }
    }

    method TickIdleM(now: int)
      requires config.wpm > 0
      modifies this
      ensures config == old(config) && Snapshot() == TickIdle(config, old(Snapshot()), now)
    {
      var next := DecideNextElementM();
      if next.Some? {
        StartElementM(next.value, now);
      }
    }

    method TickSendingM(now: int, e: Element)
      requires config.wpm > 0
      modifies this
      ensures config == old(config) && Snapshot() == TickSending(config, old(Snapshot()), now, e)
    {
      if now >= elementEnd {
        keyDown := false;
        lastElement := e;
        state := Gap;
        elementEnd := now + GapDuration(config);
      }
    }

    method TickGapM(now: int)
      requires config.wpm > 0
      modifies this
      ensures config == old(config) && Snapshot() == TickGap(config, old(Snapshot()), now)
    {
      if now >= elementEnd {
        state := Idle;
        TickIdleM(now);
      }
    }

    method DecideNextElementM() returns (next: Option<Element>)
      modifies this
      ensures config == old(config)
      ensures Decision(Snapshot(), next) == DecideNext(config, old(Snapshot()))
    {
      if ditMem {
        ditMem := false;
        return Some(Dit);
      }
      if dahMem {
        dahMem := false;
        return Some(Dah);
      }
      if config.mode == ModeB && squeezeSeen {
        if !(ditPressed && dahPressed) {
          squeezeSeen := false;
          return Some(Opposite(lastElement));
        }
      }
      if ditPressed && dahPressed {
        next := Some(Opposite(lastElement));
      } else if ditPressed {
        next := Some(Dit);
      } else if dahPressed {
        next := Some(Dah);
      } else {
        squeezeSeen := false;
        next := None;
      }
    }

    method StartElementM(e: Element, now: int)
      requires config.wpm > 0
      modifies this
      ensures config == old(config) && Snapshot() == StartElement(config, old(Snapshot()), e, now)
    {
      keyDown := true;
      squeezeSeen := ditPressed && dahPressed;
      var duration := match e case Dit => DitDuration(config) case Dah => DahDuration(config);
      state := SendState(e);
      elementEnd := now + duration;
    }
  }

  /** Test scenario: a dit pressed at time 0 keys down at once and stays down half-way through the dit. */
  method SingleDitKeysDown() returns (first: Sample, mid: Sample, atEnd: Sample)
    ensures first.localKey == 1 && mid.localKey == 1 && atEnd.localKey == 0
  {
    var k := new IambicProcessor(WithWpm(20));
    var dit := GpioFromPaddles(true, false);
    GpioPaddlesRoundTrip(true, false);
    first := k.Tick(0, dit);
    mid := k.Tick(30_000, dit);
    atEnd := k.Tick(60_000, dit);
  }
}
