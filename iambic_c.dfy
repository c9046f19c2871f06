/**
 * The C iambic keyer. It refines the Rust machine with a memory window (a
 * paddle is remembered only while the element's progress, in percent, lies
 * inside a configured range), a memory mode selecting which paddles are
 * remembered, a squeeze latch (LATCH_ON samples the squeeze at element
 * start, LATCH_OFF follows the paddles live) and a restriction that a
 * sending element never arms its own memory.
 *
 * As for the Rust keyer, the transition function is stated on values and
 * the class is proved to follow it. `Step` takes the gap-arming rule as a
 * parameter: `GapArmsBoth` is the source (both memories may arm during
 * the gap), `GapArmsOpposite` the corrected rule (in the gap only the
 * element opposite to the one just sent), under which a held squeeze
 * alternates.
 */
module IambicC {
  import opened Common
  import opened Samples
  import I = IambicRs

  datatype MemoryMode = MemoryNone | DotOnly | DahOnly | DotAndDah
  datatype SqueezeMode = LatchOff | LatchOn

  datatype Config = Config(wpm: u32, mode: I.Mode, memoryMode: MemoryMode, squeezeMode: SqueezeMode,
                           memStart: u8, memEnd: u8)

  /** IAMBIC_CONFIG_DEFAULT: 20 WPM, Mode B, both memories, live squeeze, window 0..100 %. */
  function DefaultConfig(): (c: Config)
    ensures c.wpm == 20 && c.mode == I.ModeB && c.memoryMode == DotAndDah && c.squeezeMode == LatchOff
    ensures c.memStart == 0 && c.memEnd == 100
  {
    Config(20, I.ModeB, DotAndDah, LatchOff, 0, 100)
  }

  /** iambic_dit_memory_enabled / iambic_dah_memory_enabled */
  predicate MemoryEnabled(m: MemoryMode, e: I.Element)
  {
    match e
    case Dit => m == DotOnly || m == DotAndDah
    case Dah => m == DahOnly || m == DotAndDah
  }

  /** Each memory mode enables exactly the paddles it names. */
  lemma MemoryModes(e: I.Element)
    ensures !MemoryEnabled(MemoryNone, e) && MemoryEnabled(DotAndDah, e)
    ensures MemoryEnabled(DotOnly, e) <==> e == I.Dit
    ensures MemoryEnabled(DahOnly, e) <==> e == I.Dah
  {
  }

  /** iambic_dit_duration_us, iambic_dah_duration_us (gap = dit) */
  function DitDuration(c: Config): (d: int)
    requires c.wpm > 0
    ensures 0 <= d && d * c.wpm <= 1_200_000 < (d + 1) * c.wpm
  {
    1_200_000 / c.wpm
  }

  function Duration(c: Config, e: I.Element): (d: int)
    requires c.wpm > 0
    ensures e == I.Dah ==> d == 3 * DitDuration(c)
    ensures e == I.Dit ==> d == DitDuration(c)
  {
    match e
    case Dit => DitDuration(c)
    case Dah => DitDuration(c) * 3
  }

  datatype Proc = Proc(state: I.State, elementStart: int, elementEnd: int, elementDuration: int,
                       lastElement: I.Element, ditPressed: bool, dahPressed: bool,
                       ditMem: bool, dahMem: bool, squeezeSeen: bool, squeezeLatched: bool, keyDown: bool)

  function MemOf(p: Proc, e: I.Element): bool
  {
    match e
    case Dit => p.ditMem
    case Dah => p.dahMem
  }

  /** iambic_init: Idle, key up, last element DAH, every time and latch zero. */
  function InitProc(): (p: Proc)
    ensures p.state == I.Idle && !p.keyDown && p.lastElement == I.Dah
    ensures !p.ditMem && !p.dahMem && !p.squeezeSeen && !p.squeezeLatched && !p.ditPressed && !p.dahPressed
    ensures p.elementStart == 0 && p.elementEnd == 0 && p.elementDuration == 0
  {
    Proc(I.Idle, 0, 0, 0, I.Dah, false, false, false, false, false, false, false)
  }

  /** iambic_in_memory_window */
  predicate InMemoryWindow(pct: int, start: u8, end: u8)
  {
    start <= pct <= end
  }

  /** The element's progress in percent: elapsed time clamped at zero, 100 once the duration has passed. */
  function ProgressPct(p: Proc, now: int): (pct: int)
    requires p.elementDuration > 0
    ensures 0 <= pct <= 100
    ensures pct == 100 <==> now - p.elementStart >= p.elementDuration
    ensures now <= p.elementStart ==> pct == 0
  {
    var elapsed := if now - p.elementStart < 0 then 0 else now - p.elementStart;
    if elapsed >= p.elementDuration then 100 else (elapsed * 100) / p.elementDuration
  }

  /**
   * is_in_memory_window: always open outside the two send states and when
   * no duration is known; otherwise open iff the progress lies within the
   * configured [start, end] percentages.
   */
  predicate IsInMemoryWindow(c: Config, p: Proc, now: int)
  {
    if p.state != I.SendDit && p.state != I.SendDah then true
    else if p.elementDuration <= 0 then true
    else InMemoryWindow(ProgressPct(p, now), c.memStart, c.memEnd)
  }

  /** A window of 0..100 % accepts every press; an empty window (start > end) accepts none while sending. */
  lemma MemoryWindowBounds(c: Config, p: Proc, now: int)
    ensures c.memStart == 0 && c.memEnd >= 100 ==> IsInMemoryWindow(c, p, now)
    ensures c.memStart > c.memEnd && (p.state == I.SendDit || p.state == I.SendDah) && p.elementDuration > 0 ==>
      !IsInMemoryWindow(c, p, now)
  {
  }

  datatype GapRule = GapArmsBoth | GapArmsOpposite

  /** Can a press of `e` arm its memory in the state of `p`, the window permitting? */
  predicate CanArm(rule: GapRule, p: Proc, e: I.Element)
  {
    match p.state
    case Idle => false
    case SendDit => e != I.Dit
    case SendDah => e != I.Dah
    case Gap => rule == GapArmsBoth || e != p.lastElement
  }

  /**
   * Does a press of `e` under `gpio` arm its memory: the paddle is down,
   * the state allows `e` to be armed, the memory window is open and the
   * memory mode enables `e`?
   */
  predicate Arms(c: Config, p: Proc, gpio: bv8, now: int, rule: GapRule, e: I.Element)
  {
    (if e == I.Dit then GpioDit(gpio) else GpioDah(gpio)) &&
    CanArm(rule, p, e) && IsInMemoryWindow(c, p, now) && MemoryEnabled(c.memoryMode, e)
  }

  /**
   * update_gpio: record the paddles; a new squeeze sets squeeze_seen;
   * LATCH_OFF copies the live squeeze into the latch, LATCH_ON leaves it;
   * inside the memory window a pressed paddle arms its memory if the
   * element may be armed in this state and the memory mode enables it.
   */
  function UpdateGpio(c: Config, p: Proc, gpio: bv8, now: int, rule: GapRule): (q: Proc)
    ensures q.ditPressed == GpioDit(gpio) && q.dahPressed == GpioDah(gpio)
    ensures q.squeezeSeen <==> p.squeezeSeen || (GpioBoth(gpio) && !(p.ditPressed && p.dahPressed))
    ensures q.squeezeLatched == if c.squeezeMode == LatchOn then p.squeezeLatched else GpioBoth(gpio)
    ensures q.ditMem == (p.ditMem || Arms(c, p, gpio, now, rule, I.Dit))
    ensures q.dahMem == (p.dahMem || Arms(c, p, gpio, now, rule, I.Dah))
    ensures q.state == p.state && q.elementStart == p.elementStart && q.elementEnd == p.elementEnd &&
            q.elementDuration == p.elementDuration && q.lastElement == p.lastElement && q.keyDown == p.keyDown
  {
    var dit, dah := GpioDit(gpio), GpioDah(gpio);
    var wasSqueeze := p.ditPressed && p.dahPressed;
    var isSqueeze := dit && dah;
    var seen := if isSqueeze && !wasSqueeze then true else p.squeezeSeen;
    var latched := if c.squeezeMode == LatchOn then p.squeezeLatched else isSqueeze;
    var ditMem := p.ditMem || Arms(c, p, gpio, now, rule, I.Dit);
    var dahMem := p.dahMem || Arms(c, p, gpio, now, rule, I.Dah);
    GpioBothIff(gpio);
    p.(ditPressed := dit, dahPressed := dah, squeezeSeen := seen, squeezeLatched := latched, ditMem := ditMem, dahMem := dahMem)
  }

  /** The squeeze the Mode-B check looks at: the latch under LATCH_ON, the live paddles otherwise. */
  predicate CurrentSqueeze(c: Config, p: Proc)
  {
    if c.squeezeMode == LatchOn then p.squeezeLatched else p.ditPressed && p.dahPressed
  }

  datatype Decision = Decision(p: Proc, next: Option<I.Element>)

  /**
   * decide_next_element: dit memory, dah memory, the Mode-B bonus (opposite
   * of the last element once the latched or live squeeze is released),
   * then the live paddles; nothing pressed clears squeeze_seen.
   */
  function DecideNext(c: Config, p: Proc): (d: Decision)
    ensures p.ditMem ==> d == Decision(p.(ditMem := false), Some(I.Dit))
    ensures !p.ditMem && p.dahMem ==> d == Decision(p.(dahMem := false), Some(I.Dah))
    ensures !p.ditMem && !p.dahMem && c.mode == I.ModeB && p.squeezeSeen && !CurrentSqueeze(c, p) ==>
      d == Decision(p.(squeezeSeen := false), Some(I.Opposite(p.lastElement)))
    ensures !p.ditMem && !p.dahMem && !(c.mode == I.ModeB && p.squeezeSeen && !CurrentSqueeze(c, p)) ==>
      (p.ditPressed && p.dahPressed ==> d == Decision(p, Some(I.Opposite(p.lastElement)))) &&
      (p.ditPressed != p.dahPressed ==> d == Decision(p, Some(if p.ditPressed then I.Dit else I.Dah))) &&
      (!p.ditPressed && !p.dahPressed ==> d == Decision(p.(squeezeSeen := false), None))
  {
    if p.ditMem then Decision(p.(ditMem := false), Some(I.Dit))
    else if p.dahMem then Decision(p.(dahMem := false), Some(I.Dah))
    else if c.mode == I.ModeB && p.squeezeSeen && !CurrentSqueeze(c, p) then
      Decision(p.(squeezeSeen := false), Some(I.Opposite(p.lastElement)))
    else if p.ditPressed && p.dahPressed then Decision(p, Some(I.Opposite(p.lastElement)))
    else if p.ditPressed then Decision(p, Some(I.Dit))
    else if p.dahPressed then Decision(p, Some(I.Dah))
    else Decision(p.(squeezeSeen := false), None)
  }

  /** start_element: key down; latch the squeeze and make squeeze_seen equal to it; time the element. */
  function StartElement(c: Config, p: Proc, e: I.Element, now: int): (q: Proc)
    requires c.wpm > 0
    ensures q.keyDown && q.state == I.SendState(e)
    ensures q.squeezeLatched == q.squeezeSeen == (p.ditPressed && p.dahPressed)
    ensures q.elementStart == now && q.elementDuration == Duration(c, e) && q.elementEnd == now + Duration(c, e)
    ensures q.lastElement == p.lastElement && q.ditMem == p.ditMem && q.dahMem == p.dahMem
  {
    var latched := p.ditPressed && p.dahPressed;
    p.(keyDown := true, squeezeLatched := latched, squeezeSeen := latched, state := I.SendState(e),
       elementStart := now, elementDuration := Duration(c, e), elementEnd := now + Duration(c, e))
  }

  function TickIdle(c: Config, p: Proc, now: int): Proc
    requires c.wpm > 0
  {
    var d := DecideNext(c, p);
    if d.next.Some? then StartElement(c, d.p, d.next.value, now) else d.p
  }

  /** tick_sending: at the element's end, key up, record it, and time a one-dit gap from now. */
  function TickSending(c: Config, p: Proc, now: int, e: I.Element): (q: Proc)
    requires c.wpm > 0
    ensures now >= p.elementEnd ==>
      q == p.(keyDown := false, lastElement := e, state := I.Gap, elementStart := now,
              elementDuration := DitDuration(c), elementEnd := now + DitDuration(c))
    ensures now < p.elementEnd ==> q == p
  {
    if now >= p.elementEnd then
      p.(keyDown := false, lastElement := e, state := I.Gap, elementStart := now,
         elementDuration := DitDuration(c), elementEnd := now + DitDuration(c))
    else p
  }

  /** tick_gap: at the gap's end, Idle with no duration, and decide within the same tick. */
  function TickGap(c: Config, p: Proc, now: int): Proc
    requires c.wpm > 0
  {
    if now >= p.elementEnd then TickIdle(c, p.(state := I.Idle, elementDuration := 0), now) else p
  }

  /** iambic_tick */
  function Step(c: Config, p: Proc, now: int, gpio: bv8, rule: GapRule): Proc
    requires c.wpm > 0
  {
    var q := UpdateGpio(c, p, gpio, now, rule);
    match q.state
    case Idle => TickIdle(c, q, now)
    case SendDit => TickSending(c, q, now, I.Dit)
    case SendDah => TickSending(c, q, now, I.Dah)
    case Gap => TickGap(c, q, now)
  }

  /** The sample a tick returns: EMPTY with the paddles and the key state. */
  function Output(p: Proc, gpio: bv8): (s: Sample)
    ensures s == Empty.(gpio := gpio, localKey := s.localKey)
    ensures s.localKey == (if p.keyDown then 1 else 0)
  {
    Empty.(gpio := gpio, localKey := if p.keyDown then 1 else 0)
  }

  /** iambic_reset: Idle, key up, times and latches cleared; the last element is kept. */
  function ResetProc(p: Proc): (q: Proc)
    ensures q.state == I.Idle && !q.keyDown && !q.ditMem && !q.dahMem && !q.squeezeSeen && !q.squeezeLatched
    ensures q.elementStart == 0 && q.elementEnd == 0 && q.elementDuration == 0
    ensures q.lastElement == p.lastElement && q.ditPressed == p.ditPressed && q.dahPressed == p.dahPressed
  {
    p.(state := I.Idle, elementStart := 0, elementEnd := 0, elementDuration := 0,
       ditMem := false, dahMem := false, squeezeSeen := false, squeezeLatched := false, keyDown := false)
  }

  /** A sending element never arms its own memory, under either gap rule. */
  lemma SendingNeverArmsItself(c: Config, p: Proc, e: I.Element, gpio: bv8, now: int, rule: GapRule)
    requires p.state == I.SendState(e)
    ensures MemOf(UpdateGpio(c, p, gpio, now, rule), e) == MemOf(p, e)
  {
  }

  /** Under LATCH_OFF the latch follows the live squeeze; under LATCH_ON only start_element changes it. */
  lemma LatchModes(c: Config, p: Proc, gpio: bv8, now: int, rule: GapRule)
    ensures c.squeezeMode == LatchOff ==> UpdateGpio(c, p, gpio, now, rule).squeezeLatched == GpioBoth(gpio)
    ensures c.squeezeMode == LatchOn ==> UpdateGpio(c, p, gpio, now, rule).squeezeLatched == p.squeezeLatched
  {
  }

  /**
   * Mode-B bonus: after a squeeze released during a dit (live squeeze) the
   * element end and the gap end lead to a dah; Mode A goes Idle instead.
   */
  lemma {:induction false} ModeBBonus(c: Config, p: Proc, t1: int, t2: int, rule: GapRule)
    requires c.wpm > 0 && c.squeezeMode == LatchOff
    requires p.state == I.SendDit && p.squeezeSeen && !p.ditMem && !p.dahMem
    requires t1 >= p.elementEnd && t2 >= t1 + DitDuration(c)
    ensures var q := Step(c, Step(c, p, t1, 0, rule), t2, 0, rule);
      (c.mode == I.ModeB ==> q.state == I.SendDah && q.keyDown && q.elementEnd == t2 + 3 * DitDuration(c)) &&
      (c.mode == I.ModeA ==> q.state == I.Idle && !q.keyDown)
  {
    var u1 := UpdateGpio(c, p, 0, t1, rule);
    assert !u1.ditMem && !u1.dahMem && !u1.ditPressed && !u1.dahPressed && u1.squeezeSeen;
    var p1 := Step(c, p, t1, 0, rule);
    assert p1.state == I.Gap && p1.lastElement == I.Dit && p1.elementEnd == t1 + DitDuration(c);
    var u2 := UpdateGpio(c, p1, 0, t2, rule);
    assert !u2.ditMem && !u2.dahMem && u2.squeezeSeen && !CurrentSqueeze(c, u2);
  }

  /**
   * Dah memory: dit pressed at time 0, dah added half-way through the dit
   * (inside a 0..100 % window), both released before the dit ends — after
   * the dit and its gap the remembered dah is sent.
   */
  lemma {:induction false} DahMemoryDuringDit(c: Config, half: int, t1: int, t2: int, rule: GapRule)
    requires c.wpm > 0 && c.memoryMode == DotAndDah && c.memStart == 0 && c.memEnd == 100
    requires 0 <= half < DitDuration(c) <= t1 && t2 >= t1 + DitDuration(c)
    ensures var p0 := Step(c, InitProc(), 0, GpioFromPaddles(true, false), rule);
      var p1 := Step(c, p0, half, GpioFromPaddles(true, true), rule);
      var p2 := Step(c, p1, t1, GpioFromPaddles(false, false), rule);
      var p3 := Step(c, p2, t2, GpioFromPaddles(false, false), rule);
      p0.state == I.SendDit && p1.dahMem && p2.state == I.Gap && p3.state == I.SendDah && p3.keyDown
  {
    GpioPaddlesRoundTrip(true, false);
    GpioPaddlesRoundTrip(true, true);
    GpioPaddlesRoundTrip(false, false);
    var p0 := Step(c, InitProc(), 0, GpioFromPaddles(true, false), rule);
    assert p0.state == I.SendDit && p0.elementStart == 0 && p0.elementDuration == DitDuration(c) && !p0.ditMem && !p0.dahMem;
    assert IsInMemoryWindow(c, p0, half);
    var p1 := Step(c, p0, half, GpioFromPaddles(true, true), rule);
    assert p1.state == I.SendDit && p1.dahMem && !p1.ditMem;
    var p2 := Step(c, p1, t1, GpioFromPaddles(false, false), rule);
    assert p2.state == I.Gap && p2.dahMem && !p2.ditMem && p2.elementEnd == t1 + DitDuration(c);
  }

  /** A processor in the middle of a squeeze: sending `e` with both paddles held and no memory for `e`. */
  ghost predicate SqueezeSending(p: Proc, e: I.Element)
  {
    p.state == I.SendState(e) && p.ditPressed && p.dahPressed && !MemOf(p, e) && p.keyDown
  }

  /** A squeeze from init starts with the dit. */
  lemma SqueezeStartsWithDit(c: Config, now: int, rule: GapRule)
    requires c.wpm > 0
    ensures SqueezeSending(Step(c, InitProc(), now, GpioFromPaddles(true, true), rule), I.Dit)
  {
    GpioPaddlesRoundTrip(true, true);
  }

  /**
   * With the corrected gap rule a held squeeze alternates, whatever the
   * mode, memory mode, latch mode and window.
   */
  lemma {:induction false} SqueezeAlternatesCorrected(c: Config, p: Proc, e: I.Element, t1: int, t2: int)
    requires c.wpm > 0 && SqueezeSending(p, e)
    requires t1 >= p.elementEnd && t2 >= t1 + DitDuration(c)
    ensures var both := GpioFromPaddles(true, true);
      var q := Step(c, Step(c, p, t1, both, GapArmsOpposite), t2, both, GapArmsOpposite);
      SqueezeSending(q, I.Opposite(e)) && q.elementEnd == t2 + Duration(c, I.Opposite(e))
  {
    var both := GpioFromPaddles(true, true);
    GpioPaddlesRoundTrip(true, true);
    var u1 := UpdateGpio(c, p, both, t1, GapArmsOpposite);
    SendingNeverArmsItself(c, p, e, both, t1, GapArmsOpposite);
    assert !MemOf(u1, e) && u1.state == I.SendState(e);
    var p1 := Step(c, p, t1, both, GapArmsOpposite);
    assert p1.state == I.Gap && p1.lastElement == e && !MemOf(p1, e) && p1.elementEnd == t1 + DitDuration(c);
    var u2 := UpdateGpio(c, p1, both, t2, GapArmsOpposite);
    assert !MemOf(u2, e) && u2.state == I.Gap && u2.lastElement == e && u2.ditPressed && u2.dahPressed;
    assert CurrentSqueeze(c, u2) || c.squeezeMode == LatchOn;
    var d := DecideNext(c, u2.(state := I.Idle, elementDuration := 0));
    assert d.next == Some(I.Opposite(e)) && !MemOf(d.p, e) && !MemOf(d.p, I.Opposite(e));
  }

  /**
   * As written, the gap arms both memories, so with dit memory enabled and
   * an open window the dit memory is re-armed at the end of every gap and
   * a held squeeze sends a dit again after its first dit.
   */
  lemma {:induction false} SqueezeRepeatsDitAsWritten(c: Config, p: Proc, t1: int, t2: int)
    requires c.wpm > 0 && MemoryEnabled(c.memoryMode, I.Dit)
    requires p.state == I.SendDit && p.ditPressed && p.dahPressed
    requires t1 >= p.elementEnd && t2 >= t1 + DitDuration(c)
    ensures var both := GpioFromPaddles(true, true);
      var q := Step(c, Step(c, p, t1, both, GapArmsBoth), t2, both, GapArmsBoth);
      q.state == I.SendDit && q.keyDown
  {
    var both := GpioFromPaddles(true, true);
    GpioPaddlesRoundTrip(true, true);
    var p1 := Step(c, p, t1, both, GapArmsBoth);
    assert p1.state == I.Gap && p1.elementEnd == t1 + DitDuration(c);
    var u2 := UpdateGpio(c, p1, both, t2, GapArmsBoth);
    assert IsInMemoryWindow(c, p1, t2) && CanArm(GapArmsBoth, p1, I.Dit);
    assert MemOf(u2, I.Dit) && u2.state == I.Gap;
  }

  class IambicProcessor {
    var config: Config
    var state: I.State
    var elementStart: int
    var elementEnd: int
    var elementDuration: int
    var lastElement: I.Element
    var ditPressed: bool
    var dahPressed: bool
    var ditMem: bool
    var dahMem: bool
    var squeezeSeen: bool
    var squeezeLatched: bool
    var keyDown: bool

    function Snapshot(): Proc
      reads this
    {
      Proc(state, elementStart, elementEnd, elementDuration, lastElement, ditPressed, dahPressed,
           ditMem, dahMem, squeezeSeen, squeezeLatched, keyDown)
    }

    /** iambic_init */
    constructor Init(c: Config)
      ensures config == c && Snapshot() == InitProc()
    {
      config := c;
      state, elementStart, elementEnd, elementDuration := I.Idle, 0, 0, 0;
      lastElement := I.Dah;
      ditPressed, dahPressed, ditMem, dahMem := false, false, false, false;
      squeezeSeen, squeezeLatched, keyDown := false, false, false;
    }

    /** iambic_set_config */
    method SetConfig(c: Config)
      modifies this
      ensures config == c && Snapshot() == old(Snapshot())
    {
      config := c;
    }

    /** iambic_is_key_down */
    function IsKeyDown(): (k: bool)
      reads this
      ensures k == Snapshot().keyDown
    {
      keyDown
    }

    /** iambic_tick */
    method Tick(now: int, gpio: bv8) returns (s: Sample)
      requires config.wpm > 0
      modifies this
      ensures config == old(config)
      ensures Snapshot() == Step(config, old(Snapshot()), now, gpio, GapArmsBoth)
      ensures s == Output(Snapshot(), gpio)
    {
      UpdateGpioM(gpio, now);
      match state {
        case Idle => TickIdleM(now);
        case SendDit => TickSendingM(now, I.Dit);
        case SendDah => TickSendingM(now, I.Dah);
        case Gap => TickGapM(now);
      }
      s := Empty.(gpio := gpio, localKey := if keyDown then 1 else 0);
    }

    /** iambic_reset */
    method Reset()
      modifies this
      ensures config == old(config) && Snapshot() == ResetProc(old(Snapshot()))
    {
      ghost var p := Snapshot();
      state, elementStart, elementEnd, elementDuration := I.Idle, 0, 0, 0;
      ditMem, dahMem, squeezeSeen, squeezeLatched, keyDown := false, false, false, false, false;
      assert Snapshot() == p.(state := I.Idle, elementStart := 0, elementEnd := 0, elementDuration := 0,
                              ditMem := false, dahMem := false, squeezeSeen := false, squeezeLatched := false, keyDown := false);
    }

    method UpdateGpioM(gpio: bv8, now: int)
      modifies this
      ensures config == old(config) && Snapshot() == UpdateGpio(config, old(Snapshot()), gpio, now, GapArmsBoth)
    {
      TrackPaddlesM(gpio);
      ArmMemoriesM(gpio, now);
      GpioBothIff(gpio);
    }

    /** The paddle half of update_gpio: record the paddles, squeeze_seen and the live latch. */
    method TrackPaddlesM(gpio: bv8)
      modifies this
      ensures config == old(config)
      ensures Snapshot() == old(Snapshot()).(ditPressed := GpioDit(gpio), dahPressed := GpioDah(gpio),
        squeezeSeen := old(squeezeSeen) || (GpioDit(gpio) && GpioDah(gpio) && !(old(ditPressed) && old(dahPressed))),
        squeezeLatched := if config.squeezeMode != LatchOn then GpioDit(gpio) && GpioDah(gpio) else old(squeezeLatched))
    {
      var wasSqueeze := ditPressed && dahPressed;
      ditPressed := GpioDit(gpio);
      dahPressed := GpioDah(gpio);
      var isSqueeze := ditPressed && dahPressed;
      if isSqueeze && !wasSqueeze {
        squeezeSeen := true;
      }
      if config.squeezeMode != LatchOn {
        squeezeLatched := isSqueeze;
      }
    }

    /** The memory half of update_gpio: inside the window, arm each pressed paddle that may be armed. */
    method ArmMemoriesM(gpio: bv8, now: int)
      modifies this
      ensures config == old(config)
      ensures Snapshot() == old(Snapshot()).(ditMem := old(ditMem) || Arms(config, old(Snapshot()), gpio, now, GapArmsBoth, I.Dit),
                                             dahMem := old(dahMem) || Arms(config, old(Snapshot()), gpio, now, GapArmsBoth, I.Dah))
    {
      ghost var p := Snapshot();
      var open := state != I.Idle && IsInMemoryWindow(config, Snapshot(), now);
      var armDit := open && state != I.SendDit && GpioDit(gpio) && MemoryEnabled(config.memoryMode, I.Dit);
      var armDah := open && state != I.SendDah && GpioDah(gpio) && MemoryEnabled(config.memoryMode, I.Dah);
      assert armDit == Arms(config, p, gpio, now, GapArmsBoth, I.Dit);
      assert armDah == Arms(config, p, gpio, now, GapArmsBoth, I.Dah);
      if armDit {
        ditMem := true;
      }
      if armDah {
        dahMem := true;
      }
      assert Snapshot() == p.(ditMem := p.ditMem || armDit, dahMem := p.dahMem || armDah);
    }

    method TickIdleM(now: int)
      requires config.wpm > 0
      modifies this
      ensures config == old(config) && Snapshot() == TickIdle(config, old(Snapshot()), now)
    {
      var next := DecideNextElementM();
      if next.Some? {
        StartElementM(next.value, now);
      }
    }

    method TickSendingM(now: int, e: I.Element)
      requires config.wpm > 0
      modifies this
      ensures config == old(config) && Snapshot() == TickSending(config, old(Snapshot()), now, e)
    {
      if now >= elementEnd {
        keyDown := false;
        lastElement := e;
        state := I.Gap;
        elementStart := now;
        elementDuration := DitDuration(config);
        elementEnd := now + elementDuration;
      }
    }

    method TickGapM(now: int)
      requires config.wpm > 0
      modifies this
      ensures config == old(config) && Snapshot() == TickGap(config, old(Snapshot()), now)
    {
      if now >= elementEnd {
        state := I.Idle;
        elementDuration := 0;
        TickIdleM(now);
      }
    }

    method DecideNextElementM() returns (next: Option<I.Element>)
      modifies this
      ensures config == old(config)
      ensures Decision(Snapshot(), next) == DecideNext(config, old(Snapshot()))
    {
      if ditMem {
        ditMem := false;
        return Some(I.Dit);
      }
      if dahMem {
        dahMem := false;
        return Some(I.Dah);
      }
      if config.mode == I.ModeB && squeezeSeen {
        var currentSqueeze := if config.squeezeMode == LatchOn then squeezeLatched else ditPressed && dahPressed;
        if !currentSqueeze {
          squeezeSeen := false;
          return Some(I.Opposite(lastElement));
        }
      }
      if ditPressed && dahPressed {
        next := Some(I.Opposite(lastElement));
      } else if ditPressed {
        next := Some(I.Dit);
      } else if dahPressed {
        next := Some(I.Dah);
      } else {
        squeezeSeen := false;
        next := None;
      }
    }

    method StartElementM(e: I.Element, now: int)
      requires config.wpm > 0
      modifies this
      ensures config == old(config) && Snapshot() == StartElement(config, old(Snapshot()), e, now)
    {
      ghost var p := Snapshot();
      var latched := ditPressed && dahPressed;
      var duration := Duration(config, e);
      keyDown, squeezeLatched, squeezeSeen := true, latched, latched;
      state, elementStart, elementDuration, elementEnd := I.SendState(e), now, duration, now + duration;
      assert Snapshot() == p.(keyDown := true, squeezeLatched := latched, squeezeSeen := latched, state := I.SendState(e),
                              elementStart := now, elementDuration := duration, elementEnd := now + duration);
    }
  }

  /**
   * Test scenario: a dit pressed at 0 keys down in SEND_DIT; 61 ms later
   * (20 WPM) the key is up and the keyer is in the gap.
   */
  method DitThenGap() returns (s0: Sample, state0: I.State, s1: Sample, state1: I.State)
    ensures s0.localKey == 1 && state0 == I.SendDit
    ensures s1.localKey == 0 && state1 == I.Gap
  {
    var k := new IambicProcessor.Init(DefaultConfig());
    var dit := GpioFromPaddles(true, false);
    GpioPaddlesRoundTrip(true, false);
    s0 := k.Tick(0, dit);
    state0 := k.state;
    s1 := k.Tick(61_000, dit);
    state1 := k.state;
  }
}
