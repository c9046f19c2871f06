/**
 * The text keyer: a string is turned into timed key-down and key-up
 * elements, one tick at a time. Characters are looked up in the Morse
 * table, `<XX>` prosign tags become their patterns, a space becomes a word
 * gap and characters without a pattern are skipped.
 */
module TextKeyer {
  import opened Common
  import MorseTable

  const MaxLen: nat := 128

  /** text_keyer_state_t */
  datatype KState = Idle | Sending | Paused

  /** element_type_t, in declaration order (zeroed memory reads as DIT). */
  datatype Element = Dit | Dah | IntraGap | CharGap | WordGap

  /** The length of each element in dit units. */
  function Units(e: Element): (n: nat)
    ensures e == Dit || e == IntraGap ==> n == 1
    ensures e == Dah || e == CharGap ==> n == 3
    ensures e == WordGap ==> n == 7
  {
    match e
    case Dit => 1
    case Dah => 3
    case IntraGap => 1
    case CharGap => 3
    case WordGap => 7
  }

  /**
   * send_state_t: the text, the next character to look at, the pattern
   * being sent (None for NULL) and the next element in it, the current
   * element, when it ends (0: start the next one) and whether it keys down.
   */
  datatype SendState = SendState(text: string, charIndex: nat, pattern: Option<string>, patternIndex: nat,
                                 element: Element, elementEnd: int, keyDown: bool)

  /** The all-zero send state. */
  const Cleared := SendState([], 0, None, 0, Dit, 0, false)

  /** The module state: the keyer state, the send state, the published key line and whether a paddle can abort. */
  datatype TK = TK(state: KState, send: SendState, keyOut: bool, watchPaddle: bool)

  /**
   * The published key line follows the send state's key flag; the key is
   * down only while sending a dit or dah of a pattern; the current pattern
   * is a non-empty element string.
   */
  ghost predicate Consistent(t: TK)
  {
    var s := t.send;
    |s.text| < MaxLen && s.charIndex <= |s.text| &&
    (s.pattern.Some? ==> s.pattern.value != [] && MorseTable.IsElements(s.pattern.value) &&
                          s.patternIndex <= |s.pattern.value|) &&
    t.keyOut == s.keyDown &&
    (s.keyDown ==> t.state == Sending && s.pattern.Some? && (s.element == Dit || s.element == Dah)) &&
    (t.state != Idle && s.element == CharGap ==> s.pattern.Some? && s.patternIndex == 0)
  }

  /** dit_duration_us: 1.2 s over the speed, the speed clamped to 5..60 WPM. */
  function DitDuration(wpm: u32): (d: int)
    ensures 20000 <= d <= 240000
    ensures 5 <= wpm <= 60 ==> d * wpm <= 1200000 < (d + 1) * wpm
    ensures wpm < 5 ==> d == 240000
    ensures wpm > 60 ==> d == 20000
  {
    var w := if wpm < 5 then 5 else if wpm > 60 then 60 else wpm;
    1200000 / w
  }

  /** A matched tag lies inside the text it starts. */
  lemma MatchWithinText(text: string)
    ensures MorseTable.MatchTag(Some(text)).0 <= |text|
  {
    var m := MorseTable.MatchTag(Some(text));
    if m.0 > 0 {
      var k := MorseTable.FindTag(text, 0).value;
      assert MorseTable.Prosigns[k].tag <= text;
    }
  }

  /**
   * One round of get_next_pattern's loop at position i: a prosign tag, a
   * space (the word-gap marker " ") or a character with a pattern, and the
   * position after it; None and the next position for a character to skip.
   */
  function PatternStep(text: string, i: nat): (r: (Option<string>, nat))
    requires i < |text|
    ensures i < r.1 <= |text|
    ensures r.0.Some? ==> r.0.value == " " || (r.0.value != [] && MorseTable.IsElements(r.0.value))
    ensures r.0.None? ==> r.1 == i + 1 && text[i] != ' ' && MorseTable.Encode(text[i]).None?
  {
    var c := text[i];
    var m := MorseTable.MatchTag(Some(text[i..]));
    MorseTable.MatchTagShape(Some(text[i..]));
    MatchWithinText(text[i..]);
    MorseTable.EncodeShape(c);
    if c == '<' && m.0 > 0 && m.1.Some? then (m.1, i + m.0)
    else if c == ' ' then (Some(" "), i + 1)
    else (MorseTable.Encode(c), i + 1)
  }

  /**
   * get_next_pattern: from position i, the next prosign, word-gap marker
   * " " or character pattern, and the position after it; unknown
   * characters are skipped. None, at the end of the text, exactly when
   * nothing from i on is a space or has a pattern.
   */
  function NextPattern(text: string, i: nat): (r: (Option<string>, nat))
    requires i <= |text|
    ensures i <= r.1 <= |text|
    ensures r.0.Some? ==> i < r.1 && (r.0.value == " " || (r.0.value != [] && MorseTable.IsElements(r.0.value)))
    ensures r.0.None? ==> r.1 == |text| && forall k | i <= k < |text| :: text[k] != ' ' && MorseTable.Encode(text[k]).None?
    decreases |text| - i
  {
    if i >= |text| then (None, i)
    else
      var step := PatternStep(text, i);
      if step.0.Some? then step else NextPattern(text, step.1)
  }

  /** Key down for the next element of the current pattern: a dit for '.', a dah for '-'. */
  function SendElement(t: TK, dit: int, now: int): (r: TK)
    requires Consistent(t) && t.state == Sending && t.send.pattern.Some? && t.send.patternIndex < |t.send.pattern.value|
    ensures Consistent(r) && r.keyOut && r.send.patternIndex == t.send.patternIndex + 1
    ensures r.send.elementEnd == now + Units(r.send.element) * dit
  {
    var s := t.send;
    var el := s.pattern.value[s.patternIndex];
    var e := if el == '.' then Dit else Dah;
    t.(send := s.(patternIndex := s.patternIndex + 1, element := e,
                  elementEnd := now + Units(e) * dit, keyDown := true),
       keyOut := true)
  }

  /** The key released and a character gap started, when the pattern just sent was not a word gap. */
  function PatternGap(t: TK, dit: int, now: int): (r: TK)
    requires Consistent(t) && t.state == Sending
    requires t.send.pattern.None? || t.send.patternIndex == |t.send.pattern.value|
    ensures r.state == Sending && !r.keyOut && !r.send.keyDown && r.send.text == t.send.text && r.send.charIndex == t.send.charIndex
    ensures t.send.pattern.Some? ==> r.send.element == CharGap && r.send.elementEnd == now + 3 * dit
  {
    var s := t.send;
    if s.pattern.Some? && s.pattern.value[0] != ' ' then
      t.(send := s.(element := CharGap, elementEnd := now + 3 * dit, keyDown := false), keyOut := false)
    else t
  }

  /** A state whose pattern was just fetched by get_next_pattern, with the key up. */
  ghost predicate Fetched(t: TK)
  {
    var s := t.send;
    t.state == Sending && !t.keyOut && !s.keyDown && s.patternIndex == 0 &&
    |s.text| < MaxLen && s.charIndex <= |s.text| &&
    (s.pattern.Some? ==> s.pattern.value == " " || (s.pattern.value != [] && MorseTable.IsElements(s.pattern.value))) &&
    (s.pattern.None? ==> s.charIndex == |s.text|)
  }

  /**
   * The second half of start_next_element: a space becomes a word gap, a
   * pattern after a character gap waits for the gap to end, any other
   * starts its first element. False when no pattern was left.
   */
  function BeginPattern(t: TK, dit: int, now: int): (r: (TK, bool))
    requires Fetched(t)
    ensures r.0.state == Sending && Consistent(r.0.(state := if r.1 then Sending else Idle))
    ensures r.0.send.text == t.send.text && r.0.send.charIndex == t.send.charIndex
    ensures r.1 <==> t.send.pattern.Some?
    ensures r.1 ==> r.0.send.elementEnd == now + Units(r.0.send.element) * dit || r.0 == t
    ensures r.1 ==> (r.0.send.keyDown <==> r.0.send.element == Dit || r.0.send.element == Dah)
    ensures !r.1 ==> r.0 == t
  {
    var s := t.send;
    if s.pattern.None? then (t, false)
    else if s.pattern.value[0] == ' ' then
      (t.(send := s.(element := WordGap, elementEnd := now + 7 * dit, keyDown := false, pattern := None),
          keyOut := false), true)
    else if s.element == CharGap then (t, true)
    else (SendElement(t, dit, now), true)
  }

  /**
   * start_next_element once the pattern is used up: a character gap after
   * a pattern, then the next pattern begins. False when the text is used
   * up; otherwise at least one more character of the text is consumed.
   */
  function CharacterStart(t: TK, dit: int, now: int): (r: (TK, bool))
    requires Consistent(t) && t.state == Sending
    requires t.send.pattern.None? || t.send.patternIndex == |t.send.pattern.value|
    ensures r.0.state == Sending && Consistent(r.0.(state := if r.1 then Sending else Idle))
    ensures r.0.send.text == t.send.text && t.send.charIndex <= r.0.send.charIndex <= |t.send.text|
    ensures r.1 ==> t.send.charIndex < r.0.send.charIndex
    ensures r.1 ==> r.0.send.elementEnd == now + Units(r.0.send.element) * dit
    ensures r.1 ==> (r.0.send.keyDown <==> r.0.send.element == Dit || r.0.send.element == Dah)
    ensures !r.1 ==> !r.0.send.keyDown && r.0.send.pattern.None? && r.0.send.charIndex == |t.send.text|
  {
    var t1 := PatternGap(t, dit, now);
    var next := NextPattern(t.send.text, t.send.charIndex);
    BeginPattern(t1.(send := t1.send.(pattern := next.0, charIndex := next.1, patternIndex := 0)), dit, now)
  }

  /**
   * start_next_element: the next element of the pattern, or a new
   * character. Every element it starts lasts its number of dit units and
   * keys down exactly for a dit or a dah.
   */
  function StartNext(t: TK, dit: int, now: int): (r: (TK, bool))
    requires Consistent(t) && t.state == Sending
    ensures r.0.state == Sending && Consistent(r.0.(state := if r.1 then Sending else Idle))
    ensures r.0.send.text == t.send.text && t.send.charIndex <= r.0.send.charIndex <= |t.send.text|
    ensures r.1 ==> r.0.send.elementEnd == now + Units(r.0.send.element) * dit
    ensures r.1 ==> (r.0.send.keyDown <==> r.0.send.element == Dit || r.0.send.element == Dah)
    ensures !r.1 ==> !r.0.send.keyDown && r.0.send.pattern.None? && r.0.send.charIndex == |t.send.text|
  {
    var s := t.send;
    if s.pattern.None? || s.patternIndex == |s.pattern.value| then CharacterStart(t, dit, now)
    else (SendElement(t, dit, now), true)
  }

  /** finish_element: key up; an intra-character gap if the pattern goes on, otherwise no element (end 0). */
  function Finish(t: TK, dit: int, now: int): (r: TK)
    requires Consistent(t) && t.state == Sending
    ensures Consistent(r) && r.state == Sending && !r.send.keyDown
    ensures r.send.elementEnd == 0 || (r.send.element == IntraGap && r.send.elementEnd == now + dit)
  {
    var s := t.send;
    if s.keyDown then
      var t1 := t.(send := s.(keyDown := false), keyOut := false);
      if s.pattern.Some? && s.patternIndex < |s.pattern.value| then
        t1.(send := t1.send.(element := IntraGap, elementEnd := now + dit))
      else t1.(send := t1.send.(elementEnd := 0))
    else t.(send := s.(elementEnd := 0))
  }

  /** text_keyer_abort: from any state but IDLE, back to IDLE with the key up and a cleared send state. */
  function AfterAbort(t: TK): (r: TK)
    requires Consistent(t)
    ensures Consistent(r) && r.state == Idle && !r.keyOut
    ensures t.state != Idle ==> r.send == Cleared
    ensures t.state == Idle ==> r == t
  {
    if t.state == Idle then t else t.(state := Idle, send := Cleared, keyOut := false)
  }

  /**
   * text_keyer_tick while sending and not aborted: the first element
   * starts at once; the current one ends when its time has come, and the
   * next one starts in the same tick. When the text is used up the keyer
   * goes back to IDLE with the key up; before the end of an element
   * nothing changes.
   */
  function ElementTick(t: TK, dit: int, now: int): (r: TK)
    requires Consistent(t) && t.state == Sending
    ensures Consistent(r)
    ensures r.send.text == t.send.text && t.send.charIndex <= r.send.charIndex <= |t.send.text|
    ensures r.state == Idle ==> !r.keyOut && r.send.charIndex == |t.send.text|
    ensures r.state != Idle ==> r.state == Sending
    ensures t.send.elementEnd != 0 && now < t.send.elementEnd ==> r == t
  {
    if t.send.elementEnd == 0 then
      var n := StartNext(t, dit, now);
      if n.1 then n.0 else n.0.(state := Idle)
    else if now >= t.send.elementEnd then
      var f := Finish(t, dit, now);
      if f.send.elementEnd == 0 then
        var n := StartNext(f, dit, now);
        if n.1 then n.0 else n.0.(state := Idle, keyOut := false)
      else f
    else t
  }

  /** text_keyer_tick at time `now`, with the configured speed and the paddle's abort flag. */
  function AfterTick(t: TK, now: int, wpm: u32, paddleAbort: bool): (r: TK)
    requires Consistent(t)
    ensures Consistent(r)
    ensures t.state != Sending ==> r == t
    ensures r.state == Idle ==> !r.keyOut
  {
    if t.state != Sending then t
    else if t.watchPaddle && paddleAbort then AfterAbort(t)
    else ElementTick(t, DitDuration(wpm), now)
  }

  /** The text keyer configuration: whether a paddle abort flag is attached. */
  datatype Config = Config(watchPaddle: bool)

  /** text_keyer_init: -1 for a missing configuration, which changes nothing. */
  function AfterInit(t: TK, config: Option<Config>): (r: (TK, int))
    requires Consistent(t)
    ensures Consistent(r.0)
    ensures r.1 == 0 <==> config.Some?
    ensures config.Some? ==> r.0 == TK(Idle, Cleared, false, config.value.watchPaddle)
    ensures config.None? ==> r.0 == t
  {
    if config.None? then (t, -1) else (TK(Idle, Cleared, false, config.value.watchPaddle), 0)
  }

  /**
   * text_keyer_send: refused (-1) for a missing or empty text and whenever
   * the keyer is not IDLE; otherwise SENDING the text cut to 127 characters.
   */
  function AfterSend(t: TK, text: Option<string>): (r: (TK, int))
    requires Consistent(t)
    ensures Consistent(r.0)
    ensures r.1 == 0 <==> text.Some? && text.value != [] && t.state == Idle
    ensures r.1 != 0 ==> r.1 == -1 && r.0 == t
    ensures r.1 == 0 ==> (r.0.state == Sending && r.0.send.charIndex == 0 && r.0.send.pattern.None? &&
      r.0.send.elementEnd == 0 && r.0.send.text == text.value[..if |text.value| < MaxLen then |text.value| else MaxLen - 1])
  {
    if text.None? || text.value == [] || t.state != Idle then (t, -1)
    else
      var len := if |text.value| >= MaxLen then MaxLen - 1 else |text.value|;
      (t.(state := Sending, send := Cleared.(text := text.value[..len])), 0)
  }

  /** text_keyer_pause: only from SENDING; the key is released. */
  function AfterPause(t: TK): (r: TK)
    requires Consistent(t)
    ensures Consistent(r) && !r.keyOut
    ensures t.state == Sending ==> r.state == Paused
    ensures t.state != Sending ==> r == t
  {
    if t.state != Sending then t
    else if t.send.keyDown then t.(state := Paused, send := t.send.(keyDown := false), keyOut := false)
    else t.(state := Paused)
  }

  /** text_keyer_resume: only from PAUSED; timing restarts with the next tick. */
  function AfterResume(t: TK): (r: TK)
    requires Consistent(t)
    ensures Consistent(r)
    ensures t.state == Paused ==> r.state == Sending && r.send == t.send.(elementEnd := 0)
    ensures t.state != Paused ==> r == t
  {
    if t.state != Paused then t else t.(state := Sending, send := t.send.(elementEnd := 0))
  }

  /** Pausing then resuming picks the text up where it stopped, with the key up. */
  lemma PauseResume(t: TK)
    requires Consistent(t) && t.state == Sending
    ensures var r := AfterResume(AfterPause(t));
      r.state == Sending && !r.keyOut && r.send.text == t.send.text && r.send.charIndex == t.send.charIndex &&
      r.send.pattern == t.send.pattern && r.send.patternIndex == t.send.patternIndex && r.send.elementEnd == 0
  {
  }

  /** Whatever the keyer was doing, after an abort a new non-empty text is accepted. */
  lemma AbortThenSend(t: TK, text: string)
    requires Consistent(t) && text != []
    ensures AfterAbort(t).state == Idle
    ensures AfterSend(AfterAbort(t), Some(text)).1 == 0
  {
  }

  /** An element that starts mid-pattern never starts a new character. */
  lemma MidPatternKeepsCharacter(t: TK, dit: int, now: int)
    requires Consistent(t) && t.state == Sending && t.send.pattern.Some? && t.send.patternIndex < |t.send.pattern.value|
    ensures var r := StartNext(t, dit, now);
      r.1 && r.0.keyOut && r.0.send.charIndex == t.send.charIndex && r.0.send.pattern == t.send.pattern &&
      r.0.send.element == (if t.send.pattern.value[t.send.patternIndex] == '.' then Dit else Dah)
  {
  }

  /** The keyer's static state, updated in place. */
  class Keyer {
    var state: KState
    var text: string
    var charIndex: nat
    var pattern: Option<string>
    var patternIndex: nat
    var element: Element
    var elementEnd: int
    var keyDown: bool
    var keyOut: bool
    var watchPaddle: bool

    function Snapshot(): TK
      reads this
    {
      TK(state, SendState(text, charIndex, pattern, patternIndex, element, elementEnd, keyDown), keyOut, watchPaddle)
    }

    ghost predicate Valid()
      reads this
    {
      Consistent(Snapshot())
    }

    /** The zero-initialised statics before text_keyer_init. */
    constructor ()
      ensures Valid() && Snapshot() == TK(Idle, Cleared, false, false)
    {
      state, text, charIndex, pattern, patternIndex := Idle, [], 0, None, 0;
      element, elementEnd, keyDown, keyOut, watchPaddle := Dit, 0, false, false, false;
    }

    method ClearSend()
      modifies this
      ensures Snapshot() == old(Snapshot()).(send := Cleared)
    {
      text, charIndex, pattern, patternIndex := [], 0, None, 0;
      element, elementEnd, keyDown := Dit, 0, false;
    }

    /** text_keyer_init */
    method Init(config: Option<Config>) returns (result: int)
      requires Valid()
      modifies this
      ensures Valid() && (Snapshot(), result) == AfterInit(old(Snapshot()), config)
    {
      if config.None? {
        return -1;
      }
      watchPaddle := config.value.watchPaddle;
      state := Idle;
      keyOut := false;
      ClearSend();
      return 0;
    }

    /** text_keyer_send */
    method Send(s: Option<string>) returns (result: int)
      requires Valid()
      modifies this
      ensures Valid() && (Snapshot(), result) == AfterSend(old(Snapshot()), s)
    {
      if s.None? || s.value == [] {
        return -1;
      }
      if state != Idle {
        return -1;
      }
      var len := |s.value|;
      if len >= MaxLen {
        len := MaxLen - 1;
      }
      ClearSend();
      text := s.value[..len];
      charIndex := 0;
      state := Sending;
      return 0;
    }

    /** text_keyer_abort */
    method Abort()
      requires Valid()
      modifies this
      ensures Valid() && Snapshot() == AfterAbort(old(Snapshot()))
    {
      if state == Idle {
        return;
      }
      keyOut := false;
      state := Idle;
      ClearSend();
    }

    /** text_keyer_pause */
    method Pause()
      requires Valid()
      modifies this
      ensures Valid() && Snapshot() == AfterPause(old(Snapshot()))
    {
      if state != Sending {
        return;
      }
      if keyDown {
        keyOut := false;
        keyDown := false;
      }
      state := Paused;
    }

    /** text_keyer_resume */
    method Resume()
      requires Valid()
      modifies this
      ensures Valid() && Snapshot() == AfterResume(old(Snapshot()))
    {
      if state != Paused {
        return;
      }
      elementEnd := 0;
      state := Sending;
    }

    /** text_keyer_get_progress: characters consumed so far and the text length. */
    method GetProgress() returns (sent: nat, total: nat)
      requires Valid()
      ensures sent == Snapshot().send.charIndex && total == |Snapshot().send.text| && sent <= total < MaxLen
    {
      return charIndex, |text|;
    }

    /** text_keyer_is_key_down */
    predicate IsKeyDown()
      reads this
      requires Valid()
      ensures IsKeyDown() ==> state == Sending
    {
      keyOut
    }

    /** One round of get_next_pattern's loop. */
    method StepPattern() returns (p: Option<string>)
      requires charIndex < |text|
      modifies this
      ensures var n := PatternStep(old(text), old(charIndex));
        p == n.0 && Snapshot() == old(Snapshot()).(send := old(Snapshot()).send.(charIndex := n.1))
    {
      var c := text[charIndex];
      if c == '<' {
        var len, pat := MorseTable.MatchProsign(Some(text[charIndex..]));
        MatchWithinText(text[charIndex..]);
        if len > 0 && pat.Some? {
          charIndex := charIndex + len;
          return pat;
        }
      }
      if c == ' ' {
        charIndex := charIndex + 1;
        return Some(" ");
      }
      p := MorseTable.TableReverse(c);
      charIndex := charIndex + 1;
    }

    /** get_next_pattern */
    method GetNextPattern() returns (p: Option<string>)
      requires charIndex <= |text|
      modifies this
      ensures var n := NextPattern(old(text), old(charIndex));
        p == n.0 && Snapshot() == old(Snapshot()).(send := old(Snapshot()).send.(charIndex := n.1))
    {
      ghost var goal := NextPattern(text, charIndex);
      while charIndex < |text|
        invariant Snapshot() == old(Snapshot()).(send := old(Snapshot()).send.(charIndex := charIndex))
        invariant charIndex <= |text| && NextPattern(text, charIndex) == goal
        decreases |text| - charIndex
      {
        p := StepPattern();
        if p.Some? {
          return;
        }
      }
      return None;
    }

    /** Key down for the next dit or dah of the pattern. */
    method SendNextElement(dit: int, now: int)
      requires Valid() && state == Sending && pattern.Some? && patternIndex < |pattern.value|
      modifies this
      ensures Valid() && Snapshot() == SendElement(old(Snapshot()), dit, now)
    {
      var el := pattern.value[patternIndex];
      patternIndex := patternIndex + 1;
      if el == '.' {
        element := Dit;
        elementEnd := now + dit;
      } else if el == '-' {
        element := Dah;
        elementEnd := now + dit * 3;
      } else {
        assert false;
      }
      keyDown := true;
      keyOut := true;
    }

    /** The character gap after a pattern. */
    method EndPattern(dit: int, now: int)
      requires Valid() && state == Sending && (pattern.None? || patternIndex == |pattern.value|)
      modifies this
      ensures Snapshot() == PatternGap(old(Snapshot()), dit, now)
    {
      if pattern.Some? && pattern.value[0] != ' ' {
        element := CharGap;
        elementEnd := now + dit * 3;
        keyDown := false;
        keyOut := false;
      }
    }

    /** Start the pattern get_next_pattern just returned. */
    method StartPattern(dit: int, now: int) returns (more: bool)
      requires Fetched(Snapshot())
      modifies this
      ensures (Snapshot(), more) == BeginPattern(old(Snapshot()), dit, now)
    {
      if pattern.None? {
        return false;
      }
      if pattern.value[0] == ' ' {
        element := WordGap;
        elementEnd := now + dit * 7;
        keyDown := false;
        keyOut := false;
        pattern := None;
        return true;
      }
      if element == CharGap {
        return true;
      }
      SendNextElement(dit, now);
      return true;
    }

    /** start_next_element once the pattern is used up. */
    method StartCharacter(dit: int, now: int) returns (more: bool)
      requires Valid() && state == Sending && (pattern.None? || patternIndex == |pattern.value|)
      modifies this
      ensures (Snapshot(), more) == CharacterStart(old(Snapshot()), dit, now)
    {
      EndPattern(dit, now);
      pattern := GetNextPattern();
      patternIndex := 0;
      more := StartPattern(dit, now);
    }

    /** start_next_element */
    method StartNextElement(dit: int, now: int) returns (more: bool)
      requires Valid() && state == Sending
      modifies this
      ensures (Snapshot(), more) == StartNext(old(Snapshot()), dit, now)
    {
      if pattern.None? || patternIndex == |pattern.value| {
        more := StartCharacter(dit, now);
        return;
      }
      SendNextElement(dit, now);
      return true;
    }

    /** finish_element */
    method FinishElement(dit: int, now: int)
      requires Valid() && state == Sending
      modifies this
      ensures Valid() && Snapshot() == Finish(old(Snapshot()), dit, now)
    {
      if keyDown {
        keyDown := false;
        keyOut := false;
        if pattern.Some? && patternIndex < |pattern.value| {
          element := IntraGap;
          elementEnd := now + dit;
          return;
        }
      }
      elementEnd := 0;
    }

    /** text_keyer_tick */
    method Tick(now: int, wpm: u32, paddleAbort: bool)
      requires Valid()
      modifies this
      ensures Valid() && Snapshot() == AfterTick(old(Snapshot()), now, wpm, paddleAbort)
    {
      if state != Sending {
        return;
      }
      if watchPaddle && paddleAbort {
        Abort();
        return;
      }
      TickElement(DitDuration(wpm), now);
    }

    /** text_keyer_tick while sending and not aborted. */
    method TickElement(dit: int, now: int)
      requires Valid() && state == Sending
      modifies this
      ensures Valid() && Snapshot() == ElementTick(old(Snapshot()), dit, now)
    {
      if elementEnd == 0 {
        var more := StartNextElement(dit, now);
        if !more {
          state := Idle;
        }
        return;
      }
      if now >= elementEnd {
        FinishElement(dit, now);
        if elementEnd == 0 {
          var more := StartNextElement(dit, now);
          if !more {
            state := Idle;
            keyOut := false;
          }
        }
      }
    }
  }

  /**
   * Sending "E" at 20 WPM: the first tick keys a 60 ms dit, the tick at
   * its end releases the key and, the text being used up, returns to IDLE.
   */
  method SendE() returns (downAtStart: bool, downAtEnd: bool, finalState: KState)
    ensures downAtStart && !downAtEnd && finalState == Idle
  {
    var k := new Keyer();
    var _ := k.Init(Some(Config(false)));
    var _ := k.Send(Some("E"));
    EPatterns();
    assert k.Snapshot() == TK(Sending, Cleared.(text := "E"), false, false);
    k.Tick(0, 20, false);
    assert k.Snapshot() == TK(Sending, SendState("E", 1, Some("."), 1, Dit, 60000, true), true, false);
    downAtStart := k.IsKeyDown();
    k.Tick(60000, 20, false);
    downAtEnd := k.IsKeyDown();
    finalState := k.state;
  }

  /** "E" is one dit, and nothing follows it. */
  lemma EPatterns()
    ensures NextPattern("E", 0) == (Some("."), 1)
    ensures NextPattern("E", 1) == (None, 1)
  {
    MorseTable.TableAt(4);
    MorseTable.EncodeAt(4);
    assert MorseTable.Encode('E') == Some(".");
    assert MorseTable.MatchTag(Some("E")).0 == 0;
  }
}
