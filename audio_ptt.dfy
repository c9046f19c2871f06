/**
 * The push-to-talk state machine: PTT goes On with the first audio
 * sample and drops Off once a tick finds that the tail time has passed
 * since the last sample.
 */
module AudioPtt {
  import opened Common

  /** An unsigned 64-bit microsecond count. */
  type u64 = x: int | 0 <= x < 0x1_0000_0000_0000_0000

  datatype PttState = Off | On

  /** The controller's state as a value. */
  datatype Ptt = Ptt(state: PttState, tailUs: u64, lastAudioUs: u64, audioActive: bool)

  /** A tail in milliseconds as microseconds; a u32 times 1000 always fits in a u64. */
  function TailUs(tailMs: u32): (r: u64)
    ensures r / 1000 == tailMs && r % 1000 == 0
  {
    tailMs * 1000
  }

  /** u64::saturating_sub */
  function SatSub(a: u64, b: u64): (r: u64)
    ensures a <= b ==> r == 0
    ensures a > b ==> r == a - b && r <= a
  {
    if a <= b then 0 else a - b
  }

  /** PTT is On exactly while audio has been seen since it last went Off. */
  ghost predicate Consistent(p: Ptt)
  {
    p.state == On <==> p.audioActive
  }

  /** new: Off, no audio seen, last-audio time 0. */
  function Initial(tailMs: u32): (p: Ptt)
    ensures p.state == Off && Consistent(p)
    ensures p.tailUs == TailUs(tailMs) && p.lastAudioUs == 0
  {
    Ptt(Off, TailUs(tailMs), 0, false)
  }

  /** audio_sample: records the time, marks audio active, turns an Off PTT On. */
  function AfterAudio(p: Ptt, timestampUs: u64): (r: Ptt)
    ensures r.state == On && Consistent(r)
    ensures r.lastAudioUs == timestampUs && r.tailUs == p.tailUs
  {
    var q := p.(lastAudioUs := timestampUs, audioActive := true);
    if q.state.Off? then q.(state := On) else q
  }

  /** tick: an On PTT with audio active drops Off once the time since the last sample reaches the tail. */
  function AfterTick(p: Ptt, timestampUs: u64): (r: Ptt)
    ensures r.state == Off <==>
      (p.state == Off || (p.audioActive && SatSub(timestampUs, p.lastAudioUs) >= p.tailUs))
    ensures Consistent(p) ==> Consistent(r)
    ensures r.state == p.state ==> r == p
    ensures r.tailUs == p.tailUs && r.lastAudioUs == p.lastAudioUs
  {
    if p.state.On? && p.audioActive && SatSub(timestampUs, p.lastAudioUs) >= p.tailUs then
      p.(state := Off, audioActive := false)
    else
      p
  }

  /** set_tail_ms: only the tail changes. */
  function WithTail(p: Ptt, tailMs: u32): (r: Ptt)
    ensures r.tailUs == TailUs(tailMs)
    ensures r.state == p.state && r.lastAudioUs == p.lastAudioUs && r.audioActive == p.audioActive
  {
    p.(tailUs := TailUs(tailMs))
  }

  /** force_off: Off at once, keeping the last-audio time. */
  function ForcedOff(p: Ptt): (r: Ptt)
    ensures r.state == Off && Consistent(r)
    ensures r.tailUs == p.tailUs && r.lastAudioUs == p.lastAudioUs
  {
    p.(state := Off, audioActive := false)
  }

  /** reset: back to the initial state, keeping only the tail. */
  function AfterReset(p: Ptt): (r: Ptt)
    ensures r.state == Off && Consistent(r)
    ensures r.tailUs == p.tailUs && r.lastAudioUs == 0
  {
    p.(state := Off, lastAudioUs := 0, audioActive := false)
  }

  /** Reset from any state gives the state a new controller with the same tail starts in. */
  lemma ResetIsInitial(p: Ptt, tailMs: u32)
    requires p.tailUs == TailUs(tailMs)
    ensures AfterReset(p) == Initial(tailMs)
  {
  }

  /**
   * After a sample at t0, a tick at t turns PTT Off exactly when the time
   * since t0 has reached the tail; a clock that went back counts as no time,
   * so only a zero tail drops PTT then.
   */
  lemma TailAfterLastSample(p: Ptt, t0: u64, t: u64)
    ensures t >= t0 ==> (AfterTick(AfterAudio(p, t0), t).state == Off <==> t - t0 >= p.tailUs)
    ensures t < t0 ==> (AfterTick(AfterAudio(p, t0), t).state == Off <==> p.tailUs == 0)
  {
  }

  /** A tick never turns PTT On. */
  lemma TickNeverTurnsOn(p: Ptt, t: u64)
    ensures p.state == Off ==> AfterTick(p, t) == p
    ensures AfterTick(p, t).state == On ==> p.state == On
  {
  }

  /** Every reachable state is consistent: each operation keeps On and audio-active in step. */
  lemma StepsStayConsistent(p: Ptt, t: u64, tailMs: u32)
    requires Consistent(p)
    ensures Consistent(AfterAudio(p, t)) && Consistent(AfterTick(p, t))
    ensures Consistent(WithTail(p, tailMs)) && Consistent(ForcedOff(p)) && Consistent(AfterReset(p))
  {
  }

  /**
   * With a 100 ms tail: samples at 0 and 1000 us keep PTT On at a tick at
   * 50000 us; a tick at 102000 us, 101 ms after the last sample, turns it Off.
   */
  lemma TailTimeout()
    ensures AfterTick(AfterAudio(AfterAudio(Initial(100), 0), 1000), 50000).state == On
    ensures AfterTick(AfterTick(AfterAudio(AfterAudio(Initial(100), 0), 1000), 50000), 102000).state == Off
  {
    var p := AfterAudio(AfterAudio(Initial(100), 0), 1000);
    TailAfterLastSample(AfterAudio(Initial(100), 0), 1000, 50000);
    var q := AfterTick(p, 50000);
    assert q == p;
    TailAfterLastSample(AfterAudio(Initial(100), 0), 1000, 102000);
  }

  /**
   * With a 100 ms tail, a sample at 80000 us restarts the tail: a tick at
   * 150000 us keeps PTT On and one at 181000 us turns it Off.
   */
  lemma TailRestarts()
    ensures AfterTick(AfterAudio(AfterTick(AfterAudio(Initial(100), 0), 50000), 80000), 150000).state == On
    ensures AfterTick(AfterTick(AfterAudio(AfterTick(AfterAudio(Initial(100), 0), 50000), 80000), 150000), 181000).state == Off
  {
    var p := AfterTick(AfterAudio(Initial(100), 0), 50000);
    TailAfterLastSample(p, 80000, 150000);
    var q := AfterTick(AfterAudio(p, 80000), 150000);
    assert q == AfterAudio(p, 80000);
    TailAfterLastSample(p, 80000, 181000);
  }

  /** A PTT controller; `Model()` is its state as a value. */
  class PttController {
    var state: PttState
    var tailUs: u64
    var lastAudioUs: u64
    var audioActive: bool

    function Model(): Ptt
      reads this
    {
      Ptt(state, tailUs, lastAudioUs, audioActive)
    }

    ghost predicate Valid()
      reads this
    {
      Consistent(Model())
    }

    /** new */
    constructor (tailMs: u32)
      ensures Valid() && Model() == Initial(tailMs)
    {
      state := Off;
      tailUs := tailMs * 1000;
      lastAudioUs := 0;
      audioActive := false;
    }

    /** state */
    function State(): (r: PttState)
      reads this
      requires Valid()
      ensures r == On <==> audioActive
    {
      state
    }

    /** is_on */
    function IsOn(): (r: bool)
      reads this
      requires Valid()
      ensures r <==> Model().state == On
      ensures r <==> audioActive
    {
      state == On
    }

    /** audio_sample */
    method AudioSample(timestampUs: u64)
      requires Valid()
      modifies this
      ensures Valid() && Model() == AfterAudio(old(Model()), timestampUs)
    {
      lastAudioUs := timestampUs;
      audioActive := true;
      if state.Off? {
        state := On;
      }
    }

    /** tick */
    method Tick(timestampUs: u64)
      requires Valid()
      modifies this
      ensures Valid() && Model() == AfterTick(old(Model()), timestampUs)
    {
      if state.On? && audioActive {
        var elapsed := SatSub(timestampUs, lastAudioUs);
        if elapsed >= tailUs {
          state := Off;
          audioActive := false;
        }
      }
    }

    /** set_tail_ms */
    method SetTailMs(tailMs: u32)
      requires Valid()
      modifies this
      ensures Valid() && Model() == WithTail(old(Model()), tailMs)
    {
      tailUs := tailMs * 1000;
    }

    /** force_off */
    method ForceOff()
      requires Valid()
      modifies this
      ensures Valid() && Model() == ForcedOff(old(Model()))
    {
      state := Off;
      audioActive := false;
    }

    /** reset */
    method Reset()
      requires Valid()
      modifies this
      ensures Valid() && Model() == AfterReset(old(Model()))
    {
      state := Off;
      lastAudioUs := 0;
      audioActive := false;
    }
  }

  /** An Off controller comes back On with the next sample after the tail has dropped it. */
  method Reactivation() returns (first: bool, dropped: bool, again: bool)
    ensures first && !dropped && again
  {
    var ptt := new PttController(50);
    ptt.AudioSample(0);
    first := ptt.IsOn();
    ptt.Tick(60000);
    dropped := ptt.IsOn();
    ptt.AudioSample(70000);
    again := ptt.IsOn();
  }
}
