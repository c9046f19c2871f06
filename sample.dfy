/**
 * Stream samples and the paddle (GPIO) bit helpers shared by the Rust and
 * the C keying paths. One datatype follows the packed C layout; the Rust
 * `key: bool` field is `localKey != 0`.
 */
module Samples {
  import opened Common

  const GpioDitBit: bv8 := 0x01
  const GpioDahBit: bv8 := 0x02

  const FlagGpioEdge: bv8 := 0x01
  const FlagConfigChange: bv8 := 0x02
  const FlagTxStart: bv8 := 0x04
  const FlagRxStart: bv8 := 0x08
  const FlagSilence: bv8 := 0x10
  const FlagLocalEdge: bv8 := 0x20

  /** One tick of keyer state: paddles, keyer output, audio level, flags, config generation (or silence length). */
  datatype Sample = Sample(gpio: bv8, localKey: bv8, audioLevel: bv8, flags: bv8, configGen: u16)

  /** STREAM_SAMPLE_EMPTY / StreamSample::zero(): every field zero. */
  const Empty: Sample := Sample(0, 0, 0, 0, 0)

  // ---------------------------------------------------------------------
  // Paddle state
  // ---------------------------------------------------------------------

  predicate GpioDit(g: bv8) { g & GpioDitBit != 0 }
  predicate GpioDah(g: bv8) { g & GpioDahBit != 0 }
  predicate GpioIsIdle(g: bv8) { g == 0 }
  predicate GpioBoth(g: bv8) { g & (GpioDitBit | GpioDahBit) == GpioDitBit | GpioDahBit }
  predicate GpioDitOnly(g: bv8) { g == GpioDitBit }
  predicate GpioDahOnly(g: bv8) { g == GpioDahBit }

  /** gpio_from_paddles: the two paddle bits and nothing else. */
  function GpioFromPaddles(dit: bool, dah: bool): (g: bv8)
    ensures GpioDit(g) == dit && GpioDah(g) == dah
    ensures g & 0xFC == 0
    ensures GpioIsIdle(g) <==> !dit && !dah
  {
    (if dit then GpioDitBit else 0) | (if dah then GpioDahBit else 0)
  }

  /** gpio_with_dit: sets or clears the dit bit, every other bit kept. */
  function GpioWithDit(g: bv8, pressed: bool): (r: bv8)
    ensures GpioDit(r) == pressed
    ensures r & 0xFE == g & 0xFE
  {
    if pressed then g | GpioDitBit else g & !GpioDitBit
  }

  /** gpio_with_dah: sets or clears the dah bit, every other bit kept. */
  function GpioWithDah(g: bv8, pressed: bool): (r: bv8)
    ensures GpioDah(r) == pressed
    ensures r & 0xFD == g & 0xFD
  {
    if pressed then g | GpioDahBit else g & !GpioDahBit
  }

  /** `both()` holds exactly when both paddle bits are set, whatever the other bits. */
  lemma GpioBothIff(g: bv8)
    ensures GpioBoth(g) <==> GpioDit(g) && GpioDah(g)
  {
  }

  /** `dit_only()`/`dah_only()` demand the exact bit pattern, not just the one paddle. */
  lemma GpioOnlyIff(g: bv8)
    ensures GpioDitOnly(g) <==> GpioDit(g) && !GpioDah(g) && g & 0xFC == 0
    ensures GpioDahOnly(g) <==> GpioDah(g) && !GpioDit(g) && g & 0xFC == 0
    ensures GpioDitOnly(g) ==> !GpioBoth(g) && !GpioIsIdle(g)
  {
  }

  /** Reading a paddle back from gpio_from_paddles gives the paddle that went in. */
  lemma GpioPaddlesRoundTrip(dit: bool, dah: bool)
    ensures GpioDit(GpioFromPaddles(dit, dah)) == dit
    ensures GpioDah(GpioFromPaddles(dit, dah)) == dah
    ensures GpioBoth(GpioFromPaddles(dit, dah)) == (dit && dah)
    ensures GpioFromPaddles(GpioDit(GpioFromPaddles(dit, dah)), GpioDah(GpioFromPaddles(dit, dah))) == GpioFromPaddles(dit, dah)
  {
  }

  /** gpio_with_dit and gpio_with_dah commute and leave the other paddle alone. */
  lemma GpioWithIndependent(g: bv8, d: bool, a: bool)
    ensures GpioDah(GpioWithDit(g, d)) == GpioDah(g)
    ensures GpioDit(GpioWithDah(g, a)) == GpioDit(g)
    ensures GpioWithDah(GpioWithDit(g, d), a) == GpioWithDit(GpioWithDah(g, a), d)
    ensures GpioWithDah(GpioWithDit(0, d), a) == GpioFromPaddles(d, a)
  {
  }

  // ---------------------------------------------------------------------
  // Sample queries
  // ---------------------------------------------------------------------

  /** StreamSample::is_silent (Rust): no paddle, key up, no audio, no GPIO edge. */
  predicate IsSilent(s: Sample)
  {
    GpioIsIdle(s.gpio) && s.localKey == 0 && s.audioLevel == 0 && s.flags & FlagGpioEdge == 0
  }

  predicate ConfigChanged(s: Sample) { s.flags & FlagConfigChange != 0 }
  predicate TxStarted(s: Sample) { s.flags & FlagTxStart != 0 }
  predicate RxStarted(s: Sample) { s.flags & FlagRxStart != 0 }
  predicate IsSilence(s: Sample) { s.flags & FlagSilence != 0 }
  predicate HasGpioEdge(s: Sample) { s.flags & FlagGpioEdge != 0 }
  predicate HasLocalEdge(s: Sample) { s.flags & FlagLocalEdge != 0 }

  /** A flag query depends on its own bit only: flipping any other flag bits leaves its answer unchanged. */
  lemma FlagQueriesOwnBit(s: Sample, other: bv8)
    ensures other & FlagConfigChange == 0 ==> ConfigChanged(s.(flags := s.flags ^ other)) == ConfigChanged(s)
    ensures other & FlagTxStart == 0 ==> TxStarted(s.(flags := s.flags ^ other)) == TxStarted(s)
    ensures other & FlagRxStart == 0 ==> RxStarted(s.(flags := s.flags ^ other)) == RxStarted(s)
    ensures other & FlagSilence == 0 ==> IsSilence(s.(flags := s.flags ^ other)) == IsSilence(s)
    ensures ConfigChanged(s.(flags := s.flags | FlagConfigChange)) && TxStarted(s.(flags := s.flags | FlagTxStart))
    ensures RxStarted(s.(flags := s.flags | FlagRxStart))
  {
  }

  /** is_silent ignores the config, TX/RX and silence flags and the config generation. */
  lemma IsSilentIff(s: Sample)
    ensures IsSilent(s) <==> s.gpio == 0 && s.localKey == 0 && s.audioLevel == 0 && !HasGpioEdge(s)
    ensures IsSilent(Empty)
    ensures IsSilent(s) ==> IsSilent(s.(configGen := 0, flags := s.flags & !FlagGpioEdge))
  {
  }

  // ---------------------------------------------------------------------
  // Silence markers and edge flags (sample.h, sample.c)
  // ---------------------------------------------------------------------

  /** sample_silence: an empty sample flagged SILENCE carrying the tick count, saturated at 65535. */
  function Silence(ticks: u32): (s: Sample)
    ensures IsSilence(s) && s.flags == FlagSilence
    ensures s.gpio == 0 && s.localKey == 0 && s.audioLevel == 0
    ensures s.configGen == if ticks > 0xFFFF then 0xFFFF else ticks
  {
    Sample(0, 0, 0, FlagSilence, if ticks > 0xFFFF then 0xFFFF else ticks)
  }

  /** sample_silence_ticks: the tick count a silence marker carries. */
  function SilenceTicks(s: Sample): (t: u32)
    ensures t <= 0xFFFF
  {
    s.configGen
  }

  /** A silence marker gives back its tick count, or 65535 when the count did not fit. */
  lemma SilenceRoundTrip(ticks: u32)
    ensures SilenceTicks(Silence(ticks)) == ticks <==> ticks <= 0xFFFF
    ensures ticks > 0xFFFF ==> SilenceTicks(Silence(ticks)) == 0xFFFF
    ensures !HasChangeFrom(Silence(ticks), Empty)
  {
  }

  /** sample_has_change_from: the keying-relevant fields differ. */
  predicate HasChangeFrom(a: Sample, b: Sample)
  {
    a.gpio != b.gpio || a.localKey != b.localKey || a.audioLevel != b.audioLevel
  }

  /** Flags and config generation never count as a change; the relation is irreflexive and symmetric. */
  lemma HasChangeFromFields(a: Sample, b: Sample, fa: bv8, fb: bv8, ca: u16, cb: u16)
    ensures HasChangeFrom(a.(flags := fa, configGen := ca), b.(flags := fb, configGen := cb)) == HasChangeFrom(a, b)
    ensures !HasChangeFrom(a, a)
    ensures HasChangeFrom(a, b) == HasChangeFrom(b, a)
    ensures !HasChangeFrom(a, b) <==> a.(flags := 0, configGen := 0) == b.(flags := 0, configGen := 0)
  {
  }

  /** sample_with_edges_from: the current sample with GPIO/local-key edge flags added against the previous one. */
  function WithEdgesFrom(current: Sample, previous: Sample): (r: Sample)
    ensures r.gpio == current.gpio && r.localKey == current.localKey
    ensures r.audioLevel == current.audioLevel && r.configGen == current.configGen
    ensures HasGpioEdge(r) <==> HasGpioEdge(current) || current.gpio != previous.gpio
    ensures HasLocalEdge(r) <==> HasLocalEdge(current) || current.localKey != previous.localKey
    ensures r.flags & current.flags == current.flags
    ensures r.flags & !(FlagGpioEdge | FlagLocalEdge) == current.flags & !(FlagGpioEdge | FlagLocalEdge)
  {
    var f1 := if current.gpio != previous.gpio then current.flags | FlagGpioEdge else current.flags;
    var f2 := if current.localKey != previous.localKey then f1 | FlagLocalEdge else f1;
    current.(flags := f2)
  }

  /** Without any transition the sample comes back exactly as it was. */
  lemma WithEdgesFromUnchanged(current: Sample, previous: Sample)
    requires current.gpio == previous.gpio && current.localKey == previous.localKey
    ensures WithEdgesFrom(current, previous) == current
  {
  }

  // ---------------------------------------------------------------------
  // Stream history (shared by the Rust and the C keying streams)
  // ---------------------------------------------------------------------

  /** The sample written at logical position p, EMPTY for positions before the first write. */
  function At(h: seq<Sample>, p: int): (s: Sample)
    ensures p < 0 ==> s == Empty
  {
    if 0 <= p < |h| then h[p] else Empty
  }

  /** The samples one call of `push` appends: a silence marker for pending idle ticks, then the edge-flagged sample. */
  function PushedSlots(idle: u32, last: Sample, s: Sample): (out: seq<Sample>)
    ensures |out| == (if idle > 0 then 2 else 1)
    ensures out[|out| - 1] == WithEdgesFrom(s, last)
    ensures idle > 0 ==> out[0] == Silence(idle) && IsSilence(out[0])
  {
    (if idle > 0 then [Silence(idle)] else []) + [WithEdgesFrom(s, last)]
  }

  // ---------------------------------------------------------------------
  // Packed layout
  // ---------------------------------------------------------------------

  /** The packed six-byte layout: gpio, key, audio level, flags, then config_gen little-endian. */
  function Pack(s: Sample): (b: seq<u8>)
    ensures |b| == 6
    ensures b[0] == s.gpio as int && b[1] == s.localKey as int && b[2] == s.audioLevel as int && b[3] == s.flags as int
    ensures b[4] as int + 256 * (b[5] as int) == s.configGen
  {
    [s.gpio as int, s.localKey as int, s.audioLevel as int, s.flags as int, s.configGen % 256, s.configGen / 256]
  }

  function Unpack(b: seq<u8>): Sample
    requires |b| == 6
  {
    Sample(b[0] as bv8, b[1] as bv8, b[2] as bv8, b[3] as bv8, b[4] as int + 256 * (b[5] as int))
  }

  /** Every field fits in the six packed bytes and comes back unchanged. */
  lemma PackRoundTrip(s: Sample)
    ensures Unpack(Pack(s)) == s
  {
  }
}
