# RemoteCWKeyer core in Dafny

A verified model of the real-time keying path of the RemoteCWKeyer
firmware (an ESP32 Morse-code keyer with Rust and C implementations of
the same design), and of the protocol codecs, buffers and console pieces
around it.

What is modelled, one Dafny module per source file:

- **Samples** (`sample.dfy`): the stream sample, the paddle (GPIO) bit
  helpers, silence markers that saturate at 65535 ticks, change
  detection and edge flags, and the packed six-byte layout.
- **Keying streams** (`stream_rs.dfy`, `stream_c.dfy`): the
  single-producer, multi-consumer ring of a power-of-two number of
  samples behind a monotone 32-bit write index. It compresses runs of
  unchanged samples into one silence marker, flags edges, and lets a
  reader see only the window `0 < write - idx <= capacity`. The C
  version also has a cursor type (`stream_consumer_t`).
- **Consumers and fault state** (`consumer_rs.dfy`, `consumer_c.dfy`,
  `fault_rs.dfy`, `fault_c.dfy`): the hard real-time consumer records a
  fault when it falls behind. The best-effort consumer skips ahead and
  counts what it dropped. The Rust and C versions differ in the order of
  their checks, their skip targets and what `clear` resets, and each is
  modelled as written.
- **Iambic keyers** (`iambic_rs.dfy`, `iambic_c.dfy`, `iambic_preset.dfy`):
  the Idle / SendDit / SendDah / Gap state machine with PARIS timing,
  dit and dah memory and the Mode B bonus element. The C keyer adds a
  memory window and squeeze latching. There is also the table of ten
  presets.
- **CWNet** (`cwnet_frame.dfy`, `cwnet_timestamp.dfy`, `cwnet_ping.dfy`,
  `cwnet_client.dfy`): the streaming frame parser, the 7-bit timestamp
  codec, PING parsing and response building with the synchronised
  clock, and the client state machine.
- **WinKeyer 3 host protocol** (`winkeyer_parser.dfy`): the byte-at-a-time
  command parser and its session handling. The single-producer,
  single-consumer Morse character queue is in `morse_queue.dfy`.
- **Morse** (`morse_table.dfy`, `decoder.dfy`, `text_keyer.dfy`): the
  character and prosign tables, the decoder's pattern accumulator and
  text ring, and the text keyer that sends a string element by element.
- **Console** (`console_history_c.dfy`, `console_history_rs.dfy`,
  `console_parser.dfy`, `config_console.dfy`): the two command-history
  rings, the line tokenizer, and the parameter registry's lookup,
  assignment and pattern walk.
- **Logging and audio** (`log_stream.dfy`, `audio_buffer.dfy`,
  `audio_ptt.dfy`): the 256-entry log ring that drops instead of
  blocking, the audio sample ring that overwrites its oldest sample, and
  the push-to-talk tail timer.
- `common.dfy` holds the shared pieces: Option, the fixed-width integer
  types, wrap-around arithmetic, and the lemmas that relate ring
  positions to slots.

Components whose fields the source updates in place are classes. Each
class has a ghost `Valid()` invariant and, in most cases, a value model of
its state (`Model()`, `Snapshot()`, or a ghost history of what was written).
Each method is proved to move that model exactly as a pure step function
does, and the lemmas state the source's promises about the step
functions. Scenario members whose names come from a test replay that
test's inputs and state what the test expects, or what the code actually
does where the two differ (see below).

## Model

| member | source | states |
|---|---|---|
| Samples.GpioFromPaddles | components/keyer_core/include/sample.h:64-69 | the dit and dah bits read back as the paddles given, no other bit is set, and the state is idle iff neither paddle is down |
| Samples.GpioWithDit | components/keyer_core/include/sample.h:72-79 | the dit bit becomes `pressed` and every other bit is kept |
| Samples.GpioWithDah | components/keyer_core/include/sample.h:82-89 | the dah bit becomes `pressed` and every other bit is kept |
| Samples.GpioBothIff | src/sample.rs:175-177 | `both()` holds iff the dit and the dah bits are both set, whatever the other bits are |
| Samples.GpioOnlyIff | src/sample.rs:180-187 | `dit_only()`/`dah_only()` hold iff that paddle alone is down and no other bit is set; a dit-only state is neither squeeze nor idle |
| Samples.GpioPaddlesRoundTrip | components/keyer_core/include/sample.h:44-69 | reading the paddles back out of `gpio_from_paddles` gives the inputs, and rebuilding from them gives the same state |
| Samples.GpioWithIndependent | components/keyer_core/include/sample.h:72-89 | setting dit leaves dah alone and vice versa; the two setters commute, and applied to 0 they equal `gpio_from_paddles` |
| Samples.FlagQueriesOwnBit | src/sample.rs:105-117 | each flag query reads only its own bit: flipping other flag bits never changes its answer, and setting its bit makes it true |
| Samples.IsSilentIff | src/sample.rs:97-102 | `is_silent` holds iff gpio, key and audio level are all zero and no GPIO edge is flagged; EMPTY is silent; config and the other flags do not matter |
| Samples.Silence | components/keyer_core/include/sample.h:154-159 | a silence marker is empty except for the SILENCE flag, and its tick count is saturated at 65535 |
| Samples.SilenceTicks | components/keyer_core/include/sample.h:162-164 | the tick count read back is at most 65535 |
| Samples.SilenceRoundTrip | components/keyer_core/include/sample.h:154-164 | a marker gives back its tick count iff the count is at most 65535, otherwise 65535; a marker never counts as a change from EMPTY |
| Samples.HasChangeFromFields | components/keyer_core/include/sample.h:181-186 | a change means gpio, key or audio level differ: flags and config generation never count; the relation is irreflexive and symmetric |
| Samples.WithEdgesFrom | components/keyer_core/src/sample.c:8-24 | the sample's fields are kept; the GPIO-edge and local-edge flags are set iff already set or the gpio / key differs from the previous sample; no other flag changes |
| Samples.WithEdgesFromUnchanged | components/keyer_core/src/sample.c:8-24 | with no gpio or key transition the sample comes back unchanged |
| Samples.PushedSlots | components/keyer_core/src/stream.c:61-89 | a push appends a silence marker carrying the pending idle ticks (only when there are any), then the edge-flagged sample |
| Samples.Pack | components/keyer_core/include/sample.h:127-133 | the packed record is six bytes: gpio, key, level, flags, then config_gen as two little-endian bytes |
| Samples.PackRoundTrip | components/keyer_core/include/sample.h:127-133 | every field fits in the packed layout and unpacks unchanged |
| KeyingStreamRs.KeyingStream.constructor | src/stream.rs:74-84 | a new stream holds no writes, indices and idle count are zero and the last sample is EMPTY; N must be a power of two |
| KeyingStreamRs.KeyingStream.WriteSlot | src/stream.rs:132-140 | the sample is appended to the written history, lands in slot `write mod N` (no other slot changes) and the write index advances by one modulo 2^32 |
| KeyingStreamRs.KeyingStream.Push | src/stream.rs:96-120 | a changed sample appends the pending silence marker (if any) and the edge-flagged sample, clears the idle count and becomes the last sample; an unchanged one appends nothing and counts one idle tick |
| KeyingStreamRs.KeyingStream.PushRaw | src/stream.rs:126-128 | the sample is appended as is; the compression state is untouched |
| KeyingStreamRs.KeyingStream.Flush | src/stream.rs:146-151 | one silence marker is appended iff idle ticks are pending, and the idle count returns to zero |
| KeyingStreamRs.KeyingStream.WriteHead | src/stream.rs:185-187 | the write head is the number of slot writes so far modulo 2^32 |
| KeyingStreamRs.KeyingStream.Lag | src/stream.rs:191-193 | the lag is the distance that brings the reader index to the write index, modulo 2^32 |
| KeyingStreamRs.KeyingStream.Read | src/stream.rs:163-179 | a read succeeds iff 0 < lag <= N (not caught up and not overrun), and then returns the sample written `lag` writes ago |
| KeyingStreamRs.IdenticalPushesThenFlush | src/stream.rs:235-253 | identical pushes followed by a flush leave one slot, a silence marker carrying the push count |
| KeyingStreamRs.EdgeDetection | src/stream.rs:256-273 | after key up then key down, the stored key-down sample carries the local-edge flag |
| KeyingStreamRs.OverrunDetection | src/stream.rs:276-293 | after 100 writes into 64 slots, readers at 0 and 30 are overrun and readers at 50 and 99 are not |
| KeyingStreamC.KeyingStream.Init | components/keyer_core/src/stream.c:28-43 | the capacity is a power of two and the mask is capacity - 1; indices and idle count are zero, no writes, every slot EMPTY |
| KeyingStreamC.KeyingStream.WriteSlot | components/keyer_core/src/stream.c:50-59 | the sample is appended to the history and stored in slot `old write mod capacity` (no other slot changes); the write index advances by one modulo 2^32; it always succeeds |
| KeyingStreamC.KeyingStream.Push | components/keyer_core/src/stream.c:61-89 | a changed sample appends the pending silence marker (if any) and the edge-flagged sample, clears the idle count and becomes the last sample; an unchanged one appends nothing and counts one idle tick; always true |
| KeyingStreamC.KeyingStream.PushRaw | components/keyer_core/src/stream.c:91-94 | exactly the sample is appended, without compression or edge flags |
| KeyingStreamC.KeyingStream.Flush | components/keyer_core/src/stream.c:96-103 | one silence marker is appended iff idle ticks are pending; the idle count returns to zero |
| KeyingStreamC.KeyingStream.Read | components/keyer_core/src/stream.c:105-128 | a read succeeds iff 0 < write - idx <= capacity (not caught up, not overrun) and yields the sample written that many writes ago; on failure the output is untouched |
| KeyingStreamC.KeyingStream.WritePosition | components/keyer_core/src/stream.c:130-133 | the write position is the number of slot writes so far modulo 2^32 |
| KeyingStreamC.KeyingStream.Lag | components/keyer_core/src/stream.c:135-139 | the lag is the distance that brings the reader to the write position, modulo 2^32 |
| KeyingStreamC.StreamConsumer.Init | components/keyer_core/src/stream.c:150-156 | a new consumer starts at the current write position |
| KeyingStreamC.StreamConsumer.InitAt | components/keyer_core/src/stream.c:158-165 | a consumer can start at any given position |
| KeyingStreamC.StreamConsumer.Next | components/keyer_core/src/stream.c:167-177 | a successful read returns the sample at the cursor and advances it by one, shrinking the lag by one; a failed read leaves cursor and output alone |
| KeyingStreamC.StreamConsumer.Peek | components/keyer_core/src/stream.c:179-184 | the same result as `Next` without moving the cursor |
| KeyingStreamC.StreamConsumer.Lag | components/keyer_core/src/stream.c:186-189 | the consumer's lag brings its cursor to the write position modulo 2^32 |
| KeyingStreamC.StreamConsumer.SkipToLatest | components/keyer_core/src/stream.c:196-202 | the cursor jumps to the write position (lag zero) and the number skipped is the old lag |
| KeyingStreamC.StreamConsumer.Resync | components/keyer_core/src/stream.c:204-216 | the cursor moves to write - capacity (or 0 while fewer writes happened), so the lag is min(write, capacity) and the consumer is no longer overrun |
| KeyingStreamC.PushThenRead | test_host/test_stream.c:25-44 | one pushed key-down sample reads back at position 0 with key 1 and level 128, write position 1 |
| KeyingStreamC.PushKeys0To4 | test_host/test_stream.c:91-101 | pushing key values 0..4 writes five slots: a one-tick silence marker first (key 0 equals EMPTY), key 3 at position 3 |
| KeyingStreamC.MultipleReaders | test_host/test_stream.c:91-118 | reading positions 0, 3, 0 gives key 0, key 3 and the same first sample again: reads never consume |
| KeyingStreamC.EmptyPushesWriteNothing | test_host/test_stream.c:70-89 | ten EMPTY pushes are all compressed: nothing is written, ten idle ticks are pending and a reader at 0 has lag 0 |
| ConsumerRs.HardRtConsumer.constructor | src/consumer.rs:65-72 | a hard real-time consumer starts at the stream's current write position with the given maximum lag |
| ConsumerRs.HardRtConsumer.Tick | src/consumer.rs:87-110 | an overrun is checked first and sets the Overrun fault with the lag as data; otherwise a lag above max_lag sets LatencyExceeded; a fault never moves the reader; within bounds a lag of 0 gives Ok(None) and otherwise the next sample with the reader advanced by one, fault untouched |
| ConsumerRs.HardRtConsumer.Resync | src/consumer.rs:116-118 | the reader jumps to the write position, so its lag becomes zero |
| ConsumerRs.HardRtConsumer.Lag | src/consumer.rs:122-124 | the lag brings the reader to the write position modulo 2^32 |
| ConsumerRs.BestEffortConsumer.constructor | src/consumer.rs:165-171 | a best-effort consumer starts at the write position with nothing dropped |
| ConsumerRs.BestEffortConsumer.Tick | src/consumer.rs:183-203 | after an overrun it jumps to half a buffer behind the writer and adds the lag skipped to `dropped` (saturating), then reads; without overrun it reads the next sample iff the lag is non-zero; `dropped` never goes down and a read always shrinks the lag |
| ConsumerRs.BestEffortConsumer.Drain | src/consumer.rs:210-212 | draining ticks until nothing is left (lag 0); without overrun it yields exactly the `lag` pending samples in write order and drops nothing |
| ConsumerRs.BestEffortConsumer.ResetDropped | src/consumer.rs:234-236 | `dropped` returns to zero and the reader does not move |
| ConsumerRs.HardRtLagFault | src/consumer.rs:287-305 | ten samples behind with max_lag 5, a tick gives LatencyExceeded and the fault is active |
| ConsumerRs.HardRtResync | src/consumer.rs:308-333 | after an overrun fault, resync and clear, the next tick after a push returns a sample |
| ConsumerRs.BestEffortSkips | src/consumer.rs:336-356 | a best-effort consumer 100 samples behind a 64-slot stream still returns a sample and counts 100 dropped |
| ConsumerRs.BestEffortDrain | src/consumer.rs:359-378 | five pushes drain as five samples, and a second drain yields none |
| FaultRs.CodeToU8 | src/fault.rs:16-34 | the discriminants are 0..4, and 0 is exactly `None` |
| FaultRs.CodeFromU8 | src/fault.rs:38-47 | any byte above 4 decodes to `None` |
| FaultRs.CodeRoundTrip | src/fault.rs:38-47 | `from_u8` inverts the discriminant for 0..4, and decodes to `None` iff the byte is 0 or above 4 |
| FaultRs.FaultState.constructor | src/fault.rs:89-96 | a new fault state is inactive with code None, data 0 and count 0 |
| FaultRs.FaultState.Set | src/fault.rs:103-108 | set stores code and data, raises the flag and adds one to the wrapping count |
| FaultRs.FaultState.Clear | src/fault.rs:139-141 | clear lowers only the flag; code, data and count are kept |
| FaultRs.FaultState.Snapshot | src/fault.rs:145-152 | the snapshot carries the four fields, the code decoded |
| FaultRs.FaultBasic | src/fault.rs:175-193 | set, clear and read back: the fault reads as set with count 1, and after clear is inactive but keeps code and count |
| FaultRs.CountAccumulates | src/fault.rs:196-206 | three sets separated by clears give a count of 3 |
| ConsumerC.HardRtConsumer.Init | components/keyer_core/src/consumer.c:17-30 | the latency bound must be positive; the consumer starts at the write position |
| ConsumerC.HardRtConsumer.Tick | components/keyer_core/src/consumer.c:32-71 | an already active fault answers FAULT and changes nothing; a lag above max_lag records LATENCY_EXCEEDED with the lag; a zero lag is NO_DATA; an overrun records OVERRUN; otherwise the sample at the cursor is returned and the cursor advances; a fault never moves the cursor |
| ConsumerC.HardRtConsumer.Resync | components/keyer_core/src/consumer.c:73-77 | the cursor jumps to the write position (lag zero) |
| ConsumerC.HardRtConsumer.Lag | components/keyer_core/src/consumer.c:79-82 | the lag brings the cursor to the write position modulo 2^32 |
| ConsumerC.OverrunShadowedByLatency | components/keyer_core/src/consumer.c:41-60 | with a bound below the capacity, every overrunning lag already exceeds the bound, so the OVERRUN branch is only reachable with a bound of at least the capacity |
| ConsumerC.BestEffortConsumer.Init | components/keyer_core/src/consumer.c:88-98 | the consumer starts at the write position with nothing dropped and the given skip threshold |
| ConsumerC.BestEffortConsumer.SkipTarget | components/keyer_core/src/consumer.c:116-119 | a skip lands two samples behind the writer, or on the writer while the write position is at most 2 |
| ConsumerC.BestEffortConsumer.Tick | components/keyer_core/src/consumer.c:100-143 | caught up gives false with nothing changed; without a skip it returns the sample at the cursor and advances; a skip (overrun, or lag past a non-zero threshold) adds the wrapping distance skipped to `dropped` and then reads two behind the writer; in a one-slot stream that read fails, the cursor jumps to the writer and one more sample counts as dropped |
| ConsumerC.BestEffortConsumer.Lag | components/keyer_core/src/consumer.c:145-148 | the lag brings the cursor to the write position modulo 2^32 |
| ConsumerC.BestEffortConsumer.ResetDropped | components/keyer_core/include/consumer.h:155-157 | `dropped` returns to zero and the cursor does not move |
| ConsumerC.HardRtLatency | components/keyer_core/src/consumer.c:32-71 | ten writes behind with max_lag 5 the tick records LATENCY_EXCEEDED with data 10; the next tick answers FAULT without recording again (count stays 1) |
| ConsumerC.BestEffortSkipsToNearLatest | components/keyer_core/src/consumer.c:100-143 | a consumer 100 behind a 64-slot stream skips to two behind the writer, reads the sample there (level 98), counts 98 dropped and is left one behind |
| FaultC.FaultState.Init | components/keyer_core/src/fault.c:12-17 | every field is zero: inactive, FAULT_NONE, data and count 0 |
| FaultC.FaultState.Set | components/keyer_core/src/fault.c:19-29 | code and data are stored, the flag is raised and the count grows by one modulo 2^32 |
| FaultC.FaultState.Clear | components/keyer_core/src/fault.c:31-38 | the flag is lowered and code and data are reset to FAULT_NONE and 0; the count is kept |
| FaultC.CodeStr | components/keyer_core/src/fault.c:40-49 | the result is "UNKNOWN" iff the code is outside 0..4, otherwise the enumerator's name |
| FaultC.CodeStrInjective | components/keyer_core/src/fault.c:40-49 | distinct codes have distinct names and none of them is "UNKNOWN" |
| FaultC.SetThenClear | test_host/test_fault.c:20-35 | a set reads back active with its code and data; clear restores FAULT_NONE |
| FaultC.CountSurvivesClear | components/keyer_core/src/fault.c:19-38 | three sets count 3, a clear keeps 3 and the next set makes 4 (the count is cumulative) |
| IambicRs.WithWpm | src/iambic.rs:84-89 | the config runs at the given speed in Mode B with both memories enabled |
| IambicRs.Opposite | src/iambic.rs:38-43 | the opposite of an element is the other element |
| IambicRs.DitDuration | src/iambic.rs:95-97 | the dit length is 1.2 s divided by the WPM, rounded down: the largest d with d * wpm <= 1 200 000 |
| IambicRs.DurationFacts | src/iambic.rs:95-109 | a dah lasts three dits and a gap one dit; a dit is 48 ms at 25 WPM and 60 ms at 20 WPM; a dit is shorter than a dah whenever it is not zero |
| IambicRs.NewProc | src/iambic.rs:157-170 | a new processor is Idle with key up, no memory, no squeeze and last element Dah |
| IambicRs.UpdateGpio | src/iambic.rs:233-255 | the paddles are recorded; squeeze_seen is set by a new squeeze (both pressed now and not before); a pressed paddle arms its memory when the FSM is not Idle and the config enables that memory; nothing else changes |
| IambicRs.DecideNext | src/iambic.rs:288-322 | dit memory first, then dah memory (each consumed), then the Mode-B bonus (opposite of the last element once a seen squeeze is released), then the live paddles with a squeeze alternating; no element iff no memory, no paddle and no pending Mode-B squeeze |
| IambicRs.StartElement | src/iambic.rs:324-339 | the key goes down, the state sends the element until now plus its duration, and squeeze_seen is re-read from the paddles; nothing else changes |
| IambicRs.TickSending | src/iambic.rs:266-276 | before the element's end nothing changes; at its end the key goes up, the element is remembered and a one-dit gap starts |
| IambicRs.Output | src/iambic.rs:193-213 | the returned sample carries the paddles as given and key 1 iff the key is down; other fields are zero |
| IambicRs.ResetProc | src/iambic.rs:222-229 | reset returns to Idle with key up, memories and squeeze cleared and element end 0; the last element and paddles are kept |
| IambicRs.ElementEndEntersGap | src/iambic.rs:266-276 | a tick at or after the element's end keys up, records the element and starts a gap of one dit |
| IambicRs.GapEndDecidesSameTick | src/iambic.rs:278-286 | a tick at or after the gap's end returns to Idle and decides in the same tick: a decided element starts at once with its full duration |
| IambicRs.IdleNeverArms | src/iambic.rs:247-254 | while Idle no paddle arms a memory |
| IambicRs.ModeBBonus | src/iambic.rs:414-444 | in Mode B a squeeze released during a dit still gives a dah after the gap (two ticks: element end, gap end) |
| IambicRs.ModeANoBonus | src/iambic.rs:288-322 | in Mode A the same release leaves the keyer Idle with key up |
| IambicRs.DitMemoryDuringDah | src/iambic.rs:455-486 | a dit tapped during a held dah is remembered, and a dit follows the gap although no paddle is pressed any more |
| IambicRs.SqueezeStartsWithDit | src/iambic.rs:381-393 | a squeeze from Idle starts a dit, the opposite of the initial last element |
| IambicRs.SqueezeAlternatesCorrected | src/iambic.rs:381-411 | with arming limited to the opposite paddle, a held squeeze sends the opposite element after each element end and gap end, in every mode and memory setting |
| IambicRs.SqueezeRepeatsDitAsWritten | src/iambic.rs:246-254 | as written, with dit memory on, a squeezed dit re-arms its own memory, so after the gap a dit is sent again instead of a dah |
| IambicRs.SingleDitRepeatsAsWritten | src/iambic.rs:246-254 | as written, a dit whose paddle is still held when it ends and released in the gap arms its own memory, so a second dit starts when the gap ends |
| IambicRs.SingleDitStopsCorrected | src/iambic.rs:347-378 | with arming limited to the opposite paddle the same single dit ends Idle with key up |
| IambicRs.IambicProcessor.constructor | src/iambic.rs:157-170 | the processor holds the config and the initial FSM state |
| IambicRs.IambicProcessor.SetConfig | src/iambic.rs:173-175 | the config is replaced and the FSM state is kept |
| IambicRs.IambicProcessor.IsKeyDown | src/iambic.rs:217-219 | reports whether the key is down |
| IambicRs.IambicProcessor.Tick | src/iambic.rs:193-213 | one tick moves the state exactly as the `Step` function does and returns the `Output` sample |
| IambicRs.IambicProcessor.Reset | src/iambic.rs:222-229 | the state becomes `ResetProc` of the old one, config kept |
| IambicRs.IambicProcessor.UpdateGpioM | src/iambic.rs:233-255 | the state becomes `UpdateGpio` of the old one |
| IambicRs.IambicProcessor.TickIdleM | src/iambic.rs:257-264 | the state becomes `TickIdle` of the old one |
| IambicRs.IambicProcessor.TickSendingM | src/iambic.rs:266-276 | the state becomes `TickSending` of the old one |
| IambicRs.IambicProcessor.TickGapM | src/iambic.rs:278-286 | the state becomes `TickGap` of the old one |
| IambicRs.IambicProcessor.DecideNextElementM | src/iambic.rs:288-322 | the element returned and the new state are those of `DecideNext` |
| IambicRs.IambicProcessor.StartElementM | src/iambic.rs:324-339 | the state becomes `StartElement` of the old one |
| IambicRs.SingleDitKeysDown | src/iambic.rs:347-378 | a dit pressed at 0 keys down at once, is still down half-way through and is up at its end |
| IambicC.DefaultConfig | components/keyer_iambic/include/iambic.h:63-70 | the default is 20 WPM, Mode B, both memories, live squeeze (LATCH_OFF) and a 0..100 % memory window |
| IambicC.MemoryModes | components/keyer_iambic/include/iambic.h:90-99 | NONE enables no memory, DOT_AND_DAH both, DOT_ONLY exactly the dit and DAH_ONLY exactly the dah |
| IambicC.DitDuration | components/keyer_iambic/include/iambic.h:109-111 | the dit length is 1.2 s divided by the WPM, rounded down: the largest d with d * wpm <= 1 200 000 |
| IambicC.Duration | components/keyer_iambic/include/iambic.h:119-131 | a dah lasts three dits, a dit (and a gap) one |
| IambicC.InitProc | components/keyer_iambic/src/iambic.c:32-49 | a new processor is Idle, key up, last element DAH, every latch false and every time zero |
| IambicC.ProgressPct | components/keyer_iambic/src/iambic.c:111-138 | the element's progress is a percentage in 0..100: 0 before the element starts, 100 exactly when its duration has passed |
| IambicC.MemoryWindowBounds | components/keyer_iambic/src/iambic.c:111-138 | a 0..100 % window accepts every press; a window whose start exceeds its end accepts none while an element is being sent |
| IambicC.UpdateGpio | components/keyer_iambic/src/iambic.c:140-183 | the paddles are recorded; a new squeeze sets squeeze_seen; LATCH_OFF copies the live squeeze into the latch and LATCH_ON keeps it; a pressed paddle arms its memory iff the state is busy, the element may be armed there, the window is open and the memory mode enables it |
| IambicC.DecideNext | components/keyer_iambic/src/iambic.c:220-262 | dit memory, then dah memory (each consumed), then the Mode-B bonus (opposite of the last element once the latched or live squeeze is released), then the live paddles with a squeeze alternating |
| IambicC.StartElement | components/keyer_iambic/src/iambic.c:264-290 | the key goes down, the squeeze is latched and squeeze_seen made equal to it, and the element is timed from now for its duration; memories and last element are kept |
| IambicC.TickSending | components/keyer_iambic/src/iambic.c:195-207 | before the element's end nothing changes; at its end the key goes up, the element is recorded and a one-dit gap is timed from now |
| IambicC.Output | components/keyer_iambic/src/iambic.c:58-88 | the sample returned is EMPTY with the paddles and key 1 iff the key is down |
| IambicC.ResetProc | components/keyer_iambic/src/iambic.c:90-102 | reset returns to Idle with key up, all latches cleared and all times zero; the last element and paddles are kept |
| IambicC.SendingNeverArmsItself | components/keyer_iambic/src/iambic.c:166-179 | while an element is being sent its own memory is never armed |
| IambicC.LatchModes | components/keyer_iambic/src/iambic.c:153-160 | under LATCH_OFF the latch follows the live squeeze; under LATCH_ON update_gpio leaves it alone |
| IambicC.ModeBBonus | test_host/test_iambic.c:110-147 | a squeeze released during a dit gives a dah after the element end and the gap end in Mode B, and Idle with key up in Mode A |
| IambicC.DahMemoryDuringDit | test_host/test_iambic.c:149-186 | a dah added half-way through a dit and released before it ends is remembered and sent after the gap |
| IambicC.SqueezeStartsWithDit | test_host/test_iambic.c:188-204 | a squeeze from init starts a dit |
| IambicC.SqueezeAlternatesCorrected | test_host/test_iambic.c:188-254 | when the gap arms only the element opposite the last one, a held squeeze alternates in every mode, memory mode, latch mode and window |
| IambicC.SqueezeRepeatsDitAsWritten | components/keyer_iambic/src/iambic.c:166-179 | as written the gap arms both memories, so with dit memory on a held squeeze sends a dit again after its first dit (the alternation the prolonged-squeeze test expects does not happen) |
| IambicC.IambicProcessor.Init | components/keyer_iambic/src/iambic.c:32-49 | the processor holds the config and the initial state |
| IambicC.IambicProcessor.SetConfig | components/keyer_iambic/src/iambic.c:51-56 | the config is replaced and the FSM state kept |
| IambicC.IambicProcessor.IsKeyDown | components/keyer_iambic/include/iambic.h:211-213 | reports whether the key is down |
| IambicC.IambicProcessor.Tick | components/keyer_iambic/src/iambic.c:58-88 | one tick moves the state exactly as `Step` does (gap arming both memories) and returns the `Output` sample |
| IambicC.IambicProcessor.Reset | components/keyer_iambic/src/iambic.c:90-102 | the state becomes `ResetProc` of the old one |
| IambicC.IambicProcessor.UpdateGpioM | components/keyer_iambic/src/iambic.c:140-183 | the state becomes `UpdateGpio` of the old one |
| IambicC.IambicProcessor.TrackPaddlesM | components/keyer_iambic/src/iambic.c:141-160 | the paddles, squeeze_seen and (under LATCH_OFF) the latch are updated, nothing else |
| IambicC.IambicProcessor.ArmMemoriesM | components/keyer_iambic/src/iambic.c:162-182 | each memory becomes set iff it was set or the press arms it, nothing else changes |
| IambicC.IambicProcessor.TickIdleM | components/keyer_iambic/src/iambic.c:185-193 | the state becomes `TickIdle` of the old one |
| IambicC.IambicProcessor.TickSendingM | components/keyer_iambic/src/iambic.c:195-207 | the state becomes `TickSending` of the old one |
| IambicC.IambicProcessor.TickGapM | components/keyer_iambic/src/iambic.c:209-218 | the state becomes `TickGap` of the old one |
| IambicC.IambicProcessor.DecideNextElementM | components/keyer_iambic/src/iambic.c:220-262 | the element returned and the new state are those of `DecideNext` |
| IambicC.IambicProcessor.StartElementM | components/keyer_iambic/src/iambic.c:264-290 | the state becomes `StartElement` of the old one |
| IambicC.DitThenGap | test_host/test_iambic.c:25-48 | a dit pressed at 0 keys down in SEND_DIT; 61 ms later at 20 WPM the key is up and the FSM is in the gap |
| IambicPreset.DefaultName | components/keyer_iambic/src/iambic_preset.c:16-27 | the built-in names fit the 32-byte field; slots 4..9 have the empty name |
| IambicPreset.DefaultWpm | components/keyer_iambic/src/iambic_preset.c:32-38 | every built-in speed lies in 10..35 WPM; slots 4..9 run at 25 |
| IambicPreset.InitialPreset | components/keyer_iambic/src/iambic_preset.c:50-73 | init loads each slot with its built-in name and speed, Mode B, both memories, LATCH_OFF and a 0..100 % window |
| IambicPreset.ResetPreset | components/keyer_iambic/src/iambic_preset.c:159-179 | reset loads the built-in name and speed, Mode B, both memories, but LATCH_ON and a 60..99 % window |
| IambicPreset.ResetDiffersFromInit | components/keyer_iambic/src/iambic_preset.c:50-73 | resetting a slot does not restore what init loaded: only the squeeze mode and the window differ |
| IambicPreset.TruncateName | components/keyer_iambic/src/iambic_preset.c:181-191 | a stored name is a prefix of the given one of at most 31 characters; a short name is kept whole |
| IambicPreset.TruncateIdempotent | components/keyer_iambic/src/iambic_preset.c:187-188 | truncating a stored name again changes nothing |
| IambicPreset.WithWpm | components/keyer_iambic/include/iambic_preset.h:256-260 | a speed inside 5..100 is stored, any other is ignored |
| IambicPreset.WithMemStart | components/keyer_iambic/include/iambic_preset.h:286-290 | a window start up to 100 % is stored, a larger one ignored |
| IambicPreset.WithMemEnd | components/keyer_iambic/include/iambic_preset.h:295-299 | a window end up to 100 % is stored, a larger one ignored |
| IambicPreset.SettersKeepWellFormed | components/keyer_iambic/include/iambic_preset.h:256-299 | the guarded setters keep a slot well formed, and a speed that changes lands in 5..100 |
| IambicPreset.ActiveOf | components/keyer_iambic/src/iambic_preset.c:79-85 | the active slot is the one at the active index, or slot 0 when the index is out of range |
| IambicPreset.GetOf | components/keyer_iambic/src/iambic_preset.c:87-99 | get returns the slot iff the index is in range, NULL otherwise |
| IambicPreset.ActiveIsGettable | components/keyer_iambic/src/iambic_preset.c:79-99 | whatever the active index, the active slot is one that get returns for some index |
| IambicPreset.PresetSystem.constructor | components/keyer_iambic/src/iambic_preset.c:39-43 | before init the global table is all zero and slot 0 is active |
| IambicPreset.PresetSystem.Init | components/keyer_iambic/src/iambic_preset.c:50-73 | every slot holds `InitialPreset` and slot 0 is active |
| IambicPreset.PresetSystem.Active | components/keyer_iambic/src/iambic_preset.c:79-85 | the slot returned is `ActiveOf` the table and is well formed |
| IambicPreset.PresetSystem.Get | components/keyer_iambic/src/iambic_preset.c:87-92 | the result is `GetOf` the table |
| IambicPreset.PresetSystem.Activate | components/keyer_iambic/src/iambic_preset.c:101-107 | activation succeeds iff the index is in range; on failure the active index is kept; the table never changes |
| IambicPreset.PresetSystem.Copy | components/keyer_iambic/src/iambic_preset.c:117-157 | a copy succeeds iff both indices are in range and then makes the destination equal to the source, name included; a copy onto itself changes nothing |
| IambicPreset.PresetSystem.Reset | components/keyer_iambic/src/iambic_preset.c:159-179 | reset succeeds iff the index is in range and then replaces only that slot by `ResetPreset` |
| IambicPreset.PresetSystem.SetName | components/keyer_iambic/src/iambic_preset.c:181-191 | refused for an out-of-range index or a NULL name; otherwise only that slot's name changes, to the truncated name |
| IambicPreset.PresetSystem.SetWpm | components/keyer_iambic/include/iambic_preset.h:256-260 | only the chosen slot changes, by the guarded speed setter |
| IambicPreset.PresetSystem.SetMemWindow | components/keyer_iambic/include/iambic_preset.h:286-299 | only the chosen slot changes, by the guarded window setters |
| IambicPreset.ActivateScenario | test_host/test_iambic_preset.c:28-44 | after init slot 0 ("Default", 25 WPM) is active; activating 10 fails and keeps it; activating 1 selects "Contest" at 35 WPM |
| IambicPreset.CopyScenario | test_host/test_iambic_preset.c:92-116 | copying slot 1 to slot 5 makes them equal, name "Contest" included; an out-of-range copy fails |
| CwnetFrame.CategoryOf | components/keyer_cwnet/src/cwnet_frame.c:13-15 | the category is bits 7-6: no payload below 0x40, short payload in 0x40..0x7F, reserved from 0xC0, long payload otherwise |
| CwnetFrame.CommandOf | components/keyer_cwnet/src/cwnet_frame.c:17-19 | the command is bits 5-0, so below 64 |
| CwnetFrame.CommandByteSplit | components/keyer_cwnet/src/cwnet_frame.c:10-19 | category bits times 64 plus the command give back the whole byte |
| CwnetFrame.CommandByte | components/keyer_cwnet/src/cwnet_frame.c:10-19 | the byte built from a category and a command splits back into them |
| CwnetFrame.Decode | components/keyer_cwnet/src/cwnet_frame.c:41-187 | the first frame of a byte string: an error ends after the one command byte; a frame's payload starts after the category's header and its command is bits 5-0 of the first byte |
| CwnetFrame.LongLen | components/keyer_cwnet/src/cwnet_frame.c:121-141 | the long-block length is little-endian: low byte first, then high byte |
| CwnetFrame.DecodeExtends | components/keyer_cwnet/src/cwnet_frame.c:41-187 | bytes after the first frame's end do not change it |
| CwnetFrame.DecodePrefixNeedsMore | components/keyer_cwnet/src/cwnet_frame.c:41-187 | every proper prefix of a frame is still incomplete (NEED_MORE) |
| CwnetFrame.DecodeOwnBytes | components/keyer_cwnet/src/cwnet_frame.c:41-187 | a frame is decided by its own bytes |
| CwnetFrame.Encode | components/keyer_cwnet/src/cwnet_frame.c:65-141 | the encoded frame is the header its category needs followed by the payload |
| CwnetFrame.PayloadExtend | components/keyer_cwnet/src/cwnet_frame.c:143-182 | appending payload bytes keeps the header; the block stays incomplete until the announced length and is a frame ending exactly there once reached |
| CwnetFrame.EncodeDecode | components/keyer_cwnet/src/cwnet_frame.c:41-187 | decoding an encoded frame, whatever follows it, gives its command and exactly its payload |
| CwnetFrame.FrameParser.Init | components/keyer_cwnet/src/cwnet_frame.c:21-27 | a new parser waits for a command byte with nothing in progress |
| CwnetFrame.FrameParser.Reset | components/keyer_cwnet/src/cwnet_frame.c:29-39 | reset forgets the frame in progress |
| CwnetFrame.FrameParser.CopyIn | components/keyer_cwnet/src/cwnet_frame.c:152-157 | the copy places the bytes at the offset and keeps what lies before |
| CwnetFrame.FrameParser.Step | components/keyer_cwnet/src/cwnet_frame.c:63-184 | one loop step consumes one header byte or as much payload as is there; it either finishes the first frame of the bytes so far (or meets a reserved category) and resets, or adds what it consumed to the frame in progress |
| CwnetFrame.FrameParser.StepHeader | components/keyer_cwnet/src/cwnet_frame.c:65-141 | a header byte completes a no-payload frame, a zero-length block or an error, or joins the header in progress |
| CwnetFrame.FrameParser.StepPayload | components/keyer_cwnet/src/cwnet_frame.c:143-182 | the payload state finishes the frame when the chunk holds the rest, or keeps the bytes and waits |
| CwnetFrame.FrameParser.FinishPayload | components/keyer_cwnet/src/cwnet_frame.c:147-170 | with the rest of the payload in the chunk the frame completes: in place if it all came in this chunk, from the buffer (when it fits) otherwise |
| CwnetFrame.FrameParser.BufferPayload | components/keyer_cwnet/src/cwnet_frame.c:171-181 | a chunk ending inside the payload is consumed whole and added to the frame in progress, the buffer keeping it while it fits |
| CwnetFrame.FrameParser.Advance | components/keyer_cwnet/src/cwnet_frame.c:63-184 | a loop step seen from the chunk's start: either the chunk's answer is final or the frame is still within its header |
| CwnetFrame.FrameParser.Parse | components/keyer_cwnet/src/cwnet_frame.c:41-187 | a call answers what `Decode` says about the frame in progress followed by the chunk: the frame with the chunk bytes it used, the reserved-category error, or NEED_MORE with the whole chunk consumed; a NULL or empty chunk is NEED_MORE |
| CwnetFrame.FinishedInChunk | components/keyer_cwnet/src/cwnet_frame.c:41-187 | a frame finished inside the chunk is the first frame of the bytes in progress followed by the whole chunk |
| CwnetFrame.AnswersRebase | components/keyer_cwnet/src/cwnet_frame.c:41-187 | an answer found in the middle of a chunk is the answer for the chunk from its start |
| CwnetTimestamp.Encode | components/keyer_cwnet/src/cwnet_timestamp.c:29-52 | negative durations encode to 0, durations past 1165 ms to 0x7F; 0-31 ms encode as themselves, 32-156 ms land in codes 0x20-0x3F and 157 ms and up in 0x40 and above; no code uses bit 7 |
| CwnetTimestamp.Decode | components/keyer_cwnet/src/cwnet_timestamp.c:54-70 | every byte decodes to a duration between 0 and 1165 ms |
| CwnetTimestamp.Resolution | components/keyer_cwnet/src/cwnet_timestamp.c:19-21 | the step of a piece is 1, 4 or 16 ms, and 1 ms exactly for the linear piece |
| CwnetTimestamp.KeyBitIgnored | components/keyer_cwnet/src/cwnet_timestamp.c:55-56 | the key bit does not change the decoded duration |
| CwnetTimestamp.EncodeDecode | components/keyer_cwnet/src/cwnet_timestamp.c:29-70 | every 7-bit code decodes to a grid point and encodes back to the same code |
| CwnetTimestamp.DecodeEncodeRoundsDown | components/keyer_cwnet/src/cwnet_timestamp.c:29-70 | within 0-1165 ms a round trip rounds down to its piece's grid: never above the duration and less than one step below |
| CwnetTimestamp.DecodeEncodeExact | components/keyer_cwnet/src/cwnet_timestamp.c:29-70 | within 0-1165 ms a round trip gives the duration back exactly when it is a grid point |
| CwnetTimestamp.EncodeMonotone | components/keyer_cwnet/src/cwnet_timestamp.c:29-52 | a longer duration never encodes to a smaller code |
| CwnetTimestamp.DecodeStrictlyMonotone | components/keyer_cwnet/src/cwnet_timestamp.c:54-70 | a larger 7-bit code always decodes to a longer duration |
| CwnetPing.CRem | components/keyer_cwnet/src/cwnet_ping.c:47 | C's remainder by 2^31 - 1: smaller than the modulus, with the dividend's sign, congruent to it, and the dividend itself when that is already in range |
| CwnetPing.ToU32 | components/keyer_cwnet/src/cwnet_ping.c:107 | the cast to uint32_t is undone by the signed reading |
| CwnetPing.LeBytes | components/keyer_cwnet/src/cwnet_ping.c:107-118 | four bytes whose little-endian reading is the value's 32-bit pattern |
| CwnetPing.LeI32At | components/keyer_cwnet/src/cwnet_ping.c:66-79 | the signed value whose little-endian bytes are the four at the offset |
| CwnetPing.LeBytesOfLeU32 | components/keyer_cwnet/src/cwnet_ping.c:66-118 | reading four bytes and writing the value back gives the same bytes |
| CwnetPing.Parse | components/keyer_cwnet/src/cwnet_ping.c:54-82 | a missing payload or one under 16 bytes is refused; otherwise type and id are bytes 0 and 1 and t0, t1, t2 are the little-endian values at 4, 8 and 12 |
| CwnetPing.LeRoundTrip | components/keyer_cwnet/src/cwnet_ping.c:66-118 | every timestamp survives being written and read back |
| CwnetPing.LeBytesInjective | components/keyer_cwnet/src/cwnet_ping.c:107-118 | distinct timestamps have distinct byte images |
| CwnetPing.ParsePingBytes | components/keyer_cwnet/src/cwnet_ping.c:54-82 | parsing the 16-byte image of a ping gives the ping back |
| CwnetPing.ParseResponse | components/keyer_cwnet/src/cwnet_ping.c:88-124 | a built response parses as RESPONSE_1 with the request's id and t0, our time as t1 and t2 zero |
| CwnetPing.BuildResponse | components/keyer_cwnet/src/cwnet_ping.c:88-124 | succeeds exactly with a request and a buffer of at least 16 bytes; then the first 16 bytes are the response payload and the rest of the buffer is kept; a refusal writes nothing |
| CwnetPing.PutHeader | components/keyer_cwnet/src/cwnet_ping.c:96-104 | the payload is zeroed, with type RESPONSE_1 and the request's id in bytes 0 and 1 |
| CwnetPing.PutLe32 | components/keyer_cwnet/src/cwnet_ping.c:107-118 | the four little-endian bytes of the value land at the offset and nothing else changes |
| CwnetPing.SubI32 | components/keyer_cwnet/src/cwnet_ping.c:141 | the 32-bit signed difference: congruent to the true difference and equal to it when that is in range |
| CwnetPing.CalcLatency | components/keyer_cwnet/src/cwnet_ping.c:130-142 | -1 for a missing ping or one that is not RESPONSE_2, the round trip t2 - t0 otherwise |
| CwnetPing.Timer.Init | components/keyer_cwnet/src/cwnet_ping.c:13-18 | a new timer has no offset |
| CwnetPing.Timer.ReadSynced | components/keyer_cwnet/src/cwnet_ping.c:37-48 | the synced clock is our clock plus the offset, reduced with C's remainder by 2^31 - 1 |
| CwnetPing.Timer.SyncToServer | components/keyer_cwnet/src/cwnet_ping.c:20-35 | afterwards the synced clock reads the server time at the local time (exactly when the server time lies strictly between -(2^31 - 1) and 2^31 - 1) and runs on with our clock from there |
| CwnetPing.ReadSyncedMs | components/keyer_cwnet/src/cwnet_ping.c:37-48 | a missing timer reads 0 |
| CwnetPing.FullSequence | test_host/test_cwnet_ping.c:337-372 | after syncing to a request's t0 the response carries the request's id, its t0 and the synced time as t1 |
| CwnetClient.CmdByte | components/keyer_cwnet/src/cwnet_client.c:69 | the corrected command byte carries the category in bits 7-6 and the command in bits 5-0, as the frame parser reads them |
| CwnetClient.IdentFrame | components/keyer_cwnet/src/cwnet_client.c:61-82 | corrected, the identification is the CONNECT short block whose payload is the username |
| CwnetClient.PingResponseFrame | components/keyer_cwnet/src/cwnet_client.c:87-112 | corrected, the PING response is the short block whose payload is the 16 response bytes, as the server's request comes in |
| CwnetClient.CwEventFrame | components/keyer_cwnet/src/cwnet_client.c:122-146 | corrected, a key event is the short block CW_DOWN or CW_UP carrying the little-endian synced timestamp |
| CwnetClient.SetState | components/keyer_cwnet/src/cwnet_client.c:16-27 | only the connection state and the notification log change |
| CwnetClient.Send | components/keyer_cwnet/src/cwnet_client.c:32-37 | a frame is handed over (logged) exactly when a send callback is registered, and nothing else changes |
| CwnetClient.Connected | components/keyer_cwnet/src/cwnet_client.c:339-352 | on connection the client is CONNECTING and IDENT has been handed to the send callback |
| CwnetClient.OnPing | components/keyer_cwnet/src/cwnet_client.c:164-197 | a PING leaves the connection state, configuration and key-event log alone |
| CwnetClient.OnFrame | components/keyer_cwnet/src/cwnet_client.c:225-251 | dispatching a frame keeps the client's invariants |
| CwnetClient.KeyEvent | components/keyer_cwnet/src/cwnet_client.c:395-406 | outside READY a key event is refused with NOT_READY and changes nothing; it never changes the connection state |
| CwnetClient.NotifiesOnlyOnChange | components/keyer_cwnet/src/cwnet_client.c:16-27 | the state-change callback hears exactly the real changes, old and new state, when one is registered |
| CwnetClient.WelcomeOnlyFromConnecting | components/keyer_cwnet/src/cwnet_client.c:155-159 | WELCOME moves CONNECTING to READY and changes nothing in any other state |
| CwnetClient.DisconnectedRefusesKeyEvents | components/keyer_cwnet/src/cwnet_client.c:354-364 | disconnection reaches DISCONNECTED from any state, and key events are then refused without effect |
| CwnetClient.LatencyOnlyFromResponse2 | components/keyer_cwnet/src/cwnet_client.c:176-185 | the latency changes only on a RESPONSE_2 PING, and then to its round trip t2 - t0 |
| CwnetClient.PingRequestSyncs | components/keyer_cwnet/src/cwnet_client.c:168-175 | a PING request sets the synced clock to the server's t0 |
| CwnetClient.KeyEventRoundTrip | components/keyer_cwnet/src/cwnet_client.c:122-146 | corrected, a key event one client sends is, once framed by the parser, reported by a receiving client as the same transition with the same timestamp |
| CwnetClient.KeyUpMisreadAsWritten | components/keyer_cwnet/src/cwnet_client.c:128-129 | as written, a key-up frame is read by the frame parser as command 0x11 rather than CW_UP |
| CwnetClient.KeyDownCoincides | components/keyer_cwnet/src/cwnet_client.c:128-129 | the key-down byte is 0x55 in both layouts, so key-down frames are unaffected |
| CwnetClient.PingResponseMisreadAsWritten | components/keyer_cwnet/src/cwnet_client.c:99-103 | as written, a PING response is read by the frame parser as the payload-less command 0x0E, and IDENT's byte as command 0x21 |
| CwnetClient.RequestAnswered | components/keyer_cwnet/src/cwnet_client.c:164-181 | a PING request is answered by appending to what was sent the RESPONSE_1 frame carrying the request's id and t0 and the time synced to t0 |
| CwnetClient.ResponseHead | components/keyer_cwnet/src/cwnet_client.c:99-103 | bytes 2 and 3 of the PING response are its type RESPONSE_1 and the id when corrected, the low length byte 0x10 and the type as written |
| CwnetClient.CorrectedFramesDecode | components/keyer_cwnet/src/cwnet_client.c:61-146 | corrected, every frame the client builds (CONNECT, the PING response, CW_DOWN/CW_UP, all short blocks) is read back whole by the frame parser with its command and payload |
| CwnetClient.Truncate | components/keyer_cwnet/src/cwnet_client.c:275-291 | a string copied into a buffer of max bytes keeps at most max - 1 leading bytes, and all of them when it fits |
| CwnetClient.Client.Init | components/keyer_cwnet/src/cwnet_client.c:257-311 | a missing configuration or host, an empty host or a missing send or time callback is INVALID_ARG and changes nothing; otherwise the client is cleared, host and username are copied truncated, and it is DISCONNECTED with latency -1, no offset and an empty parser |
| CwnetClient.Client.GetSyncedTime | components/keyer_cwnet/src/cwnet_client.c:320-330 | the synced clock at the current local time |
| CwnetClient.Client.SetStateM | components/keyer_cwnet/src/cwnet_client.c:16-27 | the client changes as SetState says |
| CwnetClient.Client.SendFrame | components/keyer_cwnet/src/cwnet_client.c:32-37 | the client and the answer are as Send says |
| CwnetClient.Client.OnConnected | components/keyer_cwnet/src/cwnet_client.c:339-352 | the parser is reset and the client changes as Connected says |
| CwnetClient.Client.OnDisconnected | components/keyer_cwnet/src/cwnet_client.c:354-364 | the parser is reset and the client is DISCONNECTED |
| CwnetClient.Client.SendKeyEvent | components/keyer_cwnet/src/cwnet_client.c:395-406 | the client and the error code are as KeyEvent says |
| CwnetClient.Client.HandlePing | components/keyer_cwnet/src/cwnet_client.c:164-197 | the client changes as OnPing says |
| CwnetClient.Client.AnswerRequest | components/keyer_cwnet/src/cwnet_client.c:168-175 | the timer is synced to t0 before the RESPONSE_1 carrying the synced time as t1 is sent |
| CwnetClient.Client.HandleCwEvent | components/keyer_cwnet/src/cwnet_client.c:202-220 | the key event is reported (with timestamp 0 for a payload under four bytes) exactly when a callback is registered |
| CwnetClient.Client.ProcessFrame | components/keyer_cwnet/src/cwnet_client.c:225-251 | the client changes as OnFrame says |
| CwnetClient.Client.OnData | components/keyer_cwnet/src/cwnet_client.c:366-393 | a chunk is framed together with the frame in progress: a completed frame is processed and the parser reset, a parse error resets the parser and changes nothing else, and otherwise the chunk joins the frame in progress |
| CwnetClient.Client.PayloadView | components/keyer_cwnet/src/cwnet_frame.c:147-170 | the payload a completed parse hands over is the frame's own payload whenever it began in the chunk or fits the parser's buffer |
| CwnetClient.HandshakeScenario | test_host/test_cwnet_client.c:420-442 | WELCOME after connecting makes the client READY, and garbage bytes then leave it READY |
| CwnetClient.PingSyncScenario | test_host/test_cwnet_client.c:265-302 | a PING request carrying server time 5000 sets the synced clock to 5000 |
| CwnetClient.IdentOnConnectScenario | test_host/test_cwnet_client.c:177-195 | the first byte sent on connection is 0x41 (CONNECT, short block) when corrected, 0x61 as written |
| CwnetClient.PingResponseScenario | test_host/test_cwnet_client.c:222-263 | a PING request (id 1, t0 1000) received when READY is answered with bytes 2 and 3 equal to RESPONSE_1 and the id when corrected; as written byte 2 is the length byte 0x10 |
| WinkeyerParser.Fire | components/keyer_winkeyer/src/winkeyer_parser.c:22-27 | a callback happens exactly when its slot is set |
| WinkeyerParser.ParamCount | components/keyer_winkeyer/src/winkeyer_parser.c:45-74 | PTT timing takes two parameter bytes, the listed setters one, ADMIN and the other commands none |
| WinkeyerParser.Initial | components/keyer_winkeyer/src/winkeyer_parser.c:324-333 | a new parser is IDLE with no session open |
| WinkeyerParser.AdminSub | components/keyer_winkeyer/src/winkeyer_parser.c:80-136 | ECHO waits for the byte to echo and every other sub-command returns to IDLE; HOST_OPEN opens the session and answers the version, HOST_CLOSE and RESET close it |
| WinkeyerParser.Command | components/keyer_winkeyer/src/winkeyer_parser.c:142-191 | ADMIN waits for a sub-command, a command with parameters waits for the first, the rest stay IDLE; only CLEAR_BUFFER in an open session calls back at once |
| WinkeyerParser.Param1 | components/keyer_winkeyer/src/winkeyer_parser.c:197-281 | a pending echo sends the byte back; PTT timing waits for its second byte; every other command returns to IDLE, calling back only in an open session |
| WinkeyerParser.Param2 | components/keyer_winkeyer/src/winkeyer_parser.c:283-301 | the second byte returns to IDLE, calling back only in an open session |
| WinkeyerParser.Step | components/keyer_winkeyer/src/winkeyer_parser.c:335-373 | every byte keeps the parser consistent, answers at most one byte, and opens or closes the session only as an ADMIN sub-command |
| WinkeyerParser.Run | components/keyer_winkeyer/src/winkeyer_parser.c:335-373 | feeding a byte string keeps the parser consistent |
| WinkeyerParser.OpenSession | test_host/test_winkeyer_parser.c:157-180 | ADMIN, HOST_OPEN from IDLE opens the session, answers version 23 and calls on_host_open |
| WinkeyerParser.CloseSession | components/keyer_winkeyer/src/winkeyer_parser.c:80-136 | ADMIN, HOST_CLOSE or ADMIN, RESET from IDLE closes the session without an answer; only HOST_CLOSE calls back |
| WinkeyerParser.EchoReturnsByte | components/keyer_winkeyer/src/winkeyer_parser.c:80-136 | ADMIN, ECHO, x from IDLE sends x back with or without a session and keeps the session |
| WinkeyerParser.TextByte | components/keyer_winkeyer/src/winkeyer_parser.c:350-358 | in IDLE a printable byte goes to on_text only with an open session; bytes above the text range are dropped without effect |
| WinkeyerParser.TextForwarded | components/keyer_winkeyer/src/winkeyer_parser.c:307-318 | a run of printable bytes in an open session reaches on_text byte for byte |
| WinkeyerParser.ClosedSessionSilent | test_host/test_winkeyer_parser.c:280-300 | without a session a command swallows exactly its parameter bytes, calls nothing and ends IDLE |
| WinkeyerParser.PttTimingTwoParams | components/keyer_winkeyer/src/winkeyer_parser.c:283-301 | PTT timing in an open session waits for both bytes, then reports them together |
| WinkeyerParser.SetterReports | components/keyer_winkeyer/src/winkeyer_parser.c:197-281 | a one-parameter setter in an open session reports its parameter and returns to IDLE |
| WinkeyerParser.ResponseOnlyForOpenOrEcho | components/keyer_winkeyer/src/winkeyer_parser.c:80-281 | a response byte appears exactly for HOST_OPEN and for the byte after ECHO |
| WinkeyerParser.Parser.Init | components/keyer_winkeyer/src/winkeyer_parser.c:324-333 | a new parser is in the initial state and has called nothing |
| WinkeyerParser.Parser.Reset | components/keyer_winkeyer/include/winkeyer_parser.h:164-166 | reset returns to the initial state |
| WinkeyerParser.Parser.Invoke | components/keyer_winkeyer/src/winkeyer_parser.c:22-27 | the parser state is untouched and the callback is made exactly when its slot is set |
| WinkeyerParser.Parser.Byte | components/keyer_winkeyer/src/winkeyer_parser.c:335-373 | the new state, callbacks and response are those Step gives |
| WinkeyerParser.Parser.ProcessAdminSub | components/keyer_winkeyer/src/winkeyer_parser.c:80-136 | the new state, callbacks and response are those AdminSub gives |
| WinkeyerParser.Parser.ProcessCommand | components/keyer_winkeyer/src/winkeyer_parser.c:142-191 | the new state and callbacks are those Command gives |
| WinkeyerParser.Parser.ProcessParam1 | components/keyer_winkeyer/src/winkeyer_parser.c:197-281 | the new state, callbacks and response are those Param1 gives |
| WinkeyerParser.Parser.ProcessParam2 | components/keyer_winkeyer/src/winkeyer_parser.c:283-301 | the new state and callbacks are those Param2 gives |
| WinkeyerParser.HostOpenScenario | test_host/test_winkeyer_parser.c:157-180 | after ADMIN the parser waits for a sub-command; after HOST_OPEN the session is open, on_host_open was called and the answer is 23 |
| MorseQueue.PushMirrors | components/keyer_winkeyer/src/morse_queue.c:37-59 | a push stores into the write slot, outside the queued part, and appends to the queue |
| MorseQueue.PopMirrors | components/keyer_winkeyer/src/morse_queue.c:61-83 | a pop takes the oldest element, at the read index, and drops it from the front |
| MorseQueue.Queue.Init | components/keyer_winkeyer/src/morse_queue.c:28-35 | a new queue is empty |
| MorseQueue.Queue.Push | components/keyer_winkeyer/src/morse_queue.c:37-59 | refused exactly when the slot after the write index is the read index, that is when 63 elements are queued; otherwise the element joins at the back |
| MorseQueue.Queue.Pop | components/keyer_winkeyer/src/morse_queue.c:61-83 | refused exactly on an empty queue; otherwise the oldest element comes out |
| MorseQueue.Queue.IsEmpty | components/keyer_winkeyer/src/morse_queue.c:85-94 | true exactly when nothing is queued |
| MorseQueue.Queue.Count | components/keyer_winkeyer/src/morse_queue.c:96-106 | the wrapped distance is the number queued, below 64 |
| MorseQueue.Queue.Clear | components/keyer_winkeyer/src/morse_queue.c:108-116 | afterwards nothing is queued |
| MorseQueue.FillToCapacity | test_host/test_morse.c:314-330 | 63 pushes into an empty queue succeed, the 64th is refused and the count stays 63 |
| MorseQueue.WrapAroundFifo | test_host/test_morse.c:335-368 | elements pushed across the end of the array come out in the order pushed |
| MorseTable.Elements | components/keyer_morse/include/morse_table.h:28-40 | a packed code sends as many elements as its length, element k a dah exactly when bit k is set |
| MorseTable.Upper | components/keyer_morse/src/morse_table.c:80 | toupper changes only 'a'-'z', to the matching capital |
| MorseTable.Lookup | components/keyer_morse/src/morse_table.c:79-102 | a packed code exists exactly for letters of either case, digits and the six marks . , ? / = -; digits have five elements and every code one to six |
| MorseTable.LookupIgnoresCase | components/keyer_morse/src/morse_table.c:79-86 | a lower-case letter has the code of its capital |
| MorseTable.TableShape | components/keyer_morse/src/morse_table.c:116-181 | every table pattern is a non-empty string of dots and dashes; no table character is NUL or lower-case |
| MorseTable.TableDistinct | components/keyer_morse/src/morse_table.c:116-181 | no pattern and no character occurs twice in the table |
| MorseTable.TableUnique | components/keyer_morse/src/morse_table.c:116-181 | the table has no repeated pattern or character |
| MorseTable.Count | components/keyer_morse/src/morse_table.c:238-240 | the table has 57 entries |
| MorseTable.Decode | components/keyer_morse/src/morse_table.c:210-222 | a character other than NUL comes back exactly when the pattern is in the table |
| MorseTable.Encode | components/keyer_morse/src/morse_table.c:224-236 | no pattern comes back exactly when no entry has the upper-cased character |
| MorseTable.TableLookup | components/keyer_morse/src/morse_table.c:210-222 | the search loop returns what Decode specifies |
| MorseTable.TableReverse | components/keyer_morse/src/morse_table.c:224-236 | the search loop returns what Encode specifies |
| MorseTable.EncodeAt | components/keyer_morse/src/morse_table.c:224-236 | reverse lookup of an entry's character gives its pattern |
| MorseTable.EncodeShape | components/keyer_morse/src/morse_table.c:224-236 | whatever reverse lookup returns is a non-empty string of dots and dashes |
| MorseTable.DecodeAt | components/keyer_morse/src/morse_table.c:210-222 | lookup of an entry's pattern gives its character |
| MorseTable.DecodeEncode | components/keyer_morse/src/morse_table.c:210-236 | reverse lookup then lookup gives every table character back, lower-case letters upper-cased |
| MorseTable.EncodeDecode | components/keyer_morse/src/morse_table.c:210-236 | lookup then reverse lookup gives every table pattern back |
| MorseTable.PackedMatchesLetters | components/keyer_morse/src/morse_table.c:28-55 | for every letter the packed code and the string table send the same elements |
| MorseTable.PackedMatchesDigits | components/keyer_morse/src/morse_table.c:58-69 | for every digit the packed code and the string table send the same elements |
| MorseTable.PackedMatchesPunct | components/keyer_morse/src/morse_table.c:72-77 | for the six marks with a packed code the packed code and the string table agree |
| MorseTable.LookupMatchesEncode | components/keyer_morse/src/morse_table.c:79-236 | every character the packed encoder knows reverse-looks-up to the same elements |
| MorseTable.TagShape | components/keyer_morse/src/morse_table.c:194-202 | every prosign tag is four characters opening with '<' |
| MorseTable.ProsignShape | components/keyer_morse/src/morse_table.c:194-202 | every prosign pattern is a non-empty string of dots and dashes |
| MorseTable.ProsignsDistinct | components/keyer_morse/src/morse_table.c:194-202 | prosign tags and patterns are all different |
| MorseTable.MatchTag | components/keyer_morse/src/morse_table.c:242-258 | a length above 0 comes exactly with a pattern, and 0 exactly when the text is missing or starts with no tag |
| MorseTable.MatchTagShape | components/keyer_morse/src/morse_table.c:242-258 | a matched prosign yields a non-empty string of dots and dashes |
| MorseTable.TagOf | components/keyer_morse/src/morse_table.c:260-272 | a tag comes back exactly when the pattern is a prosign's |
| MorseTable.MatchProsign | components/keyer_morse/src/morse_table.c:242-258 | the search loop returns what MatchTag specifies |
| MorseTable.ProsignTag | components/keyer_morse/src/morse_table.c:260-272 | the search loop returns what TagOf specifies |
| MorseTable.ProsignRoundTrip | components/keyer_morse/src/morse_table.c:242-272 | a text opening with a tag matches that tag and its pattern, and the pattern leads back to the tag |
| Decoder.Empty | components/keyer_decoder/src/decoder.c:447-464 | the reset state is consistent |
| Decoder.PushChar | components/keyer_decoder/src/decoder.c:107-115 | a push keeps the decoder consistent and touches only the character buffer |
| Decoder.PushRecent | components/keyer_decoder/src/decoder.c:107-115 | the buffer keeps the newest 128 characters: the count saturates and once full the oldest is overwritten |
| Decoder.PushUnread | components/keyer_decoder/src/decoder.c:107-115 | a push appends to the unread characters while fewer than 127 wait; the push that brings the write position round to the pop position leaves nothing unread |
| Decoder.Pop | components/keyer_decoder/src/decoder.c:402-415 | a pop leaves the buffer, count and pattern alone |
| Decoder.PopUnread | components/keyer_decoder/src/decoder.c:402-415 | a pop hands out the oldest unread character and removes it, and NUL with timestamp 0 when nothing is unread |
| Decoder.Finalize | components/keyer_decoder/src/decoder.c:120-145 | no pattern changes nothing; otherwise the pattern is cleared and the decoder is IDLE |
| Decoder.Handle | components/keyer_decoder/src/decoder.c:269-327 | every event keeps the decoder consistent |
| Decoder.MarkExtendsPattern | components/keyer_decoder/src/decoder.c:275-296 | a dit or dah is appended while the pattern is shorter than 8 and the decoder is RECEIVING; nothing else changes |
| Decoder.CharGapDecodes | components/keyer_decoder/src/decoder.c:305-311 | a character gap adds a known pattern's character to the buffer and counts it, counts an unknown one as an error, and clears the pattern |
| Decoder.GapWithoutPattern | components/keyer_decoder/src/decoder.c:298-325 | a character gap without a pattern, an intra-character gap and an unknown event change nothing |
| Decoder.WordGapAddsSpace | components/keyer_decoder/src/decoder.c:313-321 | a word gap ends the character as a character gap would, then adds a space and counts a word |
| Decoder.TextLen | components/keyer_decoder/src/decoder.c:337-364 | get_text hands out all characters, or max_len - 1 when fewer fit |
| Decoder.LastChar | components/keyer_decoder/src/decoder.c:393-400 | the newest character, or NUL with timestamp 0 when there is none |
| Decoder.LastCharAfterPush | components/keyer_decoder/src/decoder.c:107-115 | after any push the newest character is the one pushed |
| Decoder.ResetEmpties | components/keyer_decoder/src/decoder.c:447-464 | reset leaves nothing to read, no pattern and no statistics |
| Decoder.DecoderState.Init | components/keyer_decoder/src/decoder.c:170-205 | a new decoder is in the reset state |
| Decoder.DecoderState.Reset | components/keyer_decoder/src/decoder.c:447-464 | reset returns to the reset state |
| Decoder.DecoderState.BufferPush | components/keyer_decoder/src/decoder.c:107-115 | the decoder changes as PushChar says |
| Decoder.DecoderState.AddElement | components/keyer_decoder/src/decoder.c:275-296 | the element joins a pattern shorter than 8 and the decoder is RECEIVING |
| Decoder.DecoderState.FinalizePattern | components/keyer_decoder/src/decoder.c:120-145 | the decoder changes as Finalize says |
| Decoder.DecoderState.HandleEvent | components/keyer_decoder/src/decoder.c:269-327 | the decoder changes as Handle says |
| Decoder.DecoderState.GetText | components/keyer_decoder/src/decoder.c:337-364 | the newest min(count, max_len - 1) characters oldest first, then a NUL; max_len 0 writes nothing |
| Decoder.DecoderState.GetTextWithTimestamps | components/keyer_decoder/src/decoder.c:366-391 | the newest min(count, max_count) entries, oldest first, with their timestamps |
| Decoder.DecoderState.GetLastChar | components/keyer_decoder/src/decoder.c:393-400 | the newest character as LastChar says |
| Decoder.DecoderState.PopChar | components/keyer_decoder/src/decoder.c:402-415 | the decoder and the character are as Pop says |
| Decoder.DecoderState.GetCurrentPattern | components/keyer_decoder/src/decoder.c:421-431 | at most max_len - 1 leading elements of the pattern, then a NUL |
| Decoder.DecodesEThenT | test_host/test_decoder.c:233-250 | E at 2000 and T at 4000 come back in order with their timestamps |
| Decoder.TenDitsDecodeAsHash | test_host/test_decoder.c:138-154 | ten dits keep only the first eight, which the table decodes as '#': a character, not an error |
| TextKeyer.Units | components/keyer_text/src/text_keyer.c:101-172 | a dit and an intra-character gap last one dit, a dah and a character gap three, a word gap seven |
| TextKeyer.DitDuration | components/keyer_text/src/text_keyer.c:50-55 | 1.2 s divided by the speed rounded down, the speed clamped to 5..60 WPM, so between 20 and 240 ms |
| TextKeyer.MatchWithinText | components/keyer_morse/src/morse_table.c:242-258 | a matched tag lies inside the text it starts |
| TextKeyer.PatternStep | components/keyer_text/src/text_keyer.c:69-99 | one round consumes a prosign tag, a space (the word-gap marker) or a character with a pattern; a character without a pattern is skipped |
| TextKeyer.NextPattern | components/keyer_text/src/text_keyer.c:69-99 | the next tag, word-gap marker or character pattern from the position on, unknown characters skipped; none, at the end of the text, exactly when nothing from the position on is a space or has a pattern |
| TextKeyer.SendElement | components/keyer_text/src/text_keyer.c:140-155 | the key goes down for the next dit or dah of the pattern, for its number of dit units |
| TextKeyer.PatternGap | components/keyer_text/src/text_keyer.c:108-115 | after a pattern that was not a word gap the key is released and a three-dit character gap starts |
| TextKeyer.BeginPattern | components/keyer_text/src/text_keyer.c:117-138 | no pattern left ends sending; a space starts a seven-dit word gap; a pattern after a character gap waits for the gap; any other starts its first element |
| TextKeyer.CharacterStart | components/keyer_text/src/text_keyer.c:104-138 | with the pattern used up, a character gap then the next pattern; sending ends only with the text used up, and otherwise at least one character is consumed |
| TextKeyer.StartNext | components/keyer_text/src/text_keyer.c:101-156 | every element started lasts its number of dit units and keys down exactly for a dit or dah; when nothing is started the text is used up and the key is up |
| TextKeyer.Finish | components/keyer_text/src/text_keyer.c:158-175 | the key comes up; an intra-character gap of one dit follows if the pattern goes on, otherwise no element is running |
| TextKeyer.AfterAbort | components/keyer_text/src/text_keyer.c:220-228 | from any state but IDLE the keyer returns to IDLE with the key up and the send state cleared |
| TextKeyer.ElementTick | components/keyer_text/src/text_keyer.c:272-289 | the first element starts at once; an element ends when its time has come and the next starts in the same tick; the keyer goes IDLE with the key up only with the text used up; before its end nothing changes |
| TextKeyer.AfterTick | components/keyer_text/src/text_keyer.c:261-290 | a tick outside SENDING changes nothing; an abort flag aborts; the key is never left down in IDLE |
| TextKeyer.AfterInit | components/keyer_text/src/text_keyer.c:181-192 | a missing configuration is -1 and changes nothing; otherwise the keyer is IDLE with the key up and a cleared send state |
| TextKeyer.AfterSend | components/keyer_text/src/text_keyer.c:194-218 | a missing or empty text or a keyer that is not IDLE is refused with -1 without change; otherwise it is SENDING the text cut to 127 characters from the start |
| TextKeyer.AfterPause | components/keyer_text/src/text_keyer.c:230-239 | only SENDING pauses, releasing the key |
| TextKeyer.AfterResume | components/keyer_text/src/text_keyer.c:241-246 | only PAUSED resumes, timing restarting with the next tick |
| TextKeyer.PauseResume | components/keyer_text/src/text_keyer.c:230-246 | pause then resume picks the text up where it stopped, with the key up |
| TextKeyer.AbortThenSend | components/keyer_text/src/text_keyer.c:194-228 | after an abort from any state a new non-empty text is accepted |
| TextKeyer.MidPatternKeepsCharacter | components/keyer_text/src/text_keyer.c:140-155 | an element started mid-pattern keys the pattern's next dit or dah and starts no new character |
| TextKeyer.Keyer.Init | components/keyer_text/src/text_keyer.c:181-192 | the keyer and the result are as AfterInit says |
| TextKeyer.Keyer.Send | components/keyer_text/src/text_keyer.c:194-218 | the keyer and the result are as AfterSend says |
| TextKeyer.Keyer.Abort | components/keyer_text/src/text_keyer.c:220-228 | the keyer changes as AfterAbort says |
| TextKeyer.Keyer.Pause | components/keyer_text/src/text_keyer.c:230-239 | the keyer changes as AfterPause says |
| TextKeyer.Keyer.Resume | components/keyer_text/src/text_keyer.c:241-246 | the keyer changes as AfterResume says |
| TextKeyer.Keyer.GetProgress | components/keyer_text/src/text_keyer.c:252-259 | the characters consumed so far and the text length, at most 127 |
| TextKeyer.Keyer.IsKeyDown | components/keyer_text/src/text_keyer.c:292-294 | the key is down only while SENDING |
| TextKeyer.Keyer.StepPattern | components/keyer_text/src/text_keyer.c:69-99 | one loop round as PatternStep says |
| TextKeyer.Keyer.GetNextPattern | components/keyer_text/src/text_keyer.c:69-99 | the pattern and the new position are as NextPattern says |
| TextKeyer.Keyer.SendNextElement | components/keyer_text/src/text_keyer.c:140-155 | the keyer changes as SendElement says |
| TextKeyer.Keyer.EndPattern | components/keyer_text/src/text_keyer.c:108-115 | the keyer changes as PatternGap says |
| TextKeyer.Keyer.StartPattern | components/keyer_text/src/text_keyer.c:117-138 | the keyer and the answer are as BeginPattern says |
| TextKeyer.Keyer.StartCharacter | components/keyer_text/src/text_keyer.c:104-138 | the keyer and the answer are as CharacterStart says |
| TextKeyer.Keyer.StartNextElement | components/keyer_text/src/text_keyer.c:101-156 | the keyer and the answer are as StartNext says |
| TextKeyer.Keyer.FinishElement | components/keyer_text/src/text_keyer.c:158-175 | the keyer changes as Finish says |
| TextKeyer.Keyer.Tick | components/keyer_text/src/text_keyer.c:261-290 | the keyer changes as AfterTick says |
| TextKeyer.Keyer.TickElement | components/keyer_text/src/text_keyer.c:272-289 | the keyer changes as ElementTick says |
| TextKeyer.SendE | components/keyer_text/src/text_keyer.c:261-290 | sending "E" at 20 WPM: the first tick keys the dit, the tick at its end releases the key and returns to IDLE |
| TextKeyer.EPatterns | components/keyer_text/src/text_keyer.c:69-99 | "E" is one dit and nothing follows it |
| ConsoleHistory.Trunc | components/keyer_console/src/history.c:52-53 | a stored line keeps at most 255 leading characters, and all of a shorter line |
| ConsoleHistory.AfterPush | components/keyer_console/src/history.c:38-64 | a missing or empty line, or one equal to the newest entry, changes nothing; otherwise the cut line becomes the newest entry, the oldest is dropped when ten are stored, and navigation ends |
| ConsoleHistory.AfterPrev | components/keyer_console/src/history.c:66-89 | the next older entry; none on an empty history and once every entry has been returned, which changes nothing |
| ConsoleHistory.AfterNext | components/keyer_console/src/history.c:91-107 | the next newer entry; none when not navigating, and none, ending the navigation, when stepping past the newest |
| ConsoleHistory.AfterResetNav | components/keyer_console/src/history.c:109-112 | navigation ends and the entries stay |
| ConsoleHistory.PrevsWalkBack | components/keyer_console/src/history.c:66-89 | repeated up-arrow presses return the entries from the navigation point on, newest to oldest, then none for every further press |
| ConsoleHistory.NextUndoesPrev | components/keyer_console/src/history.c:66-107 | a down-arrow press after an up-arrow press shows again what was shown before it |
| ConsoleHistory.DuplicateSkipped | components/keyer_console/src/history.c:43-49 | pushing the same line twice in a row stores it once |
| ConsoleHistory.Slot | components/keyer_console/src/history.c:45 | the ring slot of the entry k places older than the newest, counting back from the write slot with wrap-around |
| ConsoleHistory.SlotSteps | components/keyer_console/src/history.c:84-97 | stepping the navigation slot back one reaches the next older entry, forward the next newer |
| ConsoleHistory.Lines | components/keyer_console/src/history.c:12-27 | the newest-first view of the ring holds the entries at their slots |
| ConsoleHistory.LinesAfterWrite | components/keyer_console/src/history.c:51-59 | writing the next slot puts the line in front of the view, keeping at most ten |
| ConsoleHistory.History.constructor | components/keyer_console/src/history.c:29-36 | the zeroed history is the cleared one |
| ConsoleHistory.History.Init | components/keyer_console/src/history.c:29-36 | init empties the history |
| ConsoleHistory.History.Push | components/keyer_console/src/history.c:38-64 | the history changes as AfterPush says |
| ConsoleHistory.History.Prev | components/keyer_console/src/history.c:66-89 | the history and the line are as AfterPrev says |
| ConsoleHistory.History.Next | components/keyer_console/src/history.c:91-107 | the history and the line are as AfterNext says |
| ConsoleHistory.History.ResetNav | components/keyer_console/src/history.c:109-112 | the history changes as AfterResetNav says |
| ConsoleHistory.FivePushesAllKept | test_host/test_history.c:58-86 | after five pushes all five come back newest first, and only the sixth press gives none |
| HistoryRs.Clip | src/console/history.rs:39-43 | a stored line keeps its first 64 bytes, and all of a shorter line |
| HistoryRs.AfterPush | src/console/history.rs:38-48 | every line, empty or repeated, becomes the newest entry cut to 64 bytes; the oldest is dropped when four are stored; navigation restarts |
| HistoryRs.At | src/console/history.rs:87-98 | an entry comes back exactly when its position is held and its bytes are well-formed UTF-8 |
| HistoryRs.AfterPrev | src/console/history.rs:51-64 | the newest entry first, then older ones, staying on the oldest; none on an empty history |
| HistoryRs.AfterNext | src/console/history.rs:67-79 | the next newer entry; from the newest, back to the line being typed with none |
| HistoryRs.AfterResetNav | src/console/history.rs:82-84 | navigation ends and the entries stay |
| HistoryRs.PrevsFromPosition | src/console/history.rs:51-64 | from any navigation point, up-arrow presses walk towards the oldest and then return it again and again |
| HistoryRs.PrevsWalkBack | src/console/history.rs:51-64 | from the line being typed, up-arrow presses return the entries newest to oldest and then the oldest again and again |
| HistoryRs.ShortLineRecalled | src/console/history.rs:38-64 | a well-formed line of at most 64 bytes comes back exactly as pushed |
| HistoryRs.AsciiLineRecalled | src/console/history.rs:38-64 | any ASCII line comes back as its first 64 bytes |
| HistoryRs.SplitCharacterNotRecalled | src/console/history.rs:87-98 | a line whose 64-byte cut splits a two-byte character is stored but never recalled: get_prev moves onto it and returns none |
| HistoryRs.Lines | src/console/history.rs:87-94 | the newest-first view of the ring has as many entries as are stored |
| HistoryRs.LinesAfterWrite | src/console/history.rs:42-46 | writing the next slot puts the line in front of the view, keeping at most four |
| HistoryRs.History.constructor | src/console/history.rs:27-35 | a new history is empty and not navigating |
| HistoryRs.History.Push | src/console/history.rs:38-48 | the history changes as AfterPush says |
| HistoryRs.History.GetAt | src/console/history.rs:87-98 | the entry is as At says |
| HistoryRs.History.GetPrev | src/console/history.rs:51-64 | the history and the entry are as AfterPrev says |
| HistoryRs.History.GetNext | src/console/history.rs:67-79 | the history and the entry are as AfterNext says |
| HistoryRs.History.ResetNav | src/console/history.rs:82-84 | the history changes as AfterResetNav says |
| ConsoleParser.Skip | components/keyer_console/src/parser.c:17-22 | the count of leading whitespace characters is within the string |
| ConsoleParser.WordLen | components/keyer_console/src/parser.c:28-33 | the count of leading non-whitespace characters is within the string |
| ConsoleParser.SkipStops | components/keyer_console/src/parser.c:17-22 | skipping stops at the first character that is not whitespace |
| ConsoleParser.WordLenStops | components/keyer_console/src/parser.c:28-33 | a word ends at the first whitespace character |
| ConsoleParser.TokensAreWords | components/keyer_console/src/parser.c:35-97 | every token is a non-empty run without whitespace |
| ConsoleParser.TokensOfSpaced | components/keyer_console/src/parser.c:54-97 | leading, trailing and repeated whitespace is skipped: words laid out with any such gaps tokenize back to exactly those words |
| ConsoleParser.SlotsPrefix | components/keyer_console/src/parser.c:75 | only the first three words reach the argument slots |
| ConsoleParser.Trunc | components/keyer_console/src/parser.c:49-50 | the parse buffer holds at most 255 leading characters of the line, and all of a shorter one |
| ConsoleParser.Parse | components/keyer_console/src/parser.c:35-97 | a missing, empty or blank line gives command "" and no arguments; otherwise the first word is the command and the next words, at most three, fill the argument slots in order with the rest empty |
| ConsoleParser.ParseSpaced | test_host/test_console_parser.c:56-90 | a line of whitespace-separated words parses to its first word and up to three more, whatever whitespace surrounds them |
| ConsoleParser.SkipSpace | components/keyer_console/src/parser.c:55-57 | the whitespace loop stops after the leading whitespace and keeps the words |
| ConsoleParser.WordEnd | components/keyer_console/src/parser.c:65-67 | the word loop stops at the word's end, at whitespace or the end of the buffer |
| ConsoleParser.NextToken | components/keyer_console/src/parser.c:76-96 | one argument round takes the next word, or none exactly when no word is left |
| ConsoleParser.ParseArgs | components/keyer_console/src/parser.c:75-97 | the argument loop fills the slots with the first three remaining words, counting them |
| ConsoleParser.ParseLine | components/keyer_console/src/parser.c:35-97 | the C loops produce what Parse specifies |
| ConfigConsole.AliasCopy | components/src/config_console.c:484-486 | the alias list is split from a copy of at most 63 leading characters |
| ConfigConsole.RunLen | components/src/config_console.c:487-492 | the run before the first comma holds no comma |
| ConfigConsole.PiecesOfJoin | components/src/config_console.c:487-492 | splitting an alias list written with single commas gives back its aliases |
| ConfigConsole.PiecesOfPair | components/src/config_console.c:487-492 | two aliases separated by a comma split into the two |
| ConfigConsole.FirstFamily | components/src/config_console.c:475-495 | the first family from the index on answering to the name by its own name or an alias, or none when no family does |
| ConfigConsole.FindFamily | components/src/config_console.c:472-496 | the first family answering to the name by its own name or an alias; none for a missing name or when no family answers |
| ConfigConsole.KeyerAliases | components/src/config_console.c:17-26 | the keyer family's aliases split to "k" |
| ConfigConsole.AudioAliases | components/src/config_console.c:17-26 | the audio family's aliases split to "a" and "snd" |
| ConfigConsole.HardwareAliases | components/src/config_console.c:17-26 | the hardware family's aliases split to "hw" and "gpio" |
| ConfigConsole.KeyerByName | components/src/config_console.c:472-496 | "keyer" finds its own family |
| ConfigConsole.AudioBySnd | components/src/config_console.c:472-496 | "snd" finds the audio family through its second alias |
| ConfigConsole.HardwareByHw | components/src/config_console.c:472-496 | "hw" finds the hardware family through its first alias |
| ConfigConsole.HardwareByGpio | components/src/config_console.c:472-496 | "gpio" finds the hardware family through its second alias |
| ConfigConsole.FirstParam | components/src/config_console.c:501-512 | the first parameter from the index on whose full path or short name is the name, or none |
| ConfigConsole.FindParam | components/src/config_console.c:498-513 | the first parameter whose full path or short name is the name; none for a missing name or when none matches |
| ConfigConsole.FullPathFindsItself | components/src/config_console.c:498-513 | in a registry without ambiguous names every entry is found by its own full path |
| ConfigConsole.WpmLookups | test_host/test_config_console.c:10-18 | "wpm" and "keyer.wpm" both find the first entry |
| ConfigConsole.Strtoul | components/src/config_console.c:557 | strtoul in base 0 gives an unsigned long |
| ConfigConsole.StrtoulReadsDecimal | components/src/config_console.c:557 | strtoul reads back every number written with %u |
| ConfigConsole.StrtoulHex | components/src/config_console.c:557 | "0x" selects hexadecimal |
| ConfigConsole.StrtoulOctal | components/src/config_console.c:557 | a leading 0 selects octal |
| ConfigConsole.StrtoulStopsAtJunk | components/src/config_console.c:557 | leading blanks are skipped and reading stops at the first character that is no digit |
| ConfigConsole.StrtoulNoDigits | components/src/config_console.c:557 | text without digits reads as 0 |
| ConfigConsole.StrtoulNegative | components/src/config_console.c:557 | a minus sign negates modulo 2^32, so "-1" reads as the largest unsigned long |
| ConfigConsole.SetParamStr | components/src/config_console.c:546-598 | -1 without a setter call for an unknown name or a missing value; -2 for a number outside [min, max]; -3 for a word that is no boolean; otherwise 0 with the value handed to the setter |
| ConfigConsole.BooleanWords | components/src/config_console.c:578-588 | a boolean takes true/1/on/yes and false/0/off/no and nothing else, case included |
| ConfigConsole.GetParamStr | components/src/config_console.c:515-544 | -1 for an unknown name or an empty buffer; otherwise 0 and the current value rendered, cut to fit |
| ConfigConsole.SetWhatWasGot | components/src/config_console.c:515-598 | writing back what was read hands the setter the same value, whenever it lies in range and the buffer holds it whole |
| ConfigConsole.WpmEntry | components/src/config_console.c:430 | the wpm entry is a 16-bit number from 5 to 100 |
| ConfigConsole.SetWpm30 | test_host/test_config_console.c:33-38 | setting wpm to 30 hands 30 to the setter |
| ConfigConsole.SetWpm200 | test_host/test_config_console.c:40-44 | 200 words per minute is out of range |
| ConfigConsole.SetWpmMinusOne | components/src/config_console.c:554-560 | "-1" wraps to the largest unsigned long and is out of range too |
| ConfigConsole.StarAt | components/src/config_console.c:604 | the position of the first '*', or none |
| ConfigConsole.Prefix | components/src/config_console.c:616-628 | the prefix is what precedes the star, at most 63 characters, with one trailing '.' removed |
| ConfigConsole.SelectedBelowMembers | components/src/config_console.c:634-655 | the walk visits exactly the selected entries |
| ConfigConsole.SelectedBelowOrdered | components/src/config_console.c:634-655 | the walk visits each entry at most once, in table order |
| ConfigConsole.ExactWithoutStar | components/src/config_console.c:606-613 | without a star the pattern visits the one entry find_param resolves, or nothing |
| ConfigConsole.EmptyPrefixVisitsAll | components/src/config_console.c:638-640 | an empty prefix visits every entry in order |
| ConfigConsole.TrailingDotStripped | components/src/config_console.c:624-628 | a trailing '.' before the star is dropped from the prefix |
| ConfigConsole.StarAndDoubleStar | components/src/config_console.c:630-655 | "prefix.*" visits entries whose path starts with the prefix and has no further '.'; "prefix.**" every entry whose path starts with it |
| ConfigConsole.DirectChildOfFamily | components/src/config_console.c:645-651 | for a "family.name" path the '*' test with a family's name holds exactly for that family's entries |
| ConfigConsole.FamilyStar | components/src/config_console.c:600-656 | in a registry of "family.name" paths, "family.*" visits exactly that family's entries |
| ConfigConsole.Matches | components/src/config_console.c:638-653 | the per-entry test is the selection predicate |
| ConfigConsole.Walk | components/src/config_console.c:634-655 | the loop visits what SelectedBelow gives |
| ConfigConsole.ForeachMatching | components/src/config_console.c:600-656 | the visitor is called exactly on what the pattern selects, in table order |
| ConfigConsole.AliasPatternVisitsNothing | components/src/config_console.c:600-656 | as written, "hw.*" visits nothing, since no alias is expanded |
| ConfigConsole.RunToDot | components/keyer_console/src/commands.c:304 | the run before the first '.' holds no '.' |
| ConfigConsole.ExpandFamily | components/keyer_console/src/commands.c:304 | a leading family alias followed by a '.' is replaced by the family's name; a pattern without a '.' or without a known alias is kept |
| ConfigConsole.ShowVisits | components/keyer_console/src/commands.c:295-317 | `show` with no argument or an empty one shows every entry in table order, as the pattern "**" does; any other argument shows what its alias-expanded pattern visits |
| ConfigConsole.HwExpands | components/keyer_console/src/commands.c:304 | "hw.*" expands to "hardware.*" |
| ConfigConsole.AliasPatternShowsFamily | components/keyer_console/src/commands.c:304 | with the alias expanded, "hw.*" visits exactly the hardware entries |
| ConfigConsole.FamilyStarWalk | components/src/config_console.c:615-631 | "family.*" walks the registry non-recursively with the family's name as prefix |
| ConfigConsole.HwShowWalksHardware | components/keyer_console/src/commands.c:304 | `show hw.*` is the non-recursive walk under "hardware", in any registry |
| ConfigConsole.RegistryPathHeads | components/src/config_console.c:430-466 | in the registry, only the three hardware paths start with 'h', and no path has 'w' as its second character |
| ConfigConsole.HardwareSelected | components/src/config_console.c:441-443 | in the registry, the walk under "hardware" selects exactly gpio_dit, gpio_dah and gpio_tx (indices 10-12) |
| ConfigConsole.RegistryHardwareWalk | components/src/config_console.c:430-466 | in the registry, the walk under "hardware" visits indices 10, 11, 12 in that order |
| ConfigConsole.RegistryHwVisitsNothing | components/src/config_console.c:600-656 | as written, in the registry itself, "hw.*" visits no entry |
| ConfigConsole.RegistryShowsHardware | components/keyer_console/src/commands.c:295-317 | in the registry itself, `show hw.*` with the alias expanded shows entries 10, 11, 12, the three hardware parameters |
| LogStream.CopyLen | components/keyer_logging/src/log_stream.c:41 | a push keeps at most 120 message bytes: all of a shorter message, exactly 120 of a longer one |
| LogStream.Stored | components/keyer_logging/src/log_stream.c:37-43 | the stored entry has the timestamp and level pushed and the message's leading bytes, cut to 120 |
| LogStream.LevelStr | components/keyer_logging/src/log_stream.c:86-95 | the five level names for levels 0-4, "?????" for any other value |
| LogStream.Stream.constructor | components/keyer_logging/src/log_stream.c:10-11 | a statically initialised stream is empty with nothing dropped |
| LogStream.Stream.Init | components/keyer_logging/src/log_stream.c:13-18 | init empties the stream, zeroes the dropped count and clears every entry |
| LogStream.Stream.Push | components/keyer_logging/src/log_stream.c:20-49 | a stream holding 256 entries refuses the line and counts it as dropped (wrapping at 2^32); otherwise the cut entry is queued behind the others |
| LogStream.Stream.Publish | components/keyer_logging/src/log_stream.c:32-46 | the entry fills the next free slot and joins the queue when the write index advances |
| LogStream.Stream.Drain | components/keyer_logging/src/log_stream.c:51-70 | the oldest pending entry comes out; an empty stream answers false and leaves the output alone |
| LogStream.Stream.Dropped | components/keyer_logging/src/log_stream.c:72-74 | the dropped count |
| LogStream.Stream.HasEntries | components/keyer_logging/src/log_stream.c:76-80 | true exactly when an entry is pending |
| LogStream.Stream.ResetDropped | components/keyer_logging/src/log_stream.c:82-84 | the dropped count is zero and the queue is untouched |
| LogStream.Flood | components/keyer_logging/src/log_stream.c:20-49 | n pushes into a fresh stream: the first 256 are accepted and every later one is counted as dropped |
| LogStream.FirstInFirstOut | components/keyer_logging/src/log_stream.c:20-70 | two lines are drained in the order pushed, then the stream is empty |
| AudioBuffer.AfterPush | src/audio/buffer.rs:30-45 | the sample joins at the back; when N are held the oldest leaves |
| AudioBuffer.Pushes | src/audio/buffer.rs:30-45 | pushing any samples never holds more than N |
| AudioBuffer.PushesKeepNewest | src/audio/buffer.rs:30-45 | pushing keeps exactly the newest min(N, held + pushed) samples of everything pushed |
| AudioBuffer.AudioRingBuffer.constructor | src/audio/buffer.rs:19-28 | a new buffer has N zeroed slots, both indices 0 and nothing queued |
| AudioBuffer.AudioRingBuffer.Push | src/audio/buffer.rs:30-45 | the queue changes as AfterPush says; the read index advances exactly when the buffer was full |
| AudioBuffer.AudioRingBuffer.DropOldest | src/audio/buffer.rs:38-41 | on a full ring the read index moves past the oldest sample, which leaves the queue; the write index is kept |
| AudioBuffer.AudioRingBuffer.Append | src/audio/buffer.rs:43-44 | the sample goes into the slot after the newest and joins the back of the queue; the read index is kept |
| AudioBuffer.AudioRingBuffer.Pop | src/audio/buffer.rs:47-62 | the oldest sample comes out; none exactly when the buffer is empty |
| AudioBuffer.AudioRingBuffer.ReadInto | src/audio/buffer.rs:64-85 | the count is min(output length, samples held); the first count outputs are the oldest samples in order, the rest silence, and those samples leave the queue |
| AudioBuffer.AudioRingBuffer.Len | src/audio/buffer.rs:87-93 | the number of samples held, at most N |
| AudioBuffer.AudioRingBuffer.IsEmpty | src/audio/buffer.rs:95-99 | true exactly when nothing is held |
| AudioBuffer.AudioRingBuffer.Available | src/audio/buffer.rs:101-105 | the free room N - len, zero exactly when full |
| AudioBuffer.AudioRingBuffer.Clear | src/audio/buffer.rs:107-112 | the read index catches up with the write index and nothing is held |
| AudioBuffer.OverflowDropsOldest | tests/audio_buffer_tests.rs:52-69 | six pushes into a buffer of four keep 3, 4, 5, 6 |
| AudioBuffer.ReadIntoUnderrun | tests/audio_buffer_tests.rs:89-106 | two samples read into five slots: two read, three zeroed, the buffer empty |
| AudioBuffer.AvailableAfterTen | tests/audio_buffer_tests.rs:108-118 | an empty buffer of 64 has 64 free slots, and 54 after ten pushes |
| AudioPtt.TailUs | src/audio/ptt.rs:38 | the tail in microseconds is the milliseconds times 1000 |
| AudioPtt.SatSub | src/audio/ptt.rs:84 | the saturating difference is 0 when the clock went back |
| AudioPtt.Initial | src/audio/ptt.rs:35-42 | a new controller is Off with no audio seen and the tail set |
| AudioPtt.AfterAudio | src/audio/ptt.rs:64-71 | a sample turns PTT On and records its time |
| AudioPtt.AfterTick | src/audio/ptt.rs:81-90 | a tick turns PTT Off exactly when it is On with audio active and the time since the last sample has reached the tail; otherwise nothing changes |
| AudioPtt.WithTail | src/audio/ptt.rs:94-96 | only the tail changes |
| AudioPtt.ForcedOff | src/audio/ptt.rs:100-103 | PTT is Off at once, keeping the last-audio time |
| AudioPtt.AfterReset | src/audio/ptt.rs:107-111 | PTT is Off, with no audio seen and last-audio time 0, keeping the tail |
| AudioPtt.ResetIsInitial | src/audio/ptt.rs:35-111 | reset from any state gives the state a new controller with the same tail starts in |
| AudioPtt.TailAfterLastSample | src/audio/ptt.rs:64-90 | after a sample at t0, a tick at t turns PTT Off exactly when t - t0 has reached the tail; a clock that went back drops PTT only with a zero tail |
| AudioPtt.TickNeverTurnsOn | src/audio/ptt.rs:81-90 | a tick never turns PTT On |
| AudioPtt.StepsStayConsistent | src/audio/ptt.rs:19-28 | every operation keeps PTT On exactly while audio is active |
| AudioPtt.TailTimeout | tests/audio_ptt_tests.rs:39-58 | with a 100 ms tail PTT stays On 49 ms after the last sample and drops 101 ms after it |
| AudioPtt.TailRestarts | tests/audio_ptt_tests.rs:60-81 | a new sample restarts the tail |
| AudioPtt.PttController.constructor | src/audio/ptt.rs:35-42 | a new controller is in the initial state |
| AudioPtt.PttController.State | src/audio/ptt.rs:46-48 | the state is On exactly while audio is active |
| AudioPtt.PttController.IsOn | src/audio/ptt.rs:52-54 | true exactly when PTT is On |
| AudioPtt.PttController.AudioSample | src/audio/ptt.rs:64-71 | the controller changes as AfterAudio says |
| AudioPtt.PttController.Tick | src/audio/ptt.rs:81-90 | the controller changes as AfterTick says |
| AudioPtt.PttController.SetTailMs | src/audio/ptt.rs:94-96 | the controller changes as WithTail says |
| AudioPtt.PttController.ForceOff | src/audio/ptt.rs:100-103 | the controller changes as ForcedOff says |
| AudioPtt.PttController.Reset | src/audio/ptt.rs:107-111 | the controller changes as AfterReset says |
| AudioPtt.Reactivation | tests/audio_ptt_tests.rs:95-110 | PTT comes On with a sample, drops after the tail, and comes On again with the next sample |

## Left out

General:

- Concurrency is not modelled. Atomic loads and stores, their memory orderings, and races between producers and consumers on different cores are out of scope. Every structure is modelled with sequential semantics, one operation at a time.
- The ring slot `idx & (N - 1)` is written as `idx % N`, which is the same slot when N is a power of two. Every ring here requires a power-of-two N (all but the log ring and the history rings), or uses a fixed size of 256 (the log ring) or 10 (the C history).
- `size_t` and `usize` indices are modelled as 32-bit unsigned integers, as on the ESP32.
- Clocks (`esp_timer`, the CWNet time callback and the timestamps passed to `tick`) are parameters.
- Callbacks are recorded rather than called. The CWNet client's send, state-change and key-event callbacks, the WinKeyer parser's callbacks and the registry's setters and visitors each append to a log that the contracts describe.
- Pointers become values. A C string is its characters before the terminating NUL, and a NULL pointer is `None`.
- Hardware drivers, Wi-Fi, sockets, USB, tasks, NVS persistence and the generated configuration headers are not part of this model.
- The floating-point timing classifier and `decoder_process`, which reads `esp_timer`, are not part of this model. The decoder is modelled from its event handler on.
- These near-duplicate copies are not part of this model:
  - components/keyer_config/src/config_console.c
  - the Morse tables in winkeyer_morse.c and components/keyer_decoder/src/morse_table.c (the decoder is modelled against the table in components/keyer_morse/src/morse_table.c; both copies map "........" to '#')
  - the C audio ring and PTT
  - src/logging.rs
  - the Rust console line buffer, parser and completion

Streams and consumers:

- KeyingStreamC.EmptyPushesWriteNothing: test_host/test_stream.c:70-89 expects a lag of 10 after ten EMPTY pushes. The code compares each EMPTY sample with the EMPTY last sample of a new stream and compresses all ten, so the lag is 0. The model follows the code.
- ConsumerC.OverrunShadowedByLatency: in the C hard real-time consumer the latency check comes first, so with `max_lag < capacity` an overrun is always reported as LATENCY_EXCEEDED. This is modelled as written.
- The fault count survives `fault_clear`. test_fault.c:50-52 expects it to reset, and the model follows the code.

Iambic keyers and presets:

- IambicRs.DitDuration: requires a non-zero speed. At wpm = 0, `1_200_000 / self.wpm` (src/iambic.rs:95-97) panics, and IambicConfig::wpm is a public field nothing on the Rust side keeps non-zero. The model, and every step function that times an element, leaves that case out. The speeds that reach the keyer come from the registry, which bounds wpm to 5..100 (components/src/config_console.c:431), and from presets, whose setter stores only 5..100 (components/keyer_iambic/include/iambic_preset.h:256-260).
- IambicC.DitDuration: requires a non-zero speed. At wpm = 0, `iambic_dit_duration_us` (components/keyer_iambic/include/iambic.h:109-111) divides by zero, which is undefined behaviour in C. The model, and every step function that times an element, leaves that case out; the same registry and preset bounds keep wpm in 5..100.

- The Rust squeeze, Mode B and memory tests (src/iambic.rs:380-444 and src/iambic.rs:455-486) tick once at the end of element plus gap. At that tick `tick_sending` only ends the element and enters the gap with the key up, so test_memory's check that the key is down does not hold for the code. The code needs two ticks there, one that ends the element and one that ends the gap. IambicRs.ModeBBonus, IambicRs.SqueezeAlternatesCorrected and IambicRs.DitMemoryDuringDah take the two ticks the code needs (DitMemoryDuringDah: t1 at or after the dah's end, t2 at least one gap later).
- IambicPreset.ResetDiffersFromInit: `iambic_preset_reset` loads LATCH_ON, 60 and 99 where `iambic_preset_init` loads LATCH_OFF, 0 and 100. Both are modelled as written.

CWNet:

- CwnetPing.Timer.SyncToServer: `read_synced` reduces by 2^31 - 1 with C's truncating remainder. The read-back therefore equals the server time only when the server time lies strictly between -(2^31 - 1) and 2^31 - 1. The contract states exactly that range and no more.
- On NULL data or a zero length, `cwnet_client_on_data` returns before parsing. The model treats this as "no change".
- CwnetClient.IdentFrame: the corrected identification changes only the command (CONNECT) and the command byte. Its payload stays the username, as send_ident writes it; the 92-byte CONNECT payload that components/keyer_cwnet/include/cwnet_client.h:67-70 sizes (username, callsign, 4 more bytes) is not modelled.

Console history:

- ConsoleHistory.FivePushesAllKept: test_host/test_history.c:58-86 expects four entries after five pushes. CONSOLE_HISTORY_SIZE is 10 (components/keyer_console/include/console.h:23), so all five are kept. The model follows the code.
- HistoryRs.SplitCharacterNotRecalled: a line cut at 64 bytes can split a UTF-8 character. The stored bytes are then not valid UTF-8, and `get_prev`/`get_next` yield nothing for that entry. This is modelled as written.

Console parser:

- ConsoleParser.ParseLine: CONSOLE_MAX_ARGS is not defined in the headers modelled here. Its value of 3 is the one test_host/test_console_parser.c:56-65 relies on.

Parameter registry:

- ConfigConsole.SetWpm200: test_host/test_config_console.c:40-44 expects -4 for an out-of-range value, and components/src/config_console.c:565-567 returns -2. The model follows the code.
- ConfigConsole.SetParamStr: the parameter descriptions, the real getter and setter bodies, and `errno` after `strtoul` are not modelled. A value too large for `unsigned long` is read modulo 2^32.

## Findings

| source | as written | input that shows it | evidently intended | confidence | as-written member | corrected member |
|---|---|---|---|---|---|---|
| src/iambic.rs:246-254 | while any element is being sent or its gap is running, each pressed paddle arms its own memory, including the paddle of the element being sent | with dit memory on, squeeze both paddles through a dit: the dit memory is re-armed, so the next element is a dit again. At 20 WPM, a dit held to 60 ms and released at 90 ms is sent again at 121 ms | only the paddle opposite the element being sent arms memory, so a squeeze alternates (as src/iambic.rs:380-411 expects) and a single dit stops | not executed | IambicRs.SqueezeRepeatsDitAsWritten, IambicRs.SingleDitRepeatsAsWritten | IambicRs.SqueezeAlternatesCorrected, IambicRs.SingleDitStopsCorrected |
| components/keyer_iambic/src/iambic.c:166-179 | during the gap both paddles may arm memory | with dit memory enabled and the window open, a held squeeze re-arms the dit memory in the gap after its first dit, and a dit is sent again | the gap arms only the element opposite the last one, so a squeeze alternates dit, dah, dit (as test_host/test_iambic.c:188-254 expects) | not executed | IambicC.SqueezeRepeatsDitAsWritten | IambicC.SqueezeAlternatesCorrected |
| components/keyer_cwnet/src/cwnet_client.c:99-103 | the client writes the command byte as `(cmd << 2) \| category`, identifies with an IDENT command that cwnet_cmd_t does not define, and sends the PING response as a long block with its length high byte first; the frame parser reads category from bits 7-6, command from bits 5-0, and long lengths low byte first | a key-up event is parsed back as command 0x11 instead of CW_UP (0x14); a PING response is parsed as the payload-less command 0x0E; the first byte sent on connection is 0x61 where test_host/test_cwnet_client.c:193-194 expects 0x41, and byte 2 of the PING response is 0x10 where test_host/test_cwnet_client.c:260-261 expects the type 0x01 | `(category << 6) \| cmd` as components/keyer_cwnet/include/cwnet_client.h:50-57 documents, CONNECT as the identification command, and the PING response as a short block like the request, so every frame the client sends is parsed back whole and the host tests' bytes come out | not executed | CwnetClient.KeyUpMisreadAsWritten, CwnetClient.PingResponseMisreadAsWritten, CwnetClient.IdentOnConnectScenario, CwnetClient.PingResponseScenario | CwnetClient.CorrectedFramesDecode, CwnetClient.KeyEventRoundTrip, CwnetClient.IdentOnConnectScenario, CwnetClient.PingResponseScenario |
| components/src/config_console.c:600-656 | the pattern walk compares the prefix with family names only | `show hw.*`, which components/keyer_console/src/commands.c:304 documents, visits no parameter | a leading family alias stands for its family, so `hw.*` shows the hardware parameters | not executed | ConfigConsole.AliasPatternVisitsNothing, ConfigConsole.RegistryHwVisitsNothing | ConfigConsole.ShowVisits, ConfigConsole.AliasPatternShowsFamily, ConfigConsole.RegistryShowsHardware |
