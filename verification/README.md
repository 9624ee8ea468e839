# cpal_android_test, modelled in Dafny

The repository is a small audio-streaming demo in two variants:
`src/lib.rs` and `src/lib_fixed.rs`. Each variant decodes a compressed
audio stream packet by packet and interleaves each decoded frame. It pushes
the samples into a single-producer/single-consumer ring buffer. The audio
device's real-time callback drains that buffer, and fills with silence
whatever the buffer cannot supply.

This project models the logic the repository owns:

- the ring-buffer sizing rule `((200 * rate) / 1000) * channels`
  (`Audio.RingLen`);
- the output callback (`Sink.Render`);
- the `write_blocking` loop that submits one interleaved frame
  (`Feeder.WriteAll`);
- the packet/decode loop of `open` (`Packets.Delivered` and
  `Packets.Warnings` specify it; `Player.Open` and `PlayerFixed.Open` run
  it);
- in `src/lib_fixed.rs`, the process-wide buffer that starts with capacity 0
  and is replaced by `update_buffers`.

The `rb` ring buffer itself is external code. It is modelled by
`RingBuffers.RingBuffer`, a bounded FIFO class. Two ghost logs record every
sample that went in and every sample that came out. Its invariant
`delivered + contents == accepted` says that samples leave in the order they
were written, with none lost and none duplicated.

Decoding is external code too. Each packet result carries the outcome its
decode will have, and a decoded frame carries its samples already
interleaved. A sample is an opaque 32-bit pattern, and `Silence` is the
pattern of `0.0f32`.

Facts about the code that the model keeps:

- The ring is sized by floor division (`Audio.LatencyFrames`);
  `Audio.RingLenExact` shows the division is exact when the rate is a
  multiple of 5 Hz.
- The output is built on the first successful decode, even of a frame that
  holds zero frames.
- `open` in `src/lib.rs` panics on `unwrap` when nothing decoded;
  `Player.Open` returns `Panicked` exactly then.
- `src/lib_fixed.rs` always configures the device mono at 44100 Hz,
  whatever the decoded stream is (`PlayerFixed.DefaultConfigMatches`).

## Model

| member | source | states |
|---|---|---|
| `RingBuffers.RingBuffer.constructor` | src/lib.rs:110 | `SpscRb::new(size)` is an empty FIFO of capacity `size` whose logs are empty |
| `RingBuffers.RingBuffer.Read` | src/lib.rs:119 | a non-blocking read fails exactly when the FIFO is empty, and then changes nothing; otherwise it moves `min(len, count)` samples from the front into the front of the destination, leaves the rest of the destination alone and logs them as delivered |
| `RingBuffers.RingBuffer.WriteBlocking` | src/lib.rs:154 | returns `None` exactly on an empty slice, and then changes nothing; otherwise it waits (consumer reads) until there is room and appends a non-empty prefix of the slice that is the whole slice unless the ring is now full; the accepted log grows by exactly that prefix and the FIFO ends with it |
| `Samples.Min` | src/lib.rs:119 | the number of samples one read moves is at most what is buffered and what is requested, and equals one of them |
| `Sink.RenderedAt` | src/lib.rs:119-120 | after the callback, slot `i` holds the FIFO's `i`-th sample if the FIFO had one, and silence otherwise |
| `Sink.EmptyFifoRendersSilence` | src/lib.rs:119-120 | a read that fails (empty FIFO) counts as 0 samples, so the whole destination becomes silence |
| `Sink.RenderedThenRemaining` | src/lib.rs:119-120 | what the callback rendered, followed by what it left in the FIFO, is exactly the FIFO's previous contents |
| `Sink.RenderedFromParts` | src/lib.rs:119-120 | a destination holding the FIFO's front in its first `written` slots and silence after them is exactly what the callback renders |
| `Sink.SilenceFrom` | src/lib.rs:120 | the zero-fill makes every slot from `written` on silence and leaves the slots before it alone |
| `Sink.Render` | src/lib.rs:118-121 | the destination ends as the FIFO's front followed by silence, the FIFO loses exactly the samples it gave, which are logged as delivered, and nothing is accepted |
| `Audio.LatencyFrames` | src/lib.rs:109 | the frame count is the floor of `200 * rate / 1000` |
| `Audio.RingLen` | src/lib.rs:108-110 | `ring_len` never holds more than 200 ms of audio, and falls short of it by less than one sample per channel |
| `Audio.RingLenExamples` | src/lib.rs:109 | 44100 Hz stereo gives 17640 samples, 48000 Hz mono 9600, 22050 Hz stereo 8820, 8000 Hz mono 1600 |
| `Audio.RingLenPositive` | src/lib.rs:109 | the ring has room for a sample exactly when the rate is at least 5 Hz and there is at least one channel |
| `Audio.RingLenExact` | src/lib.rs:109 | at rates that are a multiple of 5 Hz the floor division loses nothing |
| `Audio.RingLenFits64` | src/lib.rs:109 | with a 64-bit `usize`, neither `200 * rate` nor the ring length can overflow |
| `Audio.RingLenFits32` | src/lib.rs:109 | with a 32-bit `usize`, rates up to 21474836 Hz keep both within 32 bits |
| `Audio.SubmittedAppend` | src/lib.rs:68 | writing two runs of frames in turn submits their batches concatenated, in order |
| `Audio.ZeroFrameNoOp` | src/lib.rs:147 | a zero-frame frame anywhere in a run changes nothing that reaches the ring |
| `Feeder.WriteAll` | src/lib.rs:151-157 | the loop that advances past each `write_blocking` count until `None` ends, and the ring has accepted exactly the whole batch, in order |
| `Packets.Advance` | src/lib.rs:46-71 | one turn of the loop adds the packet's frame and warning, if any, to what came before; whatever that frame submits finds a ring with room, sized from the run's first frame |
| `Packets.DeliveredSplit` | src/lib.rs:46-71 | a prefix of packets with no read error contributes its own frames and warnings, and the loop carries on with the rest |
| `Packets.ReadErrorEndsLoop` | src/lib.rs:49-53 | the loop ends at the first `next_packet` error: nothing after it is written or reported |
| `Packets.ForeignPacketSkipped` | src/lib.rs:55 | a packet of another track changes neither the frames written nor the warnings |
| `Packets.DecodeErrorSkipped` | src/lib.rs:57-59 | a decode error writes nothing, adds one warning, and the loop goes on |
| `Packets.DecodedFrameWritten` | src/lib.rs:60-68 | every successful decode of the default track before the first read error is written, in stream order |
| `Packets.NothingDelivered` | src/lib.rs:73 | nothing is written (so `src/lib.rs` panics on `unwrap`) exactly when no packet of the default track before the first read error decodes |
| `Packets.TransientErrorRecovery` | src/lib.rs:46-71 | of five packets whose third fails to decode, the other four are written in order and one warning is reported |
| `Device.OutputStream.constructor` | src/lib.rs:116-125 | a stream built with a configuration keeps it and is not yet playing |
| `Device.OutputStream.Play` | src/lib.rs:131 | `play` starts the stream |
| `Device.OutputStream.Pause` | src/lib.rs:73 | `pause` stops the stream |
| `Player.GetConfig` | src/lib.rs:87-100 | the device is configured with the decoded stream's channel count (the `u16` cast loses nothing) and sample rate, and the default buffer size |
| `Player.CpalOutput.constructor` | src/lib.rs:104-142 | `CpalOutput::new(spec, duration)` configures from `spec`, creates a fresh empty ring of `RingLen(spec)` samples and a sample buffer of `duration` frames, and starts its stream |
| `Player.CpalOutput.Callback` | src/lib.rs:118-121 | the stream's callback renders from this output's own ring |
| `Player.CpalOutput.Write` | src/lib.rs:145-158 | a zero-frame frame leaves the output, the ring and the device untouched; any other frame fills the sample buffer and its whole batch is accepted by the ring, in order |
| `Player.HandlePacket` | src/lib.rs:55-69 | one turn of the loop: a foreign packet is skipped, a decode error reports one warning, a decode builds the output only if there is none (never replacing one) and is written to it |
| `Player.DecodeLoop` | src/lib.rs:44-71 | the frames written are exactly `Delivered` and the warnings `Warnings`; there is an output exactly when something was written, and it is the one built from the first decoded frame (device configuration, ring and sample buffer), fed every written frame and still playing |
| `Player.Open` | src/lib.rs:44-73 | the frames written are exactly `Delivered` and the warnings `Warnings`; the output's device configuration, ring and sample buffer were all derived from the first decoded frame, it has been fed every written frame, and its stream is paused; `open` panics exactly when nothing was written |
| `PlayerFixed.SharedBuffer.constructor` | src/lib_fixed.rs:10-13 | the global buffer starts empty with capacity 0 |
| `PlayerFixed.DefaultConfigMatches` | src/lib_fixed.rs:114-117 | the device configuration (mono, 44100 Hz) has the decoded stream's channel count and rate exactly when that stream is 44100 Hz mono |
| `PlayerFixed.MainStream` | src/lib_fixed.rs:27-38 | `main` builds one stream on the default configuration, not yet playing |
| `PlayerFixed.Callback` | src/lib_fixed.rs:30-34 | the callback renders from whatever buffer is shared at the time; while that is the initial zero-capacity buffer, every destination is all silence |
| `PlayerFixed.CpalOutput.constructor` | src/lib_fixed.rs:136-149 | `CpalOutput::new()` takes the writer from the current shared buffer, with the default configuration and an empty sample buffer |
| `PlayerFixed.CpalOutput.UpdateBuffers` | src/lib_fixed.rs:124-132 | a fresh, empty ring of `RingLen(spec)` samples becomes the shared buffer and the writer's buffer, and the sample buffer is resized to `duration` frames |
| `PlayerFixed.CpalOutput.Write` | src/lib_fixed.rs:152-165 | as in `src/lib.rs`, and the writer stays on the same buffer |
| `PlayerFixed.HandlePacket` | src/lib_fixed.rs:75-91 | one turn of the loop; only the first decode builds an output and swaps the shared buffer, later ones leave the shared buffer as it is |
| `PlayerFixed.Open` | src/lib_fixed.rs:47-95 | on the stream built on the default configuration, the frames written are exactly `Delivered` and the warnings `Warnings`; the buffer shared before the call is never touched; if anything was written the shared buffer is a fresh one sized from the first decoded frame that has accepted every written frame, otherwise it is the old one; the stream is paused either way |

## Left out

- The HTTP download in `main` (`reqwest`) is network I/O; the stream of packet results is a parameter.
- Symphonia's probing, codec construction, `decode` and `copy_interleaved_ref` are external code. A decoded frame arrives already interleaved, and its decode outcome is part of the packet. The panics of `get_probe().format`, `default_track().unwrap()` and `make(...).unwrap()` are not modelled.
- The format reader is external code: the packet results `next_packet` returns are a sequence (`Packets.NextPacket`), and reading past its end is a read error.
- The sample buffer's capacity is recorded (`sampleCapacity`), but the panic of `copy_interleaved_ref` on a frame larger than it is not modelled.
- The content of a decode-error warning (`println!`) is not modelled; only the count of warnings is.
- The cpal host and device lookup, `build_output_stream`, and the panics in the stream's error callback are driver I/O. A stream is a configuration and a playing flag.
- The `_device` field of both variants, and the `_spec` field of `src/lib_fixed.rs`, are stored and never read; they are left out. The `_config` of both variants and the `_spec` of `src/lib.rs` are kept as `config` and `spec`.
- The lock-free internals of `rb::SpscRb`, the `RwLock` around `BUFFER` and the real-time callback thread are concurrency. The model is sequential: `WriteBlocking` waits by letting the consumer read into the device buffer until a slot is free. The silence the callback would render while the producer waits is not recorded.
- The endless `loop { open(...) }` in both `main` functions is process policy and is not modelled. So is the `stream.play()` that `src/lib_fixed.rs` issues before each `open`.
- `f32` sample values are 32-bit patterns; no arithmetic is done on them.
- `usize` is unbounded in the model; `Audio.RingLenFits64` and `Audio.RingLenFits32` show when the sizing cannot wrap.
- RingBuffers.RingBuffer.WriteBlocking: requires a ring of non-zero capacity and a non-empty device buffer when the slice is non-empty. In the source such a call waits forever.
- Feeder.WriteAll: requires the same of a non-empty batch, for the same reason.
- Player.CpalOutput.Write: requires the same of a frame that submits samples, for the same reason.
- PlayerFixed.CpalOutput.Write: requires the same of a frame that submits samples, for the same reason.
- Player.HandlePacket: requires that a frame which submits samples goes to a ring of non-zero capacity, for the same reason.
- PlayerFixed.HandlePacket: requires that a frame which submits samples goes to a ring of non-zero capacity, for the same reason.
- Player.DecodeLoop: requires `CanDrain` and a non-empty device buffer, for the same reason as `Player.Open`.
- Player.Open: requires `CanDrain` (if the run submits anything, its first frame's spec gives a ring of non-zero capacity, which `Audio.RingLenPositive` characterises) and a non-empty device buffer. Without them the source waits forever in `write_blocking`.
- PlayerFixed.Open: requires `CanDrain` and a non-empty device buffer, for the same reason.
