/**
 * The stream descriptor of decoded audio, the ring-buffer sizing rule both
 * variants share, and decoded frames as the decode loop sees them.
 */
module Audio {
  import opened Samples

  /** A `u32`, the type of a signal's sample rate. */
  type U32 = x: nat | x < 0x1_0000_0000

  /** The channel count of a signal: the number of bits set in a 32-bit
      channel mask, so at most 32. */
  type ChannelCount = c: nat | c <= 32

  /** A decoded signal's rate (Hz) and channel count. */
  datatype SignalSpec = SignalSpec(rate: U32, channels: ChannelCount)

  /** The latency the ring buffer is sized for, in milliseconds. */
  const LatencyMs: nat := 200

  /** Whole frames (one sample per channel) that fit in `LatencyMs` of audio
      at `rate`: the floor of `LatencyMs * rate / 1000`. */
  function LatencyFrames(rate: nat): (f: nat)
    ensures f * 1000 <= LatencyMs * rate < f * 1000 + 1000
  {
    (LatencyMs * rate) / 1000
  }

  /** `ring_len`, the ring buffer's capacity in samples: whole frames for
      `LatencyMs` of audio, times the channel count. The ring never holds
      more than `LatencyMs` of audio, and falls short of it by less than one
      frame (one sample per channel). */
  function RingLen(spec: SignalSpec): (r: nat)
    ensures r * 1000 <= LatencyMs * spec.rate * spec.channels
    ensures spec.channels > 0 ==> LatencyMs * spec.rate * spec.channels < (r + spec.channels) * 1000
  {
    var f := LatencyFrames(spec.rate);
    ScaledBounds(f, LatencyMs * spec.rate, spec.channels);
    f * spec.channels
  }

  /** Bounds `f * 1000 <= x < f * 1000 + 1000` on a quotient survive scaling
      by `c`, up to `c` thousandths. */
  lemma ScaledBounds(f: nat, x: nat, c: nat)
    requires f * 1000 <= x < f * 1000 + 1000
    ensures f * c * 1000 <= x * c
    ensures c > 0 ==> x * c < (f * c + c) * 1000
  {
    MulMonotone(f * 1000, x, c);
    if c > 0 {
      MulStrict(x, f * 1000 + 1000, c);
      assert (f * 1000 + 1000) * c == (f * c + c) * 1000;
    }
  }

  lemma MulMonotone(a: nat, b: nat, c: nat)
    requires a <= b
    ensures a * c <= b * c
  {
  }

  lemma MulStrict(a: nat, b: nat, c: nat)
    requires a < b && c > 0
    ensures a * c < b * c
  {
  }

  /** The capacities the sizing rule gives for common formats. */
  lemma RingLenExamples()
    ensures RingLen(SignalSpec(44100, 2)) == 17640
    ensures RingLen(SignalSpec(48000, 1)) == 9600
    ensures RingLen(SignalSpec(22050, 2)) == 8820
    ensures RingLen(SignalSpec(8000, 1)) == 1600
  {
  }

  /** The ring has room for something exactly when the rate is at least 5 Hz
      and there is at least one channel; otherwise its capacity is zero. */
  lemma RingLenPositive(spec: SignalSpec)
    ensures RingLen(spec) > 0 <==> spec.rate >= 5 && spec.channels > 0
  {
    var f := LatencyFrames(spec.rate);
    assert f > 0 <==> spec.rate >= 5;
  }

  /** At rates that are a multiple of 5 Hz the floor division loses nothing:
      the ring holds exactly `LatencyMs` of audio. */
  lemma RingLenExact(spec: SignalSpec)
    requires spec.rate % 5 == 0
    ensures RingLen(spec) * 1000 == LatencyMs * spec.rate * spec.channels
  {
    var m := spec.rate / 5;
    assert LatencyMs * spec.rate == 1000 * m;
    assert LatencyFrames(spec.rate) == m;
  }

  /** With a 64-bit `usize` neither `200 * rate` nor `ring_len` can wrap. */
  lemma RingLenFits64(spec: SignalSpec)
    ensures LatencyMs * spec.rate < 0x1_0000_0000_0000_0000
    ensures RingLen(spec) < 0x1_0000_0000_0000_0000
  {
    var f := LatencyFrames(spec.rate);
    MulMonotone(spec.channels, 32, f);
    assert f * spec.channels <= f * 32;
  }

  /** With a 32-bit `usize`, rates up to 21474836 Hz keep both `200 * rate`
      and `ring_len` within 32 bits. */
  lemma RingLenFits32(spec: SignalSpec)
    requires spec.rate <= 21474836
    ensures LatencyMs * spec.rate < 0x1_0000_0000
    ensures RingLen(spec) < 0x1_0000_0000
  {
    var f := LatencyFrames(spec.rate);
    MulMonotone(spec.channels, 32, f);
    assert f * spec.channels <= f * 32;
  }

  /**
   * A successfully decoded audio buffer: its signal spec, its capacity in
   * frames (what the sample buffer is sized from), the number of frames it
   * holds, and its samples already interleaved (what `copy_interleaved_ref`
   * puts in the sample buffer).
   */
  datatype AudioFrame = AudioFrame(spec: SignalSpec, capacity: nat, frames: nat, samples: seq<Sample>)

  /** What `write` submits to the ring buffer for one frame: nothing for a
      frame of zero frames, its interleaved samples otherwise. */
  function Batch(f: AudioFrame): seq<Sample>
  {
    if f.frames == 0 then [] else f.samples
  }

  /** Everything submitted for a run of frames, in order. */
  function Submitted(fs: seq<AudioFrame>): seq<Sample>
  {
    if fs == [] then [] else Batch(fs[0]) + Submitted(fs[1..])
  }

  lemma {:induction false} SubmittedAppend(a: seq<AudioFrame>, b: seq<AudioFrame>)
    ensures Submitted(a + b) == Submitted(a) + Submitted(b)
  {
    if a == [] {
      assert a + b == b;
    } else {
      assert (a + b)[0] == a[0];
      assert (a + b)[1..] == a[1..] + b;
      SubmittedAppend(a[1..], b);
    }
  }

  /** A frame with zero frames changes nothing about what reaches the ring. */
  lemma ZeroFrameNoOp(a: seq<AudioFrame>, f: AudioFrame, b: seq<AudioFrame>)
    requires f.frames == 0
    ensures Submitted(a + [f] + b) == Submitted(a + b)
  {
    SubmittedAppend(a + [f], b);
    SubmittedAppend(a, [f]);
    SubmittedAppend(a, b);
  }
}
