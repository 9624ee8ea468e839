/**
 * The player of `src/lib_fixed.rs`: one output stream, configured mono at
 * 44100 Hz, is built up front with a callback that always reads from a
 * process-wide ring buffer. That buffer starts with capacity 0; each `open`
 * replaces it, on its first successful decode, with a fresh buffer sized
 * from that frame, and writes every successful decode into it.
 */
module PlayerFixed {
  import opened Samples
  import opened RingBuffers
  import opened Audio
  import opened Packets
  import opened Device
  import Sink
  import Feeder

  /** The process-wide `BUFFER`: a replaceable reference to the current ring
      buffer, shared by the stream's callback and the writer. */
  class SharedBuffer {
    var ring: RingBuffer

    ghost predicate Valid()
      reads this, ring
    {
      ring.Valid()
    }

    /** Its initial value, `SpscRb::new(0)`. */
    constructor ()
      ensures Valid() && fresh(ring)
      ensures ring.capacity == 0 && ring.contents == []
    {
      ring := new RingBuffer(0);
    }
  }

  /** `get_default_config`: one channel at 44100 Hz with the default buffer
      size, whatever the stream turns out to be. */
  function GetDefaultConfig(): StreamConfig
  {
    StreamConfig(1, 44100, DefaultBufferSize)
  }

  /** The device plays a decoded stream at its own channel count and rate
      only when that stream is 44100 Hz mono; any other stream is played
      with the wrong interleaving or at the wrong speed. */
  lemma DefaultConfigMatches(spec: SignalSpec)
    ensures GetDefaultConfig().channels == spec.channels && GetDefaultConfig().sampleRate == spec.rate
            <==> spec == SignalSpec(44100, 1)
  {
  }

  /** The stream `main` builds before any `open`: on the default
      configuration, not yet playing, its callback being `Callback`. */
  method MainStream() returns (stream: OutputStream)
    ensures fresh(stream)
    ensures stream.config == GetDefaultConfig() && !stream.playing
  {
    stream := new OutputStream(GetDefaultConfig());
  }

  /**
   * The data callback built in `main`: the shared output sink reading from
   * whatever buffer `BUFFER` holds at the time of the call. While that is
   * still the initial zero-capacity buffer, every destination comes out as
   * silence.
   */
  method Callback(shared: SharedBuffer, data: array<Sample>)
    requires shared.Valid()
    modifies shared.ring, data
    ensures shared.Valid()
    ensures data[..] == Sink.Rendered(old(shared.ring.contents), data.Length)
    ensures old(shared.ring.capacity) == 0 ==> data[..] == Silences(data.Length)
    ensures shared.ring.contents == old(shared.ring.contents)[Min(|old(shared.ring.contents)|, data.Length)..]
    ensures shared.ring.accepted == old(shared.ring.accepted)
  {
    Sink.Render(shared.ring, data);
    if shared.ring.capacity == 0 {
      Sink.EmptyFifoRendersSilence(data.Length);
    }
  }

  class CpalOutput {
    const config: StreamConfig
    /** `ring_buffer_writer`: the producer side of the buffer it was taken from. */
    var writer: RingBuffer
    /** Capacity of the interleaving sample buffer, in samples. */
    var sampleCapacity: nat
    /** Contents of the sample buffer: the last interleaved frame. */
    var samples: seq<Sample>

    ghost predicate Valid()
      reads this, writer
    {
      writer.Valid()
    }

    /** This output is the one `open` built for the run of frames `run`
        written so far: its writer is on the shared buffer, which was sized
        from the run's first frame and has been fed all of it. */
    ghost predicate Serves(shared: SharedBuffer, run: seq<AudioFrame>)
      reads this, writer, shared
    {
      run != []
      && Valid()
      && writer == shared.ring
      && sampleCapacity == run[0].capacity * run[0].spec.channels
      && writer.capacity == RingLen(run[0].spec)
      && writer.accepted == Submitted(run)
    }

    /** `CpalOutput::new()`: the default configuration, a writer on the
        current shared buffer and an empty sample buffer. */
    constructor (shared: SharedBuffer)
      requires shared.Valid()
      ensures Valid()
      ensures config == GetDefaultConfig()
      ensures writer == shared.ring
      ensures sampleCapacity == 0 && samples == []
    {
      config := GetDefaultConfig();
      writer := shared.ring;
      sampleCapacity := 0;
      samples := [];
    }

    /**
     * `update_buffers`: puts a fresh, empty ring buffer of `RingLen(spec)`
     * samples into `BUFFER` and re-takes the writer from it, and replaces the
     * sample buffer with one of `duration` frames. The old buffer is left as
     * it was and is no longer reachable: whatever it still held is dropped.
     */
    method UpdateBuffers(shared: SharedBuffer, spec: SignalSpec, duration: nat)
      modifies this, shared
      ensures Valid() && shared.Valid()
      ensures fresh(writer) && shared.ring == writer
      ensures writer.capacity == RingLen(spec) && writer.contents == []
      ensures writer.accepted == [] && writer.delivered == []
      ensures sampleCapacity == duration * spec.channels && samples == []
    {
      var ringLen := RingLen(spec);
      shared.ring := new RingBuffer(ringLen);
      writer := shared.ring;
      sampleCapacity := duration * spec.channels;
      samples := [];
    }

    /**
     * `write`: a frame of zero frames is ignored, touching neither the
     * sample buffer nor the ring. Otherwise the frame is interleaved into
     * the sample buffer and all of it is submitted to the ring, in order.
     */
    method Write(frame: AudioFrame, device: array<Sample>)
      requires Valid()
      requires Batch(frame) != [] ==> writer.capacity > 0 && device.Length > 0
      modifies this, writer, device
      ensures Valid() && writer == old(writer) && sampleCapacity == old(sampleCapacity)
      ensures writer.accepted == old(writer.accepted) + Batch(frame)
      ensures old(writer.delivered) <= writer.delivered
      ensures frame.frames == 0 ==> unchanged(this) && unchanged(writer) && unchanged(device)
      ensures frame.frames > 0 ==> samples == frame.samples
    {
      if frame.frames == 0 {
        return;
      }
      samples := frame.samples;
      Feeder.WriteAll(writer, samples, device);
    }
  }

  /**
   * One turn of `open`'s loop once `next_packet` has produced `packet`:
   * a packet of another track is skipped; a decode error is reported
   * (`warnings` is 1); a decoded frame, if there is no output yet, builds
   * one and swaps in a shared buffer sized from the frame, and is then
   * written. `run` is the frames written before this packet.
   */
  method HandlePacket(output: CpalOutput?, packet: PacketResult, track: nat, shared: SharedBuffer, device: array<Sample>, ghost run: seq<AudioFrame>)
      returns (out: CpalOutput?, warnings: nat)
    requires packet.Packet?
    requires shared.Valid()
    requires (output == null) == (run == [])
    requires output != null ==> output.Serves(shared, run)
    requires device.Length > 0
    requires Submitted(FrameOf(packet, track)) != [] ==> RingLen((run + FrameOf(packet, track))[0].spec) > 0
    modifies device, shared, output, if output != null then {output.writer} else {}
    ensures shared.Valid()
    ensures warnings == WarningOf(packet, track)
    ensures (out == null) == (run + FrameOf(packet, track) == [])
    ensures out != null ==> out.Serves(shared, run + FrameOf(packet, track))
    ensures output != null ==> out == output
    ensures out == output ==> shared.ring == old(shared.ring)
    ensures output == null && out != null ==> fresh(out) && fresh(out.writer)
  {
    out, warnings := output, 0;
    if packet.trackId != track {
      assert run + FrameOf(packet, track) == run;
      return;
    }
    match packet.decode
    case DecodeError =>
      assert run + FrameOf(packet, track) == run;
      warnings := 1;
    case Decoded(frame) =>
      if out == null {
        out := new CpalOutput(shared);
        out.UpdateBuffers(shared, frame.spec, frame.capacity);
      }
      SubmittedAppend(run, [frame]);
      assert Submitted([frame]) == Batch(frame);
      out.Write(frame, device);
  }

  /**
   * `open`'s loop over the stream's packets for the default track `track`,
   * against the stream `main` built on the default configuration. It stops
   * at the first `next_packet` error, skips other tracks' packets, reports
   * decode errors (`warnings`) and goes on; on the first successful decode only it builds the output
   * and replaces the shared buffer with one sized from that frame; it writes
   * every successful decode. Afterwards it pauses the stream, whether or not
   * anything decoded. The buffer that was shared before the call is never
   * read or written by it.
   */
  method Open(packets: seq<PacketResult>, track: nat, shared: SharedBuffer, stream: OutputStream, device: array<Sample>)
      returns (warnings: nat, ghost written: seq<AudioFrame>)
    requires shared.Valid()
    requires stream.config == GetDefaultConfig()
    requires device.Length > 0
    requires CanDrain(packets, track)
    modifies shared, stream, device
    ensures shared.Valid()
    ensures written == Delivered(packets, track)
    ensures warnings == Warnings(packets, track)
    ensures unchanged(old(shared.ring))
    ensures written == [] ==> shared.ring == old(shared.ring)
    ensures written != [] ==>
      fresh(shared.ring)
      && shared.ring.capacity == RingLen(written[0].spec)
      && shared.ring.accepted == Submitted(written)
    ensures !stream.playing
  {
    ghost var previous := shared.ring;
    var output: CpalOutput? := null;
    var i := 0;
    warnings, written := 0, [];
    while true
      invariant i <= |packets|
      invariant shared.Valid()
      invariant written + Delivered(packets[i..], track) == Delivered(packets, track)
      invariant warnings + Warnings(packets[i..], track) == Warnings(packets, track)
      invariant (output == null) == (written == [])
      invariant output == null ==> shared.ring == previous
      invariant output != null ==> fresh(output) && fresh(output.writer) && output.Serves(shared, written)
      decreases |packets| - i
    {
      var packet := NextPacket(packets, i);
      if packet.ReadError? {
        break;
      }
      Advance(packets, i, track, written, warnings);
      var next, warned := HandlePacket(output, packet, track, shared, device, written);
      output, warnings, written := next, warnings + warned, written + FrameOf(packet, track);
      i := i + 1;
    }
    assert Delivered(packets[i..], track) == [];
    stream.Pause();
  }
}
