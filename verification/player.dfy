/**
 * The player of `src/lib.rs`: each `open` builds its own output (device
 * stream, ring buffer, sample buffer) on the first successful decode, sized
 * from that frame, and writes every successfully decoded frame into it.
 */
module Player {
  import opened Samples
  import opened RingBuffers
  import opened Audio
  import opened Packets
  import opened Device
  import Sink
  import Feeder

  /** `get_config`: the device is configured with the decoded signal's channel
      count (cast to `u16`) and sample rate, and the default buffer size. */
  function GetConfig(spec: SignalSpec): (config: StreamConfig)
    ensures config.channels == spec.channels
    ensures config.sampleRate == spec.rate
    ensures config.bufferSize == DefaultBufferSize
  {
    StreamConfig(spec.channels % 0x1_0000, spec.rate, DefaultBufferSize)
  }

  class CpalOutput {
    const config: StreamConfig
    const spec: SignalSpec
    const stream: OutputStream
    /** Producer side of the ring buffer; the stream's callback holds the
        consumer side of the same buffer. */
    const writer: RingBuffer
    /** Capacity of the interleaving sample buffer, in samples. */
    const sampleCapacity: nat
    /** Contents of the sample buffer: the last interleaved frame. */
    var samples: seq<Sample>

    ghost predicate Valid()
      reads this, writer
    {
      writer.Valid()
    }

    /** This output is the one `open` built for the run of frames `run`
        written so far: its device configured and its buffers sized from the
        run's first frame, and fed all of it. */
    ghost predicate Serves(run: seq<AudioFrame>)
      reads this, writer
    {
      run != []
      && Valid()
      && spec == run[0].spec
      && config == GetConfig(spec) && stream.config == config
      && sampleCapacity == run[0].capacity * run[0].spec.channels
      && writer.capacity == RingLen(run[0].spec)
      && writer.accepted == Submitted(run)
    }

    /**
     * `CpalOutput::new(spec, duration)`: configures the device from `spec`,
     * creates an empty ring buffer of `RingLen(spec)` samples and a sample
     * buffer of `duration` frames, builds the stream and starts it.
     */
    constructor (spec: SignalSpec, duration: nat)
      ensures Valid()
      ensures fresh(writer) && fresh(stream)
      ensures this.spec == spec && config == GetConfig(spec) && stream.config == config
      ensures writer.capacity == RingLen(spec) && writer.contents == []
      ensures writer.accepted == [] && writer.delivered == []
      ensures sampleCapacity == duration * spec.channels && samples == []
      ensures stream.playing
    {
      var config := GetConfig(spec);
      var rb := new RingBuffer(RingLen(spec));
      var stream := new OutputStream(config);
      this.config := config;
      this.spec := spec;
      this.writer := rb;
      this.sampleCapacity := duration * spec.channels;
      this.samples := [];
      this.stream := stream;
      new;
      stream.Play();
    }

    /** The stream's data callback: the shared output sink reading from this
        output's ring buffer. */
    method Callback(data: array<Sample>)
      requires Valid()
      modifies writer, data
      ensures Valid()
      ensures data[..] == Sink.Rendered(old(writer.contents), data.Length)
      ensures writer.contents == old(writer.contents)[Min(|old(writer.contents)|, data.Length)..]
      ensures writer.accepted == old(writer.accepted)
    {
      Sink.Render(writer, data);
    }

    /**
     * `write`: a frame of zero frames is ignored, touching neither the
     * sample buffer nor the ring. Otherwise the frame is interleaved into
     * the sample buffer and all of it is submitted to the ring, in order.
     */
    method Write(frame: AudioFrame, device: array<Sample>)
      requires Valid()
      requires Batch(frame) != [] ==> writer.capacity > 0 && device.Length > 0
      modifies this, writer, device
      ensures Valid()
      ensures writer.accepted == old(writer.accepted) + Batch(frame)
      ensures old(writer.delivered) <= writer.delivered
      ensures frame.frames == 0 ==> unchanged(this) && unchanged(writer) && unchanged(device)
      ensures frame.frames > 0 ==> samples == frame.samples
    {
      if frame.frames == 0 {
        return;
      }
      samples := frame.samples;
      Feeder.WriteAll(writer, samples, device);
    }
  }

  /**
   * One turn of `open`'s loop once `next_packet` has produced `packet`:
   * a packet of another track is skipped; a decode error is reported
   * (`warnings` is 1); a decoded frame builds the output from its spec and
   * capacity if there is none yet, and is written to it. `run` is the frames
   * written before this packet, `grown` those written after it.
   */
  method HandlePacket(output: CpalOutput?, packet: PacketResult, track: nat, device: array<Sample>,
                      ghost run: seq<AudioFrame>, ghost grown: seq<AudioFrame>)
      returns (out: CpalOutput?, warnings: nat)
    requires packet.Packet?
    requires grown == run + FrameOf(packet, track)
    requires (output == null) == (run == [])
    requires output != null ==> output.Serves(run) && output.stream.playing
    requires device.Length > 0
    requires Submitted(FrameOf(packet, track)) != [] ==> RingLen(grown[0].spec) > 0
    modifies device, output, if output != null then {output.writer} else {}
    ensures warnings == WarningOf(packet, track)
    ensures (out == null) == (grown == [])
    ensures out != null ==> out.Serves(grown) && out.stream.playing
    ensures output != null ==> out == output
    ensures output == null && out != null ==> fresh(out) && fresh(out.writer) && fresh(out.stream)
  {
    out, warnings := output, 0;
    if packet.trackId != track {
      assert run + FrameOf(packet, track) == run;
      return;
    }
    match packet.decode
    case DecodeError =>
      assert run + FrameOf(packet, track) == run;
      warnings := 1;
    case Decoded(frame) =>
      if out == null {
        out := new CpalOutput(frame.spec, frame.capacity);
      }
      SubmittedAppend(run, [frame]);
      assert Submitted([frame]) == Batch(frame);
      out.Write(frame, device);
  }

  /**
   * `open`'s loop over the stream's packets for the default track `track`.
   * It stops at the first `next_packet` error, skips other tracks' packets,
   * reports decode errors (`warnings`) and goes on, builds the output once
   * on the first successful decode, from that frame's spec and capacity, and
   * writes every successful decode. `written` logs the frames passed to
   * `write`; the output is the one built on the first decode, never rebuilt,
   * and still playing.
   */
  method DecodeLoop(packets: seq<PacketResult>, track: nat, device: array<Sample>)
      returns (output: CpalOutput?, warnings: nat, ghost written: seq<AudioFrame>)
    requires device.Length > 0
    requires CanDrain(packets, track)
    modifies device
    ensures written == Delivered(packets, track)
    ensures warnings == Warnings(packets, track)
    ensures (output == null) == (written == [])
    ensures output != null ==>
      fresh(output) && fresh(output.writer) && fresh(output.stream)
      && output.Serves(written) && output.stream.playing
  {
    output := null;
    var i := 0;
    warnings, written := 0, [];
    while true
      invariant i <= |packets|
      invariant written + Delivered(packets[i..], track) == Delivered(packets, track)
      invariant warnings + Warnings(packets[i..], track) == Warnings(packets, track)
      invariant (output == null) == (written == [])
      invariant output != null ==>
        fresh(output) && fresh(output.writer) && fresh(output.stream)
        && output.Serves(written) && output.stream.playing
      decreases |packets| - i
    {
      var packet := NextPacket(packets, i);
      if packet.ReadError? {
        break;
      }
      Advance(packets, i, track, written, warnings);
      ghost var grown := written + FrameOf(packet, track);
      var next, warned := HandlePacket(output, packet, track, device, written, grown);
      output, warnings, written := next, warnings + warned, grown;
      i := i + 1;
    }
    assert Delivered(packets[i..], track) == [];
  }

  /** How `open` ends: the output's stream paused, or a panic when no frame
      ever decoded and there is no output to pause. */
  datatype Ending = Paused(output: CpalOutput) | Panicked

  /**
   * `open`: the decode loop, then `cpal_output.unwrap().stream.pause()`. It
   * pauses the stream of the output built from the first decoded frame, and
   * panics exactly when nothing was written and there is no output.
   */
  method Open(packets: seq<PacketResult>, track: nat, device: array<Sample>)
      returns (ending: Ending, warnings: nat, ghost written: seq<AudioFrame>)
    requires device.Length > 0
    requires CanDrain(packets, track)
    modifies device
    ensures written == Delivered(packets, track)
    ensures warnings == Warnings(packets, track)
    ensures ending.Panicked? <==> written == []
    ensures ending.Paused? ==>
      fresh(ending.output) && fresh(ending.output.writer) && fresh(ending.output.stream)
      && ending.output.Serves(written) && !ending.output.stream.playing
  {
    var output;
    output, warnings, written := DecodeLoop(packets, track, device);
    if output == null {
      return Panicked, warnings, written;
    }
    output.stream.Pause();
    return Paused(output), warnings, written;
  }
}
