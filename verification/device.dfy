/**
 * The audio device side as the player sees it: the configuration an output
 * stream is built with, and the stream's play/pause state. Device lookup and
 * the driver itself are not part of this model.
 */
module Device {

  /** `cpal::BufferSize`; the player only ever asks for the default. */
  datatype BufferSize = DefaultBufferSize

  /** `cpal::StreamConfig`: channel count (a `u16`), sample rate, buffer size. */
  datatype StreamConfig = StreamConfig(channels: nat, sampleRate: nat, bufferSize: BufferSize)

  /** An output stream built on a device with `config`. Building it does not
      start it; `play` and `pause` switch it on and off. */
  class OutputStream {
    const config: StreamConfig
    var playing: bool

    constructor (config: StreamConfig)
      ensures this.config == config && !playing
    {
      this.config := config;
      playing := false;
    }

    method Play()
      modifies this
      ensures playing
    {
      playing := true;
    }

    method Pause()
      modifies this
      ensures !playing
    {
      playing := false;
    }
  }
}
