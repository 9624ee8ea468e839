/**
 * The write loop both variants of `CpalOutput::write` run once a frame is
 * interleaved: `while let Some(written) = writer.write_blocking(samples)
 * { samples = &samples[written..]; }`.
 */
module Feeder {
  import opened Samples
  import opened RingBuffers

  /**
   * Submits `batch` to `writer`, advancing past whatever each blocking write
   * accepted, until the write reports `None` (nothing left). The ring then
   * has accepted exactly `batch`, in order; the loop ends because every
   * blocking write of a non-empty slice accepts at least one sample.
   * `consumer` is the device buffer the callback reads into while the writer
   * waits for room.
   */
  method WriteAll(writer: RingBuffer, batch: seq<Sample>, consumer: array<Sample>)
    requires writer.Valid()
    requires batch != [] ==> writer.capacity > 0 && consumer.Length > 0
    modifies writer, consumer
    ensures writer.Valid()
    ensures writer.accepted == old(writer.accepted) + batch
    ensures old(writer.delivered) <= writer.delivered
    ensures batch == [] ==> writer.contents == old(writer.contents) && writer.delivered == old(writer.delivered)
  {
    var samples := batch;
    while true
      invariant writer.Valid()
      invariant |samples| <= |batch| && samples == batch[|batch| - |samples|..]
      invariant writer.accepted == old(writer.accepted) + batch[..|batch| - |samples|]
      invariant old(writer.delivered) <= writer.delivered
      invariant batch == [] ==> writer.contents == old(writer.contents) && writer.delivered == old(writer.delivered)
      decreases |samples|
    {
      var r := writer.WriteBlocking(samples, consumer);
      match r
      case None =>
        break;
      case Some(written) =>
        samples := samples[written..];
    }
    assert samples == [];
    assert batch[..|batch|] == batch;
  }
}
