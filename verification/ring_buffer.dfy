/**
 * A sequential stand-in for the single-producer/single-consumer ring buffer
 * (`rb::SpscRb<f32>`) that the player shares between its decode loop and the
 * audio device's callback. Its contents are a FIFO with a fixed capacity.
 *
 * Two ghost logs record what ever went in (`accepted`) and what ever came
 * out (`delivered`); the object invariant `delivered + contents == accepted`
 * is the buffer's ordering guarantee: samples leave in the order they were
 * written, none is lost, none is duplicated.
 */
module RingBuffers {
  import opened Samples

  /** The only way `read` fails: there is nothing to read. */
  datatype RbError = Empty

  class RingBuffer {
    const capacity: nat
    var contents: seq<Sample>
    ghost var accepted: seq<Sample>
    ghost var delivered: seq<Sample>

    ghost predicate Valid()
      reads this
    {
      |contents| <= capacity && delivered + contents == accepted
    }

    predicate IsFull()
      reads this
    {
      |contents| == capacity
    }

    /** `SpscRb::new(size)`: an empty buffer holding at most `size` samples. */
    constructor (size: nat)
      ensures Valid()
      ensures capacity == size && contents == []
      ensures accepted == [] && delivered == []
    {
      capacity := size;
      contents := [];
      accepted := [];
      delivered := [];
    }

    /**
     * The consumer's non-blocking `read`: fails with `Empty` when there is
     * nothing buffered; otherwise moves the first min(|data|, count) samples
     * into the front of `data`, leaves the rest of `data` alone and returns
     * how many it moved.
     */
    method Read(data: array<Sample>) returns (r: Result<nat, RbError>)
      requires Valid()
      modifies this, data
      ensures Valid() && accepted == old(accepted)
      ensures r.Err? <==> old(contents) == []
      ensures r.Err? ==> contents == old(contents) && delivered == old(delivered) && data[..] == old(data[..])
      ensures r.Ok? ==>
        var n := r.value;
        n == Min(data.Length, |old(contents)|)
        && data[..n] == old(contents)[..n]
        && data[n..] == old(data[n..])
        && contents == old(contents)[n..]
        && delivered == old(delivered) + old(contents)[..n]
    {
      if contents == [] {
        return Err(Empty);
      }
      var n := Min(data.Length, |contents|);
      forall i | 0 <= i < n {
        data[i] := contents[i];
      }
      delivered := delivered + contents[..n];
      contents := contents[n..];
      return Ok(n);
    }

    /**
     * The producer's `write_blocking`. An empty input returns `None` at once.
     * Otherwise the producer waits while the buffer is full; the wait is
     * modelled sequentially as the consumer reading into `consumer` (the
     * device's destination buffer) until a slot is free. Then as much of a
     * prefix of `data` as fits is appended, and its length is returned; it is
     * never zero, and it is all of `data` unless the buffer is now full.
     */
    method WriteBlocking(data: seq<Sample>, consumer: array<Sample>) returns (r: Option<nat>)
      requires Valid()
      requires data != [] ==> capacity > 0 && consumer.Length > 0
      modifies this, consumer
      ensures Valid()
      ensures r.None? <==> data == []
      ensures r.None? ==> contents == old(contents) && accepted == old(accepted) && delivered == old(delivered)
      ensures r.None? ==> consumer[..] == old(consumer[..])
      ensures r.Some? ==>
        var n := r.value;
        0 < n <= |data|
        && (n == |data| || |contents| == capacity)
        && accepted == old(accepted) + data[..n]
        && n <= |contents| && contents[|contents| - n..] == data[..n]
      ensures old(delivered) <= delivered
    {
      if data == [] {
        return None;
      }
      while IsFull()
        invariant Valid() && accepted == old(accepted)
        invariant old(delivered) <= delivered
        decreases |contents|
      {
        var _ := Read(consumer);
      }
      var n := Min(|data|, capacity - |contents|);
      contents := contents + data[..n];
      accepted := accepted + data[..n];
      return Some(n);
    }
  }
}
