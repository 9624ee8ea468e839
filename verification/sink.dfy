/**
 * The real-time output callback that both variants hand to the audio device:
 * a non-blocking read from the ring buffer into the device's destination,
 * with a failed read counted as zero samples, then silence in every slot the
 * read did not fill.
 */
module Sink {
  import opened Samples
  import opened RingBuffers

  /** What a destination of length `n` holds after the callback ran against
      a FIFO whose contents were `fifo`: the front of the FIFO, then silence. */
  function Rendered(fifo: seq<Sample>, n: nat): (out: seq<Sample>)
    ensures |out| == n
  {
    var k := Min(|fifo|, n);
    fifo[..k] + Silences(n - k)
  }

  /** Slot `i` of the destination holds the FIFO's `i`-th sample when the FIFO
      had one to give, and silence otherwise. */
  lemma RenderedAt(fifo: seq<Sample>, n: nat, i: nat)
    requires i < n
    ensures Rendered(fifo, n)[i] == if i < |fifo| then fifo[i] else Silence
  {
    var k := Min(|fifo|, n);
    if i < k {
      assert Rendered(fifo, n)[i] == fifo[..k][i];
    } else {
      assert Rendered(fifo, n)[i] == Silences(n - k)[i - k];
    }
  }

  /** An under-run (or an empty FIFO, the case of a failed read) is not an
      error: the missing samples are silence. */
  lemma EmptyFifoRendersSilence(n: nat)
    ensures Rendered([], n) == Silences(n)
  {
  }

  /** Nothing is lost or reordered: what the callback rendered, followed by
      what it left in the FIFO, is exactly what the FIFO held before. */
  lemma {:induction false} RenderedThenRemaining(fifo: seq<Sample>, n: nat)
    ensures
      var k := Min(|fifo|, n);
      Rendered(fifo, n)[..k] + fifo[k..] == fifo
  {
    var k := Min(|fifo|, n);
    assert Rendered(fifo, n)[..k] == fifo[..k];
  }

  /** A destination whose first `Min(|fifo|, |d|)` slots hold the FIFO's
      front and whose other slots hold silence is what the callback renders. */
  lemma RenderedFromParts(fifo: seq<Sample>, d: seq<Sample>, written: nat)
    requires written == Min(|fifo|, |d|)
    requires d[..written] == fifo[..written]
    requires forall j :: written <= j < |d| ==> d[j] == Silence
    ensures d == Rendered(fifo, |d|)
  {
    forall j | 0 <= j < |d|
      ensures d[j] == Rendered(fifo, |d|)[j]
    {
      RenderedAt(fifo, |d|, j);
      if j < written {
        assert d[j] == d[..written][j];
      }
    }
  }

  /** `data[from..].iter_mut().for_each(|s| *s = 0.0)`: every slot from
      `from` on becomes silence, the ones before it are left alone. */
  method SilenceFrom(data: array<Sample>, from: nat)
    requires from <= data.Length
    modifies data
    ensures data[..from] == old(data[..from])
    ensures forall j :: from <= j < data.Length ==> data[j] == Silence
  {
    var i := from;
    while i < data.Length
      invariant from <= i <= data.Length
      invariant data[..from] == old(data[..from])
      invariant forall j :: from <= j < i ==> data[j] == Silence
    {
      data[i] := Silence;
      i := i + 1;
    }
  }

  /**
   * The callback body, `reader.read(data).unwrap_or(0)` followed by zeroing
   * `data[written..]`. Afterwards `data` is `Rendered` of the FIFO's previous
   * contents and the FIFO has lost exactly the samples it gave.
   */
  method Render(reader: RingBuffer, data: array<Sample>)
    requires reader.Valid()
    modifies reader, data
    ensures reader.Valid()
    ensures data[..] == Rendered(old(reader.contents), data.Length)
    ensures
      var k := Min(|old(reader.contents)|, data.Length);
      reader.contents == old(reader.contents)[k..]
      && reader.delivered == old(reader.delivered) + old(reader.contents)[..k]
    ensures reader.accepted == old(reader.accepted)
  {
    var r := reader.Read(data);
    var written := match r
      case Ok(n) => n
      case Err(_) => 0;
    ghost var k := Min(|old(reader.contents)|, data.Length);
    assert written == k;
    SilenceFrom(data, written);
    RenderedFromParts(old(reader.contents), data[..], written);
  }
}
