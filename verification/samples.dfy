/**
 * Basic values shared by the whole audio pipeline: the sample type, the
 * silence value the output callback writes, and the small option/result
 * wrappers the Rust code uses (`Option`, `Result`).
 */
module Samples {

  /** One output sample. The Rust code carries `f32` values and never does
      arithmetic on them, so a sample is kept as its 32-bit pattern. */
  datatype Sample = Sample(bits: bv32)

  /** `0.0f32`, whose bit pattern is all zeroes: what the callback writes
      into every slot it has no audio for. */
  const Silence: Sample := Sample(0)

  /** `n` samples of silence. */
  function Silences(n: nat): seq<Sample>
  {
    seq(n, _ => Silence)
  }

  datatype Option<T> = None | Some(value: T)

  datatype Result<T, E> = Ok(value: T) | Err(error: E)

  /** The smaller of two counts: a transfer limited both by what is there
      and by where it goes moves this many. */
  function Min(a: nat, b: nat): (m: nat)
    ensures m <= a && m <= b
    ensures m == a || m == b
  {
    if a < b then a else b
  }
}
