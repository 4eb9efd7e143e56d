/** Types shared by every part of the model. */
module Base {

  type Byte = x: int | 0 <= x < 256

  type Bytes = seq<Byte>

  /** A 32-byte BLAKE3 digest: a chunk ID or a manifest ID. */
  type Digest = s: seq<Byte> | |s| == 32 witness seq(32, i => 0)

  type ChunkID = Digest
  type ManifestID = Digest

  /** Nanoseconds on one monotone clock. */
  type Time = int

  datatype Option<+T> = None | Some(value: T)

  datatype Result<+T, +E> = Ok(value: T) | Err(error: E) {
    predicate IsFailure() {
      Err?
    }

    function PropagateFailure<U>(): Result<U, E>
      requires Err?
    {
      Err(error)
    }

    function Extract(): T
      requires Ok?
    {
      value
    }
  }

  /** BLAKE3 is a parameter of the model; this says that `b` has no second preimage under it. */
  ghost predicate NoCollision(sum: Bytes -> Digest, b: Bytes) {
    forall b': Bytes :: sum(b') == sum(b) ==> b' == b
  }

  function Min(a: int, b: int): (m: int)
    ensures m <= a && m <= b && (m == a || m == b)
  {
    if a < b then a else b
  }
}
