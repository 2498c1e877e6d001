/** Values that several of the models use. */
module Common {
  datatype Option<+T> = None | Some(value: T)

  type Bytes = seq<bv8>

  function Min(a: int, b: int): int { if a <= b then a else b }

  function Max(a: int, b: int): int { if a >= b then a else b }

  /** A bound of `Buffer.slice`: negative ones count from the end. */
  function SliceBound(n: nat, at: int): nat {
    if at < 0 then Max(0, n + at) else Min(at, n)
  }

  /** `Buffer.slice(from, to)`. */
  function Slice(b: Bytes, from: int, to: int): Bytes {
    var lo, hi := SliceBound(|b|, from), SliceBound(|b|, to);
    if lo <= hi then b[lo..hi] else []
  }

  /** The list without its element at `k`. */
  function Without<T>(xs: seq<T>, k: nat): seq<T>
    requires k < |xs|
  {
    xs[..k] + xs[k + 1..]
  }

  /** The states of a chunk's upload, in the Chunk table. */
  datatype ChunkStatus = NotStarted | Enqueued | InProgress | Completed | Validating | Failed
}
