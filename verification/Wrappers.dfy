/** Optional values, results that may fail, machine words and selections from a sequence,
    shared by every module. */
module Wrappers {
  datatype Option<+T> = None | Some(value: T)

  datatype Result<+T, +E> = Success(value: T) | Failure(error: E)

  const TWO_TO_THE_64: nat := 0x1_0000_0000_0000_0000

  type Uint64 = n: nat | n < TWO_TO_THE_64

  /** Incrementing a 64-bit counter wraps around. */
  function Increment(n: Uint64): Uint64 {
    if n + 1 == TWO_TO_THE_64 then 0 else n + 1
  }

  /** The elements at these positions, in this order. */
  function Pick<T>(xs: seq<T>, indices: seq<nat>): (picked: seq<T>)
    requires forall i | 0 <= i < |indices| :: indices[i] < |xs|
    ensures |picked| == |indices|
  {
    seq(|indices|, i requires 0 <= i < |indices| => xs[indices[i]])
  }
}
