/** Values every other module speaks: byte strings and optional values. Go strings and byte
    slices are both `Bytes` here, so a nil slice and an empty one are the same value. */
module Basics {

  type Byte = b: int | 0 <= b < 256

  type Bytes = seq<Byte>

  datatype Option<+T> = None | Some(value: T)

  /** True when no element occurs twice. */
  ghost predicate Distinct<T>(q: seq<T>) {
    forall i, j | 0 <= i < j < |q| :: q[i] != q[j]
  }

  /** The elements of a sequence, forgetting order and repetition. */
  function Elems<T>(q: seq<T>): set<T> {
    set x | x in q
  }
}
