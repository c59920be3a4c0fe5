/** Types every other module shares. */
module Basics {
  datatype Option<+T> = None | Some(value: T)

  datatype Result<+T, +E> = Ok(value: T) | Err(error: E)

  newtype byte = b: int | 0 <= b < 256

  type Bytes = seq<byte>

  /** The order of the first difference; a proper prefix comes first. */
  predicate LexLess<T(==)>(less: (T, T) -> bool, a: seq<T>, b: seq<T>) {
    b != [] && (a == [] || less(a[0], b[0]) || (a[0] == b[0] && LexLess(less, a[1..], b[1..])))
  }
}
