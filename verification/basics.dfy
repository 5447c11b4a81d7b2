/** Shared vocabulary: Swift's `Optional`, Swift's `Result`, bytes and `Data`. */
module Basics {

  /** Swift's `Optional<T>`. */
  datatype Option<+T> = None | Some(value: T) {

    /** The wrapped value, or `default` when there is none (Swift's `??`). */
    function GetOr(default: T): T {
      match this
      case Some(v) => v
      case None => default
    }
  }

  /** Swift's `Result<Success, Failure>`. */
  datatype Result<+S, +F> = Success(value: S) | Failure(error: F)

  /** An unsigned 8-bit value, one element of Foundation's `Data`. */
  newtype byte = x: int | 0 <= x < 256

  /** Foundation's `Data`: a finite byte string. */
  type Data = seq<byte>
}
