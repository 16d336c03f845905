/** Values shared by both catalogs: optional values, conversion results, errors, the
    protobuf timestamp, and the two shapes of Go's multi-value returns used by the
    repositories and facades. */
module Outcomes {

  /** A Go pointer or an optional value: `None` plays the part of `nil`. */
  datatype Option<+T> = None | Some(value: T)

  /** The outcome of a conversion that may fail. */
  datatype Result<+T> = Success(value: T) | Failure(error: Error)

  /** Errors as the callers see them. Store and conversion errors are opaque values that
      are passed along unchanged; `NotFound` is the gRPC status the racing facade creates. */
  datatype Error = Opaque(message: string) | NotFound(message: string)

  /** The `google.protobuf.Timestamp` both catalogs' messages carry their start times in. */
  datatype Timestamp = Timestamp(seconds: int, nanos: int)

  /** Go's `int64`. */
  type Int64 = x: int | -0x8000_0000_0000_0000 <= x < 0x8000_0000_0000_0000

  /** Go's `(*T, error)` pair. */
  datatype Reply<+T> = Reply(value: Option<T>, err: Option<Error>)

  /** Go's `([]*T, error)` pair; a nil slice is the empty sequence. */
  datatype ListReply<+T> = ListReply(items: seq<T>, err: Option<Error>)
}
