/** Shared types: optional values, bytes, results, and the error codes the service answers with. */
module Basics {

  datatype Option<+T> = None | Some(value: T)

  /** An abstract point in time. */
  type Instant = real

  datatype Error =
    | NotFound
    | UnknownPrinter
    | Conflict
    | QueueFull
    | QuotaExceeded
    | IdempotencyConflict
    | UnsupportedForPrinter
    | ValidationError
    | RenderError
    | IntegrityError

  type byte = b: int | 0 <= b < 256

  type bytes = seq<byte>

  datatype Result<+T> = Ok(value: T) | Err(error: Error)
}
