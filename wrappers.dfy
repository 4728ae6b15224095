/** Small value types shared by the rest of the model. */
module Wrappers {

  /** A value that may be missing; `None` stands for JavaScript's `undefined`. */
  datatype Option<+T> = None | Some(value: T)

  /** The settled outcome of one outbound HTTP request: the parsed JSON reply, or a rejection. */
  datatype Fetch<+T> = Replied(reply: T) | FetchFailed

  /** A promise that resolves to `value` or rejects with `error`. */
  datatype Result<+T, +E> = Ok(value: T) | Err(error: E)
}
