/** Option and the `{success, message, data}` envelope every controller sends back. */
module Wrappers {

  datatype Option<+T> = None | Some(value: T)

  /** A controller's reply: `success: true` with a message and a payload, or
      `success: false` with a message only. */
  datatype Reply<+T> = Success(message: string, data: T) | Failure(message: string)
}
