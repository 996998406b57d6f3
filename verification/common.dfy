/** Small datatypes shared by the dashboards and the auth routes. */
module Common {

  /** JavaScript's `null`/`undefined` versus a present value. */
  datatype Option<+T> = None | Some(value: T)

  /** A value or the error an operation raised instead. */
  datatype Result<+T, +E> = Ok(value: T) | Err(error: E)

  /** One chat bubble as both dashboards store it: who sent it, its text and a display time.
      The time is an opaque, already formatted string. */
  datatype ChatMessage = ChatMessage(sender: string, text: string, time: string)
}
