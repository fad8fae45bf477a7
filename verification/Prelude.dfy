/** Types shared by the models of both transports. */
module Prelude {

  datatype Option<+T> = None | Some(value: T)
  {
    function GetOr(default: T): T {
      if Some? then value else default
    }
  }

  /** A request or response message, identified with its contents; cloning and
      copying a message yields an equal value. */
  type Msg = string

  /** The error values the transports tell apart. */
  datatype Err =
    | Eof                                  // io.EOF used as an error value
    | UnexpectedEof
    | CtxCanceled                          // context.Canceled
    | CtxDeadline                          // context.DeadlineExceeded
    | Status(code: int, message: string)   // a gRPC status error
    | Plain(text: string)                  // any other error

  const CODE_CANCELED := 1
  const CODE_DEADLINE_EXCEEDED := 4
  const CODE_INTERNAL := 13

  /** Context errors become gRPC statuses; everything else is left alone. */
  function TranslateContextError(e: Err): Err {
    match e
    case CtxDeadline => Status(CODE_DEADLINE_EXCEEDED, "context deadline exceeded")
    case CtxCanceled => Status(CODE_CANCELED, "context canceled")
    case _ => e
  }
}
