/** Failure-carrying result types shared by every module of the model. */
module Wrappers {

  /** A value that may be missing: a Go nil slice, map or pointer, a Python
      `None`, or a lookup that found nothing. */
  datatype Option<+T> = None | Some(value: T)

  /** How an operation of the modelled code ends: with a value, with an error
      it returns (Go) or an exception it raises (Python), or with a panic, the
      Go run-time fault that nothing in the modelled code recovers. The
      strings carry the message text, or the exception's class name. */
  datatype Outcome<+T> = Ok(value: T) | Err(msg: string) | Panic(msg: string)

  /** How one `Next` of a Go trajectory reader ends: a frame was read, the
      trajectory ended normally (the `LastFrameError` the readers return),
      an error was returned, or the reader panicked. */
  datatype FrameStatus = Read | LastFrame | Failed(msg: string) | Panicked(msg: string)
}
