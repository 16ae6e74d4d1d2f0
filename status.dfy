/** Error values of the framework and the nil-or-error results its operations return. */
module Status {

  /** The errors the core can report; each names the place that raises it. */
  datatype Error =
    | ReadFailed                          // a connection read could not deliver the bytes asked for
    | IdZero                              // decoded header id is 0
    | TypeNotDefined(typ: int)            // decoded header type outside [TYPE_PING, TYPE_BUSINESS]
    | ConnNotAlive                        // route handler has no connection, or a dead one
    | NoChildHandler(typ: int, id: int)   // no child handler registered for the packet id
    | WriteFailed                         // a connection write failed
    | CloseFailed                         // closing the transport failed

  /** Go's `error` return: nil (Ok) or an error. */
  datatype Outcome = Ok | Fail(error: Error)

  /** A value or an error, for operations returning `(T, error)`. */
  datatype Result<+T> = Success(value: T) | Failure(error: Error)

  datatype Option<+T> = None | Some(value: T)
}
