/** Values that may be missing, and steps that may be refused. */
module Outcomes {

  /** A JSON key that may be absent, or a route that may not exist. */
  datatype Option<T> = None | Some(value: T) {

    /** The value when present, `fallback` otherwise: ArduinoJson's
        `doc[key] | fallback`. */
    function OrElse(fallback: T): T {
      if Some? then value else fallback
    }
  }

  /** The outcome of parsing: the value, or why it was refused. */
  datatype Result<T, E> = Ok(value: T) | Err(error: E)
}
