/** Optional values: JavaScript's `undefined`/`null` for a field or argument. */
module Wrappers {

  datatype Option<+T> = None | Some(value: T) {

    /** The value, or `default` when absent (JavaScript's `x || default` for numbers). */
    function GetOr(default: T): T {
      match this
      case Some(v) => v
      case None => default
    }
  }
}

/** The browser's `File` object, reduced to the two properties the components read. */
module Browser {

  datatype File = File(name: string, mimeType: string)
}
