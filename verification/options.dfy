/** A value that may be absent: `null`/`undefined` in the source. */
module Options {

  datatype Option<+T> = None | Some(value: T) {

    /** `x ?? fallback` */
    function GetOr(fallback: T): T {
      match this
      case Some(v) => v
      case None => fallback
    }
  }
}
