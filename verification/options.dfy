/** An optional value, used wherever the source holds a value that may be
    `null` or `undefined` and that is not itself an arbitrary JavaScript value. */
module Options {

  datatype Option<T> = None | Some(value: T) {

    /** The value held, or `default` when there is none. */
    function GetOr(default: T): T {
      match this
      case Some(v) => v
      case None => default
    }
  }
}
