/** An optional value: the model's stand-in for a JavaScript property that may be
    `undefined`, an HTTP header that may be missing, or a parse that may fail. */
module Optional {

  datatype Option<+T> = None | Some(value: T) {

    /** The value inside `Some`, or `default` for `None`. */
    function GetOr(default: T): T {
      match this
      case Some(v) => v
      case None => default
    }
  }
}
