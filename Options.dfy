/** The conventional optional value; `None` stands for JavaScript's `undefined`
    wherever the library distinguishes "absent" from a value. */
module Options {

  datatype Option<+T> = None | Some(value: T) {

    /** The value, or `default` when absent. */
    function GetOr(default: T): T {
      match this
      case Some(v) => v
      case None => default
    }
  }
}
