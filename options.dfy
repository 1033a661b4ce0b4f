/** The optional value used throughout the model: Rust's `Option` and Ruby's `nil`-or-value. */
module Options {

  datatype Option<+T> = None | Some(value: T) {

    /** The held value, or `default` when there is none (Ruby's `value || default`). */
    function GetOr(default: T): T {
      match this
      case Some(v) => v
      case None => default
    }
  }
}
