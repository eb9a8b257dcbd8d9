/** The optional value used throughout: a nullable SQL column, a missing row, a missing JSON field. */
module Options {
  datatype Option<+T> = None | Some(value: T) {
    function GetOr(default: T): T {
      match this
      case Some(v) => v
      case None => default
    }
  }
}
