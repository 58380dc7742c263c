/** An absent-or-present value, used for `undefined`/`null` results of lookups. */
module Optional {

  datatype Option<+T> = None | Some(value: T)
  {
    /** Returns the present value, or `default` when absent. */
    function GetOr(default: T): T {
      match this
      case Some(v) => v
      case None => default
    }
  }
}
