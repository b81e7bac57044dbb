/** An optional value: the model's stand-in for JavaScript's `undefined`
    results (Array.prototype.find, parseInt's NaN, a missing response text). */
module Options {

  datatype Option<+T> = None | Some(value: T) {

    /** The value, or `default` when there is none (JavaScript's `x || d`
        when `x` is never a falsy value). */
    function GetOr(default: T): T {
      match this
      case Some(v) => v
      case None => default
    }
  }
}
