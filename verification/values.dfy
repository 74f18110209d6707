/** Python values as the aggregator sees them after `dict.get`.
    A missing key and a JSON `null` both read as `None`, here `Null`. */
module Values {

  /** The conventional Some/None datatype. */
  datatype Option<+T> = None | Some(value: T) {

    /** The encapsulated value, or `default` when there is none. */
    function GetOr(default: T): T {
      match this
      case Some(v) => v
      case None => default
    }
  }

  /** A JSON scalar as Python holds it: `None`, an `int` or a `str`. */
  datatype Scalar = Null | Int(n: int) | Str(s: string)
}
