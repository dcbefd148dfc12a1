/** Shared value types of the definition layer: optional values, fallible results,
    and the raw values that appear in a decoded service-description record. */
module Base {

  /** An optional value. A PHP `null`, and an array key that `isset` reports as
      missing, are both modelled as `None`. */
  datatype Option<+T> = None | Some(value: T) {

    /** The value, or `default` when there is none (PHP's `??` operator). */
    function GetOr(default: T): T {
      match this
      case Some(v) => v
      case None => default
    }
  }

  /** The outcome of an accessor that can throw: `Err` stands for the exception. */
  datatype Result<+T, +E> = Ok(value: T) | Err(error: E)

  /** A raw value of a decoded schema record (one entry of a PHP array).
      `List` is a PHP list, `Record` a PHP array with string keys. PHP has a
      single empty array `[]`; here it is `List([])` where a list is meant and
      `Record(map[])` where a keyed array is meant. */
  datatype Value =
    | Str(s: string)
    | Int(i: int)
    | Bool(b: bool)
    | List(items: seq<Value>)
    | Record(fields: map<string, Value>)
}
