/**
 * The PHP values that travel through form state and task parameters:
 * NULL, booleans, integers, strings, (string-keyed) arrays and date objects.
 */
module Values {

  /** A date object (`DrupalDateTime`); `setTimestamp` changes it in place. */
  class DateTime {
    var timestamp: int

    constructor (timestamp: int)
      ensures this.timestamp == timestamp
    {
      this.timestamp := timestamp;
    }
  }

  datatype Value =
    | Null
    | Bool(b: bool)
    | Int(i: int)
    | Str(s: string)
    | Arr(entries: map<string, Value>)
    | Date(d: DateTime)

  /** PHP's conversion to boolean: NULL, FALSE, 0, "", "0" and the empty array are falsy. */
  predicate Truthy(v: Value)
  {
    match v
    case Null => false
    case Bool(b) => b
    case Int(i) => i != 0
    case Str(s) => s != "" && s != "0"
    case Arr(m) => m != map[]
    case Date(_) => true
  }
}
