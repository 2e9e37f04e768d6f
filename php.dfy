/**
 * The few PHP runtime notions the adapter relies on: nullable values, the
 * values a configuration bag may hold, and PHP's conversion of a value to a
 * boolean (the test that `if ($x = $config->get(...))` performs).
 */
module Php {

  /** A value that may be absent or `null`, as the `??` operator sees it. */
  datatype Option<+T> = None | Some(value: T)

  /**
   * A value stored in a configuration bag. `Arr` is an associative array of
   * strings, the shape of the `headers` option.
   */
  datatype Value =
    | Null
    | Bool(b: bool)
    | Int(i: int)
    | Str(s: string)
    | Arr(items: map<string, string>)

  /** PHP's boolean conversion: null, false, 0, "", "0" and the empty array are false. */
  predicate Truthy(v: Value)
  {
    match v
    case Null => false
    case Bool(b) => b
    case Int(i) => i != 0
    case Str(s) => s != "" && s != "0"
    case Arr(items) => items != map[]
  }

  /** A bag of named settings (Flysystem's `Config`, an OSS options array, a header list). */
  type Bag = map<string, Value>

  /** `Config::get($key)`: the stored value, or `null` when the key is missing. */
  function Get(bag: Bag, key: string): Value
  {
    if key in bag then bag[key] else Null
  }
}
