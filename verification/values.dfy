/** The PHP values the engine stores, compares and passes around, with PHP's
    conversion to bool, and the cache the engine keeps its run state in. */
module Values {

  /** A PHP value as far as the engine inspects it. Arrays are ordered maps whose
      keys are written as strings; floats and objects are not modelled. */
  datatype Value =
    | Null
    | Bool(b: bool)
    | Int(i: int)
    | Str(s: string)
    | Arr(entries: seq<(string, Value)>)

  /** PHP's `(bool)` on a string: only the empty string and "0" are false. */
  predicate StrTruthy(s: string) {
    s != "" && s != "0"
  }

  /** PHP's `(bool)` on a value. */
  predicate Truthy(v: Value) {
    match v
    case Null => false
    case Bool(b) => b
    case Int(i) => i != 0
    case Str(s) => StrTruthy(s)
    case Arr(es) => |es| > 0
  }

  /** The cache, without expiry: a key absent from the map is a cache miss. */
  type Store = map<string, Value>

  /** `Cache::get`: the stored value, or null on a miss. */
  function StoreGet(s: Store, key: string): Value {
    if key in s then s[key] else Null
  }

  /** `Cache::has`: the key holds a value other than null. */
  predicate StoreHas(s: Store, key: string) {
    StoreGet(s, key) != Null
  }
}
