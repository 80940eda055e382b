/** The JavaScript values the validators inspect, and JavaScript truthiness. */
module Js {
  import opened Options

  /** A JavaScript value (NaN and functions are not modelled). */
  datatype Value =
    | Undefined
    | Null
    | Bool(b: bool)
    | Num(n: real)
    | Str(s: string)
    | Arr(elems: seq<Value>)
    | Obj(fields: map<string, Value>)

  /** `!!v`: false exactly for undefined, null, false, 0 and ''. */
  predicate Truthy(v: Value)
  {
    match v
    case Undefined => false
    case Null => false
    case Bool(b) => b
    case Num(n) => n != 0.0
    case Str(s) => s != ""
    case Arr(_) => true
    case Obj(_) => true
  }

  /** `o[k]`: the field's value, `undefined` when absent. */
  function Get(o: map<string, Value>, k: string): Value
  {
    if k in o then o[k] else Undefined
  }

  /** Truthiness of a string field that may be missing. */
  predicate Present(o: Option<string>)
  {
    o.Some? && o.value != ""
  }

  /** Truthiness of a number field that may be missing. */
  predicate PresentNum(o: Option<int>)
  {
    o.Some? && o.value != 0
  }

  /** `!o?.length` is false: the array field exists and is non-empty. */
  predicate NonEmpty<T>(o: Option<seq<T>>)
  {
    o.Some? && |o.value| > 0
  }
}
