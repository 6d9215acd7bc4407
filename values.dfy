/**
 * The Python values that reach the naming code as keyword arguments and
 * parameter defaults.
 */
module Values {

  datatype Value =
    | NoneValue
    | Bool(b: bool)
    | Int(i: int)
    | Float(x: real, fixed2: string)          // `fixed2` is the float's own `f"{x:.2f}"` text
    | Str(s: string)
    | List(items: seq<Value>)
    | Tuple(items: seq<Value>)
    | Dict(entries: seq<(string, Value)>)     // entries in insertion order, keys distinct
    | Callable(name: string)                  // a function or class, rendered by `__name__`
    | Object(str: string)                     // any other object, rendered by `str(value)`

  /** Python truthiness; objects of other classes count as true. */
  predicate Truthy(v: Value)
  {
    match v
    case NoneValue => false
    case Bool(b) => b
    case Int(i) => i != 0
    case Float(x, _) => x != 0.0
    case Str(s) => s != ""
    case List(items) => items != []
    case Tuple(items) => items != []
    case Dict(entries) => entries != []
    case Callable(_) => true
    case Object(_) => true
  }
}
