/**
 * The JavaScript values a tool call's arguments can hold, with the two
 * conversions the handlers rely on: truthiness (`if (x)`, `x || d`) and the
 * text a template literal `${x}` produces.
 */
module JsValue {
  import opened Text

  /**
   * A JSON argument value, or `undefined` for a missing key. Numbers are
   * integers here; objects and arrays are kept only as the text they convert to.
   */
  datatype Value =
    | Undefined
    | Null
    | Bool(b: bool)
    | Num(n: int)
    | Str(s: string)
    | Other(text: string)

  /** JavaScript truthiness. */
  predicate Truthy(v: Value) {
    match v
    case Undefined => false
    case Null => false
    case Bool(b) => b
    case Num(n) => n != 0
    case Str(s) => s != ""
    case Other(_) => true
  }

  /** The text `${v}` produces. */
  function ToText(v: Value): string {
    match v
    case Undefined => "undefined"
    case Null => "null"
    case Bool(b) => if b then "true" else "false"
    case Num(n) => IntToString(n)
    case Str(s) => s
    case Other(t) => t
  }

  /** `args.key`: the argument's value, `undefined` when the key is absent. */
  function Get(args: map<string, Value>, key: string): Value {
    if key in args then args[key] else Undefined
  }
}
