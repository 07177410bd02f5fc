/**
 * The JSON values the documents hold, and the Python conversions the code
 * applies to them: truthiness, `str(...)`, `float(...)` and `dict.get`.
 */
module Json {
  import opened Wrappers

  /**
   * A decoded JSON value. A number keeps the text `str()` gives for it
   * (`600000` for an integer, `3.2` for a float).
   */
  datatype Json = Null | Bool(b: bool) | Num(n: real, text: string) | Str(s: string) | Arr(items: seq<Json>)
                | Obj(fields: map<string, Json>)

  /** Python truthiness. */
  predicate Truthy(v: Json) {
    match v
    case Null => false
    case Bool(b) => b
    case Num(n, _) => n != 0.0
    case Str(s) => s != ""
    case Arr(xs) => xs != []
    case Obj(m) => m != map[]
  }

  /** `d.get(k, default)`. */
  function Get(fields: map<string, Json>, k: string, default: Json): Json {
    if k in fields then fields[k] else default
  }

  /** `v or w`. */
  function Or(v: Json, w: Json): Json {
    if Truthy(v) then v else w
  }

  /** `str(v)` for a string, a boolean, `None` and an integer; a number keeps its JSON text and a list or dict reads as the empty string. */
  function StrOf(v: Json): string {
    match v
    case Null => "None"
    case Bool(b) => if b then "True" else "False"
    case Num(_, t) => t
    case Str(s) => s
    case Arr(_) => ""
    case Obj(_) => ""
  }

  /**
   * `float(v)`, `None` where Python raises; `parse` is Python's reading of
   * a numeric string.
   */
  function ToFloat(v: Json, parse: string -> Option<real>): Option<real> {
    match v
    case Bool(b) => Some(if b then 1.0 else 0.0)
    case Num(n, _) => Some(n)
    case Str(s) => parse(s)
    case _ => None
  }
}
