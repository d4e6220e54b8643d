/**
 * The values `json.load` produces for a catalog item's fields, and the
 * Python operations the pipeline applies to them: `item.get`, truthiness,
 * `str()`, `", ".join(...)` and the slice `[:5]`.
 */
module Json {
  import opened Wrappers
  import opened Text

  datatype Value =
    | Str(s: string)
    | Int(i: int)
    /** A JSON number with a fraction or exponent, held as the text `repr(float)` prints. */
    | Float(repr: string)
    | Bool(b: bool)
    | List(items: seq<Value>)
    | Null

  /** One raw catalog record: field name to value. */
  type Item = map<string, Value>

  /** The Python exceptions the modelled code can raise on ill-typed fields. */
  datatype Exception = TypeError | AttributeError

  /** `item.get(field, default)`: a present field yields its value even when that value is `null`. */
  function GetOr(item: Item, field: string, default: Value): Value {
    if field in item then item[field] else default
  }

  /** `item.get(field)`. */
  function GetField(item: Item, field: string): Value {
    GetOr(item, field, Null)
  }

  /** Python truthiness of a JSON value. */
  predicate Truthy(v: Value) {
    match v
    case Str(s) => s != ""
    case Int(i) => i != 0
    case Float(r) => r != "0.0" && r != "-0.0"
    case Bool(b) => b
    case List(xs) => xs != []
    case Null => false
  }

  /** The value kinds a metadata store accepts: `str | int | float | bool`. */
  predicate IsScalar(v: Value) {
    v.Str? || v.Int? || v.Float? || v.Bool?
  }

  /** `str(v)`; inside a list, strings are shown quoted as `repr` shows them. */
  function PyStr(v: Value): string
    decreases v
  {
    match v
    case Str(s) => s
    case Int(i) => IntToDecimal(i)
    case Float(r) => r
    case Bool(b) => if b then "True" else "False"
    case Null => "None"
    case List(xs) =>
      "[" + JoinWith(", ", seq(|xs|, i requires 0 <= i < |xs| =>
                              if xs[i].Str? then "'" + xs[i].s + "'" else PyStr(xs[i]))) + "]"
  }

  predicate AllStr(xs: seq<Value>) {
    forall i :: 0 <= i < |xs| ==> xs[i].Str?
  }

  /** `", ".join(v)`: `v` must iterate strings; a string iterates over its characters. */
  function JoinComma(v: Value): (r: Result<string, Exception>)
    ensures r.Ok? <==> (v.List? && AllStr(v.items)) || v.Str?
  {
    match v
    case List(xs) =>
      if AllStr(xs) then Ok(JoinWith(", ", seq(|xs|, i requires 0 <= i < |xs| => xs[i].s)))
      else Err(TypeError)
    case Str(s) => Ok(JoinWith(", ", seq(|s|, i requires 0 <= i < |s| => [s[i]])))
    case _ => Err(TypeError)
  }

  /** `v[:5]`: the first five entries of a list or characters of a string. */
  function FirstFive(v: Value): (r: Result<Value, Exception>)
    ensures r.Ok? <==> v.List? || v.Str?
    ensures v.List? ==> r == Ok(List(v.items[..if |v.items| < 5 then |v.items| else 5]))
    ensures v.Str? ==> r == Ok(Str(v.s[..if |v.s| < 5 then |v.s| else 5]))
  {
    match v
    case List(xs) => Ok(List(xs[..if |xs| < 5 then |xs| else 5]))
    case Str(s) => Ok(Str(s[..if |s| < 5 then |s| else 5]))
    case _ => Err(TypeError)
  }
}
