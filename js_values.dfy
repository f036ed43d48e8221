/** JSON-shaped JavaScript values as the routes and pages receive them from
    the document store, with the JavaScript operations the code applies to
    them: truthiness, `??`, `||`, property access with and without `?.`,
    indexing and conversion to a string. */
module JsValues {
  import opened Outcomes
  import opened Text

  /** Numbers are integers here; fractions, NaN and infinities are not modelled. */
  datatype JsValue =
    | Undefined
    | Null
    | Bool(b: bool)
    | Num(n: int)
    | Str(s: string)
    | Arr(items: seq<JsValue>)
    | Obj(fields: map<string, JsValue>)

  predicate Nullish(v: JsValue) {
    v.Undefined? || v.Null?
  }

  /** JavaScript truthiness: undefined, null, false, 0 and "" are falsy. */
  predicate Truthy(v: JsValue) {
    match v
    case Undefined => false
    case Null => false
    case Bool(b) => b
    case Num(n) => n != 0
    case Str(s) => s != ""
    case Arr(_) => true
    case Obj(_) => true
  }

  /** `a ?? b`: the default replaces only null and undefined. */
  function Coalesce(a: JsValue, b: JsValue): JsValue {
    if Nullish(a) then b else a
  }

  /** `a || b`: the default replaces every falsy value. */
  function OrElse(a: JsValue, b: JsValue): JsValue {
    if Truthy(a) then a else b
  }

  function TypeError(v: JsValue, key: string): string
    requires Nullish(v)
  {
    "Cannot read properties of " + (if v.Null? then "null" else "undefined") + " (reading '" + key + "')"
  }

  /** `v.key`: reading a property of null or undefined throws a TypeError;
      a primitive has none of the properties read here. */
  function Member(v: JsValue, key: string): (r: Result<JsValue>)
    ensures r.Err? <==> Nullish(v)
  {
    match v
    case Undefined => Err(TypeError(v, key))
    case Null => Err(TypeError(v, key))
    case Obj(m) => Ok(if key in m then m[key] else Undefined)
    case _ => Ok(Undefined)
  }

  /** `v?.key`: undefined instead of a TypeError. */
  function OptMember(v: JsValue, key: string): JsValue {
    if Nullish(v) then Undefined
    else match v
      case Obj(m) => if key in m then m[key] else Undefined
      case _ => Undefined
  }

  /** `v[i]`: an array element, a one-character string or an object's own
      property named by the index; undefined past the end or where there is
      no such property. */
  function Element(v: JsValue, i: nat): (r: Result<JsValue>)
    ensures r.Err? <==> Nullish(v)
    ensures v.Arr? ==> r == Ok(if i < |v.items| then v.items[i] else Undefined)
    ensures v.Obj? ==> r == Ok(OptMember(v, Decimal(i)))
    ensures v.Num? || v.Bool? ==> r == Ok(Undefined)
  {
    match v
    case Undefined => Err(TypeError(v, Decimal(i)))
    case Null => Err(TypeError(v, Decimal(i)))
    case Arr(items) => Ok(if i < |items| then items[i] else Undefined)
    case Str(s) => Ok(if i < |s| then Str([s[i]]) else Undefined)
    case Obj(_) => Ok(OptMember(v, Decimal(i)))
    case _ => Ok(Undefined)
  }

  /** String(v), as template literals and property keys convert values. */
  function ToStr(v: JsValue): string
    decreases v
  {
    match v
    case Undefined => "undefined"
    case Null => "null"
    case Bool(b) => if b then "true" else "false"
    case Num(n) => Decimal(n)
    case Str(s) => s
    case Arr(items) => JoinItems(items, v)
    case Obj(_) => "[object Object]"
  }

  /** Array.prototype.join(","): null and undefined elements become "". */
  function JoinItems(items: seq<JsValue>, ghost whole: JsValue): string
    requires forall i :: 0 <= i < |items| ==> items[i] < whole
    decreases whole, |items|
  {
    if items == [] then ""
    else
      var first := if Nullish(items[0]) then "" else ToStr(items[0]);
      if |items| == 1 then first else first + "," + JoinItems(items[1..], whole)
  }
}
