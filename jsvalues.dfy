/**
 * The JavaScript values the frontend stores in its intake record and sends
 * in the report payload, with the coercions the screens rely on:
 * truthiness, `?.` property access, `String(x)` and `Number(x)`.
 */
module JsValues {
  import opened Wrappers
  import Text

  /**
   * A JavaScript value. `Numeral(n)` is the string that `String(n)` produces
   * for the number `n`; only the number it spells is modelled, not its
   * characters. `NotANumber` is `NaN` (infinities are folded into it).
   */
  datatype Json =
    | Undefined
    | Null
    | Bool(b: bool)
    | Num(n: real)
    | NotANumber
    | Numeral(spelled: real)
    | Str(s: string)
    | Obj(fields: map<string, Json>)

  /** `Boolean(j)`. */
  predicate Truthy(j: Json)
  {
    match j
    case Undefined => false
    case Null => false
    case Bool(b) => b
    case Num(n) => n != 0.0
    case NotANumber => false
    case Numeral(_) => true
    case Str(s) => s != ""
    case Obj(_) => true
  }

  /** `j == null` (loose equality): `null` or `undefined`. */
  predicate IsNullish(j: Json) { j.Undefined? || j.Null? }

  /** `typeof j === "string"`. */
  predicate IsString(j: Json) { j.Str? || j.Numeral? }

  /** `j?.key`: a property of an object, `undefined` for anything else. */
  function Get(j: Json, key: string): (r: Json)
    ensures !j.Obj? ==> r == Undefined
    ensures j.Obj? && key !in j.fields ==> r == Undefined
  {
    if j.Obj? && key in j.fields then j.fields[key] else Undefined
  }

  /** `j ?? fallback`. */
  function OrElse(j: Json, fallback: Json): (r: Json)
    ensures IsNullish(j) ==> r == fallback
    ensures !IsNullish(j) ==> r == j
  {
    if IsNullish(j) then fallback else j
  }

  /** The number `Number(j)` gives; `None` is `NaN`. */
  function ToNumber(j: Json): Option<real>
  {
    match j
    case Undefined => None
    case Null => Some(0.0)
    case Bool(b) => Some(if b then 1.0 else 0.0)
    case Num(n) => Some(n)
    case NotANumber => None
    case Numeral(n) => Some(n)
    case Str(s) => if s == "" then Some(0.0) else Text.ParseDecimal(s)
    case Obj(_) => None
  }

  /** A number back as a value: `NaN` when there is none. */
  function FromNumber(n: Option<real>): (r: Json)
    ensures r.Num? || r == NotANumber
    ensures ToNumber(r) == n
  {
    match n
    case Some(v) => Num(v)
    case None => NotANumber
  }

  /** `String(j)`. */
  function ToText(j: Json): (r: Json)
    ensures IsString(r)
    ensures IsString(j) ==> r == j
    ensures r != Str("")  || j == Str("")
  {
    match j
    case Undefined => Str("undefined")
    case Null => Str("null")
    case Bool(b) => Str(if b then "true" else "false")
    case Num(n) => Numeral(n)
    case NotANumber => Str("NaN")
    case Numeral(n) => j
    case Str(_) => j
    case Obj(_) => Str("[object Object]")
  }

  /** `String(n)` read back by `Number()` gives `n` again. */
  lemma NumeralRoundTrip(n: real)
    ensures ToNumber(ToText(Num(n))) == Some(n)
  {
  }

  /** JavaScript `a * k` on a value. */
  function Times(j: Json, k: real): (r: Json)
    ensures r.Num? <==> ToNumber(j).Some?
  {
    FromNumber(match ToNumber(j) case Some(v) => Some(v * k) case None => None)
  }

  /** JavaScript `a / b` on two values; division by zero is not a number. */
  function Divide(a: Json, b: Json): (r: Json)
    ensures r.Num? <==> ToNumber(a).Some? && ToNumber(b).Some? && ToNumber(b).value != 0.0
  {
    match (ToNumber(a), ToNumber(b))
    case (Some(x), Some(y)) => if y == 0.0 then NotANumber else Num(x / y)
    case _ => NotANumber
  }
}
