/**
 * The untyped values that flow from the language model's JSON into the
 * dashboard, and the three JavaScript coercions the dashboard applies to
 * them: truthiness (`x || d`), `String(x)` and `Number(x)`.
 */
module JsValue {

  import opened Wrappers
  import opened Text

  /** A JavaScript value as `JSON.parse` can produce it, plus `undefined` for a missing property. */
  datatype Value =
    | Undefined
    | Null
    | Bool(b: bool)
    | Num(n: real)
    | Str(s: string)
    | Arr(items: seq<Value>)
    | Obj(fields: map<string, Value>)

  /** JavaScript truthiness. A decoded number is never NaN, so only zero is falsy. */
  predicate Truthy(v: Value) {
    match v
    case Undefined => false
    case Null => false
    case Bool(b) => b
    case Num(n) => n != 0.0
    case Str(s) => s != ""
    case _ => true
  }

  /** `v == null` with JavaScript's loose equality. */
  predicate Nullish(v: Value) {
    v.Undefined? || v.Null?
  }

  /**
   * Reading `v.key`. `None` is the TypeError thrown when `v` is null or
   * undefined; a missing own property reads as `undefined`.
   */
  function Prop(v: Value, key: string): (r: Option<Value>)
    ensures r.None? <==> Nullish(v)
    ensures v.Obj? && key in v.fields ==> r == Some(v.fields[key])
  {
    match v
    case Undefined => None
    case Null => None
    case Obj(f) => Some(if key in f then f[key] else Undefined)
    case _ => Some(Undefined)
  }

  /** `v.key` where `v` is already known not to be nullish. */
  function Field(v: Value, key: string): (r: Value)
    ensures !Nullish(v) ==> Prop(v, key) == Some(r)
  {
    match Prop(v, key)
    case None => Undefined
    case Some(x) => x
  }

  /** JavaScript `String(v)`. */
  function ToStr(v: Value): string
    decreases v
  {
    match v
    case Undefined => "undefined"
    case Null => "null"
    case Bool(b) => if b then "true" else "false"
    case Num(n) => NumberToString(n)
    case Str(s) => s
    case Arr(items) =>
      JoinComma(seq(|items|, i requires 0 <= i < |items| =>
        if Nullish(items[i]) then "" else ToStr(items[i])))
    case Obj(_) => "[object Object]"
  }

  /** `Array.prototype.join` with the default separator. */
  function JoinComma(parts: seq<string>): string {
    if |parts| == 0 then ""
    else if |parts| == 1 then parts[0]
    else parts[0] + "," + JoinComma(parts[1..])
  }

  /** Decimal rendering of a number, without exponent notation. */
  function NumberToString(x: real): string {
    if x < 0.0 then "-" + UnsignedToString(-x) else UnsignedToString(x)
  }

  function UnsignedToString(x: real): string
    requires x >= 0.0
  {
    var whole := x.Floor;
    var frac := x - whole as real;
    NatToDecimal(whole) + (if frac == 0.0 then "" else "." + FractionDigits(frac, 20))
  }

  /** Up to `fuel` decimal digits of a fraction in [0, 1), stopping once the rest is zero. */
  function FractionDigits(f: real, fuel: nat): string
    requires 0.0 <= f < 1.0
    decreases fuel
  {
    if f == 0.0 || fuel == 0 then ""
    else
      var d := (f * 10.0).Floor;
      [DigitChar(d)] + FractionDigits(f * 10.0 - d as real, fuel - 1)
  }

  /** A JavaScript number: a real value or NaN. */
  datatype JsNumber = Finite(r: real) | NaN

  /** JavaScript `Number(v)`. Strings, arrays and objects go through their string form. */
  function ToNumber(v: Value): JsNumber {
    match v
    case Undefined => NaN
    case Null => Finite(0.0)
    case Bool(b) => Finite(if b then 1.0 else 0.0)
    case Num(n) => Finite(n)
    case Str(s) => StringToNumber(s)
    case _ => StringToNumber(ToStr(v))
  }

  /** JavaScript's StringToNumber for an optionally signed decimal literal; white space is trimmed and "" is 0. */
  function StringToNumber(s: string): JsNumber {
    var t := Trim(s);
    if t == [] then Finite(0.0)
    else if t[0] == '-' then
      match UnsignedDecimal(t[1..])
      case Finite(x) => Finite(-x)
      case NaN => NaN
    else if t[0] == '+' then UnsignedDecimal(t[1..])
    else UnsignedDecimal(t)
  }

  /** Digits with at most one decimal point and at least one digit: `12`, `4.50`, `.5`, `5.`. */
  function UnsignedDecimal(s: string): (r: JsNumber)
    ensures r.Finite? ==> r.r >= 0.0
  {
    match IndexOf(s, '.')
    case None =>
      if s != [] && AllDigits(s) then Finite(DigitsValue(s) as real) else NaN
    case Some(k) =>
      var whole := s[..k];
      var frac := s[k + 1..];
      if AllDigits(whole) && AllDigits(frac) && |whole| + |frac| > 0
      then Finite(DigitsValue(whole) as real + DigitsValue(frac) as real / Pow10(|frac|) as real)
      else NaN
  }

  /** `Number(v) || d`: the number `v` denotes, or `d` when that is NaN or zero. */
  function NumberOr(v: Value, d: real): (r: real)
    ensures ToNumber(v).Finite? && ToNumber(v).r != 0.0 ==> r == ToNumber(v).r
    ensures ToNumber(v) == NaN || ToNumber(v) == Finite(0.0) ==> r == d
  {
    match ToNumber(v)
    case NaN => d
    case Finite(x) => if x == 0.0 then d else x
  }

  /** `v || d` for a field the dashboard stores as text. */
  function StrOr(v: Value, d: string): (r: string)
    ensures Truthy(v) ==> r == ToStr(v)
    ensures !Truthy(v) ==> r == d
  {
    if Truthy(v) then ToStr(v) else d
  }
}
