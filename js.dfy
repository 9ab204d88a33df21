/** JavaScript values as the scripts receive them from JSON files and the
    College Football Data feed, and the coercions the scripts apply to them
    (`??`, `||`, `!!`, `String(x)`, `Number(x)`, `new Date(x)`, `<`).

    Numbers are integers (scores, weeks, identifiers, milliseconds); NaN is
    not a value but the `None` result of a numeric coercion. A key missing
    from an object reads as `Undefined`. */
module Js {
  import opened Strs

  datatype Option<+T> = None | Some(value: T)

  datatype Value =
    | Undefined
    | Null
    | Bool(b: bool)
    | Num(n: int)
    | Str(s: string)
    | Arr(elems: seq<Value>)
    | Obj(fields: map<string, Value>)

  /** `v == null` (loose equality: null or undefined) */
  predicate Nullish(v: Value) {
    v.Undefined? || v.Null?
  }

  /** `!!v` */
  predicate Truthy(v: Value) {
    match v
    case Undefined => false
    case Null => false
    case Bool(b) => b
    case Num(n) => n != 0
    case Str(s) => s != ""
    case Arr(_) => true
    case Obj(_) => true
  }

  /** `v?.[k]`: the own property `k` of an object, `undefined` otherwise. */
  function Get(v: Value, k: string): Value {
    if v.Obj? && k in v.fields then v.fields[k] else Undefined
  }

  /** `a ?? b` */
  function Coalesce(a: Value, b: Value): Value {
    if Nullish(a) then b else a
  }

  /** `a || b` */
  function Or(a: Value, b: Value): Value {
    if Truthy(a) then a else b
  }

  /** `String(v)`, also what a template literal `${v}` produces. */
  function ToStr(v: Value): string
    decreases v
  {
    match v
    case Undefined => "undefined"
    case Null => "null"
    case Bool(b) => if b then "true" else "false"
    case Num(n) => IntToStr(n)
    case Str(s) => s
    case Arr(es) =>
      // Array.prototype.join: null and undefined elements become ""
      Join(seq(|es|, i requires 0 <= i < |es| =>
        if Nullish(es[i]) then "" else ToStr(es[i])), ",")
    case Obj(_) => "[object Object]"
  }

  /** The numeric value of an optionally signed run of decimal digits;
      `Number(s)`; `None` stands for NaN. */
  function StrToNumber(s: string): Option<int> {
    var t := Trim(s);
    if t == "" then Some(0)
    else if (t[0] == '-' || t[0] == '+') && |t| > 1 && AllDigits(t[1..]) then
      Some(if t[0] == '-' then -(DigitsValue(t[1..]) as int) else DigitsValue(t[1..]))
    else if AllDigits(t) then Some(DigitsValue(t))
    else None
  }

  /** ToPrimitive: arrays and objects turn into their string form. */
  function ToPrimitive(v: Value): Value {
    if v.Arr? || v.Obj? then Str(ToStr(v)) else v
  }

  /** `Number(v)`; `None` stands for NaN. */
  function ToNumber(v: Value): Option<int> {
    match v
    case Undefined => None
    case Null => Some(0)
    case Bool(b) => Some(if b then 1 else 0)
    case Num(n) => Some(n)
    case Str(s) => StrToNumber(s)
    case Arr(_) => StrToNumber(ToStr(v))
    case Obj(_) => StrToNumber(ToStr(v))
  }

  /** Lexicographic order of strings, character by character. */
  predicate StrLess(a: string, b: string)
    decreases |a|
  {
    if a == [] then b != []
    else if b == [] then false
    else if a[0] != b[0] then a[0] < b[0]
    else StrLess(a[1..], b[1..])
  }

  /** `a < b` (abstract relational comparison). */
  predicate Less(a: Value, b: Value) {
    var pa := ToPrimitive(a);
    var pb := ToPrimitive(b);
    if pa.Str? && pb.Str? then StrLess(pa.s, pb.s)
    else
      var x := ToNumber(pa);
      var y := ToNumber(pb);
      x.Some? && y.Some? && x.value < y.value
  }

  /** Two integer scores compare as integers. */
  lemma LessOnNumbers(x: int, y: int)
    ensures Less(Num(x), Num(y)) <==> x < y
  {
  }

  /** `new Date(v).getTime()` with the string parser `parse` (which the model
      leaves abstract); `None` is an invalid date (NaN). */
  function DateValue(v: Value, parse: string -> Option<int>): Option<int> {
    match v
    case Undefined => None
    case Null => Some(0)
    case Bool(b) => Some(if b then 1 else 0)
    case Num(n) => Some(n)
    case Str(s) => parse(s)
    case Arr(_) => parse(ToStr(v))
    case Obj(_) => parse(ToStr(v))
  }

  /** `Number.isFinite(Number(v))` */
  predicate FiniteNumber(v: Value) {
    ToNumber(v).Some?
  }

  /** `/tennessee/i.test(String(v))` */
  predicate MentionsTennessee(v: Value) {
    ContainsCi(ToStr(v), "tennessee")
  }
}
