/** JavaScript values as the console's components see them: records read by
    field name, JavaScript truthiness, `||` defaults and `String(v)`. */
module Js {

  datatype Option<T> = None | Some(value: T)

  datatype Result<T> = Ok(value: T) | TypeError

  /** A JavaScript value. Numbers are the integers the console uses
      (identifiers, prices, counters); floating point is not modelled. */
  datatype Value =
    | Undefined
    | Null
    | Bool(b: bool)
    | Num(n: int)
    | Str(s: string)
    | Arr(items: seq<Value>)
    | Obj(fields: map<string, Value>)

  /** A plain object: field name to value. A missing field reads as `undefined`. */
  type Record = map<string, Value>

  /** JavaScript truthiness: `undefined`, `null`, `false`, `0` and `""` are falsy. */
  predicate Truthy(v: Value) {
    match v
    case Undefined => false
    case Null => false
    case Bool(b) => b
    case Num(n) => n != 0
    case Str(s) => s != ""
    case Arr(_) => true
    case Obj(_) => true
  }

  /** `undefined` or `null`: the two values `x ?? y` and `x?.f` treat as absent. */
  predicate IsNullish(v: Value) {
    v == Undefined || v == Null
  }

  /** `r[k]` on a record. */
  function Get(r: Record, k: string): (v: Value)
    ensures k !in r ==> v == Undefined
    ensures k in r ==> v == r[k]
  {
    if k in r then r[k] else Undefined
  }

  /** `v.k` on a value that is not nullish (on `null` or `undefined` it
      throws, which callers model): only objects have fields. */
  function Prop(v: Value, k: string): Value
    requires !IsNullish(v)
  {
    match v
    case Obj(f) => Get(f, k)
    case _ => Undefined
  }

  /** `items.map(item => item.k)`: the callback visits the entries in order,
      and reading `.k` of a `null` or `undefined` entry is a TypeError. */
  function MapProp(items: seq<Value>, k: string): (r: Result<seq<Value>>)
    ensures r.Ok? <==> forall i :: 0 <= i < |items| ==> !IsNullish(items[i])
    ensures r.Ok? ==> |r.value| == |items|
    ensures r.Ok? ==> forall i :: 0 <= i < |items| ==> r.value[i] == Prop(items[i], k)
    decreases |items|
  {
    if items == [] then Ok([])
    else if IsNullish(items[0]) then TypeError
    else match MapProp(items[1..], k)
      case TypeError => TypeError
      case Ok(rest) => Ok([Prop(items[0], k)] + rest)
  }

  /** `a || b`. */
  function Or(a: Value, b: Value): (r: Value)
    ensures Truthy(a) ==> r == a
    ensures !Truthy(a) ==> r == b
  {
    if Truthy(a) then a else b
  }

  // ---------------------------------------------------------------------------
  // Characters and strings (ASCII letters only; see README)

  function LowerChar(c: char): char {
    if 'A' <= c <= 'Z' then (c as int + 32) as char else c
  }

  function UpperChar(c: char): char {
    if 'a' <= c <= 'z' then (c as int - 32) as char else c
  }

  /** `s.toLowerCase()`. */
  function Lower(s: string): (r: string)
    ensures |r| == |s|
    ensures forall i :: 0 <= i < |s| ==> r[i] == LowerChar(s[i])
  {
    seq(|s|, i requires 0 <= i < |s| => LowerChar(s[i]))
  }

  /** `s.includes(t)`: `t` occurs in `s` at some position. */
  predicate Contains(s: string, t: string) {
    exists i | 0 <= i <= |s| - |t| :: OccursAt(s, t, i)
  }

  predicate OccursAt(s: string, t: string, i: int) {
    0 <= i && i + |t| <= |s| && s[i..i + |t|] == t
  }

  function DigitChar(d: nat): char
    requires d < 10
  {
    "0123456789"[d]
  }

  function NatToString(n: nat): (r: string)
    ensures |r| > 0
    decreases n
  {
    if n < 10 then [DigitChar(n)] else NatToString(n / 10) + [DigitChar(n % 10)]
  }

  /** `String(v)`: the text the table's search compares against. */
  function StringOf(v: Value): string
    decreases v
  {
    match v
    case Undefined => "undefined"
    case Null => "null"
    case Bool(b) => if b then "true" else "false"
    case Num(n) => if n < 0 then "-" + NatToString(-n) else NatToString(n)
    case Str(s) => s
    case Arr(items) => JoinComma(seq(|items|, i requires 0 <= i < |items| =>
                         if IsNullish(items[i]) then "" else StringOf(items[i])))
    case Obj(_) => "[object Object]"
  }

  /** `parts.join(",")`. */
  function JoinComma(parts: seq<string>): string {
    if |parts| == 0 then ""
    else if |parts| == 1 then parts[0]
    else parts[0] + "," + JoinComma(parts[1..])
  }
}
