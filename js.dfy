/** JavaScript values as the adapter sees them, with the few pieces of the
    language's semantics it relies on: truthiness, `||`, property access,
    `===` and the relational operators `>` and `>=`.  The host runtime's
    opaque services (number parsing, `toString`, URL parsing, JSON, random
    numbers) are collected in `Host` and passed in as values. */
module Js {

  datatype Option<+T> = None | Some(value: T)

  /** A JSON-like JavaScript value.  Numbers are reals; `NaN` is kept apart. */
  datatype JsValue =
    | Undefined
    | Null
    | Bool(b: bool)
    | Num(r: real)
    | NaN
    | Str(s: string)
    | Arr(elems: seq<JsValue>)
    | Obj(fields: map<string, JsValue>)

  /** JavaScript's ToBoolean. */
  predicate Truthy(v: JsValue)
  {
    match v
    case Undefined => false
    case Null => false
    case Bool(b) => b
    case Num(r) => r != 0.0
    case NaN => false
    case Str(s) => s != ""
    case Arr(_) => true
    case Obj(_) => true
  }

  /** `a || b`: the first operand when it is truthy, else the second. */
  function Or(a: JsValue, b: JsValue): (r: JsValue)
    ensures Truthy(a) ==> r == a
    ensures !Truthy(a) ==> r == b
  {
    if Truthy(a) then a else b
  }

  /** `v[key]` on a value that is not null or undefined (and `utils.deepAccess`
      one level deep): a missing property reads as `undefined`. */
  function Prop(v: JsValue, key: string): (r: JsValue)
    ensures r != Undefined ==> v.Obj? && key in v.fields && v.fields[key] == r
  {
    if v.Obj? && key in v.fields then v.fields[key] else Undefined
  }

  /** `a[i]` on an array; reading past the end yields `undefined`. */
  function At(a: seq<JsValue>, i: nat): (r: JsValue)
    ensures i < |a| ==> r == a[i]
    ensures i >= |a| ==> r == Undefined
  {
    if i < |a| then a[i] else Undefined
  }

  /** `a === b`.  Objects and arrays compare by reference; the values this
      adapter compares come from different sources, so two of them are never
      the same reference. */
  predicate StrictEq(a: JsValue, b: JsValue)
  {
    match a
    case Undefined => b.Undefined?
    case Null => b.Null?
    case Bool(x) => b.Bool? && b.b == x
    case Num(x) => b.Num? && b.r == x
    case NaN => false
    case Str(x) => b.Str? && b.s == x
    case Arr(_) => false
    case Obj(_) => false
  }

  /** A number produced by a parser: `None` stands for `NaN`. */
  function NumberOf(n: Option<real>): (r: JsValue)
    ensures r.Num? || r.NaN?
    ensures r.Num? <==> n.Some?
  {
    match n
    case Some(x) => Num(x)
    case None => NaN
  }

  /** JavaScript's ToNumber on the values a price can take; `None` is `NaN`.
      Strings are converted by the host.  Objects and arrays convert to `NaN`. */
  function ToNumber(strToNum: string -> Option<real>, v: JsValue): Option<real>
  {
    match v
    case Undefined => None
    case Null => Some(0.0)
    case Bool(b) => Some(if b then 1.0 else 0.0)
    case Num(r) => Some(r)
    case NaN => None
    case Str(s) => strToNum(s)
    case Arr(_) => None
    case Obj(_) => None
  }

  /** Lexicographic order on strings, character by character, as `<` on two
      strings (characters compare by Unicode scalar value). */
  predicate StrLess(a: string, b: string)
  {
    if |a| == 0 then |b| > 0
    else if |b| == 0 then false
    else if a[0] != b[0] then a[0] < b[0]
    else StrLess(a[1..], b[1..])
  }

  /** `a > b`. */
  predicate Greater(strToNum: string -> Option<real>, a: JsValue, b: JsValue)
  {
    if a.Str? && b.Str? then StrLess(b.s, a.s)
    else
      var x, y := ToNumber(strToNum, a), ToNumber(strToNum, b);
      x.Some? && y.Some? && x.value > y.value
  }

  /** `a >= b`: false whenever either side converts to `NaN`. */
  predicate GreaterEq(strToNum: string -> Option<real>, a: JsValue, b: JsValue)
  {
    if a.Str? && b.Str? then !StrLess(a.s, b.s)
    else
      var x, y := ToNumber(strToNum, a), ToNumber(strToNum, b);
      x.Some? && y.Some? && x.value >= y.value
  }

  /** What `JSON.parse(adm).gam` yields: a thrown parse error, or the `gam`
      member, absent or an object. */
  datatype GamParse = ParseError | Parsed(gam: Option<map<string, JsValue>>)

  /** The host runtime's services the adapter calls but whose workings are
      not part of this model. */
  datatype Host = Host(
    parseFloat: JsValue -> Option<real>,     // parseFloat(x); None is NaN
    parseInt: JsValue -> Option<int>,        // parseInt(x, 10); None is NaN
    strToNum: string -> Option<real>,        // ToNumber on a string
    toString: JsValue -> string,             // x.toString()
    hostname: JsValue -> JsValue,            // utils.parseUrl(x).hostname
    stringify: JsValue -> string,            // JSON.stringify(x)
    parseAdm: JsValue -> GamParse,           // JSON.parse(adm).gam
    randomDigits: (nat, nat) -> string)      // Math.floor(1E10 * Math.random()) for the bid at (seat, bid)
}
