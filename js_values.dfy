/**
 * The JavaScript values that `JSON.parse` produces, plus `undefined` (what
 * a missing property reads as), with the few operations the application
 * applies to them: truthiness, `||`, property access, `typeof x ===
 * 'object'` and `String(x)`.
 */
module JsValues {

  import opened Optional
  import opened Text

  /** Numbers are integers here: floating-point values are not modelled. */
  datatype JsValue =
    | Undefined
    | Null
    | Bool(b: bool)
    | Num(n: int)
    | Str(s: string)
    | Arr(items: seq<JsValue>)
    | Obj(fields: map<string, JsValue>)

  /** JavaScript truthiness: `undefined`, `null`, `false`, `0` and `""` are falsy. */
  predicate Truthy(v: JsValue) {
    match v
    case Undefined => false
    case Null => false
    case Bool(b) => b
    case Num(n) => n != 0
    case Str(s) => s != ""
    case Arr(_) => true
    case Obj(_) => true
  }

  /** `a || b`. */
  function Or(a: JsValue, b: JsValue): (r: JsValue)
    ensures Truthy(a) ==> r == a
    ensures !Truthy(a) ==> r == b
  {
    if Truthy(a) then a else b
  }

  /** `typeof v === 'object' && v !== null`: arrays and plain objects. */
  predicate IsObject(v: JsValue) {
    v.Arr? || v.Obj?
  }

  predicate IsNullish(v: JsValue) {
    v.Undefined? || v.Null?
  }

  /**
   * `v.key`: `None` when the access throws (a `TypeError` on `null` or
   * `undefined`); a property absent from an object, or any property of a
   * primitive or an array, reads as `undefined`. Properties inherited from
   * prototypes are not modelled; none of the keys read here has one.
   */
  function Member(v: JsValue, key: string): (r: Option<JsValue>)
    ensures r.None? <==> IsNullish(v)
    ensures r.Some? && !v.Obj? ==> r.value == Undefined
  {
    match v
    case Undefined => None
    case Null => None
    case Obj(m) => Some(if key in m then m[key] else Undefined)
    case _ => Some(Undefined)
  }

  /** `v?.key`: like `v.key`, but `undefined` on `null` and `undefined`. */
  function OptMember(v: JsValue, key: string): (r: JsValue)
    ensures !IsNullish(v) ==> Some(r) == Member(v, key)
    ensures IsNullish(v) ==> r == Undefined
  {
    Member(v, key).GetOr(Undefined)
  }

  /** `String(v)` (also what a template literal `${v}` inserts). */
  function ToStr(v: JsValue): string {
    match v
    case Undefined => "undefined"
    case Null => "null"
    case Bool(b) => if b then "true" else "false"
    case Num(n) => IntToString(n)
    case Str(s) => s
    // `Array.prototype.join(",")`, which renders `null` and `undefined` elements as ""
    case Arr(items) =>
      JoinItems(seq(|items|, i requires 0 <= i < |items| => if IsNullish(items[i]) then "" else ToStr(items[i])))
    case Obj(_) => "[object Object]"
  }

  /** `parts.join(",")`. */
  function JoinItems(parts: seq<string>): string {
    if parts == [] then "" else if |parts| == 1 then parts[0] else parts[0] + "," + JoinItems(parts[1..])
  }

  /** String conversion of a string is the identity; of a number, its decimal digits. */
  lemma ToStrOfPrimitives(s: string, n: nat)
    ensures ToStr(Str(s)) == s
    ensures ToStr(Num(n)) == NatToString(n)
    ensures DigitsValue(ToStr(Num(n))) == n
  {
    NatToStringRoundTrip(n);
  }
}
