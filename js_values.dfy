/** The few JavaScript value semantics the component relies on:
    `undefined` and `null` as distinct absent values, truthiness of strings
    and numbers, and the short-circuit `||` operator. */
module JsValues {

  datatype Option<+T> = None | Some(value: T)

  /** A value read from a JSON response or returned by a helper:
      a string, `undefined` (an absent property) or `null`. */
  datatype JsValue = Undefined | Null | Str(s: string)

  /** JavaScript truthiness of such a value: only a non-empty string is truthy. */
  predicate Truthy(v: JsValue) {
    v.Str? && v.s != ""
  }

  /** Reading an optional property: absent reads as `undefined`. */
  function Property(p: Option<string>): (v: JsValue)
    ensures v.Undefined? <==> p.None?
    ensures p.Some? ==> v == Str(p.value)
  {
    match p
    case None => Undefined
    case Some(s) => Str(s)
  }

  /** `String(v)`, as `parseInt` applies it to its argument. */
  function ToString(v: JsValue): (s: string)
    ensures v.Str? ==> s == v.s
    ensures v.Undefined? ==> s == "undefined"
  {
    match v
    case Undefined => "undefined"
    case Null => "null"
    case Str(s) => s
  }

  /** The `||` operator: the left operand when it is truthy, the right one otherwise. */
  function Or(a: JsValue, b: JsValue): (r: JsValue)
    ensures Truthy(r) <==> Truthy(a) || Truthy(b)
    ensures Truthy(a) ==> r == a
    ensures !Truthy(a) ==> r == b
  {
    if Truthy(a) then a else b
  }

  /** A JavaScript number as `parseInt` can produce one. `NaN` is kept apart;
      `-0` is folded into `0`, which has the same (false) truthiness. */
  datatype JsNumber = NaN | Num(value: int)

  /** JavaScript truthiness of a number: neither `NaN` nor zero. */
  predicate NumberTruthy(n: JsNumber) {
    n.Num? && n.value != 0
  }

  /** `String.prototype.slice(0, n)` for a non-negative `n`: at most the first `n` characters. */
  function Prefix(s: string, n: nat): (r: string)
    ensures |r| == if |s| < n then |s| else n
    ensures r <= s
  {
    if |s| <= n then s else s[..n]
  }
}
