/**
 * The JavaScript values the admin front end passes around: primitives,
 * arrays, and plain records whose fields are read with `item.key`
 * (an absent field reads as `undefined`). Only what the menu and role
 * code observes of a value is modelled: its truthiness, strict equality
 * and the text a template literal such as `${item.id}` produces. Strict
 * equality (`===`) is written as Dafny's `==`, which agrees with it on
 * primitives only: on arrays `===` compares identity, so two distinct
 * arrays with the same items are unequal in JavaScript but equal here.
 */
module JsValues {

  datatype Option<+T> = None | Some(value: T)

  datatype JsValue =
    | Undefined
    | Null
    | Bool(b: bool)
    | Num(n: int)
    | Str(s: string)
    | Arr(items: seq<JsValue>)

  /** The outcome of a promise: resolved with a value or rejected with a reason. */
  datatype Reply<+T> = Resolved(value: T) | Rejected(reason: JsValue)

  /** A plain object: the fields it has, by name. */
  type Record = map<string, JsValue>

  /** `record.key`: the field, or `undefined` when the record lacks it. */
  function Get(r: Record, key: string): JsValue
  {
    if key in r then r[key] else Undefined
  }

  /** JavaScript truthiness: `undefined`, `null`, `false`, `0` and `''` are falsy. */
  predicate Truthy(v: JsValue)
  {
    match v
    case Undefined => false
    case Null => false
    case Bool(b) => b
    case Num(n) => n != 0
    case Str(s) => s != ""
    case Arr(_) => true
  }

  /** `a || b`: `a` when it is truthy, otherwise `b`. */
  function Or(a: JsValue, b: JsValue): JsValue
  {
    if Truthy(a) then a else b
  }

  /**
   * The value a chain `v0 || v1 || ... || vn` evaluates to, defined
   * independently of `Or`: the first truthy operand, or the last operand
   * when none is truthy.
   */
  function FirstTruthy(vs: seq<JsValue>): (r: JsValue)
    requires |vs| > 0
    ensures r in vs
  {
    if |vs| == 1 || Truthy(vs[0]) then vs[0] else FirstTruthy(vs[1..])
  }

  function DigitChar(d: nat): char
    requires d < 10
  {
    "0123456789"[d]
  }

  /** Decimal digits of a natural number, most significant first. */
  function NatToDecimal(n: nat): string
    decreases n
  {
    if n < 10 then [DigitChar(n)] else NatToDecimal(n / 10) + [DigitChar(n % 10)]
  }

  /** `String(n)` for an integer. */
  function IntToDecimal(i: int): string
  {
    if i < 0 then "-" + NatToDecimal(-i) else NatToDecimal(i)
  }

  /** The text `${v}` produces. An array joins its items with commas, writing nothing for `null`/`undefined` items. */
  function ToJsString(v: JsValue): string
    decreases v
  {
    match v
    case Undefined => "undefined"
    case Null => "null"
    case Bool(b) => if b then "true" else "false"
    case Num(n) => IntToDecimal(n)
    case Str(s) => s
    case Arr(items) => JoinItems(items)
  }

  function JoinItems(items: seq<JsValue>): string
    decreases items
  {
    if items == [] then ""
    else
      var head := if items[0].Undefined? || items[0].Null? then "" else ToJsString(items[0]);
      if |items| == 1 then head else head + "," + JoinItems(items[1..])
  }

  lemma {:induction false} NatToDecimalShape(n: nat)
    ensures |NatToDecimal(n)| >= 1
    ensures n < 10 <==> |NatToDecimal(n)| == 1
    ensures forall k :: 0 <= k < |NatToDecimal(n)| ==> '0' <= NatToDecimal(n)[k] <= '9'
    decreases n
  {
    if n >= 10 {
      NatToDecimalShape(n / 10);
    }
  }

  lemma {:induction false} NatToDecimalInjective(a: nat, b: nat)
    requires NatToDecimal(a) == NatToDecimal(b)
    ensures a == b
    decreases a
  {
    NatToDecimalShape(a);
    NatToDecimalShape(b);
    if a >= 10 && b >= 10 {
      var sa, sb := NatToDecimal(a), NatToDecimal(b);
      assert sa[|sa| - 1] == DigitChar(a % 10) && sb[|sb| - 1] == DigitChar(b % 10);
      assert sa[..|sa| - 1] == NatToDecimal(a / 10);
      assert sb[..|sb| - 1] == NatToDecimal(b / 10);
      NatToDecimalInjective(a / 10, b / 10);
    }
  }

  /** The decimal text of an integer starts with a minus sign exactly when the integer is negative. */
  lemma SignOfDecimal(i: int)
    ensures |IntToDecimal(i)| >= 1
    ensures IntToDecimal(i)[0] == '-' <==> i < 0
  {
    NatToDecimalShape(if i < 0 then -i else i);
  }

  /**
   * Stringifying a numeric identifier keeps distinct numbers distinct, so
   * turning `id` and `parentId` into text merges no two numeric ids.
   */
  lemma NumberTextIsInjective(a: int, b: int)
    requires ToJsString(Num(a)) == ToJsString(Num(b))
    ensures a == b
  {
    SignOfDecimal(a);
    SignOfDecimal(b);
    if a >= 0 {
      NatToDecimalInjective(a, b);
    } else {
      var sa, sb := IntToDecimal(a), IntToDecimal(b);
      assert sa[1..] == NatToDecimal(-a);
      assert sb[1..] == NatToDecimal(-b);
      NatToDecimalInjective(-a, -b);
    }
  }
}
