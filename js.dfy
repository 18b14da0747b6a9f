/**
 * JavaScript values as the editor's node data, `onUpdate` records and storage
 * entries use them, together with the few language rules the editor depends on:
 * truthiness (`x || y`, `if (x)`), object spread (`{...a, ...b}`), property reads
 * and the text a template literal gives a value.
 */
module Js {
  import opened Options
  import opened Text

  /** A reading of the clock (`new Date()`); the model never looks inside it. */
  type Instant = int

  datatype Value =
    | Undefined
    | Null
    | Bool(b: bool)
    | Num(n: int)
    | Str(s: string)
    | Arr(items: seq<Value>)
    | Obj(fields: map<string, Value>)
    | Date(at: Instant)
    | Fn(callback: Callback)

  /** The closures the editor stores in node data. */
  datatype Callback =
    | AlertText(message: string)    // () => alert(message)
    | AlertLabelOf(updates: Value)  // () => alert(`${updates.label} clicked!`)
    | RunApiCall                    // the API node's own `apiCall`

  /** A plain object: node `data`, a partial update, a parsed JSON object. */
  type Record = map<string, Value>

  /** A computation that may throw; `Threw` carries the error's `message`. */
  datatype Attempt<+T> = Done(value: T) | Threw(message: string)

  predicate Truthy(v: Value) {
    match v
    case Undefined => false
    case Null => false
    case Bool(b) => b
    case Num(n) => n != 0
    case Str(s) => s != ""
    case _ => true
  }

  /** `v || fallback` */
  function Or(v: Value, fallback: Value): Value {
    if Truthy(v) then v else fallback
  }

  /** `r.key` on a plain object: a missing key reads as `undefined`. */
  function Get(r: Record, key: string): Value {
    if key in r then r[key] else Undefined
  }

  /** An object whose keys are the array indices `"0"`, `"1"`, ... of `items`. */
  function Indexed(items: seq<Value>): (r: Record)
    ensures forall k :: k in r ==> AllDigits(k)
    ensures forall i :: 0 <= i < |items| ==> Decimal(i) in r && r[Decimal(i)] == items[i]
  {
    if items == [] then map[]
    else
      var r := Indexed(items[..|items| - 1])[Decimal(|items| - 1) := items[|items| - 1]];
      DecimalDigits(|items| - 1);
      assert forall i :: 0 <= i < |items| - 1 ==> Decimal(i) != Decimal(|items| - 1) by {
        forall i | 0 <= i < |items| - 1 ensures Decimal(i) != Decimal(|items| - 1) {
          if Decimal(i) == Decimal(|items| - 1) {
            DecimalInjective(i, |items| - 1);
          }
        }
      }
      r
  }

  /** The one-character strings of `s`, as indexing a string yields them. */
  function Chars(s: string): seq<Value> {
    seq(|s|, i requires 0 <= i < |s| => Str([s[i]]))
  }

  /**
   * `{...v}`: the own enumerable properties of `v`. Strings and arrays spread into
   * their indices; `undefined`, `null`, booleans, numbers, dates and functions
   * have none.
   */
  function Spread(v: Value): Record {
    match v
    case Obj(fields) => fields
    case Str(s) => Indexed(Chars(s))
    case Arr(items) => Indexed(items)
    case _ => map[]
  }

  /** `v.key`: throws on `undefined` and `null`; prototype members are not modelled. */
  function Property(v: Value, key: string): Attempt<Value> {
    match v
    case Undefined => Threw("Cannot read properties of undefined")
    case Null => Threw("Cannot read properties of null")
    case Obj(fields) => Done(Get(fields, key))
    case Str(s) => Done(if key == "length" then Num(|s|) else Get(Spread(v), key))
    case Arr(items) => Done(if key == "length" then Num(|items|) else Get(Spread(v), key))
    case _ => Done(Undefined)
  }

  /**
   * The text `${v}` gives `v` in a template literal. Arrays join their elements
   * with commas (`undefined` and `null` elements give empty text); the text of a
   * date or a function is not modelled and is a fixed placeholder.
   */
  function ToText(v: Value): string
    decreases v
  {
    match v
    case Undefined => "undefined"
    case Null => "null"
    case Bool(b) => if b then "true" else "false"
    case Num(n) => IntText(n)
    case Str(s) => s
    case Arr(items) =>
      Join(seq(|items|, i requires 0 <= i < |items| =>
        if items[i].Undefined? || items[i].Null? then "" else ToText(items[i])), ",")
    case Obj(_) => "[object Object]"
    case Date(_) => "[date]"
    case Fn(_) => "[function]"
  }

  /** The message the closure shows when it runs, or the error it throws. */
  function ClickText(c: Callback): Attempt<string>
    requires !c.RunApiCall?
  {
    match c
    case AlertText(message) => Done(message)
    case AlertLabelOf(updates) =>
      match Property(updates, "label")
      case Done(text) => Done(ToText(text) + " clicked!")
      case Threw(m) => Threw(m)
  }
}
