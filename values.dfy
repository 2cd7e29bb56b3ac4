/** The JavaScript values the producer handles: event fields, the entries of the
    domain objects (lock, cabinet, row, cage) and configuration entries. */
module JsValues {
  import Decimal

  datatype Option<+T> = None | Some(value: T)

  /** The primitive JavaScript values a property, event field or setting
      can hold here: strings, integral numbers, booleans, and the two
      nullish values `Null` and `Undefined`. Objects, arrays, symbols and
      functions are not among them. */
  datatype Value = Str(s: string) | Num(n: int) | Bool(b: bool) | Null | Undefined

  /** A plain object as the ordered list of its own enumerable entries
      (the order `Object.entries` yields). */
  type Entry = (string, Value)
  type Obj = seq<Entry>

  /** `v == null` in JavaScript: true for both null and undefined. */
  predicate IsNullish(v: Value) {
    v.Null? || v.Undefined?
  }

  /** How `${v}` renders a value inside a template literal. */
  function Render(v: Value): string {
    match v
    case Str(s) => s
    case Num(n) => Decimal.IntToString(n)
    case Bool(b) => if b then "true" else "false"
    case Null => "null"
    case Undefined => "undefined"
  }

  function Keys(o: Obj): (ks: seq<string>)
    ensures |ks| == |o|
    ensures forall i :: 0 <= i < |o| ==> ks[i] == o[i].0
  {
    if o == [] then [] else [o[0].0] + Keys(o[1..])
  }

  /** Property access `o.key`: the value of the first entry named `key`, or
      undefined when the object has no such property. */
  function Get(o: Obj, key: string): (v: Value)
    ensures key !in Keys(o) ==> v == Undefined
    ensures key in Keys(o) ==> exists i :: 0 <= i < |o| && o[i] == (key, v)
  {
    if o == [] then Undefined
    else if o[0].0 == key then o[0].1
    else (assert Keys(o) == [o[0].0] + Keys(o[1..]); Get(o[1..], key))
  }
}
