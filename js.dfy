/** JavaScript values as the TypeScript side reads them out of JSON columns, with the few
    language rules the source relies on: truthiness, property access and how
    `Array.prototype.join` renders an element. Numbers are rendered by a `show` function
    the caller supplies (JavaScript's number-to-string algorithm is not modelled). */
module Js {
  import opened Wrappers
  import Text

  datatype Value =
    | Undefined
    | Null
    | Bool(b: bool)
    | Num(n: real)
    | Str(s: string)
    | Arr(items: seq<Value>)
    | Obj(props: map<string, Value>)

  /** JavaScript truthiness (NaN is not modelled). */
  predicate Truthy(v: Value) {
    match v
    case Undefined => false
    case Null => false
    case Bool(b) => b
    case Num(n) => n != 0.0
    case Str(s) => s != ""
    case Arr(_) => true
    case Obj(_) => true
  }

  /** `v == null`, which the `??` operator tests. */
  predicate Nullish(v: Value) {
    v.Undefined? || v.Null?
  }

  /** `v.key`: None when `v` is null or undefined (a TypeError); undefined for a key an
      object lacks and for every primitive. */
  function Prop(v: Value, key: string): (r: Option<Value>)
    ensures r.None? <==> Nullish(v)
    ensures v.Obj? ==> r == Some(if key in v.props then v.props[key] else Undefined)
  {
    match v
    case Undefined => None
    case Null => None
    case Obj(props) => Some(if key in props then props[key] else Undefined)
    case _ => Some(Undefined)
  }

  /** `a ?? b`. */
  function Coalesce(a: Value, b: Value): (r: Value)
    ensures Nullish(a) ==> r == b
    ensures !Nullish(a) ==> r == a
  {
    if Nullish(a) then b else a
  }

  /** The text `Array.prototype.join` writes for one element: null and undefined become
      the empty string, arrays are joined with commas, objects print as `[object Object]`. */
  function JoinText(v: Value, show: real -> string): string {
    match v
    case Undefined => ""
    case Null => ""
    case Bool(b) => if b then "true" else "false"
    case Num(n) => show(n)
    case Str(s) => s
    case Arr(items) => Text.Join(seq(|items|, i requires 0 <= i < |items| => JoinText(items[i], show)), ',')
    case Obj(_) => "[object Object]"
  }

  /** The texts of the elements of an array, as `join` writes them. */
  function Texts(values: seq<Value>, show: real -> string): (r: seq<string>)
    ensures |r| == |values| && forall i :: 0 <= i < |values| ==> r[i] == JoinText(values[i], show)
  {
    if values == [] then [] else [JoinText(values[0], show)] + Texts(values[1..], show)
  }

  /** `cond ? 1 : 0`. */
  function Flag(cond: bool): Value {
    Num(if cond then 1.0 else 0.0)
  }
}
