/** JavaScript values as the components handle them: plain data decoded from
    JSON or typed into a form. Objects are finite maps from property names to
    values, so object spread is map union and a computed-key assignment is a
    map update. Numbers are integers: no component here computes with
    fractions. */
module Js {

  datatype Value =
    | Undefined
    | Null
    | Bool(b: bool)
    | Num(n: int)
    | Str(s: string)
    | Arr(items: seq<Value>)
    | Obj(props: map<string, Value>)

  type Props = map<string, Value>

  /** `o[k]`: a missing property reads as `undefined`. */
  function Get(o: Props, k: string): Value {
    if k in o then o[k] else Undefined
  }

  /** `null` or `undefined`: reading a property of either throws. */
  predicate Nullish(v: Value) {
    v.Undefined? || v.Null?
  }

  /** The truthiness that `if (v)`, `!v` and `||` test. */
  predicate Truthy(v: Value) {
    match v
    case Undefined => false
    case Null => false
    case Bool(b) => b
    case Num(n) => n != 0
    case Str(s) => s != ""
    case Arr(_) => true
    case Obj(_) => true
  }

  /** `a || b`: the left operand when it is truthy, else the right one. */
  function Or(a: Value, b: Value): Value {
    if Truthy(a) then a else b
  }

  /** The own properties that `{...v}` copies. Spreading a primitive copies
      nothing; the index keys that spreading a string or array produces are
      not modelled. */
  function SpreadOf(v: Value): Props {
    if v.Obj? then v.props else map[]
  }

  /** Optional chaining `v?.k`: `undefined` when `v` is nullish, and when `v`
      is a primitive without such a property. */
  function Prop(v: Value, k: string): Value {
    if v.Obj? then Get(v.props, k) else Undefined
  }

  /** `a` and `b` agree on every property except `k`. */
  ghost predicate SameExcept<V>(a: map<string, V>, b: map<string, V>, k: string) {
    forall j | j in a || j in b :: j != k ==> j in a && j in b && a[j] == b[j]
  }

  /** `{...o, [k]: v}`: property `k` becomes `v` and nothing else changes. */
  function Put(o: Props, k: string, v: Value): (r: Props)
    ensures k in r && r[k] == v
    ensures SameExcept(o, r, k)
    ensures r.Keys == o.Keys + {k}
  {
    o[k := v]
  }

  /** Strings as JavaScript values. */
  function Strs(xs: seq<string>): (r: seq<Value>)
    ensures |r| == |xs|
    ensures forall i :: 0 <= i < |xs| ==> r[i] == Str(xs[i])
  {
    if xs == [] then [] else [Str(xs[0])] + Strs(xs[1..])
  }
}
