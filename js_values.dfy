/**
 * The dynamically typed values the React components handle: enough of
 * JavaScript's value space to state truthiness, `||` with a default,
 * optional chaining (`a?.b`) and strict (in)equality.
 * NaN is not a member of this model: `Number()` giving NaN is the `None`
 * result of `Numbers.ParseNumber`.
 */
module JsValues {

  datatype JsValue =
    | Undefined
    | Null
    | Bool(b: bool)
    | Num(n: real)
    | Str(s: string)
    | Object(props: map<string, JsValue>)

  /** JavaScript truthiness: undefined, null, false, 0 and "" are falsy. */
  predicate Truthy(v: JsValue)
  {
    match v
    case Undefined => false
    case Null => false
    case Bool(b) => b
    case Num(n) => n != 0.0
    case Str(s) => s != ""
    case Object(_) => true
  }

  /** `v?.key`: undefined unless `v` is an object that has the property. */
  function Prop(v: JsValue, key: string): (r: JsValue)
    ensures !v.Object? ==> r == Undefined
    ensures v.Object? && key in v.props ==> r == v.props[key]
    ensures v.Object? && key !in v.props ==> r == Undefined
  {
    if v.Object? && key in v.props then v.props[key] else Undefined
  }

  /** `a || b`: the first operand when it is truthy, otherwise the second. */
  function Or(a: JsValue, b: JsValue): (r: JsValue)
    ensures Truthy(a) ==> r == a
    ensures !Truthy(a) ==> r == b
    ensures Truthy(r) <==> Truthy(a) || Truthy(b)
  {
    if Truthy(a) then a else b
  }

  /** The empty object literal `{}`. */
  const EmptyObject: JsValue := Object(map[])
}
