/** JavaScript values as the backend sees them: what `JSON.parse` yields, and
    the few language rules (truthiness, property access, `==`) its handlers rely on. */
module Js {

  /** `None` stands for JavaScript's `undefined`. */
  datatype Option<+T> = None | Some(value: T)

  /** A parsed JSON value. Numbers are integers in this model. */
  datatype Json =
    | Null
    | Bool(b: bool)
    | Num(n: int)
    | Str(s: string)
    | Arr(items: seq<Json>)
    | Obj(fields: map<string, Json>)

  /** JavaScript truthiness (`!v` is false) of a value that may be undefined:
      only undefined, null, false, 0 and "" are falsy, and every object and
      array, empty ones included, is truthy. */
  predicate Truthy(v: Option<Json>)
    ensures !Truthy(v) <==> v in {None, Some(Null), Some(Bool(false)), Some(Num(0)), Some(Str(""))}
    ensures v.Some? && (v.value.Arr? || v.value.Obj?) ==> Truthy(v)
  {
    match v
    case None => false
    case Some(Null) => false
    case Some(Bool(b)) => b
    case Some(Num(n)) => n != 0
    case Some(Str(s)) => s != ""
    case Some(_) => true
  }

  /** Property access `v.key`: undefined unless `v` is an object holding `key`. */
  function Prop(v: Json, key: string): (r: Option<Json>)
    ensures r.Some? <==> v.Obj? && key in v.fields
    ensures r.Some? ==> r.value == v.fields[key]
  {
    if v.Obj? && key in v.fields then Some(v.fields[key]) else None
  }

  /** Loose equality `a == b` between two separately parsed values of the same
      kind. Objects and arrays compare by reference, and two values parsed from
      different requests or files are never the same object. */
  predicate LooseEq(a: Json, b: Json)
    ensures LooseEq(a, b) ==> a == b && !a.Arr? && !a.Obj?
    ensures !a.Arr? && !a.Obj? && a == b ==> LooseEq(a, b)
  {
    match (a, b)
    case (Null, Null) => true
    case (Bool(x), Bool(y)) => x == y
    case (Num(x), Num(y)) => x == y
    case (Str(x), Str(y)) => x == y
    case _ => false
  }

  /** `m.id == id` for a stored message `m`: only an object whose `id`
      property is the same primitive value matches. */
  predicate HasId(m: Json, id: Json)
    ensures HasId(m, id) ==> m.Obj? && "id" in m.fields && m.fields["id"] == id && !id.Arr? && !id.Obj?
    ensures m.Obj? && "id" in m.fields && LooseEq(m.fields["id"], id) ==> HasId(m, id)
  {
    var p := Prop(m, "id");
    p.Some? && LooseEq(p.value, id)
  }
}
