/** An abstract JavaScript value, just rich enough for the runtime checks in
    src/utils/type-checker.ts and src/utils/simply-compare.ts and for the props
    of src/utils/render-with-props.tsx.

    Objects and functions carry an identity `id` (what `===` compares), their
    enumerable own string-keyed properties `own`, and `proto`, the properties
    they inherit, flattened along the prototype chain. Arrays are objects whose
    own keys are their indices. Numbers are integers. */
module JsValues {

  datatype JsValue =
    | Undefined
    | Null
    | Boolean(b: bool)
    | Number(n: int)
    | Str(s: string)
    | Object(id: nat, own: map<string, JsValue>, proto: map<string, JsValue>)
    | Function(id: nat, own: map<string, JsValue>, proto: map<string, JsValue>)

  /** Identities 1 to 8 are taken by the built-in functions below. */
  const CallMethod: JsValue := Function(1, map[], map[])
  const ApplyMethod: JsValue := Function(2, map[], map[])
  const FunctionConstructor: JsValue := Function(3, map[], map[])
  const FunctionPrototype: map<string, JsValue> :=
    map["call" := CallMethod, "apply" := ApplyMethod, "constructor" := FunctionConstructor]
  const ObjectConstructor: JsValue := Function(4, map[], FunctionPrototype)
  const ArrayConstructor: JsValue := Function(5, map[], FunctionPrototype)
  const BooleanConstructor: JsValue := Function(6, map[], FunctionPrototype)
  const StringConstructor: JsValue := Function(7, map[], FunctionPrototype)
  const NumberConstructor: JsValue := Function(8, map[], FunctionPrototype)
  const ObjectPrototype: map<string, JsValue> := map["constructor" := ObjectConstructor]
  const ArrayPrototype: map<string, JsValue> := map["constructor" := ArrayConstructor]

  /** The operator `typeof`. */
  function TypeOf(v: JsValue): (t: string)
    ensures t in {"undefined", "object", "boolean", "number", "string", "function"}
    ensures t == "object" <==> v.Null? || v.Object?
    ensures t == "function" <==> v.Function?
  {
    match v
    case Undefined => "undefined"
    case Null => "object"
    case Boolean(_) => "boolean"
    case Number(_) => "number"
    case Str(_) => "string"
    case Object(_, _, _) => "object"
    case Function(_, _, _) => "function"
  }

  /** `Boolean(v)`: false exactly for undefined, null, false, 0 and ''. Every
      object and function is truthy, whatever it holds. */
  predicate Truthy(v: JsValue)
    ensures Truthy(v) ==> !v.Undefined? && !v.Null?
    ensures v.Object? || v.Function? ==> Truthy(v)
    ensures Truthy(v) <==> v != Boolean(false) && v != Number(0) && v != Str("") && !v.Undefined? && !v.Null?
  {
    match v
    case Undefined => false
    case Null => false
    case Boolean(b) => b
    case Number(n) => n != 0
    case Str(s) => s != ""
    case Object(_, _, _) => true
    case Function(_, _, _) => true
  }

  /** The inherited properties of a boolean, number or string primitive. */
  function PrimitivePrototype(v: JsValue): map<string, JsValue>
  {
    match v
    case Boolean(_) => map["constructor" := BooleanConstructor]
    case Number(_) => map["constructor" := NumberConstructor]
    case Str(_) => map["constructor" := StringConstructor]
    case _ => map[]
  }

  /** `v?.[key]`: an own property first, then an inherited one, else undefined;
      undefined and null give undefined, as optional chaining does. */
  function GetProperty(v: JsValue, key: string): (r: JsValue)
    ensures (v.Object? || v.Function?) && key in v.own ==> r == v.own[key]
    ensures (v.Object? || v.Function?) && key !in v.own && key !in v.proto ==> r == Undefined
    ensures v.Undefined? || v.Null? ==> r == Undefined
  {
    match v
    case Undefined => Undefined
    case Null => Undefined
    case Object(_, own, proto) =>
      if key in own then own[key] else if key in proto then proto[key] else Undefined
    case Function(_, own, proto) =>
      if key in own then own[key] else if key in proto then proto[key] else Undefined
    case _ =>
      var proto := PrimitivePrototype(v);
      if key in proto then proto[key] else Undefined
  }

  /** `a === b`: primitives by value, objects and functions by identity. */
  predicate StrictEquals(a: JsValue, b: JsValue)
    ensures StrictEquals(a, b) ==> TypeOf(a) == TypeOf(b)
    ensures !a.Object? && !a.Function? ==> (StrictEquals(a, b) <==> a == b)
    ensures a.Object? && b.Object? ==> (StrictEquals(a, b) <==> a.id == b.id)
  {
    match (a, b)
    case (Undefined, Undefined) => true
    case (Null, Null) => true
    case (Boolean(x), Boolean(y)) => x == y
    case (Number(x), Number(y)) => x == y
    case (Str(x), Str(y)) => x == y
    case (Object(i, _, _), Object(j, _, _)) => i == j
    case (Function(i, _, _), Function(j, _, _)) => i == j
    case _ => false
  }

  /** `===` is reflexive and symmetric on this model, and only relates values
      of the same `typeof`. */
  lemma StrictEqualsIsAnEquivalence(a: JsValue, b: JsValue, c: JsValue)
    ensures StrictEquals(a, a)
    ensures StrictEquals(a, b) ==> StrictEquals(b, a)
    ensures StrictEquals(a, b) && StrictEquals(b, c) ==> StrictEquals(a, c)
    ensures StrictEquals(a, b) ==> TypeOf(a) == TypeOf(b)
  {
  }

  /** Two objects with the same contents but different identities are not `===`. */
  lemma StrictEqualsComparesIdentity(own: map<string, JsValue>, proto: map<string, JsValue>, i: nat, j: nat)
    ensures StrictEquals(Object(i, own, proto), Object(j, own, proto)) <==> i == j
  {
  }
}
