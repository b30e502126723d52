/** src/utils/type-checker.ts: runtime type predicates over abstract JS values. */
module TypeChecker {
  import opened JsValues

  /** `isPlainObject` (lines 1-6): `typeof` is 'object' and the value is not
      null; arrays included. */
  predicate IsPlainObject(objectable: JsValue)
    ensures IsPlainObject(objectable) <==> objectable.Object?
  {
    if TypeOf(objectable) != "object" then false
    else if objectable == Null then false
    else true
  }

  /** `isString` (lines 8-10). */
  predicate IsString(stringable: JsValue)
    ensures IsString(stringable) <==> stringable.Str?
  {
    TypeOf(stringable) == "string"
  }

  /** `hasProperty` (lines 12-19): the truthiness of the property's value. The
      optional chaining makes undefined and null fail instead of throwing, and
      an own property decides by its own value, shadowing what is inherited. */
  predicate HasProperty(holder: JsValue, prop: string)
    ensures HasProperty(holder, prop) ==> !holder.Undefined? && !holder.Null?
    ensures (holder.Object? || holder.Function?) && prop in holder.own ==>
      (HasProperty(holder, prop) <==> Truthy(holder.own[prop]))
  {
    Truthy(GetProperty(holder, prop))
  }

  /** `isFunction` (lines 21-23): truthy, with a truthy `constructor`, `call`
      and `apply`. */
  predicate IsFunction(callable: JsValue)
    ensures IsFunction(callable) ==> Truthy(callable)
  {
    Truthy(callable) && Truthy(GetProperty(callable, "constructor")) &&
    HasProperty(callable, "call") && HasProperty(callable, "apply")
  }

  /** A property that is present but falsy does not count. */
  lemma HasPropertyTestsTruthinessNotPresence(id: nat, prop: string, proto: map<string, JsValue>)
    ensures prop in Object(id, map[prop := Number(0)], proto).own
    ensures !HasProperty(Object(id, map[prop := Number(0)], proto), prop)
  {
  }

  /** Every function that inherits from `Function.prototype` and does not
      shadow `constructor`, `call` or `apply` with a falsy own value passes. */
  lemma InheritedFunctionsAreFunctions(id: nat, own: map<string, JsValue>)
    requires forall key :: key in own && key in FunctionPrototype ==> Truthy(own[key])
    ensures IsFunction(Function(id, own, FunctionPrototype))
  {
    assert "call" in FunctionPrototype && "apply" in FunctionPrototype && "constructor" in FunctionPrototype;
  }

  /** No boolean, number or string primitive passes, and neither does a value
      that is undefined or null. */
  lemma PrimitivesAreNotFunctions(v: JsValue)
    requires !v.Object? && !v.Function?
    ensures !IsFunction(v)
  {
    assert "call" !in PrimitivePrototype(v);
  }

  /** An ordinary object or array passes exactly when it has truthy own `call`
      and `apply` properties: the check is duck-typed. */
  lemma ObjectsPassOnlyWithOwnCallAndApply(id: nat, own: map<string, JsValue>, isArray: bool)
    ensures var proto := if isArray then ArrayPrototype else ObjectPrototype;
            IsFunction(Object(id, own, proto)) <==>
            ("call" in own && Truthy(own["call"]) && "apply" in own && Truthy(own["apply"]) &&
             ("constructor" !in own || Truthy(own["constructor"])))
  {
  }

  /** The callable inputs of src/utils/__test__/util.test.tsx:5-8: a class, two
      arrow functions and `Number`. */
  lemma CallablesOfTheUnitTestPass()
    ensures IsFunction(Function(20, map[], FunctionPrototype))
    ensures IsFunction(Function(21, map[], FunctionPrototype))
    ensures IsFunction(NumberConstructor)
    ensures IsFunction(Function(22, map[], FunctionPrototype))
  {
  }

  /** The non-callable inputs of src/utils/__test__/util.test.tsx:12-15: '',
      9709, {}, [] and 'function'. */
  lemma NonCallablesOfTheUnitTestFail()
    ensures !IsFunction(Str(""))
    ensures !IsFunction(Number(9709))
    ensures !IsFunction(Object(23, map[], ObjectPrototype))
    ensures !IsFunction(Object(24, map[], ArrayPrototype))
    ensures !IsFunction(Str("function"))
  {
  }
}
