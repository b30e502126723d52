/** src/utils/simply-compare.ts: a shallow equality on JS values. An object's
    enumerable own properties are its `own` map, so `Object.keys` is its key set
    and the key count is the map's size. */
module SimplyCompare {
  import opened JsValues
  import opened TypeChecker

  /** Same key count, and every key of `a` is a key of `b` holding a `===`
      value. */
  ghost predicate ShallowEqual(a: map<string, JsValue>, b: map<string, JsValue>)
  {
    |a| == |b| && forall key :: key in a ==> key in b && StrictEquals(a[key], b[key])
  }

  /** `isSameObject` (lines 5-17): compare key counts, then visit the keys of `a`
      one at a time and stop at the first one missing from `b` or holding a
      different value. */
  method IsSameObject(aObject: map<string, JsValue>, bObject: map<string, JsValue>) returns (same: bool)
    ensures same <==> ShallowEqual(aObject, bObject)
  {
    if |aObject| != |bObject| {
      return false;
    }
    var toVisit := aObject.Keys;
    while toVisit != {}
      invariant toVisit <= aObject.Keys
      invariant forall key :: key in aObject && key !in toVisit ==> key in bObject && StrictEquals(aObject[key], bObject[key])
      decreases |toVisit|
    {
      var aKey :| aKey in toVisit;
      if aKey !in bObject {
        return false;
      }
      if !StrictEquals(aObject[aKey], bObject[aKey]) {
        return false;
      }
      toVisit := toVisit - {aKey};
    }
    return true;
  }

  /** What `simplyCompare` decides (lines 19-26). */
  ghost predicate Compared(a: JsValue, b: JsValue)
  {
    if TypeOf(a) != TypeOf(b) then false
    else if IsPlainObject(a) && IsPlainObject(b) then ShallowEqual(a.own, b.own)
    else StrictEquals(a, b)
  }

  /** `simplyCompare` (lines 19-26). */
  method Compare(a: JsValue, b: JsValue) returns (equal: bool)
    ensures equal <==> Compared(a, b)
    ensures TypeOf(a) != TypeOf(b) ==> !equal
    ensures a.Object? && b.Object? ==> (equal <==> ShallowEqual(a.own, b.own))
    ensures !a.Object? || !b.Object? ==> (equal <==> StrictEquals(a, b))
  {
    if TypeOf(a) != TypeOf(b) {
      return false;
    }
    if IsPlainObject(a) && IsPlainObject(b) {
      equal := IsSameObject(a.own, b.own);
      return;
    }
    return StrictEquals(a, b);
  }

  /** A subset of a finite set with as many elements is the whole set. */
  lemma SubsetOfSameSizeIsEqual<T>(small: set<T>, large: set<T>)
    requires small <= large && |small| == |large|
    ensures small == large
  {
    var rest := large - small;
    assert large == small + rest;
    assert small * rest == {};
    assert |large| == |small| + |rest|;
  }

  /** Equal key counts together with key inclusion give equal key sets, so the
      shallow comparison does not depend on the order of its arguments. */
  lemma ShallowEqualIsSymmetric(a: map<string, JsValue>, b: map<string, JsValue>)
    requires ShallowEqual(a, b)
    ensures a.Keys == b.Keys
    ensures ShallowEqual(b, a)
  {
    assert a.Keys <= b.Keys;
    SubsetOfSameSizeIsEqual(a.Keys, b.Keys);
    forall key | key in b
      ensures key in a && StrictEquals(b[key], a[key])
    {
      StrictEqualsIsAnEquivalence(a[key], b[key], b[key]);
    }
  }

  /** `simplyCompare(a, b) == simplyCompare(b, a)`, and every value equals itself. */
  lemma ComparedIsSymmetricAndReflexive(a: JsValue, b: JsValue)
    ensures Compared(a, b) ==> Compared(b, a)
    ensures Compared(a, a)
  {
    StrictEqualsIsAnEquivalence(a, b, b);
    if Compared(a, b) && a.Object? && b.Object? {
      ShallowEqualIsSymmetric(a.own, b.own);
    }
    if a.Object? {
      forall key | key in a.own
        ensures StrictEquals(a.own[key], a.own[key])
      {
        StrictEqualsIsAnEquivalence(a.own[key], a.own[key], a.own[key]);
      }
    }
  }

  /** The comparison is shallow: objects whose single property holds two
      distinct objects with identical contents are different. */
  lemma NestedObjectsCompareByIdentity(inner: map<string, JsValue>)
    ensures !Compared(Object(30, map["x" := Object(32, inner, ObjectPrototype)], ObjectPrototype),
                      Object(31, map["x" := Object(33, inner, ObjectPrototype)], ObjectPrototype))
    ensures Compared(Object(30, map["x" := Object(32, inner, ObjectPrototype)], ObjectPrototype),
                     Object(31, map["x" := Object(32, inner, ObjectPrototype)], ObjectPrototype))
  {
  }

  /** Arrays are plain objects here: two distinct arrays are equal exactly when
      they hold `===` elements at the same indices. */
  lemma ArraysCompareElementwise(x: JsValue, y: JsValue)
    ensures Compared(Object(40, map["0" := x], ArrayPrototype), Object(41, map["0" := y], ArrayPrototype))
            <==> StrictEquals(x, y)
  {
  }

  /** null and an object share `typeof` 'object' but are never equal. */
  lemma NullIsNotAnObject(id: nat, own: map<string, JsValue>, proto: map<string, JsValue>)
    ensures !Compared(Null, Object(id, own, proto)) && !Compared(Object(id, own, proto), Null)
    ensures Compared(Null, Null)
  {
  }
}
