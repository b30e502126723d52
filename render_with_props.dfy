/** src/utils/render-with-props.tsx: merging a wrapper's props into a child's,
    chaining event listeners that both sides supply. A props object is the list
    of its entries, as `Object.entries` gives them; the merged result is a map
    from keys to either a plain value or a combined listener. */
module RenderWithProps {
  import opened Wrappers
  import opened JsValues

  /** `Object.entries` of a props record. */
  type Props = seq<(string, JsValue)>

  /** Entries of one object never repeat a key. */
  predicate DistinctKeys(props: Props)
  {
    forall i, j :: 0 <= i < j < |props| ==> props[i].0 != props[j].0
  }

  /** The value stored under `key` (the last entry with that key). */
  function Lookup(props: Props, key: string): (r: Option<JsValue>)
    ensures r.Some? <==> exists i :: 0 <= i < |props| && props[i].0 == key
    ensures r.Some? ==> (key, r.value) in props
    decreases |props|
  {
    if props == [] then None
    else if props[|props| - 1].0 == key then Some(props[|props| - 1].1)
    else Lookup(props[..|props| - 1], key)
  }

  /** `{ ...props }`: the record with these entries. */
  function ToRecord(props: Props): (record: map<string, JsValue>)
    ensures forall key :: key in record <==> Lookup(props, key).Some?
    ensures forall key :: key in record ==> Some(record[key]) == Lookup(props, key)
    decreases |props|
  {
    if props == [] then map[]
    else ToRecord(props[..|props| - 1])[props[|props| - 1].0 := props[|props| - 1].1]
  }

  /** `omit` (lines 59-65): every entry except those under `keyToOmit`, values
      and order unchanged. */
  function Omit(props: Props, keyToOmit: string): (r: Props)
    ensures forall entry :: entry in r <==> entry in props && entry.0 != keyToOmit
    ensures Lookup(r, keyToOmit).None?
    ensures DistinctKeys(props) ==> DistinctKeys(r)
    ensures |r| <= |props|
    decreases |props|
  {
    if props == [] then []
    else if props[0].0 == keyToOmit then Omit(props[1..], keyToOmit)
    else
      var rest := Omit(props[1..], keyToOmit);
      assert forall entry :: entry in rest ==> entry in props[1..];
      [props[0]] + rest
  }

  /** A key that starts with 'on' holding a function is an event listener. */
  predicate IsListener(key: string, value: JsValue)
  {
    |key| >= 2 && key[..2] == "on" && TypeOf(value) == "function"
  }

  /** The listeners collected under `key`, in the order of `entries`. */
  function Listeners(entries: Props, key: string): (ls: seq<JsValue>)
    ensures forall l :: l in ls ==> (key, l) in entries && IsListener(key, l)
    decreases |entries|
  {
    if entries == [] then []
    else
      var last := entries[|entries| - 1];
      Listeners(entries[..|entries| - 1], key) + (if last.0 == key && IsListener(last.0, last.1) then [last.1] else [])
  }

  /** The plain value left under `key` by the accumulator: the last entry under
      `key` that is not a listener, or `start` when there is none. */
  function PlainValue(entries: Props, key: string, start: Option<JsValue>): (r: Option<JsValue>)
    ensures r != start ==> r.Some? && (key, r.value) in entries && !IsListener(key, r.value)
    ensures (forall i :: 0 <= i < |entries| ==> entries[i].0 != key) ==> r == start
    decreases |entries|
  {
    if entries == [] then start
    else
      var last := entries[|entries| - 1];
      if last.0 == key && !IsListener(last.0, last.1) then Some(last.1)
      else PlainValue(entries[..|entries| - 1], key, start)
  }

  /** What the merged props hold under one key. */
  datatype PropOut = Plain(value: JsValue) | Combined(listeners: seq<JsValue>)

  /** The entries `mergeProps` reduces over: the origin's, then the subject's
      without `children` (line 21). */
  function PropList(originProp: Props, subjectProp: Props): Props
  {
    originProp + Omit(subjectProp, "children")
  }

  /** When no listener was collected under `key`, no entry under `key` is a
      listener. */
  lemma {:induction false} NoListenerUnderKey(entries: Props, key: string)
    requires Listeners(entries, key) == []
    ensures forall v :: (key, v) in entries ==> !IsListener(key, v)
    decreases |entries|
  {
    if entries != [] {
      var prefix := entries[..|entries| - 1];
      assert entries == prefix + [entries[|entries| - 1]];
      NoListenerUnderKey(prefix, key);
    }
  }

  /** The merged value under `key`: the combined listener if any listener was
      collected, otherwise the accumulator's plain value, seeded from the
      origin. A combined listener holds only listeners under `key` from the
      visited entries, and a plain value is never a listener: a listener in the
      origin that seeds the accumulator is also collected, and then wins. */
  function MergedProp(originProp: Props, subjectProp: Props, key: string): (r: Option<PropOut>)
    ensures r.Some? && r.value.Combined? ==>
      r.value.listeners != [] &&
      forall l :: l in r.value.listeners ==> IsListener(key, l) && (key, l) in PropList(originProp, subjectProp)
    ensures r.Some? && r.value.Plain? ==> !IsListener(key, r.value.value)
  {
    var entries := PropList(originProp, subjectProp);
    var ls := Listeners(entries, key);
    if ls != [] then Some(Combined(ls))
    else
      NoListenerUnderKey(entries, key);
      var found := Lookup(originProp, key);
      assert found.Some? ==> (key, found.value) in entries;
      match PlainValue(entries, key, found)
      case Some(v) => Some(Plain(v))
      case None => None
  }

  /** `mergeEventListener` (lines 46-57): one combined listener per key. */
  function MergeEventListener(listeners: map<string, seq<JsValue>>): (merged: map<string, PropOut>)
    ensures merged.Keys == listeners.Keys
    ensures forall key :: key in merged ==> merged[key].Combined? && merged[key].listeners == listeners[key]
  {
    map key | key in listeners :: Combined(listeners[key])
  }

  /** `{ ...acc, ...combined }` (lines 40-43): the combined listeners override
      the accumulator's plain values. */
  function Override(acc: map<string, JsValue>, combined: map<string, PropOut>): (merged: map<string, PropOut>)
    ensures merged.Keys == acc.Keys + combined.Keys
    ensures forall key :: key in combined ==> merged[key] == combined[key]
    ensures forall key :: key in acc && key !in combined ==> merged[key] == Plain(acc[key])
  {
    map key | key in acc.Keys + combined.Keys :: if key in combined then combined[key] else Plain(acc[key])
  }

  /** After visiting `entries`, the per-key listener lists and the accumulator
      hold what the reduction over `entries` gives. */
  ghost predicate Collected(entries: Props, originProp: Props,
                            eventListeners: map<string, seq<JsValue>>, acc: map<string, JsValue>)
  {
    (forall key :: key in eventListeners <==> Listeners(entries, key) != []) &&
    (forall key :: key in eventListeners ==> eventListeners[key] == Listeners(entries, key)) &&
    (forall key :: key in acc <==> PlainValue(entries, key, Lookup(originProp, key)).Some?) &&
    (forall key :: key in acc ==> Some(acc[key]) == PlainValue(entries, key, Lookup(originProp, key)))
  }

  /** Visiting a listener entry pushes it onto its key's list (lines 25-30). */
  lemma CollectListener(entries: Props, originProp: Props, eventListeners: map<string, seq<JsValue>>,
                        acc: map<string, JsValue>, key: string, value: JsValue)
    requires Collected(entries, originProp, eventListeners, acc) && IsListener(key, value)
    ensures Collected(entries + [(key, value)], originProp,
                      eventListeners[key := (if key in eventListeners then eventListeners[key] else []) + [value]], acc)
  {
    assert (entries + [(key, value)])[..|entries|] == entries;
  }

  /** Visiting any other entry stores it in the accumulator (lines 32-35). */
  lemma CollectPlain(entries: Props, originProp: Props, eventListeners: map<string, seq<JsValue>>,
                     acc: map<string, JsValue>, key: string, value: JsValue)
    requires Collected(entries, originProp, eventListeners, acc) && !IsListener(key, value)
    ensures Collected(entries + [(key, value)], originProp, eventListeners, acc[key := value])
  {
    assert (entries + [(key, value)])[..|entries|] == entries;
  }

  /** The final spread of a completed reduction is `MergedProp` key by key. */
  lemma CollectedMerge(originProp: Props, subjectProp: Props,
                       eventListeners: map<string, seq<JsValue>>, acc: map<string, JsValue>)
    requires Collected(PropList(originProp, subjectProp), originProp, eventListeners, acc)
    ensures var merged := Override(acc, MergeEventListener(eventListeners));
            forall key :: (key in merged <==> MergedProp(originProp, subjectProp, key).Some?) &&
                          (key in merged ==> Some(merged[key]) == MergedProp(originProp, subjectProp, key))
  {
  }

  /** `mergeProps` (lines 20-44): one pass over the entries pushes listeners
      into per-key lists and stores every other value in the accumulator; the
      combined listeners then override the accumulator. */
  method MergeProps(originProp: Props, subjectProp: Props) returns (merged: map<string, PropOut>)
    ensures forall key :: key in merged <==> MergedProp(originProp, subjectProp, key).Some?
    ensures forall key :: key in merged ==> Some(merged[key]) == MergedProp(originProp, subjectProp, key)
  {
    var propList := originProp + Omit(subjectProp, "children");
    var eventListeners: map<string, seq<JsValue>> := map[];
    var acc := ToRecord(originProp);
    assert propList[..0] == [];
    for i := 0 to |propList|
      invariant Collected(propList[..i], originProp, eventListeners, acc)
    {
      assert propList[..i + 1] == propList[..i] + [propList[i]];
      var (key, value) := propList[i];
      if IsListener(key, value) {
        CollectListener(propList[..i], originProp, eventListeners, acc, key, value);
        if key !in eventListeners {
          eventListeners := eventListeners[key := []];
        }
        eventListeners := eventListeners[key := eventListeners[key] + [value]];
      } else {
        CollectPlain(propList[..i], originProp, eventListeners, acc, key, value);
        acc := acc[key := value];
      }
    }
    assert propList[..|propList|] == propList;
    CollectedMerge(originProp, subjectProp, eventListeners, acc);
    merged := Override(acc, MergeEventListener(eventListeners));
  }

  /** The combined listener (lines 52-54) calls each collected listener once,
      in order, with the arguments it received; each call is recorded. */
  method InvokeCombinedListener(listeners: seq<JsValue>, args: seq<JsValue>) returns (calls: seq<(JsValue, seq<JsValue>)>)
    ensures |calls| == |listeners|
    ensures forall i :: 0 <= i < |calls| ==> calls[i] == (listeners[i], args)
  {
    calls := [];
    for i := 0 to |listeners|
      invariant |calls| == i
      invariant forall j :: 0 <= j < i ==> calls[j] == (listeners[j], args)
    {
      calls := calls + [(listeners[i], args)];
    }
  }

  /** Listeners collected from two lists of entries come in list order. */
  lemma {:induction false} ListenersAppend(a: Props, b: Props, key: string)
    ensures Listeners(a + b, key) == Listeners(a, key) + Listeners(b, key)
    decreases |b|
  {
    if b == [] {
      assert a + b == a;
    } else {
      assert (a + b)[..|a + b| - 1] == a + b[..|b| - 1];
      ListenersAppend(a, b[..|b| - 1], key);
    }
  }

  /** The accumulator after two lists of entries is the second list's run
      seeded with the first list's result. */
  lemma {:induction false} PlainValueAppend(a: Props, b: Props, key: string, start: Option<JsValue>)
    ensures PlainValue(a + b, key, start) == PlainValue(b, key, PlainValue(a, key, start))
    decreases |b|
  {
    if b == [] {
      assert a + b == a;
    } else {
      assert (a + b)[..|a + b| - 1] == a + b[..|b| - 1];
      PlainValueAppend(a, b[..|b| - 1], key, start);
    }
  }

  /** Within one object, a key contributes its single value either as a
      listener or as a plain value. */
  lemma {:induction false} OneObjectView(props: Props, key: string, start: Option<JsValue>)
    requires DistinctKeys(props)
    ensures var found := Lookup(props, key);
            Listeners(props, key) == (if found.Some? && IsListener(key, found.value) then [found.value] else []) &&
            PlainValue(props, key, start) == (if found.Some? && !IsListener(key, found.value) then found else start)
    decreases |props|
  {
    if props != [] {
      var prefix := props[..|props| - 1];
      assert DistinctKeys(prefix);
      if props[|props| - 1].0 == key {
        assert Lookup(prefix, key).None?;
      }
      OneObjectView(prefix, key, start);
    }
  }

  /** The merged value under a key, given what the origin and the subject
      (without `children`) hold there: the origin's listener before the
      subject's; otherwise the subject's plain value over the origin's; absent
      when neither has the key. */
  function ByCases(key: string, o: Option<JsValue>, s: Option<JsValue>): Option<PropOut>
  {
    var ls := (if o.Some? && IsListener(key, o.value) then [o.value] else []) +
              (if s.Some? && IsListener(key, s.value) then [s.value] else []);
    if ls != [] then Some(Combined(ls))
    else if s.Some? then Some(Plain(s.value))
    else if o.Some? then Some(Plain(o.value))
    else None
  }

  /** `MergedProp` decided key by key from the two objects' own values. */
  lemma MergedPropByCases(originProp: Props, subjectProp: Props, key: string)
    requires DistinctKeys(originProp) && DistinctKeys(subjectProp)
    ensures MergedProp(originProp, subjectProp, key) ==
            ByCases(key, Lookup(originProp, key), Lookup(Omit(subjectProp, "children"), key))
  {
    var omitted := Omit(subjectProp, "children");
    var o := Lookup(originProp, key);
    ListenersAppend(originProp, omitted, key);
    PlainValueAppend(originProp, omitted, key, o);
    OneObjectView(originProp, key, o);
    OneObjectView(omitted, key, PlainValue(originProp, key, o));
  }

  /** The entry of a distinct-key object is what `Lookup` finds. */
  lemma LookupFindsEntry(props: Props, key: string, value: JsValue)
    requires DistinctKeys(props) && (key, value) in props
    ensures Lookup(props, key) == Some(value)
  {
    var r := Lookup(props, key);
    assert r.Some?;
    var i :| 0 <= i < |props| && props[i] == (key, value);
    var j :| 0 <= j < |props| && props[j] == (key, r.value);
    assert i == j;
  }

  /** For a key both sides hold as a plain value, the subject's value wins
      (lines 21, 32-35). */
  lemma SubjectPlainValueWins(originProp: Props, subjectProp: Props, key: string, o: JsValue, s: JsValue)
    requires DistinctKeys(originProp) && DistinctKeys(subjectProp)
    requires (key, o) in originProp && (key, s) in subjectProp && key != "children"
    requires !IsListener(key, o) && !IsListener(key, s)
    ensures MergedProp(originProp, subjectProp, key) == Some(Plain(s))
  {
    LookupFindsEntry(originProp, key, o);
    LookupFindsEntry(Omit(subjectProp, "children"), key, s);
    MergedPropByCases(originProp, subjectProp, key);
  }

  /** A key only the origin holds keeps the origin's value (line 37). */
  lemma OriginOnlyKeyKeepsOriginValue(originProp: Props, subjectProp: Props, key: string, o: JsValue)
    requires DistinctKeys(originProp) && DistinctKeys(subjectProp)
    requires (key, o) in originProp && Lookup(subjectProp, key).None? && !IsListener(key, o)
    ensures MergedProp(originProp, subjectProp, key) == Some(Plain(o))
  {
    LookupFindsEntry(originProp, key, o);
    MergedPropByCases(originProp, subjectProp, key);
  }

  /** The subject's `children` never reaches the merged props: under
      'children' the result is what the origin alone gives (line 21). */
  lemma SubjectChildrenAreDropped(originProp: Props, subjectProp: Props)
    requires DistinctKeys(originProp) && DistinctKeys(subjectProp)
    ensures MergedProp(originProp, subjectProp, "children") == MergedProp(originProp, [], "children")
  {
    MergedPropByCases(originProp, subjectProp, "children");
    MergedPropByCases(originProp, [], "children");
  }

  /** Listeners under the same key from both sides are chained, the origin's
      first (lines 21, 25-30). */
  lemma ListenersChainOriginFirst(originProp: Props, subjectProp: Props, key: string, o: JsValue, s: JsValue)
    requires DistinctKeys(originProp) && DistinctKeys(subjectProp)
    requires (key, o) in originProp && (key, s) in subjectProp && key != "children"
    requires IsListener(key, o) && IsListener(key, s)
    ensures MergedProp(originProp, subjectProp, key) == Some(Combined([o, s]))
  {
    var omitted := Omit(subjectProp, "children");
    assert (key, s) in omitted;
    LookupFindsEntry(originProp, key, o);
    LookupFindsEntry(omitted, key, s);
    assert [o] + [s] == [o, s];
    assert ByCases(key, Some(o), Some(s)) == Some(Combined([o, s]));
    MergedPropByCases(originProp, subjectProp, key);
  }

  /** A collected listener overrides a plain value the other side stored under
      the same key, and a non-function under an 'on' key is a plain value
      (lines 25, 32-35, 40-43). */
  lemma ListenerOverridesPlainValue(originProp: Props, subjectProp: Props, key: string, o: JsValue, s: JsValue)
    requires DistinctKeys(originProp) && DistinctKeys(subjectProp)
    requires (key, o) in originProp && (key, s) in subjectProp && key != "children"
    requires IsListener(key, o) && !IsListener(key, s)
    ensures MergedProp(originProp, subjectProp, key) == Some(Combined([o]))
  {
    var omitted := Omit(subjectProp, "children");
    assert (key, s) in omitted;
    LookupFindsEntry(originProp, key, o);
    LookupFindsEntry(omitted, key, s);
    assert [o] + [] == [o];
    assert ByCases(key, Some(o), Some(s)) == Some(Combined([o]));
    MergedPropByCases(originProp, subjectProp, key);
  }

  /** The merged props hold exactly the keys of the origin and of the subject
      other than `children`. */
  lemma MergedKeys(originProp: Props, subjectProp: Props, key: string)
    requires DistinctKeys(originProp) && DistinctKeys(subjectProp)
    ensures MergedProp(originProp, subjectProp, key).Some? <==>
            Lookup(originProp, key).Some? || (key != "children" && Lookup(subjectProp, key).Some?)
  {
    MergedPropByCases(originProp, subjectProp, key);
    var omitted := Omit(subjectProp, "children");
    if key != "children" && Lookup(subjectProp, key).Some? {
      var v := Lookup(subjectProp, key).value;
      assert (key, v) in omitted;
    }
    if Lookup(omitted, key).Some? {
      assert (key, Lookup(omitted, key).value) in subjectProp;
    }
  }

  /** A wrapper's `onClick` and the child's `onClick` both run, the wrapper's
      first, with the click's arguments. */
  method BothClickListenersRun(wrapperClick: JsValue, childClick: JsValue, args: seq<JsValue>)
      returns (calls: seq<(JsValue, seq<JsValue>)>)
    requires wrapperClick.Function? && childClick.Function?
    ensures calls == [(wrapperClick, args), (childClick, args)]
  {
    var originProp: Props := [("onClick", wrapperClick)];
    var subjectProp: Props := [("onClick", childClick), ("children", Str("label"))];
    ListenersChainOriginFirst(originProp, subjectProp, "onClick", wrapperClick, childClick);
    var merged := MergeProps(originProp, subjectProp);
    assert "onClick" in merged;
    calls := InvokeCombinedListener(merged["onClick"].listeners, args);
  }
}
