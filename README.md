# nuK-ui Select, modelled in Dafny

This project models the core of the `Select` widget of the nuK-ui React
library, together with the utilities it is built on, and proves what the code
promises about them.

- **Index calculators.** `calcFocusIndex` picks the next focused option for a
  move direction (NEXT, PREV, FIRST, LAST, TARGET, OUT). NEXT and PREV skip
  disabled options and stay put at either end. The older `calcSelectIndex` has
  no OUT case.
- **Current Select state.** The reducer over `SelectContextType` is modelled.
  The `useCreateAction` facade is modelled too: each of its helpers dispatches
  one action.
- **Component behaviour.** The event handlers and effects of the root,
  Trigger, List and Option in `src/components/Select/index.tsx` turn events
  into dispatched actions, deferred actions and `onChange` calls.
- **Hooks.** `useInternalState` resolves the controlled or uncontrolled value.
  `useClickOutside` decides whether a document click is outside the widget.
- **Older context.** The older context in `src/components/Select/context/` is
  modelled: its total reducer, its initial state, its provider and its
  `useSelectContext` helpers.
- **Utilities.** The models cover prop merging with listener chaining
  (`render-with-props`), shallow comparison (`simply-compare`) and runtime type
  predicates (`type-checker`). They work over an abstract JavaScript value.

Modelling choices:

- DOM refs (`R`), option values (`V`), change callbacks (`C`, `F`) and DOM nodes
  (`N`) are opaque type parameters. `null` and `undefined` are `Option.None`.
- The reducer cell that the root creates with `useReducer` is the class
  `SelectStore.Store`. It holds the current cell and the ordered log of
  everything the widget sends out: dispatched actions, in-place overwrites of
  `state.value` and `onChange` calls. It also holds the queue of actions waiting
  for `requestAnimationFrame`. Its invariant is that the state is the replay of
  that log from the initial state.
- Each handler reads `view`. This is the context value its component rendered
  with, so a handler acts on the state as it was rendered, as a React closure
  does.
- The current reducer has no MOVE_OPTION case, so for that action it returns
  `undefined`. React keeps calling the reducer with what it returned. On
  `undefined`, SET_OPEN and the two ref actions spread nothing and build an
  object holding only their own field. TOGGLE_OPEN and the two registry actions
  read a field of `undefined` and throw. The cell is therefore
  `SelectReducer.Cell`: a whole state, `undefined`, a revived object, or a
  throw.
- As the code stands, no action ever changes `focusedOptionIndex`. The cell
  stays whole until the first MOVE_OPTION, and a whole state keeps its focused
  index (`SelectStore.FocusedIndexNeverChanges`).
- A MOVE_OPTION dispatched on its own leaves `undefined`, and the root's next
  render throws when it destructures the state
  (`SelectComponents.LoneMoveThrowsAtRender`).
- An option click batches MOVE_OPTION with SET_OPEN false. The cell becomes
  `{ isOpen: false }`, and the render writes the value into it. The options
  then unmount, and their registry cleanup throws
  (`SelectComponents.OptionClickRevivesCell`).
- The context's `onChange` is the `adjustedOnChange` of the root's first
  render. It decides controlled or uncontrolled by that render's external
  value, whatever the value is later (`SelectComponents.ReportThenRender`).
- The SELECT_OPTION case of the current reducer names `Actions.SELECT_OPTION`.
  `src/components/Select/contexts/type.ts` does not define that constant, so no
  action reaches the case and it is not modelled.
- JavaScript values (`JsValues.JsValue`) are `undefined`, `null`, booleans,
  integers, strings, objects and functions. Objects and functions carry an
  identity, their enumerable own properties, and their inherited properties
  flattened along the prototype chain. Arrays are objects keyed by index.

## Model

| member | source | states |
|---|---|---|
| JsArray.FindIndex | src/utils/calc-focus-index.ts:21-23 | `findIndex` returns the first index whose element passes the test, or -1 when none does |
| JsArray.SliceFrom | src/utils/calc-focus-index.ts:21 | `slice(start)` returns a suffix of the list; a negative start counts from the end |
| JsArray.Reverse | src/utils/calc-focus-index.ts:29-31 | `slice().reverse()` holds the same elements in the opposite order |
| JsArray.Every | src/hooks/use-click-outside.ts:8 | `every` is true exactly when all elements pass |
| JsArray.Any | src/hooks/use-click-outside.ts:10-14 | `some` is true exactly when one element passes |
| FocusIndex.GetOriginIndexFromReversed | src/utils/calc-focus-index.ts:8-10 | maps positions of a list of the given length onto positions of that list, and nothing else onto them |
| FocusIndex.ReversedPositionsCorrespond | src/utils/calc-focus-index.ts:29-38 | a position of the reversed copy holds the option at the mapped-back position, and mapping back twice is the identity |
| FocusIndex.ScanNext | src/utils/calc-focus-index.ts:21-25 | the NEXT scan stays put or moves forward, and from an index of at least -1 it lands on an enabled option |
| FocusIndex.ScanPrev | src/utils/calc-focus-index.ts:29-38 | the PREV scan stays put or moves back onto an enabled option |
| FocusIndex.CalcFocusIndex | src/utils/calc-focus-index.ts:12-57 | null for an empty list; a result other than the target or the current index is 0 for FIRST, the last index for LAST, or an enabled index in the move's direction for NEXT and PREV; OUT gives null unless a target seeds an unfocused list |
| FocusIndex.NextMovesToNearestEnabledAfter | src/utils/calc-focus-index.ts:19-26 | NEXT from c gives the nearest enabled index after c, or c itself when every later option is disabled; it never wraps around |
| FocusIndex.PrevMovesToNearestEnabledBefore | src/utils/calc-focus-index.ts:27-39 | PREV from c gives the nearest enabled index before c, or c itself when every earlier option is disabled |
| FocusIndex.MovesStayInRange | src/utils/calc-focus-index.ts:19-39 | from an index inside the list, NEXT and PREV stay inside it, move only in their own direction, and land only on enabled options |
| FocusIndex.NextThenPrevReturns | src/utils/calc-focus-index.ts:19-39 | from an enabled option, a NEXT that moved followed by PREV comes back to the start |
| FocusIndex.EmptyListGivesNull | src/utils/calc-focus-index.ts:15 | an empty list gives null for every direction, current index and target |
| FocusIndex.TargetSeedsUnfocusedList | src/utils/calc-focus-index.ts:16 | with null focus and a target, the result is the target whatever the direction, FIRST and OUT included |
| FocusIndex.UnfocusedStepGivesNull | src/utils/calc-focus-index.ts:19-28 | NEXT and PREV from a null index without a target give null |
| FocusIndex.AbsoluteMoves | src/utils/calc-focus-index.ts:40-53 | FIRST is 0 and LAST is length - 1 whatever the disabled flags; TARGET returns `to` unchecked, or null when absent; OUT is null |
| FocusIndex.ThreeOptionWalk | src/utils/calc-focus-index.ts:19-26 | over three enabled options, NEXT walks 0, 1, 2 and then stays on 2 |
| SelectIndex.CalcSelectIndex | src/utils/calc-select-index.ts:12-59 | null for an empty list, and OUT, which has no case, gives null unless a target seeds an unselected list |
| SelectIndex.CalcSelectIndexAgreesWithCalcFocusIndex | src/utils/calc-select-index.ts:12-59 | `calcSelectIndex` equals `calcFocusIndex` on every input; its missing OUT case falls to `default`, which gives null |
| SelectReducer.ReduceCell | src/components/Select/contexts/reducer.tsx:3-33 | on a whole state the reducer is `Reduce`, giving `undefined` for MOVE_OPTION. On `undefined` or a revived object, SET_OPEN, the ref actions and (on an object) TOGGLE_OPEN build an object holding only the fields written; TOGGLE_OPEN on `undefined` and the two registry actions throw |
| SelectReducer.Reduce | src/components/Select/contexts/reducer.tsx:3-33 | the reducer loses the state exactly for MOVE_OPTION; every other action keeps the focused index, the value and the change handler |
| SelectReducer.ToggleOpenNegatesOnlyIsOpen | src/components/Select/contexts/reducer.tsx:8-10 | TOGGLE_OPEN negates `isOpen` and keeps every other field; toggling twice gives the original state |
| SelectReducer.SetOpenStoresOnlyIsOpen | src/components/Select/contexts/reducer.tsx:11-13 | SET_OPEN stores its payload and keeps every other field |
| SelectReducer.ApplyRefReplacesOnlyItsField | src/components/Select/contexts/reducer.tsx:14-19 | APPLY_TRIGGER_REF and APPLY_LIST_REF each replace only their own ref |
| SelectReducer.ApplyOptionRefAppends | src/components/Select/contexts/reducer.tsx:20-23 | APPLY_OPTION_REF appends the descriptor, even when its id is already registered |
| SelectReducer.UnapplyRemovesFirstMatch | src/components/Select/contexts/reducer.tsx:24-31 | UNAPPLY_OPTION_REF of a registered id removes exactly the first entry with that id and keeps the rest in order, one shorter |
| SelectReducer.UnapplyAbsentIdIsNoop | src/components/Select/contexts/reducer.tsx:27-28 | UNAPPLY_OPTION_REF of an unregistered id leaves the state unchanged |
| SelectReducer.ApplyThenUnapplyRestores | src/components/Select/contexts/reducer.tsx:20-31 | registering a fresh id and then unregistering it gives back the original state |
| SelectReducer.UnapplyTwiceOfUniqueIdIsNoop | src/components/Select/contexts/reducer.tsx:24-31 | after unregistering an id held at most once, it is gone and a second unregister changes nothing |
| SelectStore.ReplayAppend | src/components/Select/index.tsx:110 | replaying a history in two parts is replaying it whole |
| SelectStore.InitialState | src/components/Select/index.tsx:110-118 | the initial state is closed and unfocused, with null refs and an empty registry, and holds the resolved value and the change handler |
| SelectStore.Render | src/components/Select/index.tsx:120-126 | the render writes the value into a whole or revived state object and keeps every other field; on `undefined` the destructuring throws |
| SelectStore.NeverWholeAgain | src/components/Select/contexts/reducer.tsx:4-33 | once the cell is not a whole state, no sequence of effects makes it whole again |
| SelectStore.FocusedIndexNeverChanges | src/components/Select/contexts/reducer.tsx:4-33 | the cell is a whole state exactly when no MOVE_OPTION has been dispatched, and a whole state keeps its `focusedOptionIndex` |
| SelectStore.DispatchAllAppend | src/components/Select/index.tsx:171-173 | dispatching a list of actions is dispatching them one after another |
| SelectStore.Store.constructor | src/components/Select/index.tsx:110-118 | the cell starts closed, unfocused, without refs or options, holding the resolved value and the change handler |
| SelectStore.Store.Dispatch | src/components/Select/index.tsx:110 | `dispatch` runs the reducer on whatever the cell holds (whole, `undefined` or revived) and logs the action; the cell stays the replay of the log |
| SelectStore.Store.CallOnChange | src/components/Select/index.tsx:251 | calling `onChange` is logged and leaves the cell alone |
| SelectStore.Store.RequestAnimationFrame | src/components/Select/index.tsx:171-173 | a deferred move is queued and nothing else changes |
| SelectStore.Store.RunAnimationFrame | src/components/Select/index.tsx:171-173 | the next frame dispatches every queued action in queue order and empties the queue |
| SelectStore.Store.ReplaceWithoutRender | src/components/Select/index.tsx:120-126 | the render destructures the state and writes the value into it in place, outside the reducer; on `undefined` it throws |
| CreateAction.ChangeSelectOpenStatus | src/components/Select/contexts/use-create-action.ts:8-17 | dispatches exactly SET_OPEN with the given flag |
| CreateAction.OpenSelectList | src/components/Select/contexts/use-create-action.ts:74 | dispatches exactly SET_OPEN true |
| CreateAction.CloseSelectList | src/components/Select/contexts/use-create-action.ts:73 | dispatches exactly SET_OPEN false |
| CreateAction.ToggleSelectOpenStatus | src/components/Select/contexts/use-create-action.ts:19-23 | dispatches exactly TOGGLE_OPEN without payload |
| CreateAction.ApplyListRef | src/components/Select/contexts/use-create-action.ts:25-32 | dispatches APPLY_LIST_REF with the ref unchanged |
| CreateAction.ApplyTriggerRef | src/components/Select/contexts/use-create-action.ts:34-41 | dispatches APPLY_TRIGGER_REF with the ref unchanged |
| CreateAction.ApplyOptionRef | src/components/Select/contexts/use-create-action.ts:43-51 | dispatches APPLY_OPTION_REF forwarding `id` and `optionInfo` unchanged |
| CreateAction.UnapplyOptionRef | src/components/Select/contexts/use-create-action.ts:53-60 | dispatches UNAPPLY_OPTION_REF with the id |
| CreateAction.MoveOption | src/components/Select/contexts/use-create-action.ts:62-70 | dispatches MOVE_OPTION carrying the direction and `to` unchanged |
| ClickOutside.ClickTarget | src/hooks/use-click-outside.ts:6 | the head of the composed path when there is one, else the event's target; absent only when both are |
| ClickOutside.HandleClickOutside | src/hooks/use-click-outside.ts:5-19 | the callback runs exactly when the target is an element, some ref is non-null, no mounted ref contains the target and the list is open |
| ClickOutside.ClosedNeverInvokes | src/hooks/use-click-outside.ts:16 | with `isOpen` false or absent the callback never runs |
| ClickOutside.InsideClickSuppresses | src/hooks/use-click-outside.ts:10-16 | a target inside any mounted ref suppresses the callback |
| ClickOutside.NoRefsOrNoElementNeverInvokes | src/hooks/use-click-outside.ts:6-8 | all refs null, no target, or a non-element target never runs the callback |
| InternalStateHook.InternalState.constructor | src/hooks/use-internal-state.ts:8 | the cell starts as `defaultValue` and nothing has been called |
| InternalStateHook.InternalState.Value | src/hooks/use-internal-state.ts:25 | the value is the external value whenever it is defined, and the cell otherwise |
| InternalStateHook.InternalState.AdjustedOnChange | src/hooks/use-internal-state.ts:12-23 | calls `onChange` at most once with the next value, and stores the value only while uncontrolled |
| InternalStateHook.UncontrolledChange | src/hooks/use-internal-state.ts:14-18 | uncontrolled: the change is reported once and the next read returns it |
| InternalStateHook.ControlledChange | src/hooks/use-internal-state.ts:20 | controlled: the change is reported but the read stays the external value and the cell is untouched |
| InternalStateHook.UncontrolledChangeWithoutListener | src/hooks/use-internal-state.ts:15-16 | without `onChange` nothing is called but the value is still stored |
| InternalStateHook.SwitchModes | src/hooks/use-internal-state.ts:10-25 | mode is re-decided on every read and change, and the cell survives a switch |
| SelectComponents.IsSelected | src/components/Select/index.tsx:372 | an option is selected only when a value is set and equals its value |
| SelectComponents.SelectedIndex | src/components/Select/index.tsx:278 | the first registered option holding the selected value, or -1 when none holds it |
| SelectComponents.TriggerHandleClick | src/components/Select/index.tsx:168-175 | toggles now, and defers a FIRST move only when no value is set, nothing is focused and the list was closed |
| SelectComponents.TriggerHandleKeyDown | src/components/Select/index.tsx:177-204 | ArrowDown and ArrowUp open the list and, with no value set, defer FIRST or LAST; other keys do nothing |
| SelectComponents.ListHandleKeyDown | src/components/Select/index.tsx:241-274 | Enter and Space report the focused option's value when focus is set, then close; ArrowDown moves NEXT except at the last index; ArrowUp moves PREV except at 0; Escape closes; other keys do nothing |
| SelectComponents.ListSeedEffect | src/components/Select/index.tsx:276-285 | an open, unfocused, non-empty list targets the first option holding the value, and dispatches nothing when none does |
| SelectComponents.OptionHandleClick | src/components/Select/index.tsx:331-337 | dispatches TARGET of this option, then SET_OPEN false, then reports the option's value |
| SelectComponents.OptionHandleMouseEnter | src/components/Select/index.tsx:339-341 | dispatches TARGET of this option |
| SelectComponents.OptionHandleMouseLeave | src/components/Select/index.tsx:343-345 | dispatches OUT |
| SelectComponents.OptionRegisterEffect | src/components/Select/index.tsx:353-364 | once mounted, registers the option's id, ref, value, disabled flag and text |
| SelectComponents.OptionUnmountEffect | src/components/Select/index.tsx:366-370 | unmounting unregisters the option's id |
| SelectComponents.RootRender | src/components/Select/index.tsx:108-126 | every render writes the hook's resolved value into the state in place, and throws when the cell is `undefined` |
| SelectComponents.RootOnClickOutside | src/components/Select/index.tsx:130-139 | the outside-click callback dispatches SET_OPEN false |
| SelectComponents.RootHandleDocumentClick | src/components/Select/index.tsx:128-141 | a document click closes the list exactly when the click-outside decision over the list and trigger refs says so |
| SelectComponents.ClosedSelectIgnoresDocumentClick | src/components/Select/index.tsx:128-141 | with the list closed, no document click dispatches anything |
| SelectComponents.SeedTargetsFirstSelectedOption | src/components/Select/index.tsx:276-285 | the seeded index holds the selected value ahead of every other option holding it, and the calculator accepts it for an unfocused list |
| SelectComponents.ArrowDownGuardAgreesWithCalculator | src/components/Select/index.tsx:256-258 | at the last index the calculator would keep the focus anyway, so the guard changes no focus |
| SelectComponents.MountThenUnmountRestoresState | src/components/Select/index.tsx:353-370 | an option that mounts with a fresh id and then unmounts leaves the state as it found it |
| SelectComponents.OptionClickRevivesCell | src/components/Select/index.tsx:331-337 | an option click and the next render leave `{ isOpen: false }` holding the rendered value, with no focused index, change handler or registry; an unmounting option's UNAPPLY_OPTION_REF then throws |
| SelectComponents.ChangesLeaveTheCell | src/components/Select/index.tsx:335 | calls of `onChange` leave the reducer cell as it is |
| SelectComponents.LoneMoveThrowsAtRender | src/components/Select/index.tsx:110-120 | a MOVE_OPTION dispatched on its own leaves `undefined`, and the next render throws |
| SelectComponents.ReportThenRender | src/components/Select/index.tsx:108-126 | a reported selection is stored only when the root was uncontrolled at its first render; the next render shows the current external value, else that selection, else what the hook held |
| SelectComponents.ClickOptionUncontrolled | src/components/Select/index.tsx:331-337 | an uncontrolled Select: clicking the option holding 'B' reports 'B' once, and the next render shows 'B' in the closed, revived object |
| SelectComponents.StaleModeDropsSelection | src/hooks/use-internal-state.ts:10-23 | a Select first controlled and later uncontrolled reports a selection but does not store it, and shows its default |
| SelectComponents.ClickTriggerTwice | src/components/Select/__test__/Select.test.tsx:18-33 | clicking the trigger of a fresh Select twice opens and then closes the list |
| LegacyContext.InitialSelectControll | src/components/Select/context/index.tsx:47-54 | closed, with no options, '' selected, the do-nothing `onChange` and null refs |
| LegacyContext.ProviderInitialState | src/components/Select/context/index.tsx:87 | the provider starts from `defaultContext` when given, otherwise closed, with no options, '' selected and null refs |
| LegacyContext.Reduce | src/components/Select/context/index.tsx:63-84 | no action changes `optionList` |
| LegacyContext.EachActionReplacesOneField | src/components/Select/context/index.tsx:65-82 | each action, APPLY_CHANGE_LISTENER included, replaces exactly the field it names |
| LegacyContext.FoldKeepsOptionList | src/components/Select/context/index.tsx:63-84 | no sequence of actions changes `optionList` |
| LegacyContext.LegacyStore.constructor | src/components/Select/context/index.tsx:86-87 | the provider's cell starts from `defaultContext || initialSelectControll` |
| LegacyContext.LegacyStore.Dispatch | src/components/Select/context/index.tsx:87 | `dispatch` runs the older reducer on the cell and logs the action |
| LegacySelectContext.ChangeSelectOpenStatus | src/components/Select/context/use-select-context.ts:8-17 | dispatches exactly 'isOpen/set_open' with the flag |
| LegacySelectContext.OpenSelect | src/components/Select/context/use-select-context.ts:63 | dispatches exactly set_open true, which opens the list |
| LegacySelectContext.CloseSelect | src/components/Select/context/use-select-context.ts:64 | dispatches exactly set_open false, which closes the list |
| LegacySelectContext.ToggleSelectOpenStatus | src/components/Select/context/use-select-context.ts:19-23 | dispatches exactly 'isOpen/toggle_open', which negates `isOpen` |
| LegacySelectContext.SelectOption | src/components/Select/context/use-select-context.ts:25-32 | dispatches exactly 'selectedOption/select_option', which stores the option as `selectedOption` |
| LegacySelectContext.ApplyListRef | src/components/Select/context/use-select-context.ts:34-41 | dispatches 'applyRef/listRef' with the ref unchanged |
| LegacySelectContext.ApplyTriggerRef | src/components/Select/context/use-select-context.ts:45-52 | dispatches 'applyRef/triggerRef' with the ref unchanged |
| LegacySelectContext.AddOptionRef | src/components/Select/context/use-select-context.ts:43 | dispatches nothing and changes nothing |
| LegacySelectContext.SelectThenOpen | src/components/Select/context/use-select-context.ts:25-32 | on a fresh provider, selecting and then opening logs exactly those two actions and leaves the option list empty |
| JsValues.TypeOf | src/utils/simply-compare.ts:20 | `typeof` is 'object' exactly for null and objects, and 'function' exactly for functions |
| JsValues.Truthy | src/utils/type-checker.ts:18 | false exactly for undefined, null, false, 0 and ''; every object and function is truthy |
| JsValues.StrictEquals | src/utils/simply-compare.ts:25 | only values of the same `typeof` are `===`; primitives compare by value and objects by identity |
| JsValues.GetProperty | src/utils/type-checker.ts:18 | optional property access finds an own property first, then an inherited one, and gives undefined on undefined or null |
| JsValues.StrictEqualsIsAnEquivalence | src/utils/simply-compare.ts:25 | `===` is reflexive, symmetric and transitive, and only relates values of the same `typeof` |
| JsValues.StrictEqualsComparesIdentity | src/utils/simply-compare.ts:13 | two objects with the same contents are `===` only when they are the same object |
| TypeChecker.IsPlainObject | src/utils/type-checker.ts:1-6 | true exactly for non-null objects, arrays included |
| TypeChecker.IsString | src/utils/type-checker.ts:8-10 | true exactly for strings |
| TypeChecker.HasProperty | src/utils/type-checker.ts:12-19 | undefined and null never have the property; an own property decides by the truthiness of its own value |
| TypeChecker.IsFunction | src/utils/type-checker.ts:21-23 | only truthy values pass |
| TypeChecker.HasPropertyTestsTruthinessNotPresence | src/utils/type-checker.ts:18 | a present but falsy property does not count |
| TypeChecker.InheritedFunctionsAreFunctions | src/utils/type-checker.ts:21-23 | every function inheriting `call`, `apply` and `constructor`, unless it shadows them with falsy values, passes |
| TypeChecker.PrimitivesAreNotFunctions | src/utils/type-checker.ts:21-23 | no primitive, undefined or null passes |
| TypeChecker.ObjectsPassOnlyWithOwnCallAndApply | src/utils/type-checker.ts:21-23 | an ordinary object or array passes exactly when it has truthy own `call` and `apply` |
| TypeChecker.CallablesOfTheUnitTestPass | src/utils/__test__/util.test.tsx:5-8 | a class, arrow functions and `Number` pass |
| TypeChecker.NonCallablesOfTheUnitTestFail | src/utils/__test__/util.test.tsx:12-15 | '', 9709, {}, [] and 'function' fail |
| SimplyCompare.IsSameObject | src/utils/simply-compare.ts:5-17 | the key walk returns true exactly when the key counts match and every key of the first object holds a `===` value in the second |
| SimplyCompare.Compare | src/utils/simply-compare.ts:19-26 | different `typeof` never compares equal; two objects compare shallowly; everything else compares with `===` |
| SimplyCompare.ShallowEqualIsSymmetric | src/utils/simply-compare.ts:5-17 | equal key counts plus inclusion give equal key sets, so argument order does not matter |
| SimplyCompare.ComparedIsSymmetricAndReflexive | src/utils/simply-compare.ts:19-26 | the comparison is symmetric and every value equals itself |
| SimplyCompare.NestedObjectsCompareByIdentity | src/utils/simply-compare.ts:13 | nested objects are compared by identity, not by contents |
| SimplyCompare.ArraysCompareElementwise | src/utils/simply-compare.ts:21 | arrays count as objects and compare index by index |
| SimplyCompare.NullIsNotAnObject | src/utils/simply-compare.ts:20-25 | null equals null but never an object, although both have `typeof` 'object' |
| RenderWithProps.Lookup | src/utils/render-with-props.tsx:37 | a key is present exactly when some entry has it, and its value is one of the entries |
| RenderWithProps.ToRecord | src/utils/render-with-props.tsx:37 | the spread record holds exactly the entries' keys, each with the value `Lookup` finds |
| RenderWithProps.Listeners | src/utils/render-with-props.tsx:25-30 | the listeners collected under a key are entries under that key that are listeners |
| RenderWithProps.NoListenerUnderKey | src/utils/render-with-props.tsx:25-30 | when nothing was collected under a key, no entry under it is a listener |
| RenderWithProps.PlainValue | src/utils/render-with-props.tsx:32-37 | the accumulator's value under a key is the seed or a non-listener entry under that key, and the seed when no entry has the key |
| RenderWithProps.MergedProp | src/utils/render-with-props.tsx:20-44 | a combined listener holds only listeners visited under the key, and a plain value is never a listener |
| RenderWithProps.Omit | src/utils/render-with-props.tsx:59-65 | keeps exactly the entries under other keys, values unchanged, and keeps keys distinct |
| RenderWithProps.MergeEventListener | src/utils/render-with-props.tsx:46-57 | one combined listener per key, holding that key's listeners |
| RenderWithProps.Override | src/utils/render-with-props.tsx:40-43 | the combined listeners override the plain values under the same key |
| RenderWithProps.MergeProps | src/utils/render-with-props.tsx:20-44 | the single pass of pushes and stores gives, key by key, the combined listener or the plain value that `MergedProp` describes |
| RenderWithProps.InvokeCombinedListener | src/utils/render-with-props.tsx:52-54 | the combined listener calls every collected listener once, in collection order, with the same arguments |
| RenderWithProps.MergedPropByCases | src/utils/render-with-props.tsx:20-44 | per key: origin listener before subject listener; otherwise the subject's plain value over the origin's; absent when neither has the key |
| RenderWithProps.SubjectPlainValueWins | src/utils/render-with-props.tsx:21-35 | for a plain key on both sides, the subject's value wins |
| RenderWithProps.OriginOnlyKeyKeepsOriginValue | src/utils/render-with-props.tsx:37 | a key only the origin holds keeps the origin's value |
| RenderWithProps.SubjectChildrenAreDropped | src/utils/render-with-props.tsx:21 | the subject's `children` never reaches the merged props |
| RenderWithProps.ListenersChainOriginFirst | src/utils/render-with-props.tsx:21-30 | listeners under one key from both sides are chained, the origin's first |
| RenderWithProps.ListenerOverridesPlainValue | src/utils/render-with-props.tsx:25-43 | a collected listener overrides a plain value under the same key, and a non-function under an 'on' key is a plain value |
| RenderWithProps.MergedKeys | src/utils/render-with-props.tsx:20-44 | the merged props hold exactly the origin's keys and the subject's keys other than `children` |
| RenderWithProps.BothClickListenersRun | src/utils/render-with-props.tsx:20-57 | a wrapper's and a child's `onClick` both run on a click, the wrapper's first, with the click's arguments |

## Left out

- Styling, JSX markup, aria attributes and the check icon are presentation only.
- DOM focus calls (`.focus()`), `useCallbackRef`, and the List and Trigger effects that register their own refs are not modelled. They are host-DOM plumbing; refs are opaque handles here.
- `requestAnimationFrame` timing is not modelled. Deferred moves are a queue that `SelectStore.Store.RunAnimationFrame` drains in order.
- `useEventListener`'s subscription to document clicks is not modelled. Only the decision made for one click is.
- React context creation and lookup (`contexts/context.tsx`, `contexts/use-select-context.ts`) and the `useCallback` memoisation are library behaviour. The missing-provider error is not modelled.
- `cloneElement`, `isValidElement`, `getValidElement` and `renderWithProps` (src/utils/render-with-props.tsx:6-18) are React element handling that this model cannot see.
- `preventDefault` and `stopPropagation` in the key handlers are not modelled. They change no widget state.
- The root captures `onChange` only in the reducer's initial state (index.tsx:114). A later change of the `onChange` prop never reaches the context. The store logs each call as an opaque callback. `SelectComponents.ReportThenRender` states what that callback does to the hook and to the next render, with the mode fixed at the first render.
- SELECT_OPTION in the current reducer is not modelled, because its constant is undefined and no action reaches it.
- JsValues.JsValue: numbers are integers. NaN, -0, fractions and symbols are not modelled, so `===` is reflexive here.
- JsValues.GetProperty: primitives expose only `constructor` through their prototype. Other inherited members, such as a string's `length`, are not modelled, because `isFunction` reads only `constructor`, `call` and `apply`.
- RenderWithProps.MergeProps: the key order of the merged object is not modelled. JavaScript lists integer-like keys first in `Object.entries`; the model keeps entries in the given order and returns a map.
- SimplyCompare.IsSameObject: it visits the keys in an unspecified order rather than `Object.keys` order. The result cannot depend on that order, and the contract states it exactly.
- SelectComponents.ListHandleKeyDown: for Enter and Space with `onChange` set and a focused index outside the registry, the source throws a TypeError. The model requires the index to be inside the registry instead.
- A cell that threw (`SelectReducer.Cell.Threw`) ends the model. React rethrows the TypeError from the root's render. What the page does then depends on error boundaries outside this code.
- SelectComponents handlers and effects read a whole rendered state. Reading a revived cell in the children is not modelled. There `focusedOptionIndex` and `optionRefList` read as `undefined`, so the `=== null` tests at index.tsx:170 and :277 fail, and an open List throws while it reads the registry at index.tsx:300.
- RenderWithProps.InvokeCombinedListener: every listener is taken to return. A listener that throws stops the `forEach` at render-with-props.tsx:53, and the later listeners do not run.
- FocusIndex.NextMovesToNearestEnabledAfter: stated only for a current index of at least -1. Below that, JavaScript's `slice` counts from the end of the list. `JsArray.SliceFrom` models this, but no lemma characterises the resulting move.
- Options whose value is `undefined` are not modelled: an option value is always defined.
- Select.test.tsx's other assertions are not modelled. They check rendered text content, which this model does not cover.
