/** The event-to-action rules of src/components/Select/index.tsx. Every handler
    receives `view`, the context value its component rendered with, and sends its
    effects through the root's store. DOM focus calls, `preventDefault` and
    `stopPropagation` are not modelled. */
module SelectComponents {
  import opened Wrappers
  import opened JsArray
  import opened SelectTypes
  import opened SelectReducer
  import opened SelectStore
  import FocusIndex
  import ClickOutside
  import CreateAction
  import InternalStateHook

  /** Option's `isSelected` (index.tsx:372): `value === optionValue`. An option
      value is always defined, so nothing is selected while the value is unset. */
  predicate IsSelected<V(==)>(value: Option<V>, optionValue: V)
    ensures IsSelected(value, optionValue) ==> value.Some?
  {
    value == Some(optionValue)
  }

  /** The lookup of List's seed effect (index.tsx:278): the first registered
      option holding the selected value, or -1. */
  function SelectedIndex<R, V(==)>(optionRefList: seq<OptionRefInfo<R, V>>, value: Option<V>): (k: int)
    ensures -1 <= k < |optionRefList|
    ensures 0 <= k ==>
      IsSelected(value, optionRefList[k].optionInfo.optionValue) &&
      forall i :: 0 <= i < k ==> !IsSelected(value, optionRefList[i].optionInfo.optionValue)
    ensures k < 0 ==> forall i :: 0 <= i < |optionRefList| ==> !IsSelected(value, optionRefList[i].optionInfo.optionValue)
  {
    FindIndex(optionRefList, (option: OptionRefInfo<R, V>, index: int) => value == Some(option.optionInfo.optionValue))
  }

  /** Trigger's `handleClick` (index.tsx:168-175): toggle now, and ask for FIRST
      on the next frame only when no value is set, nothing is focused and the
      list was closed. */
  method TriggerHandleClick<R, V, C>(store: Store<R, V, C>, view: SelectState<R, V, C>)
    requires store.Valid()
    modifies store
    ensures store.Valid()
    ensures store.effects == old(store.effects) + [Dispatched(ToggleOpen)]
    ensures store.pending == old(store.pending) +
      (if view.value.None? && view.focusedOptionIndex.None? && !view.isOpen
       then [MoveOption(DirectionInfo(First, None))] else [])
  {
    CreateAction.ToggleSelectOpenStatus(store);
    if view.value.None? && view.focusedOptionIndex.None? && !view.isOpen {
      store.RequestAnimationFrame(MoveOption(DirectionInfo(First, None)));
    }
  }

  /** Trigger's `handleKeyDown` (index.tsx:177-204): ArrowDown and ArrowUp open
      the list and, with no value set, ask for FIRST or LAST on the next frame;
      every other key does nothing. */
  method TriggerHandleKeyDown<R, V, C>(store: Store<R, V, C>, view: SelectState<R, V, C>, key: string)
    requires store.Valid()
    modifies store
    ensures store.Valid()
    ensures store.effects == old(store.effects) +
      (if key == "ArrowDown" || key == "ArrowUp" then [Dispatched(SetOpen(true))] else [])
    ensures store.pending == old(store.pending) +
      (if view.value.Some? then []
       else if key == "ArrowDown" then [MoveOption(DirectionInfo(First, None))]
       else if key == "ArrowUp" then [MoveOption(DirectionInfo(Last, None))]
       else [])
  {
    if key == "ArrowDown" {
      CreateAction.OpenSelectList(store);
      if view.value.None? {
        store.RequestAnimationFrame(MoveOption(DirectionInfo(First, None)));
      }
    } else if key == "ArrowUp" {
      CreateAction.OpenSelectList(store);
      if view.value.None? {
        store.RequestAnimationFrame(MoveOption(DirectionInfo(Last, None)));
      }
    }
  }

  /** List's `handleKeyDown` (index.tsx:241-274). Enter and Space report the
      focused option's value to `onChange` when something is focused and then
      close; ArrowDown moves NEXT unless the last option is focused; ArrowUp
      moves PREV unless the first is; Escape closes; other keys do nothing.
      Reading the focused entry of the registry throws in the source when the
      index is outside it, so callers keep it inside. */
  method ListHandleKeyDown<R, V, C>(store: Store<R, V, C>, view: SelectState<R, V, C>, key: string)
    requires store.Valid()
    requires (key == "Enter" || key == " ") && view.onChange.Some? && view.focusedOptionIndex.Some? ==>
      0 <= view.focusedOptionIndex.value < |view.optionRefList|
    modifies store
    ensures store.Valid() && store.pending == old(store.pending)
    ensures key == "Enter" || key == " " ==>
      store.effects == old(store.effects) +
        (if view.focusedOptionIndex.Some? && view.onChange.Some?
         then [Changed(view.onChange.value, view.optionRefList[view.focusedOptionIndex.value].optionInfo.optionValue)]
         else []) +
        [Dispatched(SetOpen(false))]
    ensures key == "ArrowDown" ==>
      store.effects == old(store.effects) +
        (if view.focusedOptionIndex == Some(|view.optionRefList| - 1) then []
         else [Dispatched(MoveOption(DirectionInfo(Next, None)))])
    ensures key == "ArrowUp" ==>
      store.effects == old(store.effects) +
        (if view.focusedOptionIndex == Some(0) then [] else [Dispatched(MoveOption(DirectionInfo(Prev, None)))])
    ensures key == "Escape" ==> store.effects == old(store.effects) + [Dispatched(SetOpen(false))]
    ensures key != "Enter" && key != " " && key != "ArrowDown" && key != "ArrowUp" && key != "Escape" ==>
      store.effects == old(store.effects)
  {
    if key == "Enter" || key == " " {
      if view.focusedOptionIndex.Some? && view.onChange.Some? {
        store.CallOnChange(view.onChange.value, view.optionRefList[view.focusedOptionIndex.value].optionInfo.optionValue);
      }
      CreateAction.CloseSelectList(store);
    } else if key == "ArrowDown" {
      if view.focusedOptionIndex == Some(|view.optionRefList| - 1) {
        return;
      }
      CreateAction.MoveOption(store, Next, None);
    } else if key == "ArrowUp" {
      if view.focusedOptionIndex == Some(0) {
        return;
      }
      CreateAction.MoveOption(store, Prev, None);
    } else if key == "Escape" {
      CreateAction.CloseSelectList(store);
    }
  }

  /** List's seed effect (index.tsx:276-285): when the list is open, nothing is
      focused and options are registered, target the first option holding the
      selected value; dispatch nothing when none holds it. */
  method ListSeedEffect<R, V(==), C>(store: Store<R, V, C>, view: SelectState<R, V, C>)
    requires store.Valid()
    modifies store
    ensures store.Valid() && store.pending == old(store.pending)
    ensures var k := SelectedIndex(view.optionRefList, view.value);
      store.effects == old(store.effects) +
        (if view.isOpen && view.focusedOptionIndex.None? && |view.optionRefList| > 0 && 0 <= k
         then [Dispatched(MoveOption(DirectionInfo(Target, Some(k))))] else [])
  {
    if view.isOpen && view.focusedOptionIndex.None? && |view.optionRefList| > 0 {
      var currentSelectedIndex := SelectedIndex(view.optionRefList, view.value);
      if currentSelectedIndex < 0 {
        return;
      }
      CreateAction.MoveOption(store, Target, Some(currentSelectedIndex));
    }
  }

  /** Option's `handleOptionClick` (index.tsx:331-337): target this option, close
      the list, then report its value. */
  method OptionHandleClick<R, V, C>(store: Store<R, V, C>, view: SelectState<R, V, C>, optionIndex: int, optionValue: V)
    requires store.Valid()
    modifies store
    ensures store.Valid() && store.pending == old(store.pending)
    ensures store.effects == old(store.effects) +
      [Dispatched(MoveOption(DirectionInfo(Target, Some(optionIndex)))), Dispatched(SetOpen(false))] +
      (if view.onChange.Some? then [Changed(view.onChange.value, optionValue)] else [])
  {
    CreateAction.MoveOption(store, Target, Some(optionIndex));
    CreateAction.CloseSelectList(store);
    if view.onChange.Some? {
      store.CallOnChange(view.onChange.value, optionValue);
    }
  }

  /** Option's `handleMouseEnter` (index.tsx:339-341): target this option. */
  method OptionHandleMouseEnter<R, V, C>(store: Store<R, V, C>, optionIndex: int)
    requires store.Valid()
    modifies store
    ensures store.Valid() && store.pending == old(store.pending)
    ensures store.effects == old(store.effects) + [Dispatched(MoveOption(DirectionInfo(Target, Some(optionIndex))))]
  {
    CreateAction.MoveOption(store, Target, Some(optionIndex));
  }

  /** Option's `handleMouseLeave` (index.tsx:343-345): move OUT. */
  method OptionHandleMouseLeave<R, V, C>(store: Store<R, V, C>)
    requires store.Valid()
    modifies store
    ensures store.Valid() && store.pending == old(store.pending)
    ensures store.effects == old(store.effects) + [Dispatched(MoveOption(DirectionInfo(Out, None)))]
  {
    CreateAction.MoveOption(store, Out, None);
  }

  /** Option's registration effect (index.tsx:353-364): once its element is
      mounted, register its id, ref, value, disabled flag and text. */
  method OptionRegisterEffect<R, V, C>(store: Store<R, V, C>, optionId: string, optionRef: Option<R>,
                                       optionValue: V, disabled: bool, innerText: string)
    requires store.Valid()
    modifies store
    ensures store.Valid() && store.pending == old(store.pending)
    ensures store.effects == old(store.effects) +
      (if optionRef.Some?
       then [Dispatched(ApplyOptionRef(OptionRefInfo(optionId, OptionInfo(optionRef, disabled, optionValue, innerText))))]
       else [])
  {
    if optionRef.Some? {
      CreateAction.ApplyOptionRef(store, OptionRefInfo(optionId, OptionInfo(optionRef, disabled, optionValue, innerText)));
    }
  }

  /** Option's unmount cleanup (index.tsx:366-370): unregister its id. */
  method OptionUnmountEffect<R, V, C>(store: Store<R, V, C>, optionId: string)
    requires store.Valid()
    modifies store
    ensures store.Valid() && store.pending == old(store.pending)
    ensures store.effects == old(store.effects) + [Dispatched(UnapplyOptionRef(optionId))]
  {
    CreateAction.UnapplyOptionRef(store, optionId);
  }

  /** The root's render (index.tsx:108, 120-126): resolve the value through the
      hook, destructure the state and write the value into it in place. */
  method RootRender<R, V, C, F>(store: Store<R, V, C>, hook: InternalStateHook.InternalState<V, F>, externalValue: Option<V>)
    requires store.Valid()
    modifies store
    ensures store.Valid() && store.pending == old(store.pending)
    ensures store.effects == old(store.effects) + [ValueOverwritten(hook.Value(externalValue))]
    ensures store.state == Render(old(store.state), hook.Value(externalValue))
  {
    store.ReplaceWithoutRender(hook.Value(externalValue));
  }

  /** The root's outside-click callback (index.tsx:130-139): close the list. */
  method RootOnClickOutside<R, V, C>(store: Store<R, V, C>)
    requires store.Valid()
    modifies store
    ensures store.Valid() && store.pending == old(store.pending)
    ensures store.effects == old(store.effects) + [Dispatched(SetOpen(false))]
  {
    store.Dispatch(SetOpen(false));
  }

  /** A document click as the root sees it (index.tsx:128-141): the list and
      trigger refs are the watched surfaces and `isOpen` gates the callback. */
  method RootHandleDocumentClick<R, V, C, N>(store: Store<R, V, C>, view: SelectState<R, V, C>,
                                             current: R -> Option<N>, contains: (N, N) -> bool, isElement: N -> bool,
                                             pathHead: Option<N>, eventTarget: Option<N>)
    requires store.Valid()
    modifies store
    ensures store.Valid() && store.pending == old(store.pending)
    ensures store.effects == old(store.effects) +
      (if ClickOutside.HandleClickOutside([view.listRef, view.triggerRef], current, contains, isElement,
                                          Some(view.isOpen), pathHead, eventTarget)
       then [Dispatched(SetOpen(false))] else [])
  {
    if ClickOutside.HandleClickOutside([view.listRef, view.triggerRef], current, contains, isElement,
                                       Some(view.isOpen), pathHead, eventTarget) {
      RootOnClickOutside(store);
    }
  }

  /** An outside click while the list is closed changes nothing. */
  lemma ClosedSelectIgnoresDocumentClick<R, V, C, N>(view: SelectState<R, V, C>, current: R -> Option<N>,
                                                     contains: (N, N) -> bool, isElement: N -> bool,
                                                     pathHead: Option<N>, eventTarget: Option<N>)
    requires !view.isOpen
    ensures !ClickOutside.HandleClickOutside([view.listRef, view.triggerRef], current, contains, isElement,
                                             Some(view.isOpen), pathHead, eventTarget)
  {
  }

  /** The index the seed effect targets is where the focus calculator sends an
      unfocused list, and it holds the selected value, ahead of every other
      option that holds it. */
  lemma SeedTargetsFirstSelectedOption<R, V>(optionRefList: seq<OptionRefInfo<R, V>>, value: Option<V>)
    requires |optionRefList| > 0 && 0 <= SelectedIndex(optionRefList, value)
    ensures var k := SelectedIndex(optionRefList, value);
      FocusIndex.CalcFocusIndex(optionRefList, None, Target, Some(k)) == Some(k) &&
      value == Some(optionRefList[k].optionInfo.optionValue) &&
      forall i :: 0 <= i < k ==> value != Some(optionRefList[i].optionInfo.optionValue)
  {
    var k := SelectedIndex(optionRefList, value);
    assert IsSelected(value, optionRefList[k].optionInfo.optionValue);
    forall i | 0 <= i < k
      ensures value != Some(optionRefList[i].optionInfo.optionValue)
    {
      assert !IsSelected(value, optionRefList[i].optionInfo.optionValue);
    }
  }

  /** List's ArrowDown guard at the last option agrees with the calculator,
      which would keep the focus there anyway. */
  lemma ArrowDownGuardAgreesWithCalculator<R, V>(optionRefList: seq<OptionRefInfo<R, V>>)
    requires |optionRefList| > 0
    ensures FocusIndex.CalcFocusIndex(optionRefList, Some(|optionRefList| - 1), Next, None) == Some(|optionRefList| - 1)
  {
    FocusIndex.NextMovesToNearestEnabledAfter(optionRefList, |optionRefList| - 1, None);
  }

  /** An Option that mounts with a fresh id and then unmounts leaves the
      registry, and the whole state, as it found them. */
  lemma MountThenUnmountRestoresState<R, V, C>(state: SelectState<R, V, C>, descriptor: OptionRefInfo<R, V>)
    requires !HasId(state.optionRefList, descriptor.id)
    ensures Replay(Whole(state), [Dispatched(ApplyOptionRef(descriptor)), Dispatched(UnapplyOptionRef(descriptor.id))]) == Whole(state)
  {
    ApplyThenUnapplyRestores(state, descriptor);
    var mount: seq<Effect<R, V, C>> := [Dispatched(ApplyOptionRef(descriptor))];
    var effects := mount + [Dispatched(UnapplyOptionRef(descriptor.id))];
    assert mount[..0] == [];
    assert Replay(Whole(state), mount) == Whole(Reduce(state, ApplyOptionRef(descriptor)).value);
    assert effects[..1] == mount;
  }

  /** Select.test.tsx:18-33: on a fresh Select with no value, clicking the trigger
      opens the list and clicking it again closes it; the FIRST move asked for by
      the first click is still waiting for its frame. */
  method ClickTriggerTwice<R, V, C>(onChange: C) returns (openAfterFirst: bool, openAfterSecond: bool)
    ensures openAfterFirst && !openAfterSecond
  {
    var store := new Store<R, V, C>(None, onChange);
    var view := store.state.state;
    TriggerHandleClick(store, view);
    assert store.effects[..0] == [];
    openAfterFirst := store.state.state.isOpen;
    view := store.state.state;
    TriggerHandleClick(store, view);
    assert store.effects[..1] == [Dispatched(ToggleOpen)];
    openAfterSecond := store.state.state.isOpen;
    assert store.pending == [MoveOption(DirectionInfo(First, None))];
  }

  /** An option click (index.tsx:331-337) followed by the root's render. The
      batch MOVE_OPTION, SET_OPEN false runs the reducer twice: MOVE_OPTION
      returns `undefined` and SET_OPEN spreads it into `{ isOpen: false }`. The
      `onChange` call leaves the cell alone and the render (index.tsx:120-126)
      writes the resolved value into that object, which has no focused index,
      no change handler and no registry. The closed List unmounts its Options,
      and the first Option's cleanup (index.tsx:366-370) then makes the reducer
      slice the missing registry, which throws. */
  lemma OptionClickRevivesCell<R, V, C>(state: SelectState<R, V, C>, optionIndex: int, reported: seq<Effect<R, V, C>>,
                                        shown: Option<V>, optionId: string)
    requires forall k :: 0 <= k < |reported| ==> reported[k].Changed?
    ensures var click := [Dispatched(MoveOption(DirectionInfo(Target, Some(optionIndex)))), Dispatched(SetOpen(false))];
      var after := Replay(Whole(state), click + reported + [ValueOverwritten(shown)]);
      after == Revived(Some(false), shown, None, None) &&
      Apply(after, Dispatched(UnapplyOptionRef(optionId))) == Threw
  {
    var move: Effect<R, V, C> := Dispatched(MoveOption(DirectionInfo(Target, Some(optionIndex))));
    var close: Effect<R, V, C> := Dispatched(SetOpen(false));
    var click := [move, close];
    var revived := Revived(Some(false), None, None, None);
    assert [move][..0] == [];
    assert Replay(Whole(state), [move]) == Lost;
    assert click[..1] == [move];
    assert Replay(Whole(state), click) == revived;
    ChangesLeaveTheCell(revived, reported);
    ReplayAppend(Whole(state), click, reported);
    assert Replay(Whole(state), click + reported) == revived;
    var whole := click + reported + [ValueOverwritten(shown)];
    assert whole[..|whole| - 1] == click + reported;
    assert Replay(Whole(state), whole) == Render(revived, shown);
  }

  /** `onChange` calls leave the reducer cell as it is. */
  lemma {:induction false} ChangesLeaveTheCell<R, V, C>(cell: Cell<R, V, C>, reported: seq<Effect<R, V, C>>)
    requires forall k :: 0 <= k < |reported| ==> reported[k].Changed?
    ensures Replay(cell, reported) == cell
    decreases |reported|
  {
    if reported != [] {
      ChangesLeaveTheCell(cell, reported[..|reported| - 1]);
    }
  }

  /** A MOVE_OPTION dispatched on its own, as hovering (index.tsx:339-341),
      leaving an option (index.tsx:343-345), the List's arrow keys and seed
      effect, and the frames the Trigger asks for all do, leaves `undefined`,
      and the root's next render throws while destructuring it
      (index.tsx:120). */
  lemma LoneMoveThrowsAtRender<R, V, C>(state: SelectState<R, V, C>, move: DirectionInfo, shown: Option<V>)
    ensures Replay(Whole(state), [Dispatched(MoveOption(move)), ValueOverwritten(shown)]) == Threw
  {
    var effects: seq<Effect<R, V, C>> := [Dispatched(MoveOption(move)), ValueOverwritten(shown)];
    assert effects[..1][..0] == [] && effects[..1] == [effects[0]];
  }

  /** What the context's `onChange` does when a selection reports `nextValue`,
      followed by the root's next render. The context holds the
      `adjustedOnChange` of the root's first render (index.tsx:108, 114), and no
      reducer action ever replaces it, so the hook decides controlled or
      uncontrolled by that render's external value `firstExternal`
      (use-internal-state.ts:10-23), whatever the external value is now. The
      render then writes what the hook resolves (index.tsx:122-126): the
      current external value when there is one, otherwise the selection when
      the root was uncontrolled at its first render, and otherwise what the
      hook's cell held before. */
  method ReportThenRender<R, V, C, F>(store: Store<R, V, C>, hook: InternalStateHook.InternalState<V, F>,
                                      firstExternal: Option<V>, listener: Option<F>, nextValue: V, externalNow: Option<V>)
    requires store.Valid()
    modifies store, hook
    ensures store.Valid() && store.pending == old(store.pending)
    ensures hook.calls == old(hook.calls) + (if listener.Some? then [(listener.value, nextValue)] else [])
    ensures var shown := if externalNow.Some? then externalNow
                         else if firstExternal.None? then Some(nextValue)
                         else old(hook.internalState);
      store.effects == old(store.effects) + [ValueOverwritten(shown)] &&
      store.state == Render(old(store.state), shown)
  {
    hook.AdjustedOnChange(firstExternal, listener, nextValue);
    RootRender(store, hook, externalNow);
  }

  /** An uncontrolled Select without a value, whose consumer listens: clicking
      an option that holds 'B' reports 'B' to the consumer once, and the next
      render shows 'B' in the object rebuilt from `undefined`, closed. */
  method ClickOptionUncontrolled<R, C, F>(callback: C, listener: F) returns (cell: Cell<R, string, C>, calls: seq<(F, string)>)
    ensures cell == Revived(Some(false), Some("B"), None, None)
    ensures calls == [(listener, "B")]
  {
    var hook := new InternalStateHook.InternalState<string, F>(None);
    var store := new Store<R, string, C>(hook.Value(None), callback);
    var view := store.state.state;
    OptionHandleClick(store, view, 1, "B");
    ghost var reported := store.effects[2..];
    assert store.effects == [Dispatched(MoveOption(DirectionInfo(Target, Some(1)))), Dispatched(SetOpen(false))] + reported;
    ReportThenRender(store, hook, None, Some(listener), "B", None);
    OptionClickRevivesCell(store.initial, 1, reported, Some("B"), "");
    cell := store.state;
    calls := hook.calls;
  }

  /** The mode stays the one of the first render: a Select first controlled by
      'X' whose consumer later drops the value is uncontrolled again when it
      reads, but the context's `onChange` still treats it as controlled, so a
      selection of 'B' is reported and not stored, and the next render shows the
      default 'A'. */
  method StaleModeDropsSelection<R, C, F>(callback: C, listener: F) returns (shown: Option<string>, calls: seq<(F, string)>)
    ensures shown == Some("A") && calls == [(listener, "B")]
  {
    var hook := new InternalStateHook.InternalState<string, F>(Some("A"));
    var store := new Store<R, string, C>(hook.Value(Some("X")), callback);
    ReportThenRender(store, hook, Some("X"), Some(listener), "B", None);
    shown := store.state.state.value;
    calls := hook.calls;
  }
}
