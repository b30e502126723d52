/** src/components/Select/context/index.tsx: the older Select context. Its state
    keeps option labels and the selected label as strings; its reducer handles
    every action it declares, so it always yields a state. The listener type
    `F` of `onChange` is opaque. */
module LegacyContext {
  import opened Wrappers

  datatype LegacyState<R, F> = LegacyState(
    isOpen: bool,
    optionList: seq<string>,
    selectedOption: string,
    onChange: F,
    listRef: Option<R>,
    triggerRef: Option<R>)

  /** The older action set. APPLY_CHANGE_LISTENER is registered under the empty
      type string. */
  datatype LegacyAction<R, F> =
    | SetOpen(open: bool)
    | ToggleOpen
    | SelectOption(option: string)
    | ApplyTriggerRef(triggerHandle: R)
    | ApplyListRef(listHandle: R)
    | ApplyChangeListener(listener: F)

  /** `initialSelectControll` (lines 47-54); `noop` is its do-nothing `onChange`. */
  function InitialSelectControll<R, F>(noop: F): (state: LegacyState<R, F>)
    ensures !state.isOpen && state.optionList == [] && state.selectedOption == ""
    ensures state.onChange == noop && state.listRef.None? && state.triggerRef.None?
  {
    LegacyState(false, [], "", noop, None, None)
  }

  /** The state `SelectControllProvider` starts from (line 87):
      `defaultContext || initialSelectControll`. */
  function ProviderInitialState<R, F>(defaultContext: Option<LegacyState<R, F>>, noop: F): (state: LegacyState<R, F>)
    ensures defaultContext.Some? ==> state == defaultContext.value
    ensures defaultContext.None? ==>
      !state.isOpen && state.optionList == [] && state.selectedOption == "" &&
      state.onChange == noop && state.listRef.None? && state.triggerRef.None?
  {
    if defaultContext.Some? then defaultContext.value else InitialSelectControll(noop)
  }

  /** The older `reducer` (lines 63-84). No action touches `optionList`. */
  function Reduce<R, F>(state: LegacyState<R, F>, action: LegacyAction<R, F>): (next: LegacyState<R, F>)
    ensures next.optionList == state.optionList
  {
    match action
    case SelectOption(option) => state.(selectedOption := option)
    case ToggleOpen => state.(isOpen := !state.isOpen)
    case SetOpen(open) => state.(isOpen := open)
    case ApplyTriggerRef(ref) => state.(triggerRef := Some(ref))
    case ApplyListRef(ref) => state.(listRef := Some(ref))
    case ApplyChangeListener(listener) => state.(onChange := listener)
  }

  /** Each action replaces exactly the field it names. */
  lemma EachActionReplacesOneField<R, F>(state: LegacyState<R, F>, option: string, open: bool, ref: R, listener: F)
    ensures Reduce(state, SelectOption(option)) == state.(selectedOption := option)
    ensures Reduce(state, ToggleOpen) == state.(isOpen := !state.isOpen)
    ensures Reduce(state, SetOpen(open)) == state.(isOpen := open)
    ensures Reduce(state, ApplyTriggerRef(ref)) == state.(triggerRef := Some(ref))
    ensures Reduce(state, ApplyListRef(ref)) == state.(listRef := Some(ref))
    ensures Reduce(state, ApplyChangeListener(listener)) == state.(onChange := listener)
  {
  }

  /** The state after a sequence of actions. */
  function Fold<R, F>(state: LegacyState<R, F>, actions: seq<LegacyAction<R, F>>): LegacyState<R, F>
    decreases |actions|
  {
    if actions == [] then state else Reduce(Fold(state, actions[..|actions| - 1]), actions[|actions| - 1])
  }

  /** No sequence of actions changes the option list. */
  lemma {:induction false} FoldKeepsOptionList<R, F>(state: LegacyState<R, F>, actions: seq<LegacyAction<R, F>>)
    ensures Fold(state, actions).optionList == state.optionList
    decreases |actions|
  {
    if actions != [] {
      FoldKeepsOptionList(state, actions[..|actions| - 1]);
    }
  }

  /** The provider's reducer cell and the actions dispatched to it. */
  class LegacyStore<R, F> {
    ghost const initial: LegacyState<R, F>
    var state: LegacyState<R, F>
    var dispatched: seq<LegacyAction<R, F>>

    ghost predicate Valid()
      reads this
    {
      state == Fold(initial, dispatched)
    }

    /** `SelectControllProvider`'s `useReducer(reducer, defaultContext || initialSelectControll)`. */
    constructor (defaultContext: Option<LegacyState<R, F>>, noop: F)
      ensures Valid() && dispatched == [] && initial == ProviderInitialState(defaultContext, noop)
      ensures state == initial
    {
      initial := ProviderInitialState(defaultContext, noop);
      state := ProviderInitialState(defaultContext, noop);
      dispatched := [];
    }

    /** `dispatch(action)`. */
    method Dispatch(action: LegacyAction<R, F>)
      requires Valid()
      modifies this
      ensures Valid() && dispatched == old(dispatched) + [action]
      ensures state == Reduce(old(state), action)
    {
      state := Reduce(state, action);
      dispatched := dispatched + [action];
      assert dispatched[..|dispatched| - 1] == old(dispatched);
    }
  }
}
