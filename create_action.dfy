/** src/components/Select/contexts/use-create-action.ts: the action facade. Each
    operation builds one action and hands it to the root's `dispatch`; it returns
    nothing and touches nothing else. */
module CreateAction {
  import opened Wrappers
  import SelectTypes
  import opened SelectStore

  /** `changeSelectOpenStatus(isOpen)()`: SET_OPEN with the given flag. */
  method ChangeSelectOpenStatus<R, V, C>(store: Store<R, V, C>, isOpen: bool)
    requires store.Valid()
    modifies store
    ensures store.Valid() && store.pending == old(store.pending)
    ensures store.effects == old(store.effects) + [Dispatched(SelectTypes.SetOpen(isOpen))]
  {
    store.Dispatch(SelectTypes.SetOpen(isOpen));
  }

  /** `openSelectList`: SET_OPEN {isOpen: true}. */
  method OpenSelectList<R, V, C>(store: Store<R, V, C>)
    requires store.Valid()
    modifies store
    ensures store.Valid() && store.pending == old(store.pending)
    ensures store.effects == old(store.effects) + [Dispatched(SelectTypes.SetOpen(true))]
  {
    ChangeSelectOpenStatus(store, true);
  }

  /** `closeSelectList`: SET_OPEN {isOpen: false}. */
  method CloseSelectList<R, V, C>(store: Store<R, V, C>)
    requires store.Valid()
    modifies store
    ensures store.Valid() && store.pending == old(store.pending)
    ensures store.effects == old(store.effects) + [Dispatched(SelectTypes.SetOpen(false))]
  {
    ChangeSelectOpenStatus(store, false);
  }

  /** `toggleSelectOpenStatus`: TOGGLE_OPEN, which has no payload. */
  method ToggleSelectOpenStatus<R, V, C>(store: Store<R, V, C>)
    requires store.Valid()
    modifies store
    ensures store.Valid() && store.pending == old(store.pending)
    ensures store.effects == old(store.effects) + [Dispatched(SelectTypes.ToggleOpen)]
  {
    store.Dispatch(SelectTypes.ToggleOpen);
  }

  /** `applyListRef(ref)`: APPLY_LIST_REF carrying the ref unchanged. */
  method ApplyListRef<R, V, C>(store: Store<R, V, C>, ref: R)
    requires store.Valid()
    modifies store
    ensures store.Valid() && store.pending == old(store.pending)
    ensures store.effects == old(store.effects) + [Dispatched(SelectTypes.ApplyListRef(ref))]
  {
    store.Dispatch(SelectTypes.ApplyListRef(ref));
  }

  /** `applyTriggerRef(ref)`: APPLY_TRIGGER_REF carrying the ref unchanged. */
  method ApplyTriggerRef<R, V, C>(store: Store<R, V, C>, ref: R)
    requires store.Valid()
    modifies store
    ensures store.Valid() && store.pending == old(store.pending)
    ensures store.effects == old(store.effects) + [Dispatched(SelectTypes.ApplyTriggerRef(ref))]
  {
    store.Dispatch(SelectTypes.ApplyTriggerRef(ref));
  }

  /** `applyOptionRef({id, optionInfo})`: APPLY_OPTION_REF with both fields
      forwarded as they are. */
  method ApplyOptionRef<R, V, C>(store: Store<R, V, C>, descriptor: SelectTypes.OptionRefInfo<R, V>)
    requires store.Valid()
    modifies store
    ensures store.Valid() && store.pending == old(store.pending)
    ensures store.effects == old(store.effects) + [Dispatched(SelectTypes.ApplyOptionRef(SelectTypes.OptionRefInfo(descriptor.id, descriptor.optionInfo)))]
  {
    store.Dispatch(SelectTypes.ApplyOptionRef(SelectTypes.OptionRefInfo(descriptor.id, descriptor.optionInfo)));
  }

  /** `unapplyOptionRef(optionId)`: UNAPPLY_OPTION_REF with that id. */
  method UnapplyOptionRef<R, V, C>(store: Store<R, V, C>, optionId: string)
    requires store.Valid()
    modifies store
    ensures store.Valid() && store.pending == old(store.pending)
    ensures store.effects == old(store.effects) + [Dispatched(SelectTypes.UnapplyOptionRef(optionId))]
  {
    store.Dispatch(SelectTypes.UnapplyOptionRef(optionId));
  }

  /** `moveOption(direction, to)`: MOVE_OPTION with the direction and target as
      given; an omitted target stays `undefined`. */
  method MoveOption<R, V, C>(store: Store<R, V, C>, direction: SelectTypes.MoveDirection, to: Option<int>)
    requires store.Valid()
    modifies store
    ensures store.Valid() && store.pending == old(store.pending)
    ensures store.effects == old(store.effects) + [Dispatched(SelectTypes.MoveOption(SelectTypes.DirectionInfo(direction, to)))]
  {
    store.Dispatch(SelectTypes.MoveOption(SelectTypes.DirectionInfo(direction, to)));
  }
}
