/** src/components/Select/context/use-select-context.ts: the older facade. Each
    helper dispatches one action of the older set; `_addOptionRef` dispatches
    nothing. Reading the context's fields back is plain field access and is not
    modelled separately. */
module LegacySelectContext {
  import opened Wrappers
  import opened LegacyContext

  /** `changeSelectOpenStatus(isOpen)()`: 'isOpen/set_open' with the flag. */
  method ChangeSelectOpenStatus<R, F>(store: LegacyStore<R, F>, isOpen: bool)
    requires store.Valid()
    modifies store
    ensures store.Valid() && store.dispatched == old(store.dispatched) + [LegacyContext.SetOpen(isOpen)]
    ensures store.state == old(store.state).(isOpen := isOpen)
  {
    store.Dispatch(LegacyContext.SetOpen(isOpen));
  }

  /** `openSelect`: set_open with true. */
  method OpenSelect<R, F>(store: LegacyStore<R, F>)
    requires store.Valid()
    modifies store
    ensures store.Valid() && store.dispatched == old(store.dispatched) + [LegacyContext.SetOpen(true)]
    ensures store.state == old(store.state).(isOpen := true)
  {
    ChangeSelectOpenStatus(store, true);
  }

  /** `closeSelect`: set_open with false. */
  method CloseSelect<R, F>(store: LegacyStore<R, F>)
    requires store.Valid()
    modifies store
    ensures store.Valid() && store.dispatched == old(store.dispatched) + [LegacyContext.SetOpen(false)]
    ensures store.state == old(store.state).(isOpen := false)
  {
    ChangeSelectOpenStatus(store, false);
  }

  /** `toggleSelectOpenStatus`: 'isOpen/toggle_open' without payload. */
  method ToggleSelectOpenStatus<R, F>(store: LegacyStore<R, F>)
    requires store.Valid()
    modifies store
    ensures store.Valid() && store.dispatched == old(store.dispatched) + [LegacyContext.ToggleOpen]
    ensures store.state == old(store.state).(isOpen := !old(store.state).isOpen)
  {
    store.Dispatch(LegacyContext.ToggleOpen);
  }

  /** `selectOption(option)`: 'selectedOption/select_option', which the older
      reducer stores as `selectedOption`. */
  method SelectOption<R, F>(store: LegacyStore<R, F>, option: string)
    requires store.Valid()
    modifies store
    ensures store.Valid() && store.dispatched == old(store.dispatched) + [LegacyContext.SelectOption(option)]
    ensures store.state == old(store.state).(selectedOption := option)
  {
    store.Dispatch(LegacyContext.SelectOption(option));
  }

  /** `applyListRef(ref)`: 'applyRef/listRef' with the ref unchanged. */
  method ApplyListRef<R, F>(store: LegacyStore<R, F>, ref: R)
    requires store.Valid()
    modifies store
    ensures store.Valid() && store.dispatched == old(store.dispatched) + [LegacyContext.ApplyListRef(ref)]
    ensures store.state == old(store.state).(listRef := Some(ref))
  {
    store.Dispatch(LegacyContext.ApplyListRef(ref));
  }

  /** `applyTriggerRef(ref)`: 'applyRef/triggerRef' with the ref unchanged. */
  method ApplyTriggerRef<R, F>(store: LegacyStore<R, F>, ref: R)
    requires store.Valid()
    modifies store
    ensures store.Valid() && store.dispatched == old(store.dispatched) + [LegacyContext.ApplyTriggerRef(ref)]
    ensures store.state == old(store.state).(triggerRef := Some(ref))
  {
    store.Dispatch(LegacyContext.ApplyTriggerRef(ref));
  }

  /** `_addOptionRef`: dispatches nothing and changes nothing. */
  method AddOptionRef<R, F, L>(store: LegacyStore<R, F>, optionRef: L)
    requires store.Valid()
    ensures store.Valid()
  {
  }

  /** A fresh provider without a default context: selecting 'b' and opening
      records exactly those two actions and leaves the option list empty. */
  method SelectThenOpen<R, F>(noop: F) returns (selected: string, isOpen: bool, optionList: seq<string>,
                                                dispatched: seq<LegacyAction<R, F>>)
    ensures selected == "b" && isOpen && optionList == []
    ensures dispatched == [LegacyContext.SelectOption("b"), LegacyContext.SetOpen(true)]
  {
    var store := new LegacyStore<R, F>(None, noop);
    SelectOption(store, "b");
    OpenSelect(store);
    selected := store.state.selectedOption;
    isOpen := store.state.isOpen;
    optionList := store.state.optionList;
    dispatched := store.dispatched;
  }
}
