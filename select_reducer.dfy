/** src/components/Select/contexts/reducer.tsx: the current reducer. Each handled
    action yields a copy of the state with one field replaced. MOVE_OPTION has no
    case in the switch, so for it the reducer returns `undefined`, written `None`
    by `Reduce`. `ReduceCell` runs the same switch on whatever the cell holds
    after that. The SELECT_OPTION case names a constant that `Actions` does not
    define, so no action reaches it and it is not modelled. */
module SelectReducer {
  import opened Wrappers
  import opened JsArray
  import opened SelectTypes

  /** Position `k` holds the first registry entry whose id is `optionId`. */
  predicate IsFirstWithId<R, V>(optionRefList: seq<OptionRefInfo<R, V>>, optionId: string, k: int)
  {
    0 <= k < |optionRefList| && optionRefList[k].id == optionId &&
    forall i :: 0 <= i < k ==> optionRefList[i].id != optionId
  }

  predicate HasId<R, V>(optionRefList: seq<OptionRefInfo<R, V>>, optionId: string)
  {
    exists i :: 0 <= i < |optionRefList| && optionRefList[i].id == optionId
  }

  /** `reducer(state, action)`. No handled action touches the focused index, the
      value or the change handler, and only MOVE_OPTION loses the state. */
  function Reduce<R, V, C>(state: SelectState<R, V, C>, action: Action<R, V>): (next: Option<SelectState<R, V, C>>)
    ensures next.None? <==> action.MoveOption?
    ensures next.Some? ==>
      next.value.focusedOptionIndex == state.focusedOptionIndex &&
      next.value.value == state.value && next.value.onChange == state.onChange
  {
    match action
    case ToggleOpen => Some(state.(isOpen := !state.isOpen))
    case SetOpen(open) => Some(state.(isOpen := open))
    case ApplyTriggerRef(ref) => Some(state.(triggerRef := Some(ref)))
    case ApplyListRef(ref) => Some(state.(listRef := Some(ref)))
    case ApplyOptionRef(optionInfo) => Some(state.(optionRefList := state.optionRefList + [optionInfo]))
    case UnapplyOptionRef(targetOptionId) =>
      var adjustedOptionRefList := state.optionRefList;
      var targetOptionIndex := FindIndex(adjustedOptionRefList,
        (option: OptionRefInfo<R, V>, index: int) => option.id == targetOptionId);
      if targetOptionIndex < 0 then Some(state)
      else Some(state.(optionRefList := adjustedOptionRefList[..targetOptionIndex] + adjustedOptionRefList[targetOptionIndex + 1..]))
    case MoveOption(_) => None
  }

  /** What the reducer's `state` argument holds while the widget runs. `Whole` is
      a complete `SelectContextType`. `Lost` is the `undefined` the reducer
      returns for MOVE_OPTION. `Revived` is an object the reducer built by
      spreading `undefined` (`{ ...undefined, isOpen: false }` is
      `{ isOpen: false }`): it holds only the fields written since, and every
      other field, `focusedOptionIndex`, `onChange` and `optionRefList`
      included, reads as `undefined`. `Threw` is a reducer call, or a render of
      the root, that threw a TypeError; React rethrows it from the root's
      render, and nothing after it is modelled. */
  datatype Cell<R, V, C> =
    | Whole(state: SelectState<R, V, C>)
    | Lost
    | Revived(isOpen: Option<bool>, value: Option<V>, listRef: Option<R>, triggerRef: Option<R>)
    | Threw

  /** `reducer(state, action)` on whatever the cell holds. On a whole state it
      is `Reduce`, with `undefined` for MOVE_OPTION. On `undefined` or a revived
      object, SET_OPEN, APPLY_TRIGGER_REF and APPLY_LIST_REF spread what is
      there and add their field, and TOGGLE_OPEN on an object stores
      `!undefined`, that is true, when `isOpen` is missing. Reading `isOpen` of
      `undefined` (TOGGLE_OPEN), and spreading or slicing the missing
      `optionRefList` (APPLY_OPTION_REF, UNAPPLY_OPTION_REF), throw. */
  function ReduceCell<R, V, C>(cell: Cell<R, V, C>, action: Action<R, V>): (next: Cell<R, V, C>)
    ensures cell.Whole? ==> (next.Whole? <==> !action.MoveOption?)
    ensures cell.Whole? && next.Whole? ==> Reduce(cell.state, action) == Some(next.state)
    ensures !cell.Threw? ==> (next.Lost? <==> action.MoveOption?)
    ensures next.Threw? <==>
      cell.Threw? || (!cell.Whole? && (action.ApplyOptionRef? || action.UnapplyOptionRef? || (cell.Lost? && action.ToggleOpen?)))
    ensures next.Revived? ==>
      (cell.Lost? || cell.Revived?) &&
      next.value == (if cell.Revived? then cell.value else None) &&
      next.isOpen == (if action.SetOpen? then Some(action.open)
                      else if action.ToggleOpen? then Some(cell.isOpen != Some(true))
                      else if cell.Revived? then cell.isOpen else None)
  {
    match cell
    case Whole(state) =>
      (match Reduce(state, action)
       case Some(next) => Whole(next)
       case None => Lost)
    case Lost =>
      (match action
       case SetOpen(open) => Revived(Some(open), None, None, None)
       case ApplyTriggerRef(ref) => Revived(None, None, None, Some(ref))
       case ApplyListRef(ref) => Revived(None, None, Some(ref), None)
       case MoveOption(_) => Lost
       case ToggleOpen => Threw
       case ApplyOptionRef(_) => Threw
       case UnapplyOptionRef(_) => Threw)
    case Revived(isOpen, value, listRef, triggerRef) =>
      (match action
       case ToggleOpen => Revived(Some(isOpen != Some(true)), value, listRef, triggerRef)
       case SetOpen(open) => Revived(Some(open), value, listRef, triggerRef)
       case ApplyTriggerRef(ref) => Revived(isOpen, value, listRef, Some(ref))
       case ApplyListRef(ref) => Revived(isOpen, value, Some(ref), triggerRef)
       case MoveOption(_) => Lost
       case ApplyOptionRef(_) => Threw
       case UnapplyOptionRef(_) => Threw)
    case Threw => Threw
  }

  /** TOGGLE_OPEN negates `isOpen` and keeps every other field; toggling twice
      gives back the original state. */
  lemma ToggleOpenNegatesOnlyIsOpen<R, V, C>(state: SelectState<R, V, C>)
    ensures Reduce(state, ToggleOpen) == Some(state.(isOpen := !state.isOpen))
    ensures Reduce(Reduce(state, ToggleOpen).value, ToggleOpen) == Some(state)
  {
  }

  /** SET_OPEN stores the payload and keeps every other field, the focused
      index and the registry included. */
  lemma SetOpenStoresOnlyIsOpen<R, V, C>(state: SelectState<R, V, C>, open: bool)
    ensures Reduce(state, SetOpen(open)) == Some(state.(isOpen := open))
  {
  }

  /** The two ref actions replace their own ref field and nothing else. */
  lemma ApplyRefReplacesOnlyItsField<R, V, C>(state: SelectState<R, V, C>, ref: R)
    ensures Reduce(state, ApplyTriggerRef(ref)) == Some(state.(triggerRef := Some(ref)))
    ensures Reduce(state, ApplyListRef(ref)) == Some(state.(listRef := Some(ref)))
  {
  }

  /** APPLY_OPTION_REF appends the descriptor at the tail, even when its id is
      already registered. */
  lemma ApplyOptionRefAppends<R, V, C>(state: SelectState<R, V, C>, descriptor: OptionRefInfo<R, V>)
    ensures Reduce(state, ApplyOptionRef(descriptor)) == Some(state.(optionRefList := state.optionRefList + [descriptor]))
  {
  }

  /** UNAPPLY_OPTION_REF of a registered id removes exactly the first entry with
      that id, keeps the others in order and shortens the registry by one. */
  lemma UnapplyRemovesFirstMatch<R, V, C>(state: SelectState<R, V, C>, optionId: string)
    requires HasId(state.optionRefList, optionId)
    ensures var next := Reduce(state, UnapplyOptionRef(optionId));
      var list := state.optionRefList;
      next.Some? && |next.value.optionRefList| == |list| - 1 &&
      exists k :: IsFirstWithId(list, optionId, k) &&
        next.value.optionRefList == list[..k] + list[k + 1..] &&
        next.value == state.(optionRefList := list[..k] + list[k + 1..])
  {
    var list := state.optionRefList;
    var k := FindIndex(list, (option: OptionRefInfo<R, V>, index: int) => option.id == optionId);
    assert IsFirstWithId(list, optionId, k);
  }

  /** UNAPPLY_OPTION_REF of an id that is not registered changes nothing. */
  lemma UnapplyAbsentIdIsNoop<R, V, C>(state: SelectState<R, V, C>, optionId: string)
    requires !HasId(state.optionRefList, optionId)
    ensures Reduce(state, UnapplyOptionRef(optionId)) == Some(state)
  {
    var k := FindIndex(state.optionRefList, (option: OptionRefInfo<R, V>, index: int) => option.id == optionId);
    assert k < 0;
  }

  /** Registering a descriptor whose id is fresh and then unregistering that id
      gives back the original state. */
  lemma ApplyThenUnapplyRestores<R, V, C>(state: SelectState<R, V, C>, descriptor: OptionRefInfo<R, V>)
    requires !HasId(state.optionRefList, descriptor.id)
    ensures Reduce(state, ApplyOptionRef(descriptor)).Some?
    ensures Reduce(Reduce(state, ApplyOptionRef(descriptor)).value, UnapplyOptionRef(descriptor.id)) == Some(state)
  {
    var list := state.optionRefList;
    var grown := list + [descriptor];
    var k := FindIndex(grown, (option: OptionRefInfo<R, V>, index: int) => option.id == descriptor.id);
    assert grown[|list|].id == descriptor.id;
    assert k == |list|;
    assert grown[..k] + grown[k + 1..] == list;
  }

  /** When an id is registered at most once, a second UNAPPLY_OPTION_REF for it
      changes nothing. */
  lemma UnapplyTwiceOfUniqueIdIsNoop<R, V, C>(state: SelectState<R, V, C>, optionId: string)
    requires forall i, j :: 0 <= i < j < |state.optionRefList| && state.optionRefList[i].id == optionId ==>
      state.optionRefList[j].id != optionId
    ensures var once := Reduce(state, UnapplyOptionRef(optionId));
      once.Some? && !HasId(once.value.optionRefList, optionId) &&
      Reduce(once.value, UnapplyOptionRef(optionId)) == once
  {
    var list := state.optionRefList;
    if HasId(list, optionId) {
      UnapplyRemovesFirstMatch(state, optionId);
      var k := FindIndex(list, (option: OptionRefInfo<R, V>, index: int) => option.id == optionId);
      var rest := list[..k] + list[k + 1..];
      forall i | 0 <= i < |rest|
        ensures rest[i].id != optionId
      {
        if i < k { assert rest[i] == list[i]; } else { assert rest[i] == list[i + 1]; }
      }
      UnapplyAbsentIdIsNoop(state.(optionRefList := rest), optionId);
    } else {
      UnapplyAbsentIdIsNoop(state, optionId);
    }
  }
}
