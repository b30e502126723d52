/** The reducer cell that the Select root (src/components/Select/index.tsx:99-150)
    creates with `useReducer`, together with everything the widget sends out of
    it: dispatched actions, in-place overwrites of `state.value`, calls of the
    context's `onChange`, and the callbacks left to `requestAnimationFrame`. */
module SelectStore {
  import opened Wrappers
  import opened SelectTypes
  import opened SelectReducer

  /** One observable step, in the order the widget performs them. */
  datatype Effect<R, V, C> =
    | Dispatched(action: Action<R, V>)
    | ValueOverwritten(overwrite: Option<V>)
    | Changed(callback: C, changedTo: V)

  /** The state the root seeds its reducer with (index.tsx:110-118). */
  function InitialState<R, V, C>(value: Option<V>, onChange: C): (state: SelectState<R, V, C>)
    ensures !state.isOpen && state.focusedOptionIndex.None? && state.optionRefList == []
    ensures state.listRef.None? && state.triggerRef.None?
    ensures state.value == value && state.onChange == Some(onChange)
  {
    SelectState(false, None, value, Some(onChange), None, None, [])
  }

  /** The root's render (index.tsx:120-126) as it affects the cell: it
      destructures the state, which throws when the cell is `undefined`, and
      then writes the resolved value into the state object in place, whole or
      revived. */
  function Render<R, V, C>(cell: Cell<R, V, C>, value: Option<V>): (next: Cell<R, V, C>)
    ensures cell.Whole? ==> next == Whole(cell.state.(value := value))
    ensures cell.Revived? ==> next == Revived(cell.isOpen, value, cell.listRef, cell.triggerRef)
    ensures next.Threw? <==> cell.Lost? || cell.Threw?
  {
    match cell
    case Whole(state) => Whole(state.(value := value))
    case Revived(isOpen, _, listRef, triggerRef) => Revived(isOpen, value, listRef, triggerRef)
    case Lost => Threw
    case Threw => Threw
  }

  /** What one effect does to the reducer cell. */
  function Apply<R, V, C>(cell: Cell<R, V, C>, effect: Effect<R, V, C>): Cell<R, V, C>
  {
    match effect
    case Dispatched(action) => ReduceCell(cell, action)
    case ValueOverwritten(value) => Render(cell, value)
    case Changed(_, _) => cell
  }

  /** The cell after a history of effects. */
  function Replay<R, V, C>(state: Cell<R, V, C>, effects: seq<Effect<R, V, C>>): Cell<R, V, C>
    decreases |effects|
  {
    if effects == [] then state
    else Apply(Replay(state, effects[..|effects| - 1]), effects[|effects| - 1])
  }

  /** The effects of running the given actions through `dispatch` in order. */
  function DispatchAll<R, V, C>(actions: seq<Action<R, V>>): seq<Effect<R, V, C>>
    decreases |actions|
  {
    if actions == [] then [] else DispatchAll(actions[..|actions| - 1]) + [Dispatched(actions[|actions| - 1])]
  }

  /** Replaying a history in two parts is replaying it whole. */
  lemma {:induction false} ReplayAppend<R, V, C>(state: Cell<R, V, C>, first: seq<Effect<R, V, C>>,
                                                 second: seq<Effect<R, V, C>>)
    ensures Replay(state, first + second) == Replay(Replay(state, first), second)
    decreases |second|
  {
    if second == [] {
      assert first + second == first;
    } else {
      var last := |second| - 1;
      assert (first + second)[..|first + second| - 1] == first + second[..last];
      ReplayAppend(state, first, second[..last]);
    }
  }

  /** The effect is a dispatch of MOVE_OPTION. */
  predicate IsMoveOption<R, V, C>(effect: Effect<R, V, C>)
  {
    effect.Dispatched? && effect.action.MoveOption?
  }

  /** A cell that is no longer whole never becomes whole again: from
      `undefined` the reducer only builds revived objects, and a render of
      `undefined` throws. */
  lemma {:induction false} NeverWholeAgain<R, V, C>(cell: Cell<R, V, C>, effects: seq<Effect<R, V, C>>)
    requires !cell.Whole?
    ensures !Replay(cell, effects).Whole?
    decreases |effects|
  {
    if effects != [] {
      NeverWholeAgain(cell, effects[..|effects| - 1]);
    }
  }

  /** As written, no effect ever changes `focusedOptionIndex`. The cell stays a
      whole state exactly as long as no MOVE_OPTION was dispatched, and a whole
      state keeps its focused index; from the first MOVE_OPTION on, the cell is
      `undefined`, an object without a `focusedOptionIndex`, or a throw. */
  lemma {:induction false} FocusedIndexNeverChanges<R, V, C>(state: SelectState<R, V, C>, effects: seq<Effect<R, V, C>>)
    ensures var after := Replay(Whole(state), effects);
      (after.Whole? <==> forall k :: 0 <= k < |effects| ==> !IsMoveOption(effects[k])) &&
      (after.Whole? ==> after.state.focusedOptionIndex == state.focusedOptionIndex)
    decreases |effects|
  {
    if effects != [] {
      var before := effects[..|effects| - 1];
      var last := effects[|effects| - 1];
      FocusedIndexNeverChanges(state, before);
      var mid := Replay(Whole(state), before);
      if !mid.Whole? {
        NeverWholeAgain(mid, [last]);
        assert [last][..0] == [];
        var k :| 0 <= k < |before| && IsMoveOption(before[k]);
        assert effects[k] == before[k];
      } else {
        assert forall k :: 0 <= k < |before| ==> effects[k] == before[k];
      }
    }
  }

  /** Dispatching a list of actions is dispatching them one after another. */
  lemma {:induction false} DispatchAllAppend<R, V, C>(actions: seq<Action<R, V>>, action: Action<R, V>)
    ensures DispatchAll<R, V, C>(actions + [action]) == DispatchAll<R, V, C>(actions) + [Dispatched(action)]
  {
    assert (actions + [action])[..|actions|] == actions;
  }

  class Store<R, V, C> {
    ghost const initial: SelectState<R, V, C>
    var state: Cell<R, V, C>
    var effects: seq<Effect<R, V, C>>
    var pending: seq<Action<R, V>>

    /** The cell always holds the replay of the history from the initial state. */
    ghost predicate Valid()
      reads this
    {
      state == Replay(Whole(initial), effects)
    }

    constructor (value: Option<V>, onChange: C)
      ensures Valid() && initial == InitialState(value, onChange)
      ensures state == Whole(initial) && effects == [] && pending == []
    {
      initial := InitialState(value, onChange);
      state := Whole(InitialState(value, onChange));
      effects := [];
      pending := [];
    }

    /** `dispatch(action)`: run the reducer on the cell. */
    method Dispatch(action: Action<R, V>)
      requires Valid()
      modifies this
      ensures Valid() && effects == old(effects) + [Dispatched(action)] && pending == old(pending)
      ensures state == ReduceCell(old(state), action)
    {
      state := ReduceCell(state, action);
      effects := effects + [Dispatched(action)];
      assert effects[..|effects| - 1] == old(effects);
    }

    /** `onChange?.(value)` with the context's handler present. */
    method CallOnChange(callback: C, value: V)
      requires Valid()
      modifies this
      ensures Valid() && effects == old(effects) + [Changed(callback, value)]
      ensures state == old(state) && pending == old(pending)
    {
      effects := effects + [Changed(callback, value)];
      assert effects[..|effects| - 1] == old(effects);
    }

    /** `requestAnimationFrame(() => dispatch(action))`: queued, not yet run. */
    method RequestAnimationFrame(action: Action<R, V>)
      requires Valid()
      modifies this
      ensures Valid() && pending == old(pending) + [action]
      ensures state == old(state) && effects == old(effects)
    {
      pending := pending + [action];
    }

    /** The next frame: every queued callback dispatches its action, in the
        order the callbacks were queued. */
    method RunAnimationFrame()
      requires Valid()
      modifies this
      ensures Valid() && pending == []
      ensures effects == old(effects) + DispatchAll(old(pending))
    {
      var callbacks := pending;
      pending := [];
      var i := 0;
      while i < |callbacks|
        invariant 0 <= i <= |callbacks|
        invariant Valid() && pending == []
        invariant effects == old(effects) + DispatchAll(callbacks[..i])
      {
        DispatchAllAppend<R, V, C>(callbacks[..i], callbacks[i]);
        assert callbacks[..i + 1] == callbacks[..i] + [callbacks[i]];
        Dispatch(callbacks[i]);
        i := i + 1;
      }
      assert callbacks[..i] == callbacks;
    }

    /** `replaceWithoutRender` (index.tsx:120-126): the root destructures the
        state and writes the resolved value straight into the state object,
        outside the reducer; on `undefined` the destructuring throws. */
    method ReplaceWithoutRender(value: Option<V>)
      requires Valid()
      modifies this
      ensures Valid() && effects == old(effects) + [ValueOverwritten(value)] && pending == old(pending)
      ensures state == Render(old(state), value)
    {
      state := Render(state, value);
      effects := effects + [ValueOverwritten(value)];
      assert effects[..|effects| - 1] == old(effects);
    }
  }
}
