/** src/hooks/use-internal-state.ts: the controlled/uncontrolled value resolver.
    The hook owns one `internalState` cell seeded with `defaultValue`; whether it
    is in charge is decided again from the external value on every read and on
    every change. The consumer's `onChange` is opaque; its calls are logged. */
module InternalStateHook {
  import opened Wrappers

  class InternalState<V, C> {
    var internalState: Option<V>
    var calls: seq<(C, V)>

    /** `useState(defaultValue)` on the first render. */
    constructor (defaultValue: Option<V>)
      ensures internalState == defaultValue && calls == []
    {
      internalState := defaultValue;
      calls := [];
    }

    /** The value the hook returns (line 25): the external value whenever it is
        defined, whatever the cell holds, and the cell otherwise. */
    function Value(externalState: Option<V>): (value: Option<V>)
      reads this
      ensures externalState.Some? ==> value == externalState
      ensures externalState.None? ==> value == internalState
    {
      if externalState.None? then internalState else externalState
    }

    /** `adjustedOnChange(nextValue)` (lines 12-23): calls `onChange` at most once,
        and stores `nextValue` only while uncontrolled. */
    method AdjustedOnChange(externalState: Option<V>, onChange: Option<C>, nextValue: V)
      modifies this
      ensures calls == old(calls) + (if onChange.Some? then [(onChange.value, nextValue)] else [])
      ensures internalState == (if externalState.None? then Some(nextValue) else old(internalState))
    {
      if externalState.None? {
        if onChange.Some? {
          calls := calls + [(onChange.value, nextValue)];
        }
        internalState := Some(nextValue);
        return;
      }
      if onChange.Some? {
        calls := calls + [(onChange.value, nextValue)];
      }
    }
  }

  /** Uncontrolled, default 'A': the first read is 'A'; after a change to 'B' the
      next read is 'B' and `onChange` was called once, with 'B'. */
  method UncontrolledChange<C>(onChange: C) returns (before: Option<string>, after: Option<string>, calls: seq<(C, string)>)
    ensures before == Some("A") && after == Some("B") && calls == [(onChange, "B")]
  {
    var hook := new InternalState<string, C>(Some("A"));
    before := hook.Value(None);
    hook.AdjustedOnChange(None, Some(onChange), "B");
    after := hook.Value(None);
    calls := hook.calls;
  }

  /** Controlled with 'A': a change to 'B' reaches `onChange` but the next read
      is still 'A', and the cell keeps its default. */
  method ControlledChange<C>(onChange: C) returns (before: Option<string>, after: Option<string>,
                                                  cell: Option<string>, calls: seq<(C, string)>)
    ensures before == Some("A") && after == Some("A") && cell == None && calls == [(onChange, "B")]
  {
    var hook := new InternalState<string, C>(None);
    before := hook.Value(Some("A"));
    hook.AdjustedOnChange(Some("A"), Some(onChange), "B");
    after := hook.Value(Some("A"));
    cell := hook.internalState;
    calls := hook.calls;
  }

  /** Without `onChange`, an uncontrolled change calls nothing but is stored. */
  method UncontrolledChangeWithoutListener<C>() returns (after: Option<string>, calls: seq<(C, string)>)
    ensures after == Some("B") && calls == []
  {
    var hook := new InternalState<string, C>(Some("A"));
    hook.AdjustedOnChange(None, None, "B");
    after := hook.Value(None);
    calls := hook.calls;
  }

  /** Switching modes takes effect at once and the cell survives it: store 'B'
      uncontrolled, read 'X' while controlled by 'X' (a change to 'C' there is not
      stored), and read 'B' again once the external value is gone. */
  method SwitchModes<C>(onChange: C) returns (uncontrolled: Option<string>, controlled: Option<string>,
                                              uncontrolledAgain: Option<string>)
    ensures uncontrolled == Some("B") && controlled == Some("X") && uncontrolledAgain == Some("B")
  {
    var hook := new InternalState<string, C>(Some("A"));
    hook.AdjustedOnChange(None, Some(onChange), "B");
    uncontrolled := hook.Value(None);
    hook.AdjustedOnChange(Some("X"), Some(onChange), "C");
    controlled := hook.Value(Some("X"));
    uncontrolledAgain := hook.Value(None);
  }
}
