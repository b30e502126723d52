/** The shapes of src/components/Select/contexts/type.ts. DOM refs (`R`), option
    values (`V`) and the `onChange` callback (`C`) are opaque. */
module SelectTypes {
  import opened Wrappers

  /** What an Option registers about itself. An absent `disabled` reads as false
      everywhere the source consults it, so it is a plain boolean here. */
  datatype OptionInfo<R, V> = OptionInfo(domRef: Option<R>, disabled: bool, optionValue: V, originText: string)

  /** One entry of the option registry: the Option's generated id and its info. */
  datatype OptionRefInfo<R, V> = OptionRefInfo(id: string, optionInfo: OptionInfo<R, V>)

  datatype MoveDirection = Prev | Next | First | Last | Target | Out

  /** The payload of a move: a direction and, for TARGET, the index to go to. */
  datatype DirectionInfo = DirectionInfo(direction: MoveDirection, to: Option<int>)

  /** The closed set of actions `Actions` declares, each with its payload. */
  datatype Action<R, V> =
    | SetOpen(open: bool)
    | ToggleOpen
    | MoveOption(move: DirectionInfo)
    | ApplyTriggerRef(triggerHandle: R)
    | ApplyListRef(listHandle: R)
    | ApplyOptionRef(descriptor: OptionRefInfo<R, V>)
    | UnapplyOptionRef(optionId: string)

  /** The state the Select root keeps with its reducer (`SelectContextType`). */
  datatype SelectState<R, V, C> = SelectState(
    isOpen: bool,
    focusedOptionIndex: Option<int>,
    value: Option<V>,
    onChange: Option<C>,
    listRef: Option<R>,
    triggerRef: Option<R>,
    optionRefList: seq<OptionRefInfo<R, V>>)
}
