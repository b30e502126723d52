/** src/utils/calc-select-index.ts: the older index calculator. It scans like the
    focus calculator but has no OUT case, so OUT reaches the `default` branch. */
module SelectIndex {
  import opened Wrappers
  import opened SelectTypes
  import FocusIndex

  /** `calcSelectIndex`. The NEXT and PREV scans are the same expressions as in
      calc-focus-index.ts and are shared with that module. An empty list gives
      null, and OUT, which has no case of its own, gives null except when an
      unselected list is seeded with a target. */
  function CalcSelectIndex<R, V>(optionList: seq<OptionRefInfo<R, V>>, currentSelectedIndex: Option<int>,
                                 direction: MoveDirection, to: Option<int>): (r: Option<int>)
    ensures |optionList| == 0 ==> r.None?
    ensures direction == Out ==> r.None? || (currentSelectedIndex.None? && r == to)
  {
    var optionLength := |optionList|;
    if optionLength == 0 then None
    else if currentSelectedIndex.None? && to.Some? then to
    else match direction
      case Next =>
        if currentSelectedIndex.None? then None
        else Some(FocusIndex.ScanNext(optionList, currentSelectedIndex.value))
      case Prev =>
        if currentSelectedIndex.None? then None
        else Some(FocusIndex.ScanPrev(optionList, currentSelectedIndex.value))
      case First => Some(0)
      case Last => Some(optionLength - 1)
      case Target => if to.None? then None else Some(to.value)
      case _ => None
  }

  /** The two calculators agree on every input: the missing OUT case of the
      older one falls to `default`, which gives the null the newer one returns. */
  lemma CalcSelectIndexAgreesWithCalcFocusIndex<R, V>(optionList: seq<OptionRefInfo<R, V>>, current: Option<int>,
                                                      direction: MoveDirection, to: Option<int>)
    ensures CalcSelectIndex(optionList, current, direction, to) == FocusIndex.CalcFocusIndex(optionList, current, direction, to)
  {
  }
}
