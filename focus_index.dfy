/** src/utils/calc-focus-index.ts: the pure calculator that picks the next focused
    option index from a move direction, the current index and the registry. */
module FocusIndex {
  import opened Wrappers
  import opened JsArray
  import opened SelectTypes

  /** Maps a position in the reversed list back to the original list: it maps
      the positions of a list of that length onto themselves, and only them. */
  function GetOriginIndexFromReversed(reversedIndex: int, length: int): (origin: int)
    ensures 0 <= reversedIndex < length <==> 0 <= origin < length
  {
    length - reversedIndex - 1
  }

  /** Position `j` exists and its option is not disabled. */
  predicate Enabled<R, V>(optionList: seq<OptionRefInfo<R, V>>, j: int)
  {
    0 <= j < |optionList| && !optionList[j].optionInfo.disabled
  }

  /** Position `i` of the reversed list holds the option found at the position
      `GetOriginIndexFromReversed` gives, and mapping back twice is the
      identity. */
  lemma ReversedPositionsCorrespond<T>(s: seq<T>, i: int)
    requires 0 <= i < |s|
    ensures Reverse(s)[i] == s[GetOriginIndexFromReversed(i, |s|)]
    ensures GetOriginIndexFromReversed(GetOriginIndexFromReversed(i, |s|), |s|) == i
  {
  }

  /** The NEXT case for a non-null current index: search the options after it
      for one that is not disabled, otherwise stay. */
  function ScanNext<R, V>(optionList: seq<OptionRefInfo<R, V>>, current: int): (next: int)
    ensures next == current || (current < next && (-1 <= current ==> Enabled(optionList, next)))
  {
    var rest := SliceFrom(optionList, current + 1);
    var nextIndex := FindIndex(rest, (option: OptionRefInfo<R, V>, index: int) => !option.optionInfo.disabled);
    if nextIndex < 0 then current
    else
      assert -1 <= current ==> rest[nextIndex] == optionList[nextIndex + current + 1];
      nextIndex + current + 1
  }

  /** The PREV case for a non-null current index: search the reversed list,
      skipping every position at or after the current one. */
  function ScanPrev<R, V>(optionList: seq<OptionRefInfo<R, V>>, current: int): (prev: int)
    ensures prev == current || (prev < current && Enabled(optionList, prev))
  {
    var optionLength := |optionList|;
    var prevIndex := FindIndex(Reverse(optionList),
      (option: OptionRefInfo<R, V>, index: int) =>
        if current <= GetOriginIndexFromReversed(index, optionLength) then false
        else !option.optionInfo.disabled);
    if prevIndex < 0 then current else GetOriginIndexFromReversed(prevIndex, optionLength)
  }

  /** `calcFocusIndex`; `None` is `null` for the index and `undefined` for `to`.
      An empty list gives null. A result that is neither the target nor the
      current index is 0 for FIRST, the last index for LAST, and for NEXT and
      PREV an index past the current one in that direction, on an enabled
      option (for NEXT, when the current index is at least -1). OUT gives null
      except when an unfocused list is seeded with a target. */
  function CalcFocusIndex<R, V>(optionList: seq<OptionRefInfo<R, V>>, currentFocusedIndex: Option<int>,
                                direction: MoveDirection, to: Option<int>): (r: Option<int>)
    ensures |optionList| == 0 ==> r.None?
    ensures r.Some? && r != to && r != currentFocusedIndex ==>
      (direction == First && r.value == 0) || (direction == Last && r.value == |optionList| - 1) ||
      (direction == Next && currentFocusedIndex.Some? && currentFocusedIndex.value < r.value &&
       (-1 <= currentFocusedIndex.value ==> Enabled(optionList, r.value))) ||
      (direction == Prev && currentFocusedIndex.Some? && r.value < currentFocusedIndex.value &&
       Enabled(optionList, r.value))
    ensures direction == Out ==> r.None? || (currentFocusedIndex.None? && r == to)
  {
    var optionLength := |optionList|;
    if optionLength == 0 then None
    else if currentFocusedIndex.None? && to.Some? then to
    else match direction
      case Next =>
        if currentFocusedIndex.None? then None else Some(ScanNext(optionList, currentFocusedIndex.value))
      case Prev =>
        if currentFocusedIndex.None? then None else Some(ScanPrev(optionList, currentFocusedIndex.value))
      case First => Some(0)
      case Last => Some(optionLength - 1)
      case Target => if to.None? then None else Some(to.value)
      case Out => None
  }

  /** NEXT from `current` (at least -1) lands on the nearest enabled option after
      it, or stays on `current` when every later option is disabled. */
  lemma NextMovesToNearestEnabledAfter<R, V>(optionList: seq<OptionRefInfo<R, V>>, current: int, to: Option<int>)
    requires |optionList| > 0 && -1 <= current
    ensures var r := CalcFocusIndex(optionList, Some(current), Next, to);
      r.Some? &&
      ((r.value == current && forall j :: current < j ==> !Enabled(optionList, j)) ||
       (current < r.value < |optionList| && Enabled(optionList, r.value) &&
        forall j :: current < j < r.value ==> !Enabled(optionList, j)))
  {
    var p := (option: OptionRefInfo<R, V>, index: int) => !option.optionInfo.disabled;
    var rest := SliceFrom(optionList, current + 1);
    assert rest == if current + 1 <= |optionList| then optionList[current + 1..] else [];
    var k := FindIndex(rest, p);
    if k < 0 {
      forall j | current < j
        ensures !Enabled(optionList, j)
      {
        if j < |optionList| {
          assert rest[j - current - 1] == optionList[j];
          assert !p(rest[j - current - 1], j - current - 1);
        }
      }
    } else {
      assert rest[k] == optionList[k + current + 1];
      forall j | current < j < k + current + 1
        ensures !Enabled(optionList, j)
      {
        assert rest[j - current - 1] == optionList[j];
        assert !p(rest[j - current - 1], j - current - 1);
      }
    }
  }

  /** PREV from any `current` lands on the nearest enabled option before it, or
      stays on `current` when every earlier option is disabled. */
  lemma PrevMovesToNearestEnabledBefore<R, V>(optionList: seq<OptionRefInfo<R, V>>, current: int, to: Option<int>)
    requires |optionList| > 0
    ensures var r := CalcFocusIndex(optionList, Some(current), Prev, to);
      r.Some? &&
      ((r.value == current && forall j :: j < current ==> !Enabled(optionList, j)) ||
       (0 <= r.value < current && Enabled(optionList, r.value) &&
        forall j :: r.value < j < current ==> !Enabled(optionList, j)))
  {
    var n := |optionList|;
    var p := (option: OptionRefInfo<R, V>, index: int) =>
      if current <= GetOriginIndexFromReversed(index, n) then false else !option.optionInfo.disabled;
    var reversed := Reverse(optionList);
    var k := FindIndex(reversed, p);
    if k < 0 {
      forall j | j < current
        ensures !Enabled(optionList, j)
      {
        if 0 <= j < n {
          assert reversed[n - 1 - j] == optionList[j];
          assert !p(reversed[n - 1 - j], n - 1 - j);
        }
      }
    } else {
      assert reversed[k] == optionList[n - 1 - k];
      forall j | n - 1 - k < j < current
        ensures !Enabled(optionList, j)
      {
        if j < n {
          assert reversed[n - 1 - j] == optionList[j];
          assert !p(reversed[n - 1 - j], n - 1 - j);
        }
      }
    }
  }

  /** For a current index inside the list, NEXT and PREV stay inside the list,
      NEXT never goes back, PREV never goes forward, and a move always lands on
      an enabled option. */
  lemma MovesStayInRange<R, V>(optionList: seq<OptionRefInfo<R, V>>, current: int, to: Option<int>)
    requires 0 <= current < |optionList|
    ensures var next := CalcFocusIndex(optionList, Some(current), Next, to);
      next.Some? && current <= next.value < |optionList| &&
      (next.value != current ==> Enabled(optionList, next.value))
    ensures var prev := CalcFocusIndex(optionList, Some(current), Prev, to);
      prev.Some? && 0 <= prev.value <= current &&
      (prev.value != current ==> Enabled(optionList, prev.value))
  {
    NextMovesToNearestEnabledAfter(optionList, current, to);
    PrevMovesToNearestEnabledBefore(optionList, current, to);
  }

  /** NEXT followed by PREV comes back to an enabled starting option whenever NEXT
      actually moved; when NEXT stays at the end, PREV goes further back instead. */
  lemma NextThenPrevReturns<R, V>(optionList: seq<OptionRefInfo<R, V>>, current: int)
    requires Enabled(optionList, current)
    requires CalcFocusIndex(optionList, Some(current), Next, None) != Some(current)
    ensures var next := CalcFocusIndex(optionList, Some(current), Next, None);
      next.Some? && CalcFocusIndex(optionList, Some(next.value), Prev, None) == Some(current)
  {
    NextMovesToNearestEnabledAfter(optionList, current, None);
    var next := CalcFocusIndex(optionList, Some(current), Next, None).value;
    PrevMovesToNearestEnabledBefore(optionList, next, None);
  }

  /** An empty registry gives null whatever else is asked. */
  lemma EmptyListGivesNull<R, V>(optionList: seq<OptionRefInfo<R, V>>, current: Option<int>,
                                 direction: MoveDirection, to: Option<int>)
    requires |optionList| == 0
    ensures CalcFocusIndex(optionList, current, direction, to) == None
  {
  }

  /** With nothing focused, a supplied target wins over every direction, FIRST
      and OUT included. */
  lemma TargetSeedsUnfocusedList<R, V>(optionList: seq<OptionRefInfo<R, V>>, direction: MoveDirection, t: int)
    requires |optionList| > 0
    ensures CalcFocusIndex(optionList, None, direction, Some(t)) == Some(t)
  {
  }

  /** NEXT and PREV from a null index without a target give null. */
  lemma UnfocusedStepGivesNull<R, V>(optionList: seq<OptionRefInfo<R, V>>)
    ensures CalcFocusIndex(optionList, None, Next, None) == None
    ensures CalcFocusIndex(optionList, None, Prev, None) == None
  {
  }

  /** Outside the seed case, FIRST is 0 and LAST is length - 1 whether or not
      those options are disabled, TARGET returns `to` unchecked and OUT is null. */
  lemma AbsoluteMoves<R, V>(optionList: seq<OptionRefInfo<R, V>>, current: Option<int>, to: Option<int>)
    requires |optionList| > 0
    requires current.Some? || to.None?
    ensures CalcFocusIndex(optionList, current, First, to) == Some(0)
    ensures CalcFocusIndex(optionList, current, Last, to) == Some(|optionList| - 1)
    ensures CalcFocusIndex(optionList, current, Target, to) == to
    ensures CalcFocusIndex(optionList, current, Out, to) == None
  {
  }

  /** Three enabled options: NEXT walks 0, 1, 2 and then stays on 2. */
  lemma ThreeOptionWalk<R, V>(a: OptionRefInfo<R, V>, b: OptionRefInfo<R, V>, c: OptionRefInfo<R, V>)
    requires !a.optionInfo.disabled && !b.optionInfo.disabled && !c.optionInfo.disabled
    ensures CalcFocusIndex([a, b, c], Some(0), Next, None) == Some(1)
    ensures CalcFocusIndex([a, b, c], Some(1), Next, None) == Some(2)
    ensures CalcFocusIndex([a, b, c], Some(2), Next, None) == Some(2)
  {
    NextMovesToNearestEnabledAfter([a, b, c], 0, None);
    NextMovesToNearestEnabledAfter([a, b, c], 1, None);
    NextMovesToNearestEnabledAfter([a, b, c], 2, None);
    assert Enabled([a, b, c], 1) && Enabled([a, b, c], 2);
  }
}
