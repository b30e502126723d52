/** src/hooks/use-click-outside.ts: the decision `handleClickOutside` makes for one
    document click. Registering the listener is not modelled. A ref is opaque
    (`Ref`); `current` reads the element it points at, `contains` is
    `Node.contains` and `isElement` is `instanceof HTMLElement`. */
module ClickOutside {
  import opened Wrappers
  import opened JsArray

  /** `e.composedPath?.()?.[0] || e.target`: an element is always truthy, so the
      first entry of the composed path wins whenever there is one. */
  function ClickTarget<N>(pathHead: Option<N>, eventTarget: Option<N>): (target: Option<N>)
    ensures target.Some? <==> pathHead.Some? || eventTarget.Some?
    ensures target.Some? && pathHead.Some? ==> target == pathHead
    ensures target.Some? ==> target == pathHead || target == eventTarget
  {
    if pathHead.Some? then pathHead else eventTarget
  }

  /** Whether the click calls `onClickOutside`, which it then does exactly once.
      It does so exactly when the target is an element, some ref is non-null, no
      ref's current element contains the target, and the list is open. */
  function HandleClickOutside<Ref, N>(domRefs: seq<Option<Ref>>, current: Ref -> Option<N>, contains: (N, N) -> bool,
                                      isElement: N -> bool, isOpen: Option<bool>,
                                      pathHead: Option<N>, eventTarget: Option<N>): (invoke: bool)
    ensures var target := ClickTarget(pathHead, eventTarget);
      invoke <==>
        target.Some? && isElement(target.value) &&
        (exists i :: 0 <= i < |domRefs| && domRefs[i].Some?) &&
        (forall i :: 0 <= i < |domRefs| && domRefs[i].Some? && current(domRefs[i].value).Some? ==>
           !contains(current(domRefs[i].value).value, target.value)) &&
        isOpen == Some(true)
  {
    var target := ClickTarget(pathHead, eventTarget);
    if target.None? || !isElement(target.value) then false
    else if Every(domRefs, (domRef: Option<Ref>) => domRef.None?) then false
    else
      var isInsideClick := Any(domRefs, (domRef: Option<Ref>) =>
        if domRef.None? || current(domRef.value).None? then false
        else contains(current(domRef.value).value, target.value));
      if isInsideClick || !(isOpen.Some? && isOpen.value) then false
      else true
  }

  /** A closed (or unspecified) `isOpen` never lets the callback run. */
  lemma ClosedNeverInvokes<Ref, N>(domRefs: seq<Option<Ref>>, current: Ref -> Option<N>, contains: (N, N) -> bool,
                                   isElement: N -> bool, isOpen: Option<bool>,
                                   pathHead: Option<N>, eventTarget: Option<N>)
    requires isOpen != Some(true)
    ensures !HandleClickOutside(domRefs, current, contains, isElement, isOpen, pathHead, eventTarget)
  {
  }

  /** A click inside any mounted ref never lets the callback run; null refs and
      refs without a current element are skipped rather than failing. */
  lemma InsideClickSuppresses<Ref, N>(domRefs: seq<Option<Ref>>, current: Ref -> Option<N>, contains: (N, N) -> bool,
                                      isElement: N -> bool, isOpen: Option<bool>,
                                      pathHead: Option<N>, eventTarget: Option<N>, k: nat)
    requires k < |domRefs| && domRefs[k].Some? && current(domRefs[k].value).Some?
    requires ClickTarget(pathHead, eventTarget).Some?
    requires contains(current(domRefs[k].value).value, ClickTarget(pathHead, eventTarget).value)
    ensures !HandleClickOutside(domRefs, current, contains, isElement, isOpen, pathHead, eventTarget)
  {
  }

  /** With every ref null, or no element as target, the callback never runs. */
  lemma NoRefsOrNoElementNeverInvokes<Ref, N>(domRefs: seq<Option<Ref>>, current: Ref -> Option<N>,
                                              contains: (N, N) -> bool, isElement: N -> bool, isOpen: Option<bool>,
                                              pathHead: Option<N>, eventTarget: Option<N>)
    requires (forall i :: 0 <= i < |domRefs| ==> domRefs[i].None?) ||
             ClickTarget(pathHead, eventTarget).None? || !isElement(ClickTarget(pathHead, eventTarget).value)
    ensures !HandleClickOutside(domRefs, current, contains, isElement, isOpen, pathHead, eventTarget)
  {
  }
}
