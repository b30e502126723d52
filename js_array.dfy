/** The few `Array.prototype` operations the Select core relies on, written as
    functions whose contracts say what the JavaScript built-ins return. */
module JsArray {

  /** `s.findIndex(p)`: the first index whose element satisfies `p` (which also
      receives the index), or -1 when there is none. */
  function FindIndex<T>(s: seq<T>, p: (T, int) -> bool): (k: int)
    ensures -1 <= k < |s|
    ensures 0 <= k ==> p(s[k], k) && forall i :: 0 <= i < k ==> !p(s[i], i)
    ensures k == -1 ==> forall i :: 0 <= i < |s| ==> !p(s[i], i)
  {
    FindIndexFrom(s, p, 0)
  }

  /** The scan behind FindIndex, started at position `from`. */
  function FindIndexFrom<T>(s: seq<T>, p: (T, int) -> bool, from: nat): (k: int)
    requires from <= |s|
    decreases |s| - from
    ensures -1 <= k < |s|
    ensures 0 <= k ==> from <= k && p(s[k], k) && forall i :: from <= i < k ==> !p(s[i], i)
    ensures k == -1 ==> forall i :: from <= i < |s| ==> !p(s[i], i)
  {
    if from == |s| then -1
    else if p(s[from], from) then from
    else FindIndexFrom(s, p, from + 1)
  }

  /** `s.slice(start)` for an integer `start`: a negative start counts back from
      the end, a start past the end gives the empty array. */
  function SliceFrom<T>(s: seq<T>, start: int): (r: seq<T>)
    ensures |r| <= |s| && r == s[|s| - |r|..]
  {
    if start < 0 then (if |s| + start < 0 then s else s[|s| + start..])
    else if start <= |s| then s[start..]
    else []
  }

  /** `s.slice().reverse()`: a reversed copy. */
  function Reverse<T>(s: seq<T>): (r: seq<T>)
    ensures |r| == |s|
    ensures forall i :: 0 <= i < |s| ==> r[i] == s[|s| - 1 - i]
  {
    if s == [] then [] else Reverse(s[1..]) + [s[0]]
  }

  /** `s.every(p)`. */
  function Every<T>(s: seq<T>, p: T -> bool): (b: bool)
    ensures b <==> forall i :: 0 <= i < |s| ==> p(s[i])
  {
    if s == [] then true else p(s[0]) && Every(s[1..], p)
  }

  /** `s.some(p)`. */
  function Any<T>(s: seq<T>, p: T -> bool): (b: bool)
    ensures b <==> exists i :: 0 <= i < |s| && p(s[i])
  {
    if s == [] then false else p(s[0]) || Any(s[1..], p)
  }
}
