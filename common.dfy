/** The Option and Result wrappers and the first-match search shared by the modules of the bridge model. */
module Common {

  datatype Option<+T> = None | Some(value: T)

  /** The outcome of a fallible operation: `Ok` with a value, or `Err` with an error. */
  datatype Result<+T, +E> = Ok(value: T) | Err(error: E)

  /**
   * Position of the first element of `s` that satisfies `p`, as an iterator's `find` or
   * `position` returns it: `None` exactly when no element satisfies `p`.
   */
  function FirstIndex<T>(s: seq<T>, p: T -> bool): (r: Option<nat>)
    ensures r.None? <==> forall k :: 0 <= k < |s| ==> !p(s[k])
    ensures r.Some? ==> r.value < |s| && p(s[r.value])
    ensures r.Some? ==> forall k :: 0 <= k < r.value ==> !p(s[k])
    decreases |s|
  {
    if |s| == 0 then None
    else if p(s[0]) then Some(0)
    else
      match FirstIndex(s[1..], p)
      case None => None
      case Some(k) => Some(k + 1)
  }

  /** The search finds `k` when `s[k]` is the first element satisfying `p`. */
  lemma FirstIndexIs<T>(s: seq<T>, p: T -> bool, k: nat)
    requires k < |s| && p(s[k])
    requires forall j :: 0 <= j < k ==> !p(s[j])
    ensures FirstIndex(s, p) == Some(k)
  {
    var r := FirstIndex(s, p);
    assert r.Some?;
    assert !(r.value < k);
    assert !(k < r.value);
  }
}
