/**
 * The shape shared by the scanners that walk the lines of the output and
 * stop at the first line that yields something.
 */
module LineScan {
  import opened Wrappers

  /** What the first index in [i, end) that yields something yields. */
  function FirstHit<T>(f: nat -> Option<T>, i: nat, end: nat): Option<T>
    decreases end - i
  {
    if i >= end then None
    else if f(i).Some? then f(i)
    else FirstHit(f, i + 1, end)
  }

  /** `FirstHit` finds the first index that yields something, and nothing when no index does. */
  lemma {:induction false} FirstHitIsFirst<T>(f: nat -> Option<T>, i: nat, end: nat)
    decreases end - i
    ensures FirstHit(f, i, end).Some? ==>
              exists k :: i <= k < end && f(k) == FirstHit(f, i, end) && forall j :: i <= j < k ==> f(j).None?
    ensures FirstHit(f, i, end).None? <==> forall j :: i <= j < end ==> f(j).None?
  {
    if i < end && f(i).None? {
      FirstHitIsFirst(f, i + 1, end);
    }
  }
}
