/**
 * The selector-fallback idioms the page-driving code repeats: scan a list of
 * candidates for the first one that qualifies, keep the last candidate when none
 * does, and retry a step a bounded number of times before a fallback.
 */
module Search {
  import opened Strings

  /** The identity on booleans, used to search a sequence of observations. */
  function Id(b: bool): bool { b }

  /** Index of the first element satisfying `p`, if there is one. */
  function FirstIndex<T>(xs: seq<T>, p: T -> bool): (r: Option<nat>)
    decreases |xs|
    ensures r.Some? ==> r.value < |xs| && p(xs[r.value])
    ensures r.Some? ==> forall j :: 0 <= j < r.value ==> !p(xs[j])
    ensures r.None? <==> forall j :: 0 <= j < |xs| ==> !p(xs[j])
  {
    if |xs| == 0 then None
    else if p(xs[0]) then Some(0)
    else match FirstIndex(xs[1..], p)
      case None => None
      case Some(k) => Some(k + 1)
  }

  /** Restricting the search to a prefix changes nothing once the hit lies inside it. */
  lemma {:induction false} FirstIndexPrefix<T>(xs: seq<T>, p: T -> bool, n: nat)
    requires n <= |xs|
    requires FirstIndex(xs, p).Some? && FirstIndex(xs, p).value < n
    ensures FirstIndex(xs[..n], p) == FirstIndex(xs, p)
  {
    var k := FirstIndex(xs, p).value;
    assert xs[..n][k] == xs[k];
    assert forall j :: 0 <= j < k ==> xs[..n][j] == xs[j];
  }

  /**
   * The candidate a keep-last loop ends up holding: the first visible one, else
   * the last one, and nothing only for an empty candidate list.
   */
  function Held(visible: seq<bool>): (held: Option<nat>)
    ensures held.None? <==> |visible| == 0
    ensures held.Some? ==> held.value < |visible|
    ensures FirstIndex(visible, Id).Some? ==> held == FirstIndex(visible, Id)
    ensures FirstIndex(visible, Id).None? && |visible| > 0 ==> held == Some(|visible| - 1)
    ensures held.Some? ==> (visible[held.value] <==> FirstIndex(visible, Id).Some?)
  {
    match FirstIndex(visible, Id)
    case Some(i) => Some(i)
    case None => if |visible| == 0 then None else Some(|visible| - 1)
  }

  /**
   * The candidate loop of the login form: each candidate is assigned to the
   * variable before its visibility is checked, and the loop stops at the first
   * visible one.  When none is visible the variable still holds the last
   * candidate, so it is empty only for an empty candidate list.
   */
  method KeepLastScan(visible: seq<bool>) returns (held: Option<nat>)
    ensures held == Held(visible)
  {
    held := None;
    var i := 0;
    while i < |visible|
      invariant 0 <= i <= |visible|
      invariant forall j :: 0 <= j < i ==> !visible[j]
      invariant held == (if i == 0 then None else Some(i - 1))
    {
      held := Some(i);
      if visible[i] {
        return;
      }
      i := i + 1;
    }
  }

  /** A candidate loop guarded by a separate "found" flag: the first visible candidate, or none. */
  method ScanFirst(visible: seq<bool>) returns (hit: Option<nat>)
    ensures hit == FirstIndex(visible, Id)
  {
    var i := 0;
    while i < |visible|
      invariant 0 <= i <= |visible|
      invariant forall j :: 0 <= j < i ==> !visible[j]
    {
      if visible[i] {
        return Some(i);
      }
      i := i + 1;
    }
    return None;
  }

  /**
   * A counter-driven retry loop: attempt `k` reports `attempts[k]`, the loop stops
   * at the first success and after `maxRetries` attempts at the latest.  The
   * caller runs its fallback exactly when `success` is `None`.
   */
  method Retry(attempts: seq<bool>, maxRetries: nat) returns (success: Option<nat>, made: nat)
    requires |attempts| >= maxRetries
    ensures made <= maxRetries
    ensures success == FirstIndex(attempts[..maxRetries], Id)
    ensures success.Some? ==> made == success.value + 1
    ensures success.None? ==> made == maxRetries
  {
    var done := false;
    made := 0;
    success := None;
    while !done && made < maxRetries
      invariant made <= maxRetries
      invariant forall j :: 0 <= j < made - (if done then 1 else 0) ==> !attempts[j]
      invariant done ==> made >= 1 && attempts[made - 1] && success == Some(made - 1)
      invariant !done ==> success == None
    {
      if attempts[made] {
        done := true;
        success := Some(made);
      }
      made := made + 1;
    }
    assert forall j :: 0 <= j < made - (if done then 1 else 0) ==> attempts[..maxRetries][j] == attempts[j];
  }
}
