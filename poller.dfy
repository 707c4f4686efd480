/**
 * The counter-driven wait loops of the order-detail check: read a page snapshot,
 * stop as soon as it satisfies the loop's condition, otherwise bump the counter
 * and trigger a scroll whenever the counter reaches a multiple of the cadence.
 * Each wait is reduced to one snapshot per iteration.
 */
module Poller {
  import opened Strings
  import opened Search

  /** The counter values in 1..n at which a cadence-`c` scroll fires (none when `c` is 0). */
  function ScrollPoints(n: nat, c: nat): (r: seq<nat>)
    decreases n
    ensures forall j :: 0 <= j < |r| ==> 1 <= r[j] <= n && c > 0 && r[j] % c == 0
  {
    if n == 0 then []
    else
      var prev := ScrollPoints(n - 1, c);
      var last: seq<nat> := if c > 0 && n % c == 0 then [n] else [];
      assert forall j :: 0 <= j < |last| ==> 1 <= last[j] <= n && c > 0 && last[j] % c == 0;
      prev + last
  }

  /** Quotient and remainder are determined by any decomposition with a remainder below `c`. */
  lemma DivModUnique(n: nat, c: nat, q: nat, r: nat)
    requires 0 <= r < c && n == q * c + r
    ensures n / c == q && n % c == r
  {
    var q', r' := n / c, n % c;
    assert q * c + r == q' * c + r';
    if q > q' {
      MulAtLeast(q - q', c);
    } else if q < q' {
      MulAtLeast(q' - q, c);
    }
  }

  lemma {:induction false} MulAtLeast(a: nat, c: nat)
    requires a >= 1
    ensures a * c >= c
  {
    if a > 1 {
      MulAtLeast(a - 1, c);
      assert a * c == (a - 1) * c + c;
    }
  }

  /** There are exactly `n / c` scroll points and they are the first `n / c` multiples of `c`. */
  lemma {:induction false} ScrollPointsAreMultiples(n: nat, c: nat)
    requires c > 0
    ensures |ScrollPoints(n, c)| == n / c
    ensures forall j :: 0 <= j < n / c ==> ScrollPoints(n, c)[j] == (j + 1) * c
  {
    if n > 0 {
      ScrollPointsAreMultiples(n - 1, c);
      var q, r := (n - 1) / c, (n - 1) % c;
      if r == c - 1 {
        DivModUnique(n, c, q + 1, 0);
      } else {
        DivModUnique(n, c, q, r + 1);
      }
    }
  }

  /** Without a cadence nothing scrolls. */
  lemma {:induction false} NoCadenceNoScroll(n: nat)
    ensures ScrollPoints(n, 0) == []
  {
    if n > 0 {
      NoCadenceNoScroll(n - 1);
    }
  }

  /**
   * One polling loop over the snapshots `snaps`, at most `budget` iterations.
   * `found` says the condition held; `counter` is the loop counter's final
   * value (the index of the satisfying snapshot, or `budget`); `scrolls`
   * lists the counter values at which a scroll was triggered.
   */
  method Poll<T>(snaps: seq<T>, budget: nat, cadence: nat, done: T -> bool)
      returns (found: bool, counter: nat, scrolls: seq<nat>)
    requires |snaps| >= budget
    ensures counter <= budget
    ensures found <==> FirstIndex(snaps[..budget], done).Some?
    ensures found ==> counter == FirstIndex(snaps[..budget], done).value
    ensures !found ==> counter == budget
    ensures scrolls == ScrollPoints(counter, cadence)
  {
    found := false;
    counter := 0;
    scrolls := [];
    while !found && counter < budget
      invariant counter <= budget
      invariant forall j :: 0 <= j < counter ==> !done(snaps[j])
      invariant !found
      invariant scrolls == ScrollPoints(counter, cadence)
    {
      if done(snaps[counter]) {
        found := true;
        break;
      }
      counter := counter + 1;
      if cadence > 0 && counter % cadence == 0 {
        scrolls := scrolls + [counter];
      }
    }
    assert forall j :: 0 <= j < budget ==> snaps[..budget][j] == snaps[j];
  }
}
