/** Trailing runs of failures in a history of outcomes. */
module Streaks {
  /** `n` is the length of the longest all-failure suffix of `h` (true: a success). */
  ghost predicate LongestFailureTail(h: seq<bool>, n: nat) {
    && n <= |h|
    && (forall i :: |h| - n <= i < |h| ==> !h[i])
    && (n == |h| || h[|h| - n - 1])
  }

  lemma TailUnique(h: seq<bool>, m: nat, n: nat)
    requires LongestFailureTail(h, m) && LongestFailureTail(h, n)
    ensures m == n
  {
  }

  function TrailingFailures(h: seq<bool>): (n: nat)
    ensures LongestFailureTail(h, n)
  {
    if h == [] || h[|h| - 1] then 0 else 1 + TrailingFailures(h[..|h| - 1])
  }
}
