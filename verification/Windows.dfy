/** Counting how many instants of a time-ordered log fall in a closed interval.
    Shared by the two limiters, whose bounds are bounds on such counts. */
module Windows {

  ghost predicate Sorted(times: seq<real>) {
    forall i, j :: 0 <= i <= j < |times| ==> times[i] <= times[j]
  }

  /** The number of entries of `times` in the closed interval [lo, hi]. */
  ghost function Within(times: seq<real>, lo: real, hi: real): nat {
    if times == [] then 0
    else Within(times[..|times| - 1], lo, hi) + (if lo <= times[|times| - 1] <= hi then 1 else 0)
  }

  /** In a sorted log the entries of [lo, hi] are a contiguous block [i..j). */
  lemma {:induction false} WithinIsABlock(times: seq<real>, lo: real, hi: real) returns (i: nat, j: nat)
    requires Sorted(times) && lo <= hi
    ensures i <= j <= |times| && Within(times, lo, hi) == j - i
    ensures forall k :: i <= k < j ==> lo <= times[k] <= hi
    ensures forall k :: 0 <= k < i ==> times[k] < lo
    ensures forall k :: j <= k < |times| ==> hi < times[k]
  {
    if times == [] {
      i, j := 0, 0;
    } else {
      var n := |times| - 1;
      i, j := WithinIsABlock(times[..n], lo, hi);
      if times[n] < lo {
        i, j := n + 1, n + 1;
      } else if times[n] <= hi {
        j := n + 1;
      }
    }
  }

  /** Appending an instant that is no earlier than the log. */
  lemma WithinSnoc(times: seq<real>, t: real, lo: real, hi: real)
    ensures Within(times + [t], lo, hi) == Within(times, lo, hi) + (if lo <= t <= hi then 1 else 0)
  {
    assert (times + [t])[..|times|] == times;
  }
}
