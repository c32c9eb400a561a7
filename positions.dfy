/** Position maps of order-keeping removals: the k-th survivor of a filter is the element at the k-th kept position. */
module Positions {

  /** Every position moved one place to the right. */
  function Successors(f: seq<nat>): (g: seq<nat>)
    ensures |g| == |f| && forall k :: 0 <= k < |f| ==> g[k] == f[k] + 1
  {
    seq(|f|, k requires 0 <= k < |f| => f[k] + 1)
  }

  /** Putting a kept head in front of the survivors of the tail keeps the position map increasing and exact. */
  lemma KeptHead<T>(head: T, survivors: seq<T>, shifted: seq<nat>, items: seq<T>)
    requires items != [] && items[0] == head && |shifted| == |survivors|
    requires forall k :: 0 <= k < |shifted| ==> 1 <= shifted[k] < |items| && survivors[k] == items[shifted[k]]
    requires forall k, l :: 0 <= k < l < |shifted| ==> shifted[k] < shifted[l]
    ensures var f := [0] + shifted; var r := [head] + survivors;
      (forall k :: 0 <= k < |f| ==> f[k] < |items| && r[k] == items[f[k]]) &&
      (forall k, l :: 0 <= k < l < |f| ==> f[k] < f[l]) &&
      (forall j :: j in shifted ==> j in f) && 0 in f
  {
    var f := [0] + shifted;
    var r := [head] + survivors;
    forall k | 0 <= k < |f| ensures f[k] < |items| && r[k] == items[f[k]] {
      if k > 0 {
        assert f[k] == shifted[k - 1] && r[k] == survivors[k - 1];
      }
    }
    forall k, l | 0 <= k < l < |f| ensures f[k] < f[l] {
      if k > 0 {
        assert f[k] == shifted[k - 1] && f[l] == shifted[l - 1];
      } else {
        assert f[l] == shifted[l - 1];
      }
    }
    assert f[0] == 0;
  }
}
