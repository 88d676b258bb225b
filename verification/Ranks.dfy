/** Ranks of a system of threads: one number a thread, added up. */
module Ranks {

  /** k times x. */
  function Repeat(k: nat, x: nat): nat {
    if k == 0 then 0 else x + Repeat(k - 1, x)
  }

  /** a - b, or 0. */
  function Minus(a: nat, b: nat): nat {
    if a < b then 0 else a - b
  }

  function Total(r: seq<nat>): nat {
    if r == [] then 0 else Total(r[..|r| - 1]) + r[|r| - 1]
  }

  lemma {:induction false} OthersFall(a: seq<nat>, b: seq<nat>, toll: nat)
    requires |a| == |b| && forall j: nat :: j < |a| ==> b[j] <= a[j] + toll
    ensures Total(b) <= Total(a) + toll * |a|
  {
    if a != [] {
      OthersFall(a[..|a| - 1], b[..|a| - 1], toll);
      assert toll * |a| == toll * (|a| - 1) + toll;
    }
  }

  /** One thread loses rank, the others may gain a toll each. */
  lemma {:induction false} TotalFalls(a: seq<nat>, b: seq<nat>, i: nat, toll: nat, pay: nat, credit: nat)
    requires |a| == |b| && i < |a| && forall j: nat :: j < |a| && j != i ==> b[j] <= a[j] + toll
    requires b[i] + pay < a[i] + credit
    ensures Total(b) + pay < Total(a) + credit + toll * (|a| - 1)
    decreases |a|
  {
    var n := |a| - 1;
    if i == n {
      OthersFall(a[..n], b[..n], toll);
    } else {
      TotalFalls(a[..n], b[..n], i, toll, pay, credit);
      assert toll * n == toll * (n - 1) + toll;
    }
  }
}
