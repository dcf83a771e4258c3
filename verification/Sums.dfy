/** Sums of sequences of numbers. */
module Sums {

  function Sum(c: seq<nat>): nat {
    if c == [] then 0 else Sum(c[..|c| - 1]) + c[|c| - 1]
  }

  lemma {:induction false} SumUpdate(c: seq<nat>, i: nat, x: nat)
    requires i < |c|
    ensures Sum(c[i := x]) + c[i] == Sum(c) + x
  {
    var front := c[..|c| - 1];
    if i < |front| {
      assert c[i := x][..|c| - 1] == front[i := x];
      SumUpdate(front, i, x);
    } else {
      assert c[i := x][..|c| - 1] == front;
    }
  }

  lemma {:induction false} SumOfZeros(c: seq<nat>)
    requires forall i :: 0 <= i < |c| ==> c[i] == 0
    ensures Sum(c) == 0
  {
    if c != [] {
      SumOfZeros(c[..|c| - 1]);
    }
  }
}
