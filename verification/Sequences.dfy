/**
 Sequences put together, and the sum of a weight over a sequence.
 */
module Sequences {

  lemma Associative<T>(x: seq<T>, y: seq<T>, z: seq<T>)
    ensures x + (y + z) == x + y + z
  {
  }

  lemma ChainFlows<T>(q: seq<T>, in1: seq<T>, out1: seq<T>, q1: seq<T>, in2: seq<T>, out2: seq<T>, q2: seq<T>)
    requires q + in1 == out1 + q1 && q1 + in2 == out2 + q2
    ensures q + (in1 + in2) == (out1 + out2) + q2
  {
    calc {
      q + (in1 + in2);
      (q + in1) + in2;
      (out1 + q1) + in2;
      out1 + (q1 + in2);
      out1 + (out2 + q2);
      (out1 + out2) + q2;
    }
  }

  function Sum<T>(xs: seq<T>, weight: T -> nat): nat {
    if xs == [] then 0 else weight(xs[0]) + Sum(xs[1..], weight)
  }

  lemma {:induction false} SumSnoc<T>(xs: seq<T>, x: T, weight: T -> nat)
    ensures Sum(xs + [x], weight) == Sum(xs, weight) + weight(x)
  {
    if xs == [] {
      assert (xs + [x])[1..] == [];
    } else {
      SumSnoc(xs[1..], x, weight);
      assert (xs + [x])[1..] == xs[1..] + [x];
    }
  }

  lemma {:induction false} SumUpdate<T>(xs: seq<T>, i: nat, x: T, weight: T -> nat)
    requires i < |xs|
    ensures Sum(xs[i := x], weight) == Sum(xs, weight) - weight(xs[i]) + weight(x)
  {
    if i == 0 {
      assert xs[i := x][1..] == xs[1..];
    } else {
      SumUpdate(xs[1..], i - 1, x, weight);
      assert xs[i := x][1..] == xs[1..][i - 1 := x];
    }
  }

  lemma {:induction false} SumZero<T>(xs: seq<T>, weight: T -> nat)
    requires forall i :: 0 <= i < |xs| ==> weight(xs[i]) == 0
    ensures Sum(xs, weight) == 0
  {
    if xs != [] {
      SumZero(xs[1..], weight);
    }
  }
}
