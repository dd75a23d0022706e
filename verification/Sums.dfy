/** Totals of sequences of counters. */
module Sums {

  function Total(xs: seq<nat>): nat {
    if xs == [] then 0 else xs[0] + Total(xs[1..])
  }

  lemma {:induction false} TotalAppend(xs: seq<nat>, ys: seq<nat>)
    ensures Total(xs + ys) == Total(xs) + Total(ys)
  {
    if xs == [] {
      assert xs + ys == ys;
    } else {
      assert (xs + ys)[1..] == xs[1..] + ys;
      TotalAppend(xs[1..], ys);
    }
  }

  lemma TotalSnoc(xs: seq<nat>, x: nat)
    ensures Total(xs + [x]) == Total(xs) + x
  {
    TotalAppend(xs, [x]);
    assert Total([x]) == x + Total([]);
  }

  lemma {:induction false} TotalUpdate(xs: seq<nat>, i: nat, v: nat)
    requires i < |xs|
    ensures Total(xs[i := v]) + xs[i] == Total(xs) + v
  {
    if i == 0 {
      assert xs[i := v][1..] == xs[1..];
    } else {
      assert xs[i := v][1..] == xs[1..][i - 1 := v];
      TotalUpdate(xs[1..], i - 1, v);
    }
  }

  ghost predicate Below(xs: seq<nat>, ys: seq<nat>) {
    |xs| == |ys| && forall i :: 0 <= i < |xs| ==> xs[i] <= ys[i]
  }

  lemma {:induction false} TotalBelow(xs: seq<nat>, ys: seq<nat>)
    requires Below(xs, ys)
    ensures Total(xs) <= Total(ys)
    ensures Total(xs) == Total(ys) <==> xs == ys
  {
    if xs != [] {
      TotalBelow(xs[1..], ys[1..]);
      assert xs == [xs[0]] + xs[1..] && ys == [ys[0]] + ys[1..];
    }
  }

  lemma {:induction false} TotalZero(xs: seq<nat>)
    ensures Total(xs) == 0 <==> forall i :: 0 <= i < |xs| ==> xs[i] == 0
  {
    if xs != [] {
      TotalZero(xs[1..]);
      if Total(xs) == 0 {
        forall i | 0 <= i < |xs| ensures xs[i] == 0 {
          if i > 0 { assert xs[i] == xs[1..][i - 1]; }
        }
      }
    }
  }

  /** Two totals of yes-or-no counters add up when each position says yes to exactly one. */
  lemma {:induction false} TotalComplement(xs: seq<nat>, ys: seq<nat>)
    requires |xs| == |ys| && forall i :: 0 <= i < |xs| ==> xs[i] + ys[i] == 1
    ensures Total(xs) + Total(ys) == |xs|
  {
    if xs != [] {
      TotalComplement(xs[1..], ys[1..]);
    }
  }
}
