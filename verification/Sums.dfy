/** Sums of a measure over the threads of a step system. */
module Sums {

  function Sum<T>(ts: seq<T>, f: T -> nat): nat {
    if ts == [] then 0 else f(ts[0]) + Sum(ts[1..], f)
  }

  // Moving one thread changes the sum by that thread's contribution only.
  lemma {:induction false} SumUpdate<T>(ts: seq<T>, i: nat, t: T, f: T -> nat)
    requires i < |ts|
    ensures Sum(ts[i := t], f) + f(ts[i]) == Sum(ts, f) + f(t)
  {
    if i == 0 {
      assert ts[0 := t][1..] == ts[1..];
    } else {
      assert ts[i := t][1..] == ts[1..][i - 1 := t];
      SumUpdate(ts[1..], i - 1, t, f);
    }
  }

  // For a 0/1 measure one thread already bounds the count from both sides.
  lemma {:induction false} SumRange<T(!new)>(ts: seq<T>, i: nat, f: T -> nat)
    requires i < |ts|
    requires forall t :: f(t) <= 1
    ensures f(ts[i]) <= Sum(ts, f) <= |ts| - 1 + f(ts[i])
  {
    SumAtMost(ts[1..], f);
    if i > 0 {
      SumRange(ts[1..], i - 1, f);
    }
  }

  lemma {:induction false} SumAtMost<T(!new)>(ts: seq<T>, f: T -> nat)
    requires forall t :: f(t) <= 1
    ensures Sum(ts, f) <= |ts|
  {
    if ts != [] {
      SumAtMost(ts[1..], f);
    }
  }

  lemma {:induction false} SumBelow<T(!new)>(ts: seq<T>, f: T -> nat, g: T -> nat)
    requires forall t :: f(t) <= g(t)
    ensures Sum(ts, f) <= Sum(ts, g)
  {
    if ts != [] {
      SumBelow(ts[1..], f, g);
    }
  }

  // Measures that agree on every thread have the same sum.
  lemma {:induction false} SumSame<T>(ts: seq<T>, f: T -> nat, g: T -> nat)
    requires forall i :: 0 <= i < |ts| ==> f(ts[i]) == g(ts[i])
    ensures Sum(ts, f) == Sum(ts, g)
  {
    if ts != [] {
      assert forall i :: 0 <= i < |ts[1..]| ==> ts[1..][i] == ts[i + 1];
      SumSame(ts[1..], f, g);
    }
  }
}
