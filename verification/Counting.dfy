/** Adding up a quantity over all threads of a machine, and what one thread's step does to the total. */
module Counting {
  function Sum<P>(s: seq<P>, f: P -> nat): nat {
    if |s| == 0 then 0 else Sum(s[..|s| - 1], f) + f(s[|s| - 1])
  }

  lemma {:induction false} SumUpdate<P>(s: seq<P>, f: P -> nat, i: nat, x: P)
    requires i < |s|
    ensures Sum(s[i := x], f) + f(s[i]) == Sum(s, f) + f(x)
  {
    var last := |s| - 1;
    if i == last {
      assert s[i := x][..last] == s[..last];
    } else {
      SumUpdate(s[..last], f, i, x);
      assert s[i := x][..last] == s[..last][i := x];
    }
  }

  lemma {:induction false} SumAtLeast<P>(s: seq<P>, f: P -> nat, i: nat)
    requires i < |s|
    ensures f(s[i]) <= Sum(s, f)
  {
    var last := |s| - 1;
    if i == last {
    } else {
      SumAtLeast(s[..last], f, i);
    }
  }

  lemma {:induction false} SumZero<P>(s: seq<P>, f: P -> nat)
    requires forall i :: 0 <= i < |s| ==> f(s[i]) == 0
    ensures Sum(s, f) == 0
  {
    if |s| == 0 {
    } else {
      SumZero(s[..|s| - 1], f);
    }
  }

  lemma {:induction false} SumPositive<P>(s: seq<P>, f: P -> nat) returns (i: nat)
    requires Sum(s, f) > 0
    ensures i < |s| && f(s[i]) > 0
  {
    if f(s[|s| - 1]) > 0 {
      i := |s| - 1;
    } else {
      i := SumPositive(s[..|s| - 1], f);
    }
  }

  lemma {:induction false} SumCongruent<P>(s: seq<P>, t: seq<P>, f: P -> nat)
    requires |s| == |t| && forall i :: 0 <= i < |s| ==> f(s[i]) == f(t[i])
    ensures Sum(s, f) == Sum(t, f)
  {
    if |s| == 0 {
    } else {
      SumCongruent(s[..|s| - 1], t[..|t| - 1], f);
    }
  }
}
