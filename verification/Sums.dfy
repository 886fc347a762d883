/** Sums of counts. */
module Sums {
  function Sum(s: seq<nat>): nat {
    if s == [] then 0 else Sum(s[..|s| - 1]) + s[|s| - 1]
  }

  lemma {:induction false} SumUpdate(s: seq<nat>, i: nat, n: nat)
    requires i < |s|
    ensures Sum(s[i := n]) + s[i] == Sum(s) + n
  {
    var last := |s| - 1;
    if i == last {
      assert s[i := n][..last] == s[..last];
    } else {
      assert s[i := n][..last] == s[..last][i := n];
      SumUpdate(s[..last], i, n);
    }
  }

  lemma SumAppend(s: seq<nat>, n: nat)
    ensures Sum(s + [n]) == Sum(s) + n
  {
    assert (s + [n])[..|s|] == s;
  }

  lemma {:induction false} SumOfZeros(s: seq<nat>)
    requires forall i :: 0 <= i < |s| ==> s[i] == 0
    ensures Sum(s) == 0
  {
    if s != [] {
      SumOfZeros(s[..|s| - 1]);
    }
  }

  lemma {:induction false} AtMostSum(s: seq<nat>, i: nat)
    requires i < |s|
    ensures s[i] <= Sum(s)
  {
    if i < |s| - 1 {
      AtMostSum(s[..|s| - 1], i);
    }
  }

  lemma {:induction false} SumConcat(s: seq<nat>, t: seq<nat>)
    ensures Sum(s + t) == Sum(s) + Sum(t)
  {
    if t == [] {
      assert s + t == s;
    } else {
      assert (s + t)[..|s + t| - 1] == s + t[..|t| - 1];
      SumConcat(s, t[..|t| - 1]);
    }
  }

  lemma SumSplit(s: seq<nat>, n: nat, t: seq<nat>)
    ensures Sum(s + [n] + t) == Sum(s) + n + Sum(t)
  {
    SumConcat(s + [n], t);
    SumAppend(s, n);
  }

  lemma SumRemove(s: seq<nat>, i: nat)
    requires i < |s|
    ensures Sum(s[..i] + s[i + 1..]) + s[i] == Sum(s)
  {
    var front, back := s[..i], s[i + 1..];
    SumSplit(front, s[i], back);
    SumConcat(front, back);
    assert s == front + [s[i]] + back;
  }
}
