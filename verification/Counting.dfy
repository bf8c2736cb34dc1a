/** Counting occurrences in a sequence. */
module Counting {

  function Count(s: seq<int>, x: int): nat { multiset(s)[x] }

  lemma CountAppend(s: seq<int>, t: seq<int>, x: int)
    ensures Count(s + t, x) == Count(s, x) + Count(t, x)
  {
    assert multiset(s + t) == multiset(s) + multiset(t);
  }

  lemma CountIn(s: seq<int>, x: int)
    ensures x in s <==> Count(s, x) > 0
  {
    assert x in s <==> x in multiset(s);
  }

  lemma CountOne(y: int, x: int)
    ensures Count([y], x) == if x == y then 1 else 0
  {
    assert multiset([y]) == multiset{y};
  }

  function Sum(a: seq<nat>): nat { if a == [] then 0 else Sum(a[..|a|-1]) + a[|a|-1] }

  lemma {:induction false} SumPart(a: seq<nat>, i: nat)
    requires i < |a|
    ensures a[i] <= Sum(a)
  {
    if i < |a| - 1 { SumPart(a[..|a|-1], i); }
  }

  lemma {:induction false} SumTwo(a: seq<nat>, i: nat, j: nat)
    requires i < j < |a|
    ensures a[i] + a[j] <= Sum(a)
  {
    if j == |a| - 1 { SumPart(a[..|a|-1], i); } else { SumTwo(a[..|a|-1], i, j); }
  }

  lemma {:induction false} SumUpdate(a: seq<nat>, b: seq<nat>, i: nat)
    requires |a| == |b| && i < |a| && forall j :: 0 <= j < |a| && j != i ==> a[j] == b[j]
    ensures Sum(b) + a[i] == Sum(a) + b[i]
  {
    var n := |a| - 1;
    if i == n { assert a[..n] == b[..n]; } else { SumUpdate(a[..n], b[..n], i); }
  }
}
