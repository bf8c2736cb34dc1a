/** A worst run for the map: how many entries a table needs, exactly. */
module MapStairs {
  import opened ResourceMap
  import opened MapTable
  import opened MapRuns

  /** Units below step j: every step i takes two allocations of i+1 units. */
  function Below(j: nat): nat { if j == 0 then 0 else Below(j - 1) + 2 * j }

  /** Holes that are too small are passed over: the allocation comes from the rest. */
  lemma TakeRest(holes: seq<Seg>, rest: Seg, live: map<int, int>, c: int)
    requires 0 < c < rest.size && 0 < rest.addr && forall i :: 0 <= i < |holes| ==> holes[i].size < c
    ensures Step(Arena(holes + [rest], live), Take(c))
            == Arena(holes + [Seg(rest.addr + c, rest.size - c)], live[rest.addr := c])
  {
    var s, i := holes + [rest], |holes|;
    FirstFitIs(s, c, i);
    assert s[i := Seg(rest.addr + c, rest.size - c)] == holes + [Seg(rest.addr + c, rest.size - c)];
  }

  /** What goes back between the holes and the rest, and touches neither, is a hole more. */
  lemma GiveBetween(holes: seq<Seg>, rest: Seg, live: map<int, int>, a: int, c: int)
    requires 0 < c && a + c < rest.addr && a in live && live[a] == c
    requires forall i :: 0 <= i < |holes| ==> holes[i].addr <= a && holes[i].End() < a
    ensures Step(Arena(holes + [rest], live), Give(a)) == Arena(holes + [Seg(a, c)] + [rest], live - {a})
  {
    var s, i := holes + [rest], |holes|;
    PlaceIs(s, a, i);
    assert Splice(s, i, Seg(a, c)) == holes + [Seg(a, c)] + [rest];
  }

  lemma NeverMoreThen(lo: int, n: int, ops: seq<Op>, op: Op, k: nat)
    requires NeverMore(lo, n, ops, k) && |After(lo, n, ops + [op]).live| <= k
    ensures NeverMore(lo, n, ops + [op], k)
  {
    var all := ops + [op];
    forall i | 0 <= i <= |all|
      ensures |After(lo, n, all[..i]).live| <= k
    {
      if i <= |ops| { assert all[..i] == ops[..i]; } else { assert all[..i] == all; }
    }
  }

  lemma AfterMore(lo: int, n: int, ops: seq<Op>, op: Op)
    ensures After(lo, n, ops + [op]) == Step(After(lo, n, ops), op)
  {
    assert (ops + [op])[..|ops|] == ops;
  }

  /** Never more than k allocations on the way, and at the end of it holes and a rest. */
  ghost predicate At(lo: int, n: int, ops: seq<Op>, k: nat, holes: seq<Seg>, rest: Seg, live: map<int, int>) {
    forall i :: 0 <= i <= |ops| ==>
      var m := After(lo, n, ops[..i]);
      |m.live| <= k && (i == |ops| ==> m == Arena(holes + [rest], live))
  }

  lemma AtMeans(lo: int, n: int, ops: seq<Op>, k: nat, holes: seq<Seg>, rest: Seg, live: map<int, int>)
    ensures At(lo, n, ops, k, holes, rest, live) <==>
            After(lo, n, ops) == Arena(holes + [rest], live) && NeverMore(lo, n, ops, k)
  {
    assert ops[..|ops|] == ops;
  }

  lemma AtNext(lo: int, n: int, ops: seq<Op>, op: Op, k: nat, holes: seq<Seg>, rest: Seg, live: map<int, int>)
    requires NeverMore(lo, n, ops, k) && Step(After(lo, n, ops), op) == Arena(holes + [rest], live) && |live| <= k
    ensures At(lo, n, ops + [op], k, holes, rest, live)
  {
    AfterMore(lo, n, ops, op);
    NeverMoreThen(lo, n, ops, op, k);
    AtMeans(lo, n, ops + [op], k, holes, rest, live);
  }

  lemma TakeMore(lo: int, n: int, ops: seq<Op>, k: nat, holes: seq<Seg>, a: int, size: int, live: map<int, int>, c: int)
    requires At(lo, n, ops, k, holes, Seg(a, size), live) && |live| < k && a !in live
    requires 0 < c < size && 0 < a && forall i :: 0 <= i < |holes| ==> holes[i].size < c
    ensures At(lo, n, ops + [Take(c)], k, holes, Seg(a + c, size - c), live[a := c])
  {
    AtMeans(lo, n, ops, k, holes, Seg(a, size), live);
    TakeRest(holes, Seg(a, size), live, c);
    AtNext(lo, n, ops, Take(c), k, holes, Seg(a + c, size - c), live[a := c]);
  }

  lemma GiveMore(lo: int, n: int, ops: seq<Op>, k: nat, holes: seq<Seg>, rest: Seg, live: map<int, int>, a: int, c: int)
    requires At(lo, n, ops, k, holes, rest, live) && |live| <= k && 0 < c && a + c < rest.addr && a in live
        && live[a] == c
    requires forall i :: 0 <= i < |holes| ==> holes[i].addr <= a && holes[i].End() < a
    ensures At(lo, n, ops + [Give(a)], k, holes + [Seg(a, c)], rest, live - {a})
  {
    AtMeans(lo, n, ops, k, holes, rest, live);
    GiveBetween(holes, rest, live, a, c);
    LessOne(live, a);
    AtNext(lo, n, ops, Give(a), k, holes + [Seg(a, c)], rest, live - {a});
  }

  lemma TakeTwo(lo: int, n: int, ops: seq<Op>, k: nat, holes: seq<Seg>, a: int, size: int, live: map<int, int>, c: int)
    requires At(lo, n, ops, k, holes, Seg(a, size), live) && |live| + 2 <= k
    requires 0 < c && 2 * c < size && 0 < a && a !in live && a + c !in live
    requires forall i :: 0 <= i < |holes| ==> holes[i].size < c
    ensures At(lo, n, ops + [Take(c)] + [Take(c)], k, holes, Seg(a + c + c, size - c - c), live[a := c][a + c := c])
  {
    TakeMore(lo, n, ops, k, holes, a, size, live, c);
    TakeMore(lo, n, ops + [Take(c)], k, holes, a + c, size - c, live[a := c], c);
  }

  /** The holes lie below a, and hold no more than c units each. */
  ghost predicate Under(holes: seq<Seg>, a: int, c: int) {
    forall i :: 0 <= i < |holes| ==> holes[i].size <= c && holes[i].addr <= a && holes[i].End() < a
  }

  /** One step up: two allocations for a moment, then one of them for good, and a hole more. */
  lemma StepUp(lo: int, n: int, ops: seq<Op>, k: nat, holes: seq<Seg>, a: int, size: int, live: map<int, int>, c: int,
               a': int, size': int)
    returns (ops': seq<Op>, holes': seq<Seg>, live': map<int, int>)
    requires At(lo, n, ops, k, holes, Seg(a, size), live) && |live| + 2 <= k
    requires 0 < c && 2 * c < size && 0 < a && Under(holes, a, c - 1) && forall x :: x in live ==> x < a
    requires a' == a + 2 * c && size' == size - 2 * c
    ensures At(lo, n, ops', k, holes', Seg(a', size'), live')
    ensures |holes'| == |holes| + 1 && |live'| == |live| + 1 && Under(holes', a', c)
    ensures forall x :: x in live' ==> x < a'
  {
    TakeTwo(lo, n, ops, k, holes, a, size, live, c);
    var two := live[a := c][a + c := c];
    GiveMore(lo, n, ops + [Take(c)] + [Take(c)], k, holes, Seg(a', size'), two, a, c);
    LessOne(two, a);
    ops', holes', live' := ops + [Take(c)] + [Take(c)] + [Give(a)], holes + [Seg(a, c)], two - {a};
  }

  lemma AtStart(lo: int, n: int, k: nat)
    ensures At(lo, n, [], k, [], Seg(lo, n), map[])
  {
    var none: seq<Seg> := [];
    assert none + [Seg(lo, n)] == [Seg(lo, n)];
  }

  lemma {:induction false} Climbing(lo: int, n: int, j: nat, k: nat)
    returns (ops: seq<Op>, holes: seq<Seg>, a: int, size: int, live: map<int, int>)
    requires 0 < lo && Below(j) < n && j < k
    ensures a == lo + Below(j) && size == n - Below(j) && At(lo, n, ops, k, holes, Seg(a, size), live)
    ensures |holes| == |live| == j && Under(holes, a, j) && forall x :: x in live ==> x < a
  {
    if j == 0 {
      ops, holes, a, size, live := [], [], lo, n, map[];
      AtStart(lo, n, k);
    } else {
      var o, h, b, r, l := Climbing(lo, n, j - 1, k);
      a, size := b + 2 * j, r - 2 * j;
      ops, holes, live := StepUp(lo, n, o, k, h, b, r, l, j, a, size);
    }
  }

  /** The number of segments that MapRuns.FewAtPeak allows is reached: for every k there is a run with never more than k
      allocations outstanding that leaves k segments, with k-1 outstanding.  With the terminator they fill k+1
      entries. */
  lemma SegmentsReached(lo: int, n: int, k: nat) returns (ops: seq<Op>)
    requires 0 < lo && 0 < k && Below(k - 1) < n
    ensures NeverMore(lo, n, ops, k)
    ensures var m := After(lo, n, ops); |m.free| == k && |m.live| == k - 1
  {
    var holes, a, size, live;
    ops, holes, a, size, live := Climbing(lo, n, k - 1, k);
    AtMeans(lo, n, ops, k, holes, Seg(a, size), live);
  }
}
