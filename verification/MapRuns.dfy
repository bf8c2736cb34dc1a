/** Whole runs of malloc and mfree over one range of units: who has what, and how ragged the free map can get. */
module MapRuns {
  import opened ResourceMap

  /** The free map and the outstanding allocations, by address. */
  datatype Arena = Arena(free: seq<Seg>, live: map<int, int>)

  datatype Op = Take(size: int) | Give(addr: int)

  /** Unit u belongs to the allocation at a. */
  predicate Owns(live: map<int, int>, a: int, u: int) { a in live && a <= u < a + live[a] }

  ghost predicate Held(live: map<int, int>, u: int) { exists a :: Owns(live, a, u) }

  /** Free map and allocations are pairwise disjoint and together make up exactly [lo, hi). */
  ghost predicate Partition(m: Arena, lo: int, hi: int) {
    && 0 < lo && WF(m.free)
    && (forall a :: a in m.live ==> 0 < m.live[a] && lo <= a)
    && (forall a, u :: Owns(m.live, a, u) ==> !Has(m.free, u))
    && (forall a, b, u :: Owns(m.live, a, u) && Owns(m.live, b, u) ==> a == b)
    && (forall u :: lo <= u < hi <==> Has(m.free, u) || Held(m.live, u))
  }

  function Step(m: Arena, op: Op): Arena {
    match op
    case Take(size) =>
      var (t, a) := Alloc(m.free, size);
      if size <= 0 || a == 0 then m else Arena(t, m.live[a := size])
    case Give(a) =>
      if a !in m.live then m else Arena(Insert(m.free, a, m.live[a]), m.live - {a})
  }

  lemma TakeKeeps(m: Arena, lo: int, hi: int, size: int)
    requires Partition(m, lo, hi) && 0 < size && Alloc(m.free, size).1 != 0
    ensures Partition(Step(m, Take(size)), lo, hi)
    ensures Alloc(m.free, size).1 !in m.live
  {
    var (t, a) := Alloc(m.free, size);
    AllocCorrect(m.free, size);
    var live' := m.live[a := size];
    assert Has(m.free, a);
    assert !Owns(m.live, a, a);
    assert forall b, u :: b != a ==> (Owns(live', b, u) <==> Owns(m.live, b, u));
    forall u
      ensures lo <= u < hi <==> Has(t, u) || Held(live', u)
    {
      if Held(m.live, u) {
        var b :| Owns(m.live, b, u);
        assert Owns(live', b, u);
      }
      if a <= u < a + size {
        assert Owns(live', a, u);
      }
    }
  }

  lemma GiveKeeps(m: Arena, lo: int, hi: int, a: int)
    requires Partition(m, lo, hi) && a in m.live
    ensures Partition(Step(m, Give(a)), lo, hi)
  {
    var size := m.live[a];
    forall u | a <= u < a + size
      ensures !Has(m.free, u)
    {
      assert Owns(m.live, a, u);
    }
    InsertCorrect(m.free, a, size);
    var live' := m.live - {a};
    assert forall b, u :: Owns(live', b, u) <==> b != a && Owns(m.live, b, u);
    forall b, u | Owns(live', b, u)
      ensures !Has(Insert(m.free, a, size), u)
    {
      assert a <= u < a + size <==> Owns(m.live, a, u);
    }
    forall u
      ensures lo <= u < hi <==> Has(Insert(m.free, a, size), u) || Held(live', u)
    {
      assert a <= u < a + size <==> Owns(m.live, a, u);
      if Held(m.live, u) {
        var b :| Owns(m.live, b, u);
        assert b != a ==> Owns(live', b, u);
      }
      if Held(live', u) {
        var b :| Owns(live', b, u);
        assert Owns(m.live, b, u);
      }
    }
  }

  /* ---------------------------------------------------------------- fragmentation */

  /** The allocation that fills the first unit after free segment i. */
  lemma Plug(m: Arena, lo: int, hi: int, i: nat) returns (a: int)
    requires Partition(m, lo, hi) && i < |m.free| - 1
    ensures Owns(m.live, a, m.free[i].End())
  {
    GapAfter(m.free, i);
    assert Held(m.live, m.free[i].End());
    a :| Owns(m.live, a, m.free[i].End());
  }

  /** One allocation cannot fill two gaps: it would swallow the segment between them. */
  lemma PlugsDiffer(m: Arena, lo: int, hi: int, i: nat, j: nat, a: int)
    requires Partition(m, lo, hi) && i < j < |m.free| - 1 && Owns(m.live, a, m.free[i].End())
    ensures !Owns(m.live, a, m.free[j].End())
  {
    var s := m.free;
    assert s[i].End() < s[j].addr < s[j].End();
    assert Has(s, s[j].addr);
    assert !Owns(m.live, a, s[j].addr);
  }

  lemma {:induction false} Plugs(m: Arena, lo: int, hi: int, n: nat) returns (who: seq<int>)
    requires Partition(m, lo, hi) && n < |m.free|
    ensures |who| == n && forall i :: 0 <= i < n ==> Owns(m.live, who[i], m.free[i].End())
  {
    if n == 0 {
      who := [];
    } else {
      who := Plugs(m, lo, hi, n - 1);
      var a := Plug(m, lo, hi, n - 1);
      who := who + [a];
    }
  }

  /** With k outstanding allocations the free map has at most k+1 segments. */
  lemma FewSegments(m: Arena, lo: int, hi: int)
    requires Partition(m, lo, hi)
    ensures |m.free| <= |m.live| + 1
  {
    if m.free != [] {
      var who := Plugs(m, lo, hi, |m.free| - 1);
      forall i, j | 0 <= i < j < |who|
        ensures who[i] != who[j]
      {
        PlugsDiffer(m, lo, hi, i, j, who[i]);
      }
      DistinctInSet(who, m.live.Keys);
      assert |m.live.Keys| == |m.live|;
    }
  }

  /* ---------------------------------------------------------------- runs */

  function After(lo: int, n: int, ops: seq<Op>): Arena {
    if ops == [] then Arena([Seg(lo, n)], map[]) else Step(After(lo, n, ops[..|ops|-1]), ops[|ops|-1])
  }

  /** Over every run on a fresh range: free and allocated units never overlap and none is ever lost, and the table
      needs no more entries than there are outstanding allocations plus two (one of them the terminator). */
  lemma {:induction false} RunsPartition(lo: int, n: int, ops: seq<Op>)
    requires 0 < lo && 0 < n
    ensures var m := After(lo, n, ops); Partition(m, lo, lo + n) && |m.free| <= |m.live| + 1
  {
    var m := After(lo, n, ops);
    if ops == [] {
      forall u
        ensures lo <= u < lo + n <==> Has(m.free, u) || Held(m.live, u)
      {
        assert m.free[0].addr == lo && m.free[0].End() == lo + n;
      }
    } else {
      RunsPartition(lo, n, ops[..|ops|-1]);
      var before := After(lo, n, ops[..|ops|-1]);
      match ops[|ops|-1]
      case Take(size) =>
        if 0 < size && Alloc(before.free, size).1 != 0 { TakeKeeps(before, lo, lo + n, size); }
      case Give(a) =>
        if a in before.live { GiveKeeps(before, lo, lo + n, a); }
    }
    FewSegments(m, lo, lo + n);
  }

  /** When everything has been given back the map is again the single segment it started as. */
  lemma AllBack(lo: int, n: int, ops: seq<Op>)
    requires 0 < lo && 0 < n && After(lo, n, ops).live == map[]
    ensures After(lo, n, ops).free == [Seg(lo, n)]
  {
    RunsPartition(lo, n, ops);
    RunsPartition(lo, n, []);
    var m := After(lo, n, ops);
    assert forall u :: !Held(m.live, u);
    assert forall u :: !Held(map[], u);
    assert SameUnits(m.free, [Seg(lo, n)]);
    Canonical(m.free, [Seg(lo, n)]);
  }

  /** Never more than k allocations are outstanding. */
  ghost predicate NeverMore(lo: int, n: int, ops: seq<Op>, k: nat) {
    forall i :: 0 <= i <= |ops| ==> |After(lo, n, ops[..i]).live| <= k
  }

  lemma NeverMorePart(lo: int, n: int, ops: seq<Op>, k: nat, m: nat)
    requires NeverMore(lo, n, ops, k) && m <= |ops|
    ensures NeverMore(lo, n, ops[..m], k)
  {
    assert forall i :: 0 <= i <= m ==> ops[..m][..i] == ops[..i];
  }

  /** Taking leaves no more segments than there were; giving back leaves one allocation fewer.  So the map never has
      more segments than there ever were allocations outstanding, beyond the one it starts with. */
  lemma {:induction false} FewAtPeak(lo: int, n: int, ops: seq<Op>, k: nat)
    requires 0 < lo && 0 < n && NeverMore(lo, n, ops, k)
    ensures |After(lo, n, ops).free| <= if k == 0 then 1 else k
  {
    if ops != [] {
      var pre, op := ops[..|ops|-1], ops[|ops|-1];
      NeverMorePart(lo, n, ops, k, |ops| - 1);
      FewAtPeak(lo, n, pre, k);
      RunsPartition(lo, n, pre);
      RunsPartition(lo, n, ops);
      var m := After(lo, n, pre);
      assert |After(lo, n, ops[..|ops|-1]).live| <= k;
      if op.Give? && op.addr in m.live {
        assert |m.live - {op.addr}| == |m.live| - 1 by { LessOne(m.live, op.addr); }
      }
    }
  }

  lemma LessOne(live: map<int, int>, a: int)
    requires a in live
    ensures |live - {a}| == |live| - 1
  {
    assert (live - {a}).Keys == live.Keys - {a};
    assert |live| == |live.Keys| && |live - {a}| == |(live - {a}).Keys|;
  }
}
