/** A map table in use: it never overruns as long as it has one entry more than there are ever allocations
    outstanding. */
module MapTableRuns {
  import opened ResourceMap
  import opened MapTable
  import opened MapRuns

  /** What a caller asks of the map: units of a size that fits a word, or giving back what it has. */
  predicate Fair(op: Op) { op.Take? ==> 0 < op.size < UINT }

  /** Segments inside the range fit a word when its end does. */
  lemma PartitionSmall(m: Arena, lo: int, hi: int)
    requires Partition(m, lo, hi) && hi < UINT
    ensures Small(m.free)
    ensures forall a :: a in m.live ==> 0 < a && a + m.live[a] < UINT
  {
    forall i | 0 <= i < |m.free|
      ensures m.free[i].End() < UINT
    {
      assert Has(m.free, m.free[i].End() - 1);
    }
    forall a | a in m.live
      ensures 0 < a && a + m.live[a] < UINT
    {
      assert Owns(m.live, a, a + m.live[a] - 1);
      assert Held(m.live, a + m.live[a] - 1);
    }
  }

  lemma AfterPart(lo: int, n: int, ops: seq<Op>, i: nat)
    requires i < |ops|
    ensures After(lo, n, ops[..i+1]) == Step(After(lo, n, ops[..i]), ops[i])
  {
    assert ops[..i+1][..i] == ops[..i] && ops[..i+1][i] == ops[i];
  }

  /** Any run of requests with never more than k allocations outstanding, on a table of at least k+1 entries and at
      least two: every request is served in place, and the table always holds what MapRuns says. */
  method Serve(mp: array<Seg>, lo: int, n: int, ops: seq<Op>, k: nat)
    requires 0 < lo && 0 < n && lo + n < UINT && 2 <= mp.Length && k + 1 <= mp.Length && Holds(mp[..], [Seg(lo, n)])
    requires (forall i :: 0 <= i < |ops| ==> Fair(ops[i])) && NeverMore(lo, n, ops, k)
    modifies mp
    ensures Holds(mp[..], After(lo, n, ops).free)
  {
    var live: map<int, int> := map[];
    var i := 0;
    assert ops[..0] == [];
    while i < |ops|
      invariant 0 <= i <= |ops| && live == After(lo, n, ops[..i]).live && Holds(mp[..], After(lo, n, ops[..i]).free)
    {
      ghost var m := After(lo, n, ops[..i]);
      AfterPart(lo, n, ops, i);
      RunsPartition(lo, n, ops[..i]);
      NeverMorePart(lo, n, ops, k, i + 1);
      FewAtPeak(lo, n, ops[..i+1], k);
      live := One(mp, ops[i], live, m, lo, lo + n);
      i := i + 1;
    }
    assert ops[..i] == ops;
  }

  method One(mp: array<Seg>, op: Op, live: map<int, int>, ghost m: Arena, ghost lo: int,
             ghost hi: int) returns (live': map<int, int>)
    requires Partition(m, lo, hi) && hi < UINT && live == m.live && Holds(mp[..], m.free) && Fair(op)
    requires |Step(m, op).free| < mp.Length
    modifies mp
    ensures live' == Step(m, op).live && Holds(mp[..], Step(m, op).free)
  {
    PartitionSmall(m, lo, hi);
    live' := live;
    match op
    case Take(size) =>
      var a := Malloc(mp, size, m.free);
      AllocCorrect(m.free, size);
      if a != 0 {
        live' := live[a := size];
      }
    case Give(a) =>
      if a in live {
        Mfree(mp, live[a], a, m.free);
        live' := live - {a};
      }
  }
}
