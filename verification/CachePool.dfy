/** Each primitive of the buffer pool keeps the list invariant and the agreement with the block store. */
module CachePool {
  import opened Rings
  import opened Buffers
  import opened CacheMachine

  /** A change to one buffer that leaves its block, its place in the lists and its area alone. */
  ghost predicate Touched(c: Pool, d: Pool, b: int) {
    && Ready(c) && Ready(d) && IsBuf(b)
    && d.disk == c.disk
    && (forall x :: IsBuf(x) && x != b ==> d.buf[x] == c.buf[x])
    && d.buf[b].dev == c.buf[b].dev && d.buf[b].blkno == c.buf[b].blkno && d.buf[b].mem == c.buf[b].mem
  }

  lemma KeysKept(c: Pool, d: Pool, b: int)
    requires Touched(c, d, b) && Keys(c)
    ensures Keys(d)
  {
    forall x, y | Twins(d, x, y)
      ensures x == y
    {
      assert Twins(c, x, y);
    }
  }

  lemma SectorsKept(c: Pool, d: Pool, b: int)
    requires Touched(c, d, b)
    ensures Separate(c) ==> Separate(d)
    ensures forall k :: Cached(d, k) <==> Cached(c, k)
  {
    assert forall x, y :: Clash(d, x, y) ==> Clash(c, x, y);
    forall k
      ensures Cached(d, k) <==> Cached(c, k)
    {
      if Cached(c, k) {
        var x :| IsBuf(x) && c.buf[x].dev >= 0 && KeySector(c.buf[x]) == k;
        assert KeySector(d.buf[x]) == k;
      }
      if Cached(d, k) {
        var x :| IsBuf(x) && d.buf[x].dev >= 0 && KeySector(d.buf[x]) == k;
        assert KeySector(c.buf[x]) == k;
      }
    }
  }

  /** The other buffers agree as before; it is enough to look at the one that changed. */
  lemma CoherentKept(c: Pool, d: Pool, dirty: set<int>, dirty': set<int>, store: seq<seq<int>>, b: int)
    requires Touched(c, d, b) && Coherent(c, dirty, store)
    requires forall x :: IsBuf(x) && x != b ==> (x in d.queue <==> x in c.queue) && (x in dirty' <==> x in dirty)
    requires Agrees(d, dirty', store, b)
    ensures Coherent(d, dirty', store)
  {
    SectorsKept(c, d, b);
    forall x | IsBuf(x)
      ensures Agrees(d, dirty', store, x)
    {
      if x != b {
        assert Agrees(c, dirty, store, x);
      }
    }
  }

  lemma NotavailKeeps(c: Pool, b: int, dirty: set<int>, store: seq<seq<int>>)
    requires PoolInv(c) && b in c.avail
    ensures PoolInv(Notavail(c, b))
    ensures Coherent(c, dirty, store) ==> Coherent(Notavail(c, b), dirty, store)
  {
    var d := Notavail(c, b);
    WithoutNoDup(c.avail, b);
    WithoutMembers(c.avail, b);
    KeysKept(c, d, b);
    if Coherent(c, dirty, store) {
      assert Agrees(c, dirty, store, b);
      CoherentKept(c, d, dirty, dirty, store, b);
    }
  }

  lemma AppendNoDup(s: seq<int>, x: int)
    requires NoDup(s) && x !in s
    ensures NoDup(s + [x]) && (forall y :: y in s + [x] <==> y in s || y == x)
  {
    assert forall i :: 0 <= i < |s| ==> s[i] in s;
  }

  lemma BrelsePool(c: Pool, b: int)
    requires PoolInv(c) && IsBuf(b) && c.buf[b].busy && b !in c.queue
    ensures PoolInv(Brelse(c, b))
  {
    AppendNoDup(c.avail, b);
    KeysKept(c, Brelse(c, b), b);
  }

  lemma BrelseCoherent(c: Pool, b: int, dirty: set<int>, store: seq<seq<int>>)
    requires PoolInv(c) && IsBuf(b) && c.buf[b].busy && b !in c.queue && Coherent(c, dirty, store)
    requires b in dirty ==> !c.buf[b].done
    ensures Coherent(Brelse(c, b), dirty - {b}, store)
  {
    assert Agrees(c, dirty, store, b);
    CoherentKept(c, Brelse(c, b), dirty, dirty - {b}, store, b);
  }

  /** Joining the driver's queue. */
  lemma QueuedPool(c: Pool, d: Pool, b: int)
    requires PoolInv(c) && IsBuf(b) && c.buf[b].busy && b !in c.queue && c.buf[b].dev >= 0
    requires Touched(c, d, b)
    requires d.buf[b].busy && !d.buf[b].done && !d.buf[b].delwri
    requires d == Strategy(c.(buf := d.buf), b)
    ensures PoolInv(d)
  {
    AppendNoDup(c.queue, b);
    KeysKept(c, d, b);
  }

  lemma QueuedCoherent(c: Pool, d: Pool, b: int, dirty: set<int>, store: seq<seq<int>>)
    requires PoolInv(c) && IsBuf(b) && b !in c.queue && c.buf[b].dev >= 0 && Coherent(c, dirty, store)
    requires Touched(c, d, b) && d == Strategy(c.(buf := d.buf), b)
    requires if d.buf[b].read then !c.buf[b].delwri else c.buf[b].done && b !in dirty
    ensures Coherent(d, dirty - {b}, store)
  {
    assert Agrees(c, dirty, store, b);
    assert forall x :: x in d.queue <==> x in c.queue || x == b;
    CoherentKept(c, d, dirty, dirty - {b}, store, b);
  }

  /** Marking a buffer as holding a write. */
  lemma RecordPool(c: Pool, b: int)
    requires PoolInv(c) && IsBuf(b) && b !in c.queue && c.buf[b].dev >= 0 && c.buf[b].busy
    ensures PoolInv(SetBuf(c, b, c.buf[b].(done := true, delwri := true)))
  {
    KeysKept(c, SetBuf(c, b, c.buf[b].(done := true, delwri := true)), b);
  }

  /** Releasing new contents for a block and recording them in the store go together. */
  lemma RecordCoherent(c: Pool, b: int, dirty: set<int>, store: seq<seq<int>>)
    requires PoolInv(c) && IsBuf(b) && b !in c.queue && c.buf[b].dev >= 0 && c.buf[b].busy && Coherent(c, dirty, store)
    ensures var store' := store[KeySector(c.buf[b]) := Contents(c.buf[b])];
            Coherent(SetBuf(c, b, c.buf[b].(done := true, delwri := true)), dirty - {b}, store')
  {
    var k := KeySector(c.buf[b]);
    var store' := store[k := Contents(c.buf[b])];
    var c' := SetBuf(c, b, c.buf[b].(done := true, delwri := true));
    SectorsKept(c, c', b);
    forall x | IsBuf(x)
      ensures Agrees(c', dirty - {b}, store', x)
    {
      if x != b && c.buf[x].dev >= 0 {
        assert Agrees(c, dirty, store, x);
        assert !Clash(c, b, x);
      }
    }
    forall j | 0 <= j < NSECTOR && !Cached(c', j)
      ensures c'.disk[j] == store'[j]
    {
      assert !Cached(c, j);
      assert j != k;
    }
  }

  /** getblk gives a clean buffer to a block that is in no buffer. */
  lemma ReassignLists(c: Pool, b: int, dev: int, blkno: int)
    requires PoolInv(c) && IsBuf(b) && c.buf[b].busy && b !in c.queue
    ensures Lists(Reassign(c, b, dev, blkno)) && FlagsOk(Reassign(c, b, dev, blkno))
  {
    var d := Reassign(c, b, dev, blkno);
    WithoutNoDup(c.chain, b);
    WithoutNoDup(c.loose, b);
    WithoutMembers(c.chain, b);
    WithoutMembers(c.loose, b);
    var chain, loose := Without(c.chain, b), Without(c.loose, b);
    assert dev >= 0 ==> forall x :: x in d.chain <==> x == b || x in chain;
    assert dev < 0 ==> forall x :: x in d.loose <==> x == b || x in loose;
    assert NoDup(d.chain) && NoDup(d.loose);
  }

  lemma ReassignKeys(c: Pool, b: int, dev: int, blkno: int)
    requires PoolInv(c) && IsBuf(b) && (dev >= 0 ==> forall x :: IsBuf(x) ==> !HasKey(c.buf[x], dev, blkno))
    ensures Keys(Reassign(c, b, dev, blkno))
  {
    var d := Reassign(c, b, dev, blkno);
    forall x, y | Twins(d, x, y)
      ensures x == y
    {
      assert x != b && y != b ==> Twins(c, x, y);
    }
  }

  lemma ReassignCoherent(c: Pool, b: int, dev: int, blkno: int, dirty: set<int>, store: seq<seq<int>>)
    requires PoolInv(c) && IsBuf(b) && b !in c.queue && !c.buf[b].delwri && Coherent(c, dirty, store)
    requires dev < 0 || !Cached(c, Sector(dev, blkno))
    ensures Coherent(Reassign(c, b, dev, blkno), dirty, store)
  {
    var d := Reassign(c, b, dev, blkno);
    ReassignSeparate(c, b, dev, blkno);
    forall x | IsBuf(x)
      ensures Agrees(d, dirty, store, x)
    {
      assert Agrees(c, dirty, store, x);
    }
    forall k | 0 <= k < NSECTOR && !Cached(d, k)
      ensures d.disk[k] == store[k]
    {
      assert Agrees(c, dirty, store, b);
      assert forall x :: IsBuf(x) && x != b ==> d.buf[x] == c.buf[x];
      assert !Cached(c, k) || (c.buf[b].dev >= 0 && KeySector(c.buf[b]) == k);
    }
  }

  lemma ReassignSeparate(c: Pool, b: int, dev: int, blkno: int)
    requires Ready(c) && IsBuf(b) && Separate(c) && (dev < 0 || !Cached(c, Sector(dev, blkno)))
    ensures Separate(Reassign(c, b, dev, blkno))
  {
    var d := Reassign(c, b, dev, blkno);
    assert dev >= 0 ==> forall x :: IsBuf(x) && c.buf[x].dev >= 0 ==> KeySector(c.buf[x]) != Sector(dev, blkno);
    forall x, y | Clash(d, x, y)
      ensures x == y
    {
      assert x != b && y != b ==> Clash(c, x, y);
    }
  }

  /** Not found on the chain means not in any buffer. */
  lemma NotIncore(c: Pool, dev: int, blkno: int)
    requires PoolInv(c) && dev >= 0 && forall b :: b in c.chain ==> !HasKey(c.buf[b], dev, blkno)
    ensures forall b :: IsBuf(b) ==> !HasKey(c.buf[b], dev, blkno)
  {
  }

  /** Nor, when no two blocks in use share one, is its sector. */
  lemma NotCached(c: Pool, z: Zone, dev: int, blkno: int)
    requires Ready(c) && IsZone(z) && Apart(z) && Used(z, dev, blkno)
    requires forall b :: IsBuf(b) && c.buf[b].dev >= 0 ==> Used(z, c.buf[b].dev, c.buf[b].blkno)
    requires forall b :: IsBuf(b) ==> !HasKey(c.buf[b], dev, blkno)
    ensures !Cached(c, Sector(dev, blkno))
  {
  }

  /* ---------------------------------------------------------------- the interrupt */

  /** After the transfer and before iodone: off the queue, contents settled. */
  function Transferred(c: Pool): Pool
    requires Ready(c) && c.queue != [] && IsBuf(c.queue[0])
  {
    var t := Transfer(c, c.queue[0]);
    t.(queue := c.queue[1..], active := if |c.queue| == 1 then 0 else 1,
       buf := t.buf[c.queue[0] := t.buf[c.queue[0]].(done := true)])
  }

  lemma RestNoDup(s: seq<int>)
    requires NoDup(s) && s != []
    ensures NoDup(s[1..]) && s[0] !in s[1..]
    ensures forall x :: x in s <==> x == s[0] || x in s[1..]
  {
  }

  /** The transfer changes nothing the lists and keys depend on. */
  lemma TransferredShape(c: Pool)
    requires PoolInv(c) && c.queue != []
    ensures var b, d := c.queue[0], Transferred(c);
            && IsBuf(b) && Ready(d)
            && (forall x :: IsBuf(x) && x != b ==> d.buf[x] == c.buf[x])
            && d.buf[b].(mem := []) == c.buf[b].(done := true, mem := [])
            && d.buf[b].mem[WORDS] == 0
  {
    assert c.queue[0] in c.queue;
  }

  lemma TransferredPool(c: Pool)
    requires PoolInv(c) && c.queue != []
    ensures PoolInv(Transferred(c)) && c.queue[0] !in c.queue[1..]
  {
    RestNoDup(c.queue);
    TransferredShape(c);
    var d := Transferred(c);
    forall x, y | Twins(d, x, y)
      ensures x == y
    {
      assert Twins(c, x, y);
    }
  }

  lemma TransferredCoherent(c: Pool, dirty: set<int>, store: seq<seq<int>>)
    requires PoolInv(c) && c.queue != [] && Coherent(c, dirty, store)
    ensures Coherent(Transferred(c), dirty, store)
  {
    RestNoDup(c.queue);
    var b, d := c.queue[0], Transferred(c);
    assert b in c.queue;
    assert Agrees(c, dirty, store, b);
    var k := KeySector(c.buf[b]);
    assert Contents(d.buf[b]) == store[k] && d.disk[k] == store[k];
    assert forall x, y :: Clash(d, x, y) ==> Clash(c, x, y);
    forall x | IsBuf(x)
      ensures Agrees(d, dirty, store, x)
    {
      if x != b && c.buf[x].dev >= 0 {
        assert Agrees(c, dirty, store, x);
        assert !Clash(c, b, x);
      }
    }
    forall j | 0 <= j < NSECTOR && !Cached(d, j)
      ensures d.disk[j] == store[j]
    {
      assert forall x :: IsBuf(x) ==> d.buf[x].dev == c.buf[x].dev && KeySector(d.buf[x]) == KeySector(c.buf[x]);
      assert !Cached(c, j);
    }
  }

  /** Rkintr is the transfer followed by either a release or a wakeup. */
  function Settled(t: Pool, b: int): Pool
    requires 0 <= b < |t.buf|
  {
    if t.buf[b].async then Brelse(t, b)
    else SetBuf(t, b, t.buf[b].(wanted := false)).(wchan := Wakeup(t.wchan, OnBuf(b)))
  }

  lemma RkintrSplits(c: Pool)
    requires PoolInv(c) && c.queue != []
    ensures Rkintr(c) == Settled(Transferred(c), c.queue[0])
  {
  }

  lemma SettledPool(t: Pool, b: int)
    requires PoolInv(t) && IsBuf(b) && t.buf[b].busy && b !in t.queue
    ensures PoolInv(Settled(t, b))
  {
    if t.buf[b].async {
      BrelsePool(t, b);
    } else {
      KeysKept(t, Settled(t, b), b);
    }
  }

  lemma SettledCoherent(t: Pool, b: int, dirty: set<int>, store: seq<seq<int>>)
    requires PoolInv(t) && IsBuf(b) && t.buf[b].busy && b !in t.queue && Coherent(t, dirty, store) && b !in dirty
    ensures Coherent(Settled(t, b), dirty, store)
  {
    if t.buf[b].async {
      BrelseCoherent(t, b, dirty, store);
      assert dirty - {b} == dirty;
    } else {
      assert Agrees(t, dirty, store, b);
      CoherentKept(t, Settled(t, b), dirty, dirty, store, b);
    }
  }

  lemma RkintrPool(c: Pool)
    requires PoolInv(c) && c.queue != [] && IsBuf(c.queue[0])
    ensures PoolInv(Rkintr(c))
  {
    TransferredPool(c);
    TransferredShape(c);
    RkintrSplits(c);
    assert c.queue[0] in c.queue;
    SettledPool(Transferred(c), c.queue[0]);
  }

  lemma RkintrCoherent(c: Pool, dirty: set<int>, store: seq<seq<int>>)
    requires PoolInv(c) && c.queue != [] && IsBuf(c.queue[0]) && PoolInv(Rkintr(c))
    requires Coherent(c, dirty, store) && c.queue[0] !in dirty
    ensures Coherent(Rkintr(c), dirty, store)
  {
    TransferredPool(c);
    TransferredShape(c);
    TransferredCoherent(c, dirty, store);
    RkintrSplits(c);
    assert c.queue[0] in c.queue;
    SettledCoherent(Transferred(c), c.queue[0], dirty, store);
  }
}
