/** Reading through holes: when a read changes the volume, and when the blocks it needs can be had. */
module FileHoles {
  import opened Counting
  import opened FreeList
  import opened FileTree
  import opened BlockMap
  import opened FileCensus
  import opened FileBytes

  /** Block b of the file is there, not a hole. */
  ghost predicate There(n: Ino, store: Store, b: int) { Lookup(n, store, b) != 0 }

  /** Blocks bn to bn+m-1 of the file are all there. */
  ghost predicate AllMapped(n: Ino, store: Store, bn: int, m: nat) {
    forall b :: bn <= b < bn + m ==> There(n, store, b)
  }

  /** Once bmap has been asked for a block, it is there, and stays. */
  lemma MapsThere(f: Fs, n: Ino, bn: int, f': Fs, n': Ino, b: int)
    requires Maps(f, n, bn, f', n') && IsBn(b) && (b == bn || There(n, f.store, b))
    ensures There(n', f'.store, b)
  {
    BmapCorrect(f, n, bn);
    assert Stays(f, n, f', n', b);
  }

  lemma {:induction false} TraceMaps(t: Trace, f: Fs, n: Ino, bn: int, m: nat, i: nat)
    requires IsTrace(t, f, n, bn, m) && i <= m
    ensures AllMapped(t.ns[i], t.fs[i].store, bn, i)
  {
    if i > 0 {
      TraceMaps(t, f, n, bn, m, i - 1);
      InTrace(t, f, n, bn, m, 0);
      StepOfTrace(t, f, n, bn, m, i - 1);
      MapsMore(t.fs[i-1], t.ns[i-1], bn, i - 1, t.fs[i], t.ns[i]);
    }
  }

  lemma StepOfTrace(t: Trace, f: Fs, n: Ino, bn: int, m: nat, j: nat)
    requires IsTrace(t, f, n, bn, m) && j < m
    ensures Maps(t.fs[j], t.ns[j], bn + j, t.fs[j+1], t.ns[j+1])
  {
  }

  lemma MapsMore(f: Fs, n: Ino, bn: int, m: nat, f': Fs, n': Ino)
    requires IsBn(bn) && AllMapped(n, f.store, bn, m) && Maps(f, n, bn + m, f', n')
    ensures AllMapped(n', f'.store, bn, m + 1)
  {
    forall b | bn <= b < bn + (m + 1)
      ensures There(n', f'.store, b)
    {
      MapsThere(f, n, bn + m, f', n', b);
    }
  }

  lemma InTrace(t: Trace, f: Fs, n: Ino, bn: int, m: nat, j: nat)
    requires IsTrace(t, f, n, bn, m) && j < m
    ensures IsBn(bn + j)
  {
    assert Maps(t.fs[j], t.ns[j], bn + j, t.fs[j+1], t.ns[j+1]);
  }

  lemma {:induction false} TraceStill(t: Trace, f: Fs, n: Ino, bn: int, m: nat, i: nat)
    requires IsTrace(t, f, n, bn, m) && AllMapped(n, f.store, bn, m) && i <= m
    ensures t.fs[i] == f && t.ns[i] == n
  {
    if i > 0 {
      TraceStill(t, f, n, bn, m, i - 1);
      assert Maps(t.fs[i-1], t.ns[i-1], bn + (i - 1), t.fs[i], t.ns[i]);
      assert There(n, f.store, bn + (i - 1));
      MapsStill(f, n, bn + (i - 1), t.fs[i], t.ns[i]);
    }
  }

  lemma MapsStill(f: Fs, n: Ino, bn: int, f': Fs, n': Ino)
    requires Maps(f, n, bn, f', n') && There(n, f.store, bn)
    ensures f' == f && n' == n
  {
    StillIffMapped(f, n, bn);
  }

  /** A read changes nothing, neither the inode, the free list nor any block, if and only if it meets no hole. */
  lemma StillIffNoHole(t: Trace, f: Fs, n: Ino, bn: int, m: nat)
    requires IsTrace(t, f, n, bn, m)
    ensures t.fs[m] == f && t.ns[m] == n <==> AllMapped(n, f.store, bn, m)
  {
    TraceMaps(t, f, n, bn, m, m);
    if AllMapped(n, f.store, bn, m) { TraceStill(t, f, n, bn, m, m); }
  }

  /* ---------------------------------------------------------------- when a read can have what it needs */

  /** A read without holes needs no free block. */
  lemma ReadFitsMapped(f: Fs, n: Ino, off: int, len: nat)
    requires Good(f, n) && 0 <= off && off + len <= FMAX && AllMapped(n, f.store, off / BSIZE, Spanned(off, len))
    ensures ReadFits(f, n, off, len)
  {
    var bn, m := off / BSIZE, Spanned(off, len);
    var t := Trace(seq(m + 1, _ => f), seq(m + 1, _ => n));
    SpanInFile(off, len);
    forall i | 0 <= i < m
      ensures Maps(t.fs[i], t.ns[i], bn + i, t.fs[i+1], t.ns[i+1])
    {
      assert There(n, f.store, bn + i);
      MappedNeedsNothing(f, n, bn + i);
    }
    assert IsTrace(t, f, n, bn, m);
  }

  lemma SpanInFile(off: int, len: nat)
    requires 0 <= off && off + len <= FMAX
    ensures 0 <= off / BSIZE && off / BSIZE + Spanned(off, len) <= 32768
  {
  }

  /** Otherwise four free blocks for each block spanned are enough. */
  lemma ReadFitsWhenRoom(f: Fs, n: Ino, off: int, len: nat)
    requires Good(f, n) && 0 <= off && off + len <= FMAX && 4 * Spanned(off, len) <= |f.st|
    ensures ReadFits(f, n, off, len)
  {
    SpanInFile(off, len);
    var t := MakeTrace(f, n, off / BSIZE, Spanned(off, len));
  }

  lemma {:induction false} MakeTrace(f: Fs, n: Ino, bn: int, m: nat) returns (t: Trace)
    requires Good(f, n) && 0 <= bn && bn + m <= 32768 && 4 * m <= |f.st|
    ensures IsTrace(t, f, n, bn, m)
    decreases m
  {
    if m == 0 {
      t := Trace([f], [n]);
    } else {
      NeedAtMost(f, n, bn);
      BmapTakes(f, n, bn);
      MapKeepsBytes(f, n, bn);
      var r := Bmap(f, n, bn);
      var u := MakeTrace(r.0, r.1, bn + 1, m - 1);
      t := LongerTrace(f, n, bn, m, u);
    }
  }

  lemma LongerTrace(f: Fs, n: Ino, bn: int, m: nat, u: Trace) returns (t: Trace)
    requires m > 0 && |u.fs| > 0 && |u.ns| > 0 && Maps(f, n, bn, u.fs[0], u.ns[0])
        && IsTrace(u, u.fs[0], u.ns[0], bn + 1, m - 1)
    ensures IsTrace(t, f, n, bn, m)
  {
    t := Trace([f] + u.fs, [n] + u.ns);
    forall i | 0 <= i < m
      ensures Maps(t.fs[i], t.ns[i], bn + i, t.fs[i+1], t.ns[i+1])
    {
      assert i > 0 ==> Maps(u.fs[i-1], u.ns[i-1], bn + 1 + (i - 1), u.fs[i], u.ns[i]);
    }
  }

  lemma OneFreeGood(store: Store)
    requires GoodStore(store) && |store| == 4
    ensures Good(Fs([3], store), Empty())
  {
    EmptyHasNone(store);
    forall x
      ensures Uses(Fs([3], store), Empty(), x) == if x == 3 then 1 else 0
    {
      CountOne(3, x);
    }
  }

  /** An input at which a read does change the volume: an empty inode with a size, and one block free.  Asking for its
      first byte takes that block. */
  lemma ReadOfHole()
    ensures var f := Fs([3], [Zeros(), Zeros(), Zeros(), Zeros()]);
            && Good(f, Empty()) && Lookup(Empty(), f.store, 0) == 0 && ReadFits(f, Empty(), 0, 1)
            && Bmap(f, Empty(), 0).0.st == [] && Bmap(f, Empty(), 0).1.addr[0] == 3
  {
    var f := Fs([3], [Zeros(), Zeros(), Zeros(), Zeros()]);
    OneFreeGood(f.store);
    NewDirect(f, Empty(), 0);
    var r := Bmap(f, Empty(), 0);
    assert Maps(f, Empty(), 0, r.0, r.1);
    OneMap(f, Empty(), r.0, r.1);
  }

  /** bmap on a hole among the direct blocks takes the top of the free list. */
  lemma NewDirect(f: Fs, n: Ino, bn: int)
    requires Good(f, n) && !n.large && 0 <= bn < 8 && n.addr[bn] == 0 && f.st != []
    ensures Need(f, n, bn) == 1
    ensures Bmap(f, n, bn).0.st == f.st[..|f.st|-1] && Bmap(f, n, bn).1.addr == n.addr[bn := Top(f)]
  {
    TopFacts(f, n);
  }

  lemma OneMap(f: Fs, n: Ino, f': Fs, n': Ino)
    requires Maps(f, n, 0, f', n')
    ensures ReadFits(f, n, 0, 1)
  {
    assert Spanned(0, 1) == 1 && 0 / BSIZE == 0;
    assert IsTrace(Trace([f, f'], [n, n']), f, n, 0, 1);
  }
}
