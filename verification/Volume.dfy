/** A mounted volume: superblock, blocks and in-core inodes, with alloc, free, bmap and itrunc as they run. */
module Volume {
  import Longs
  import opened Counting
  import opened FreeList
  import opened FileTree
  import opened FileGrow
  import opened BlockMap
  import opened FileCensus

  /** Segment s of a list, starting at position n. */
  ghost predicate Seg(all: seq<int>, n: int, s: seq<int>) { 0 <= n && n + |s| <= |all| && all[n..n+|s|] == s }

  lemma SegSplit(all: seq<int>, n: int, a: seq<int>, b: seq<int>)
    requires Seg(all, n, a + b)
    ensures Seg(all, n, a) && Seg(all, n + |a|, b)
  {
    assert all[n..n+|a|] == all[n..n+|a+b|][..|a|];
    assert all[n+|a|..n+|a|+|b|] == all[n..n+|a+b|][|a|..];
  }

  /** No number twice, in st followed by all. */
  ghost predicate Distinct(st: seq<int>, all: seq<int>) { forall x :: Count(st, x) + Count(all, x) <= 1 }

  lemma {:induction false} CountPos(s: seq<int>, i: nat, j: nat)
    requires i < j < |s| && s[i] == s[j]
    ensures Count(s, s[i]) >= 2
  {
    var a, b := s[..j], s[j..];
    assert s == a + b && a[i] == s[i] && b[0] == s[j];
    CountAppend(a, b, s[i]);
    CountIn(a, s[i]);
    CountIn(b, s[i]);
  }

  lemma DistinctAt(st: seq<int>, all: seq<int>, n: nat)
    requires Distinct(st, all) && n < |all|
    ensures all[n] !in st && all[n] !in all[..n] && all[n] !in all[n+1..]
  {
    var x := all[n];
    assert Count(st, x) + Count(all, x) <= 1;
    CountIn(st, x);
    CountIn(all, x);
    if x in all[..n] {
      var i :| 0 <= i < n && all[i] == x;
      CountPos(all, i, n);
    }
    if x in all[n+1..] {
      var i :| n < i < |all| && all[i] == x;
      CountPos(all, n, i);
    }
  }

  class Volume {
    const isize: int
    const fsize: int
    var nfree: int
    var free: seq<int>
    var store: Store
    var ino: seq<Ino>
    var size: seq<int>
    ghost var st: seq<int>

    ghost predicate Valid()
      reads this
    {
      && 0 < isize + 2 && fsize <= Longs.MAXINT && |store| == fsize && GoodStore(store) && |size| == |ino|
      && Rep(st, nfree, free, store)
      && (forall i :: 0 <= i < |st| ==> isize + 2 <= st[i] < fsize)
    }

    ghost function Abs(): Fs
      reads this
    {
      Fs(st, store)
    }

    predicate Badblock(bn: int) { bn < isize + 2 || bn >= fsize }

    /** alloc: a block number, or 0 when the list is exhausted.  The buffer that comes with it is clear. */
    method Alloc() returns (bno: int)
      requires Valid()
      modifies this`nfree, this`free, this`st
      ensures Valid()
      ensures if old(st) == [] then bno == 0 && st == []
              else bno == old(st)[|old(st)|-1] && st == old(st)[..|old(st)|-1]
    {
      if nfree <= 0 {
        nfree := 0;
        return 0;
      }
      TopEntry(st, nfree, free, store, isize + 2, fsize);
      nfree := nfree - 1;
      bno := free[nfree];
      if bno == 0 {
        nfree := 0;
        return 0;
      }
      assert !Badblock(bno);  // so the source's retry on a bad block never happens
      Refill(bno);
    }

    /** The entry just taken was the last in the superblock: it holds the next batch. */
    method Refill(bno: int)
      requires Rep(st, nfree + 1, free, store) && st != [] && 0 <= nfree < NICFREE && bno == st[|st|-1] == free[nfree]
      modifies this`nfree, this`free, this`st
      ensures Rep(st, nfree, free, store) && st == old(st)[..|old(st)|-1]
    {
      if nfree <= 0 {
        RepPopReload(st, 1, free, store);
        nfree := store[bno][0];
        free := store[bno][1..NICFREE+1];
      } else {
        RepPopInCore(st, nfree + 1, free, store);
      }
      st := st[..|st|-1];
    }

    /** free: a block outside the data area is refused; otherwise it goes on top of the stack.  `held` are the blocks
        whose buffers the caller holds: getblk would sleep forever on one of those. */
    method Free(bno: int, ghost held: set<int>)
      requires Valid() && bno !in st && bno !in held
      modifies this`nfree, this`free, this`store, this`st
      ensures Valid()
      ensures if isize + 2 <= bno < fsize then
                && st == old(st) + [bno]
                && (forall b :: 0 <= b < fsize && b != bno ==> store[b] == old(store)[b])
              else st == old(st) && store == old(store)
    {
      if Badblock(bno) {
        return;
      }
      if nfree <= 0 {
        RepRestart(st, nfree, free, store);
        nfree := 1;
        free := free[0 := 0];
      }
      if nfree >= NICFREE {
        Spill(bno);
      } else {
        RepPushInCore(st, nfree, free, store, bno);
        free := free[nfree := bno];
        nfree := nfree + 1;
      }
      st := st + [bno];
    }

    /** A full superblock is copied into the freed block, which then stands alone. */
    method Spill(bno: int)
      requires Rep(st, nfree, free, store) && GoodStore(store) && nfree == NICFREE && 0 < bno < |store| && bno !in st
      modifies this`nfree, this`free, this`store
      ensures Rep(st + [bno], nfree, free, store) && GoodStore(store) && |store| == old(|store|)
      ensures forall b :: 0 <= b < |store| && b != bno ==> store[b] == old(store)[b]
    {
      var rest := WORDS - 1 - NICFREE;
      assert |seq(rest, i => 0)| == rest;
      var junk: seq<int> :| |junk| == rest;  // whatever the buffer held beyond the words written
      RepPushSpill(st, nfree, free, store, bno, junk);
      store := store[bno := [nfree] + free + junk];
      nfree := 0;
      free := free[nfree := bno];
      nfree := nfree + 1;
    }

    /* -------------------------------------------------------------- itrunc */

    /** The first n blocks of the list `all` have been freed, in order, onto the stack st0; nothing else has changed. */
    ghost predicate Draining(st0: seq<int>, store0: Store, all: seq<int>, n: int)
      reads this
    {
      && Valid() && 0 <= n <= |all| && |store0| == fsize && st == st0 + all[..n]
      && Distinct(st0, all) && (forall i :: 0 <= i < |all| ==> isize + 2 <= all[i] < fsize)
      && (forall b :: 0 <= b < fsize && b !in all[..n] ==> store[b] == store0[b])
    }

    method FreeNext(bno: int, ghost st0: seq<int>, ghost store0: Store, ghost all: seq<int>, ghost n: int,
                    ghost held: set<int>)
      requires Draining(st0, store0, all, n) && n < |all| && all[n] == bno
      requires forall h :: h in held ==> h in all[n+1..]
      modifies this`nfree, this`free, this`store, this`st
      ensures Draining(st0, store0, all, n + 1)
    {
      DistinctAt(st0, all, n);
      Free(bno, held);
      assert all[..n+1] == all[..n] + [bno];
    }

    /** itrunc's innermost walk: from word 256, one past the block, down to word 0 of a buffer area. */
    method FreeWords(area: seq<int>, ghost st0: seq<int>, ghost store0: Store, ghost all: seq<int>, ghost n: int,
                     ghost held: set<int>)
      returns (ghost m: int)
      requires |area| == WORDS + 1 && area[WORDS] == 0
      requires Draining(st0, store0, all, n) && Seg(all, n, Rev(area[..WORDS]))
      requires forall h :: h in held ==> h in all[n+|Rev(area[..WORDS])|..]
      modifies this`nfree, this`free, this`store, this`st
      ensures m == n + |Rev(area[..WORDS])| && Draining(st0, store0, all, m)
    {
      ghost var w, k := area[..WORDS], n + |Rev(area[..WORDS])|;
      m := n;
      var ep := WORDS;
      while ep >= 0
        invariant -1 <= ep <= WORDS && Draining(st0, store0, all, m)
        invariant Seg(all, m, Cat(Leaves(w), ep + 1)) && m + |Cat(Leaves(w), ep + 1)| == k
      {
        m := FreeWord(area[ep], w, ep, st0, store0, all, m, k, held);
        ep := ep - 1;
      }
    }

    /** One word of an indirect block. */
    method FreeWord(x: int, ghost w: seq<int>, ghost ep: int, ghost st0: seq<int>, ghost store0: Store,
                    ghost all: seq<int>, ghost n: int, ghost k: int,
                    ghost held: set<int>)
      returns (ghost m: int)
      requires 0 <= ep <= WORDS && x == At(w, ep) && Draining(st0, store0, all, n) && 0 <= k <= |all|
          && forall h :: h in held ==> h in all[k..]
      requires Seg(all, n, Cat(Leaves(w), ep + 1)) && n + |Cat(Leaves(w), ep + 1)| == k
      modifies this`nfree, this`free, this`store, this`st
      ensures Draining(st0, store0, all, m) && Seg(all, m, Cat(Leaves(w), ep)) && m + |Cat(Leaves(w), ep)| == k
    {
      assert Cat(Leaves(w), ep + 1) == Leaf(w, ep) + Cat(Leaves(w), ep);
      SegSplit(all, n, Leaf(w, ep), Cat(Leaves(w), ep));
      m := n;
      if x != 0 {
        assert all[n..n+1] == [x];
        Later(all, n + 1, k);
        FreeNext(x, st0, store0, all, n, held);
        m := n + 1;
      }
    }

    /** The buffer area of block b: its words and the spare word, which is zero (LastWordAlwaysZero). */
    function Area(b: int): (a: seq<int>)
      requires 0 <= b < |store| && |store[b]| == WORDS
      reads this
      ensures |a| == WORDS + 1 && a[WORDS] == 0 && a[..WORDS] == store[b]
    {
      store[b] + [0]
    }

    /** An indirect block: what it names, with its buffer held, and then, with the buffer released, the block itself. */
    method FreeNode(b: int, ghost st0: seq<int>, ghost store0: Store, ghost all: seq<int>, ghost n: int,
                    ghost held: set<int>)
      returns (ghost m: int)
      requires b != 0 && Draining(st0, store0, all, n) && Seg(all, n, Node(store0, b))
      requires forall h :: h in held ==> h in all[n+|Node(store0, b)|..]
      modifies this`nfree, this`free, this`store, this`st
      ensures m == n + |Node(store0, b)| && Draining(st0, store0, all, m)
    {
      ghost var r := Rev(Words(store0, b));
      SegSplit(all, n, r, [b]);
      ghost var k := n + |r|;
      assert all[k..k+1] == [b];
      NotYetFreed(st0, store0, all, n, k);
      var area := Area(b);
      ghost var holding := held + {b};
      assert all[k..][0] == b && all[k+1..] == all[k..][1..];
      m := FreeWords(area, st0, store0, all, n, holding);
      FreeNext(b, st0, store0, all, m, held);
      m := m + 1;
    }

    /** A block that comes later in the list still has its contents. */
    lemma NotYetFreed(st0: seq<int>, store0: Store, all: seq<int>, n: int, k: int)
      requires Draining(st0, store0, all, n) && n <= k < |all|
      ensures 0 <= all[k] < fsize && store[all[k]] == store0[all[k]] && Words(store0, all[k]) == store[all[k]]
    {
      DistinctAt(st0, all, k);
      assert forall x :: x in all[..n] ==> x in all[..k] by {
        assert all[..n] == all[..k][..n];
      }
    }

    /** The doubly indirect block: every indirect block it names, then itself. */
    method FreeDouble(b: int, ghost st0: seq<int>, ghost store0: Store, ghost all: seq<int>, ghost n: int)
      returns (ghost m: int)
      requires b != 0 && Draining(st0, store0, all, n) && Seg(all, n, Dbl(store0, Words(store0, b)) + [b])
      modifies this`nfree, this`free, this`store, this`st
      ensures m == n + |Dbl(store0, Words(store0, b))| + 1 && Draining(st0, store0, all, m)
    {
      ghost var w := Words(store0, b);
      ghost var d := Dbl(store0, w);
      SegSplit(all, n, d, [b]);
      ghost var k := n + |d|;
      assert all[k..k+1] == [b];
      NotYetFreed(st0, store0, all, n, k);
      var area := Area(b);
      m := n;
      var cp := WORDS;
      while cp >= 0
        invariant -1 <= cp <= WORDS && Draining(st0, store0, all, m)
        invariant Seg(all, m, Cat(Nodes(store0, w), cp + 1)) && m + |Cat(Nodes(store0, w), cp + 1)| == k
      {
        m := FreeEntry(area[cp], w, cp, st0, store0, all, m, k);
        cp := cp - 1;
      }
      FreeNext(b, st0, store0, all, m, {});
      m := m + 1;
    }

    /** One word of the doubly indirect block, whose buffer (block all[k]) is held meanwhile. */
    method FreeEntry(x: int, ghost w: seq<int>, ghost cp: int, ghost st0: seq<int>, ghost store0: Store,
                     ghost all: seq<int>, ghost n: int, ghost k: int)
      returns (ghost m: int)
      requires 0 <= cp <= WORDS && x == At(w, cp) && Draining(st0, store0, all, n) && k < |all|
      requires Seg(all, n, Cat(Nodes(store0, w), cp + 1)) && n + |Cat(Nodes(store0, w), cp + 1)| == k
      modifies this`nfree, this`free, this`store, this`st
      ensures Draining(st0, store0, all, m) && Seg(all, m, Cat(Nodes(store0, w), cp))
          && m + |Cat(Nodes(store0, w), cp)| == k
    {
      ghost var g := Nodes(store0, w);
      assert Cat(g, cp + 1) == Node(store0, x) + Cat(g, cp);
      SegSplit(all, n, Node(store0, x), Cat(g, cp));
      m := n;
      if x != 0 {
        ghost var e := n + |Node(store0, x)|;
        assert all[k] in all[e..] by { assert all[e..][k-e] == all[k]; }
        m := FreeNode(x, st0, store0, all, n, {all[k]});
      }
    }

    /** itrunc: the blocks of a file go onto the free list, last path first, each exactly once and never while its
        buffer is held; the inode is left empty. */
    method Itrunc(ip: int)
      requires Valid() && 0 <= ip < |ino| && Good(Abs(), ino[ip])
      requires forall x :: Uses(Abs(), ino[ip], x) > 0 ==> isize + 2 <= x < fsize
      modifies this
      ensures Valid() && |ino| == old(|ino|) && ino == old(ino)[ip := ino[ip]] && size == old(size)[ip := 0]
      ensures Truncated(old(Abs()), old(ino[ip]), Abs(), ino[ip])
    {
      ghost var st0, store0, it := st, store, ino[ip];
      ghost var all := Blocks(it, store0);
      AllInArea(Abs(), it, isize + 2, fsize);
      FreeAll(ip, it, st0, store0, all);
      ino := ino[ip := ino[ip].(large := false)];
      size := size[ip := 0];
      assert ino[ip].addr == Empty().addr;
      assert all[..|all|] == all;
      forall b | 0 <= b < |store0| && Count(all, b) == 0
        ensures store[b] == store0[b]
      {
        CountIn(all, b);
      }
    }

    /** The walk from address 7 down to address 0. */
    method FreeAll(ip: int, ghost it: Ino, ghost st0: seq<int>, ghost store0: Store, ghost all: seq<int>)
      requires 0 <= ip < |ino| && it == ino[ip] && |it.addr| == NADDR && all == Blocks(it, store0)
      requires Draining(st0, store0, all, 0)
      modifies this`nfree, this`free, this`store, this`st, this`ino
      ensures Draining(st0, store0, all, |all|)
      ensures |ino| == old(|ino|) && ino == old(ino)[ip := ino[ip]] && |ino[ip].addr| == NADDR
      ensures forall j :: 0 <= j < NADDR ==> ino[ip].addr[j] == 0
    {
      ghost var n := 0;
      var i := NADDR - 1;
      assert all[0..|all|] == all;
      while i >= 0
        invariant -1 <= i < NADDR && Draining(st0, store0, all, n)
        invariant Seg(all, n, Cat(Slots(it, store0), i + 1)) && n + |Cat(Slots(it, store0), i + 1)| == |all|
        invariant |ino| == old(|ino|) && ino == old(ino)[ip := ino[ip]]
        invariant |ino[ip].addr| == NADDR && ino[ip].large == it.large
        invariant forall j :: 0 <= j < NADDR ==> ino[ip].addr[j] == if j <= i then it.addr[j] else 0
      {
        n := FreeSlot(ino[ip].addr[i], ino[ip].large, i, it, st0, store0, all, n);
        ino := ino[ip := ino[ip].(addr := ino[ip].addr[i := 0])];
        i := i - 1;
      }
    }

    method FreeSlot(a: int, large: bool, i: int, ghost it: Ino, ghost st0: seq<int>, ghost store0: Store,
                    ghost all: seq<int>, ghost n: int)
      returns (ghost m: int)
      requires 0 <= i < NADDR && a == At(it.addr, i) && large == it.large && Draining(st0, store0, all, n)
      requires Seg(all, n, Cat(Slots(it, store0), i + 1)) && n + |Cat(Slots(it, store0), i + 1)| == |all|
      modifies this`nfree, this`free, this`store, this`st
      ensures Draining(st0, store0, all, m) && Seg(all, m, Cat(Slots(it, store0), i))
          && m + |Cat(Slots(it, store0), i)| == |all|
    {
      ghost var g := Slots(it, store0);
      ghost var s := Slot(store0, a, large, i);
      assert Cat(g, i + 1) == s + Cat(g, i);
      SegSplit(all, n, s, Cat(g, i));
      m := FreeAddress(a, large, i, st0, store0, all, n);
    }

    method FreeAddress(a: int, large: bool, i: int, ghost st0: seq<int>, ghost store0: Store, ghost all: seq<int>,
                       ghost n: int)
      returns (ghost m: int)
      requires 0 <= i < NADDR && Draining(st0, store0, all, n) && Seg(all, n, Slot(store0, a, large, i))
      modifies this`nfree, this`free, this`store, this`st
      ensures m == n + |Slot(store0, a, large, i)| && Draining(st0, store0, all, m)
    {
      if a == 0 {
        m := n;
      } else if !large {
        assert all[n..n+1] == [a];
        FreeNext(a, st0, store0, all, n, {});
        m := n + 1;
      } else if i == NADDR - 1 {
        m := FreeDouble(a, st0, store0, all, n);
      } else {
        m := FreeNode(a, st0, store0, all, n, {});
      }
    }

    /* -------------------------------------------------------------- bmap */

    /** bdwrite: from here on these words are the block. */
    method Bdwrite(b: int, buf: seq<int>)
      requires Valid() && 0 <= b < fsize && b !in st && |buf| == WORDS
      modifies this`store
      ensures Valid() && store == old(store)[b := buf]
    {
      RepFrame(st, nfree, free, store, store[b := buf]);
      store := store[b := buf];
    }

    /** The volume with one buffer still to be written back. */
    ghost function With(b: int, buf: seq<int>): Fs
      requires 0 <= b < |store|
      reads this
    {
      Fs(st, store[b := buf])
    }

    /** alloc on behalf of a file, when a block is free: a block the file does not have, and not free any more. */
    method AllocFor(ip: int, ghost f: Fs) returns (b: int)
      requires Valid() && 0 <= ip < |ino| && Good(f, ino[ip]) && f.st == st != [] && |f.store| == fsize
      modifies this`nfree, this`free, this`st
      ensures Valid() && b == Top(f) && st == f.st[..|f.st|-1] && 0 < b < fsize && b !in st
      ensures Count(Blocks(ino[ip], f.store), b) == 0 && !Indirect(ino[ip], f.store, b)
    {
      TopFacts(f, ino[ip]);
      TopNotBelow(f, ino[ip]);
      b := Alloc();
    }

    /** The state bmap is in while it holds the buffer of indirect block b; f is the volume as it will be once that is
        written back. */
    ghost predicate Holding(ip: int, b: int, buf: seq<int>, p: Place, f: Fs)
      reads this
    {
      && Valid() && 0 <= ip < |ino| && 0 < b < fsize && b !in st && |buf| == WORDS
      && (buf == store[b] || buf == Zeros())
      && f == With(b, buf) && Good(f, ino[ip]) && ino[ip].large
      && GoodPlace(ino[ip], p) && PlaceBlock(f, ino[ip], p) == b
    }

    /** The place whose block is address i. */
    ghost function PlaceOf(i: int): Place { if i == 7 then Double else Single(i) }

    /** The indirect block of address i, allocated if need be; its buffer is the caller's. */
    method FetchSlot(ip: int, i: int) returns (b: int, buf: seq<int>)
      requires Valid() && 0 <= ip < |ino| && Good(Abs(), ino[ip]) && ino[ip].large && 0 <= i < NADDR
      requires ino[ip].addr[i] == 0 ==> st != []
      modifies this`nfree, this`free, this`st, this`ino
      ensures |ino| == old(|ino|) && ino == old(ino)[ip := ino[ip]]
      ensures Holding(ip, b, buf, PlaceOf(i), EnsureSlot(old(Abs()), old(ino[ip]), i).0)
      ensures ino[ip] == EnsureSlot(old(Abs()), old(ino[ip]), i).1
    {
      ghost var f, n := Abs(), ino[ip];
      b := ino[ip].addr[i];
      if b == 0 {
        b := AllocFor(ip, f);
        buf := Zeros();
        ino := ino[ip := ino[ip].(addr := ino[ip].addr[i := b])];
      } else {
        assert At(n.addr, i) == b;
        IndirectNotFree(f, n, b);
        buf := store[b];
        assert store[b := buf] == store;
      }
    }

    /** The indirect block named by word k of the doubly indirect block. */
    method FetchDouble(ip: int, b: int, buf: seq<int>, k: int, ghost f: Fs) returns (b': int, buf': seq<int>)
      requires Holding(ip, b, buf, Double, f) && 0 <= k < WORDS && (buf[k] == 0 ==> st != [])
      modifies this`nfree, this`free, this`st, this`store
      ensures Holding(ip, b', buf', Below(k), EnsureWord(f, ino[ip], Double, k).0)
    {
      b' := buf[k];
      EnsureWordIs(f, ino[ip], Double, k);
      BelowIs(f, ino[ip], k);
      if b' == 0 {
        b' := AllocFor(ip, f);
        buf' := Zeros();
        Swap(store, b, b', buf, buf[k := b'], buf');
        Bdwrite(b, buf[k := b']);
      } else {
        assert store[b := buf] == store;
        IndirectNotFree(f, ino[ip], b');
        buf' := store[b'];
        assert store[b' := buf'] == store;
      }
    }

    /** The last step: the data block named by word j of an indirect block. */
    method FetchData(ip: int, b: int, buf: seq<int>, ghost p: Place, j: int, ghost f: Fs) returns (nb: int)
      requires Holding(ip, b, buf, p, f) && 0 <= j < WORDS && (buf[j] == 0 ==> st != [])
      modifies this`nfree, this`free, this`st, this`store
      ensures Valid() && (Abs(), nb) == EnsureWord(f, ino[ip], p, j)
    {
      nb := buf[j];
      EnsureWordIs(f, ino[ip], p, j);
      if nb == 0 {
        nb := AllocFor(ip, f);
        Swap(store, b, nb, buf, buf[j := nb], Zeros());
        Bdwrite(nb, Zeros());
        Bdwrite(b, buf[j := nb]);
      } else {
        assert store[b := buf] == store;
      }
    }

    /** The large file algorithm of bmap. */
    method BmapLarge(ip: int, bn: int) returns (nb: int)
      requires Valid() && 0 <= ip < |ino| && Good(Abs(), ino[ip]) && ino[ip].large && IsBn(bn)
      requires NeedLarge(Abs(), ino[ip], bn) <= |st|
      modifies this`nfree, this`free, this`st, this`store, this`ino
      ensures Valid() && |ino| == old(|ino|) && ino == old(ino)[ip := ino[ip]]
      ensures (Abs(), ino[ip], nb) == BlockMap.BmapLarge(old(Abs()), old(ino[ip]), bn)
    {
      ghost var f, n, p := ToPlace(Abs(), ino[ip], bn).0, ToPlace(Abs(), ino[ip], bn).1, ToPlace(Abs(), ino[ip], bn).2;
      PlaceNeed(Abs(), ino[ip], bn);
      var b, buf := FetchPlace(ip, bn);
      assert Entry(f.store, b, bn % 256) == buf[bn % 256];
      nb := FetchData(ip, b, buf, p, bn % 256, f);
    }

    /** The indirect block that names logical block bn. */
    method FetchPlace(ip: int, bn: int) returns (b: int, buf: seq<int>)
      requires Valid() && 0 <= ip < |ino| && Good(Abs(), ino[ip]) && ino[ip].large && IsBn(bn)
      requires NeedLarge(Abs(), ino[ip], bn) <= |st|
      modifies this`nfree, this`free, this`st, this`store, this`ino
      ensures |ino| == old(|ino|) && ino == old(ino)[ip := ino[ip]]
      ensures Holding(ip, b, buf, ToPlace(old(Abs()), old(ino[ip]), bn).2, ToPlace(old(Abs()), old(ino[ip]), bn).0)
      ensures ino[ip] == ToPlace(old(Abs()), old(ino[ip]), bn).1
    {
      ToPlaceIs(Abs(), ino[ip], bn);
      var i := bn / 256;
      if bn >= 2048 { i := 7; }
      if i == 7 {
        b, buf := FetchBelow(ip, bn / 256 - 7);
      } else {
        b, buf := FetchSlot(ip, i);
      }
    }

    /** The "huge" fetch: through the doubly indirect block. */
    method FetchBelow(ip: int, k: int) returns (b: int, buf: seq<int>)
      requires Valid() && 0 <= ip < |ino| && Good(Abs(), ino[ip]) && ino[ip].large && 0 <= k < WORDS
      requires CanBelow(Abs(), ino[ip], k)
      modifies this`nfree, this`free, this`st, this`store, this`ino
      ensures |ino| == old(|ino|) && ino == old(ino)[ip := ino[ip]]
      ensures ino[ip] == EnsureSlot(old(Abs()), old(ino[ip]), 7).1
      ensures Holding(ip, b, buf, Below(k), EnsureWord(EnsureSlot(old(Abs()), old(ino[ip]), 7).0, ino[ip], Double, k).0)
    {
      ghost var f := EnsureSlot(Abs(), ino[ip], 7).0;
      b, buf := FetchSlot(ip, 7);
      assert f.store[b] == buf;
      b, buf := FetchDouble(ip, b, buf, k, f);
    }

    /** bmap: the block of logical block bn, for a file whose blocks can be had. */
    method Bmap(ip: int, bn: int) returns (nb: int)
      requires Valid() && 0 <= ip < |ino| && Good(Abs(), ino[ip])
      requires IsBn(bn) ==> Need(Abs(), ino[ip], bn) <= |st|
      modifies this`nfree, this`free, this`st, this`store, this`ino
      ensures Valid() && |ino| == old(|ino|) && ino == old(ino)[ip := ino[ip]]
      ensures !IsBn(bn) ==> nb == 0 && Abs() == old(Abs()) && ino == old(ino)
      ensures IsBn(bn) ==> (Abs(), ino[ip], nb) == BlockMap.Bmap(old(Abs()), old(ino[ip]), bn)
    {
      if bn < 0 || bn > 0x7fff {
        return 0;
      }
      ghost var f, n := Abs(), ino[ip];
      if !ino[ip].large {
        if bn < 8 {
          nb := BmapDirect(ip, bn);
          return;
        }
        ConvertToLarge(ip);
        ConvertNeed(f, n, bn);
      }
      nb := BmapLarge(ip, bn);
    }

    method BmapDirect(ip: int, bn: int) returns (nb: int)
      requires Valid() && 0 <= ip < |ino| && Good(Abs(), ino[ip]) && 0 <= bn < 8
      requires ino[ip].addr[bn] == 0 ==> st != []
      modifies this`nfree, this`free, this`st, this`store, this`ino
      ensures Valid() && |ino| == old(|ino|) && ino == old(ino)[ip := ino[ip]]
      ensures (Abs(), ino[ip]) == EnsureSlot(old(Abs()), old(ino[ip]), bn) && nb == ino[ip].addr[bn]
    {
      nb := ino[ip].addr[bn];
      if nb == 0 {
        nb := AllocFor(ip, Abs());
        Bdwrite(nb, Zeros());
        ino := ino[ip := ino[ip].(addr := ino[ip].addr[bn := nb])];
      }
    }

    /** The eight addresses of a small file move into an indirect block. */
    method ConvertToLarge(ip: int)
      requires Valid() && 0 <= ip < |ino| && Good(Abs(), ino[ip]) && !ino[ip].large && st != []
      modifies this`nfree, this`free, this`st, this`store, this`ino
      ensures Valid() && |ino| == old(|ino|) && ino == old(ino)[ip := ino[ip]]
      ensures 0 < Top(old(Abs())) < fsize && (Abs(), ino[ip]) == Convert(old(Abs()), old(ino[ip]))
      ensures Good(Abs(), ino[ip])
    {
      ghost var f, n := Abs(), ino[ip];
      TopFacts(f, n);
      ConvertProgress(f, n);
      var b := Alloc();
      TopNotBelow(f, n);
      var buf, addr := MoveAddresses(ino[ip].addr);
      addr := addr[0 := b];
      assert addr == Converted(b).addr;
      Bdwrite(b, buf);
      ino := ino[ip := Ino(addr, true)];
    }

    /** The loop of the conversion: the addresses are copied to the block, and cleared. */
    method MoveAddresses(addr0: seq<int>) returns (buf: seq<int>, addr: seq<int>)
      requires |addr0| == NADDR
      ensures buf == Packed(addr0) && addr == seq(NADDR, _ => 0)
    {
      buf, addr := Zeros(), addr0;
      for i := 0 to 8
        invariant |buf| == WORDS && |addr| == NADDR
        invariant forall k :: 0 <= k < WORDS ==> buf[k] == if k < i then addr0[k] else 0
        invariant forall k :: 0 <= k < NADDR ==> addr[k] == if k < i then 0 else addr0[k]
      {
        buf := buf[i := addr[i]];
        addr := addr[i := 0];
      }
    }
  }

  /** What EnsureWord does, case by case. */
  lemma EnsureWordIs(f: Fs, n: Ino, p: Place, j: int)
    requires Good(f, n) && n.large && GoodPlace(n, p) && 0 <= j < WORDS && PlaceBlock(f, n, p) != 0
    requires Entry(f.store, PlaceBlock(f, n, p), j) == 0 ==> f.st != []
    ensures var b := PlaceBlock(f, n, p);
            && 0 < b < |f.store|
            && if f.store[b][j] != 0 then EnsureWord(f, n, p, j) == (f, f.store[b][j])
               else
                 && 0 < Top(f) < |f.store| && Top(f) != b
                 && EnsureWord(f, n, p, j) == (Fs(f.st[..|f.st|-1],
                      f.store[Top(f) := Zeros()][b := f.store[b][j := Top(f)]]), Top(f))
  {
    PlaceRange(f, n, p);
    if f.st != [] {
      TopFacts(f, n);
      PlaceIndirect(f, n, p);
    }
  }

  /** The word just fetched names the next place. */
  lemma BelowIs(f: Fs, n: Ino, k: int)
    requires Good(f, n) && n.large && 0 <= k < WORDS && PlaceBlock(f, n, Double) != 0
    requires Entry(f.store, PlaceBlock(f, n, Double), k) == 0 ==> f.st != []
    ensures var (g, b) := EnsureWord(f, n, Double, k); Good(g, n) && PlaceBlock(g, n, Below(k)) == b != 0
    ensures var x := Entry(f.store, PlaceBlock(f, n, Double), k); x != 0 ==> Indirect(n, f.store, x)
  {
    var x := Entry(f.store, PlaceBlock(f, n, Double), k);
    if x != 0 {
      assert At(Words(f.store, At(n.addr, 7)), k) == x;
      assert Second(n, f.store, x);
    }
  }

  /** Blocks enough for the path through word k of the doubly indirect block. */
  ghost predicate CanBelow(f: Fs, n: Ino, k: int)
    requires Good(f, n)
  {
    && (n.addr[7] == 0 ==> f.st != [])
    && var (g, m) := EnsureSlot(f, n, 7);
       PlaceBlock(g, m, Double) != 0 && (Entry(g.store, PlaceBlock(g, m, Double), k) == 0 ==> g.st != [])
  }

  lemma ToPlaceIs(f: Fs, n: Ino, bn: int)
    requires Good(f, n) && n.large && IsBn(bn) && NeedLarge(f, n, bn) <= |f.st|
    ensures n.addr[SlotOf(bn)] == 0 ==> f.st != []
    ensures var (g, m) := EnsureSlot(f, n, SlotOf(bn));
            if SlotOf(bn) < 7 then ToPlace(f, n, bn) == (g, m, Single(SlotOf(bn)))
            else
              && var k := bn / 256 - 7;
                 && CanBelow(f, n, k)
                 && ToPlace(f, n, bn) == (EnsureWord(g, m, Double, k).0, m, Below(k))
  {
    NeedSlot(f, n, bn);
    if SlotOf(bn) == 7 { ToDouble(f, n, bn); }
  }

  lemma NeedSlot(f: Fs, n: Ino, bn: int)
    requires Good(f, n) && n.large && IsBn(bn) && NeedLarge(f, n, bn) <= |f.st|
    ensures n.addr[SlotOf(bn)] == 0 ==> f.st != []
  {
  }

  /** Writes to different blocks commute, and a later write to the same block wins. */
  lemma Swap(store: Store, b: int, c: int, x: seq<int>, y: seq<int>, z: seq<int>)
    requires 0 <= b < |store| && 0 <= c < |store| && b != c
    ensures store[b := x][c := z][b := y] == store[b := y][c := z] == store[c := z][b := y]
  {
  }

  /** Blocks the file knows are not on the free list. */
  lemma NotFree(f: Fs, n: Ino, b: int)
    requires Good(f, n) && Count(Blocks(n, f.store), b) > 0
    ensures b !in f.st && 0 < b < |f.store|
  {
    assert Uses(f, n, b) <= 1;
    CountIn(f.st, b);
    assert Uses(f, n, b) > 0;
  }

  lemma IndirectNotFree(f: Fs, n: Ino, b: int)
    requires Good(f, n) && Indirect(n, f.store, b)
    ensures b !in f.st && 0 < b < |f.store|
  {
    IndirectInBlocks(n, f.store, b);
    CountIn(Blocks(n, f.store), b);
    NotFree(f, n, b);
  }

  /** What was on top is not further down. */
  lemma TopNotBelow(f: Fs, n: Ino)
    requires f.st != [] && Good(f, n)
    ensures Top(f) !in f.st[..|f.st|-1]
  {
    assert Uses(f, n, Top(f)) <= 1;
    PopCount(f.st, Top(f));
    CountIn(f.st[..|f.st|-1], Top(f));
  }

  /** A good file's blocks are distinct from the free ones and from each other, and lie in the data area. */
  lemma AllInArea(fs: Fs, ino: Ino, low: int, high: int)
    requires Good(fs, ino) && forall x :: Uses(fs, ino, x) > 0 ==> low <= x < high
    ensures Distinct(fs.st, Blocks(ino, fs.store))
    ensures forall i :: 0 <= i < |Blocks(ino, fs.store)| ==> low <= Blocks(ino, fs.store)[i] < high
  {
    var all := Blocks(ino, fs.store);
    forall x
      ensures Count(fs.st, x) + Count(all, x) <= 1
    {
      assert Uses(fs, ino, x) <= 1;
    }
    forall i | 0 <= i < |all|
      ensures low <= all[i] < high
    {
      assert all[i] in all;
      CountIn(all, all[i]);
      assert Uses(fs, ino, all[i]) > 0;
    }
  }

  lemma Later(all: seq<int>, m: int, k: int)
    requires 0 <= m <= k <= |all|
    ensures forall x :: x in all[k..] ==> x in all[m..]
  {
    assert all[k..] == all[m..][k-m..];
  }

  /** The entry on top is the top of the stack, unless it is the zero at the bottom. */
  lemma TopEntry(st: seq<int>, n: int, f: seq<int>, store: Store, low: int, high: int)
    requires Rep(st, n, f, store) && n > 0 && 0 < low
    requires forall i :: 0 <= i < |st| ==> low <= st[i] < high
    ensures f[n-1] == 0 ==> st == [] && Rep(st, 0, f, store)
    ensures f[n-1] != 0 ==> st != [] && f[n-1] == st[|st|-1] && low <= f[n-1] < high
  {
    if st != [] { RepTop(st, n, f, store); }
  }
}
