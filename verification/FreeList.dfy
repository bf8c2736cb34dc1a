/** The free list: up to a hundred block numbers in the superblock, the rest chained through the free blocks
    themselves. */
module FreeList {

  const NICFREE := 100
  const WORDS := 256

  type Store = seq<seq<int>>

  ghost predicate GoodStore(store: Store) { forall b :: 0 <= b < |store| ==> |store[b]| == WORDS }

  /** `st`, bottom first, is the stack that (n, f) and the chain hanging off f[0] stand for.  A zero entry is the
      bottom. */
  ghost predicate Rep(st: seq<int>, n: int, f: seq<int>, store: Store)
    decreases |st|
  {
    && |f| == NICFREE && 0 <= n <= NICFREE
    && if n == 0 then st == []
       else if f[0] == 0 then st == f[1..n]
       else
         && n <= |st| && st[|st|-n..] == f[..n]
         && 0 <= f[0] < |store| && |store[f[0]]| == WORDS
         && Rep(st[..|st|-n], store[f[0]][0], store[f[0]][1..NICFREE+1], store)
  }

  /** Only the blocks on the list matter to it. */
  lemma {:induction false} RepFrame(st: seq<int>, n: int, f: seq<int>, store: Store, store': Store)
    requires Rep(st, n, f, store) && |store'| == |store|
    requires forall b :: 0 <= b < |store| && b in st ==> store'[b] == store[b]
    ensures Rep(st, n, f, store')
    decreases |st|
  {
    if n > 0 && f[0] != 0 {
      assert st[|st|-n..][0] == f[0] && f[0] in st;
      var rest := st[..|st|-n];
      assert forall b :: b in rest ==> b in st;
      RepFrame(rest, store[f[0]][0], store[f[0]][1..NICFREE+1], store, store');
    }
  }

  /** The top of the stack is the last entry in the superblock. */
  lemma RepTop(st: seq<int>, n: int, f: seq<int>, store: Store)
    requires Rep(st, n, f, store) && st != []
    ensures n > 0 && f[n-1] == st[|st|-1] && !(n == 1 && f[0] == 0)
  {
    if f[0] != 0 {
      assert st[|st|-n..][n-1] == f[n-1];
    }
  }

  /** Taking the top while more than one entry remains in the superblock. */
  lemma RepPopInCore(st: seq<int>, n: int, f: seq<int>, store: Store)
    requires Rep(st, n, f, store) && st != [] && n > 1
    ensures Rep(st[..|st|-1], n - 1, f, store)
  {
    var t := st[..|st|-1];
    if f[0] == 0 {
      assert t == f[1..n-1];
    } else {
      assert t[|t|-(n-1)..] == st[|st|-n..][..n-1];
      assert t[..|t|-(n-1)] == st[..|st|-n];
    }
  }

  /** Taking the last entry brings in the batch stored in that very block. */
  lemma RepPopReload(st: seq<int>, n: int, f: seq<int>, store: Store)
    requires Rep(st, n, f, store) && st != [] && n == 1
    ensures 0 <= f[0] < |store| && |store[f[0]]| == WORDS
    ensures Rep(st[..|st|-1], store[f[0]][0], store[f[0]][1..NICFREE+1], store)
  {
  }

  lemma RepPushInCore(st: seq<int>, n: int, f: seq<int>, store: Store, b: int)
    requires Rep(st, n, f, store) && 0 < n < NICFREE
    ensures Rep(st + [b], n + 1, f[n := b], store)
  {
    var t, g := st + [b], f[n := b];
    if f[0] == 0 {
      assert t == g[1..n+1];
    } else {
      assert t[|t|-(n+1)..] == st[|st|-n..] + [b];
      assert g[..n+1] == f[..n] + [b];
      assert t[..|t|-(n+1)] == st[..|st|-n];
    }
  }

  /** An exhausted list starts again from a zero entry. */
  lemma RepRestart(st: seq<int>, n: int, f: seq<int>, store: Store)
    requires Rep(st, n, f, store) && n == 0
    ensures Rep(st, 1, f[0 := 0], store)
  {
  }

  /** What free writes into the block it spills to; `junk` is whatever else the buffer held. */
  function Spilled(n: int, f: seq<int>, junk: seq<int>): seq<int> { [n] + f + junk }

  /** A full batch goes into the freed block, which becomes the only entry in the superblock. */
  lemma RepPushSpill(st: seq<int>, n: int, f: seq<int>, store: Store, b: int, junk: seq<int>)
    requires Rep(st, n, f, store) && n == NICFREE
    requires 0 < b < |store| && b !in st && |junk| == WORDS - 1 - NICFREE
    ensures Rep(st + [b], 1, f[0 := b], store[b := Spilled(n, f, junk)])
  {
    var store' := store[b := Spilled(n, f, junk)];
    RepFrame(st, n, f, store, store');
    assert store'[b][0] == n && store'[b][1..NICFREE+1] == f;
    assert (st + [b])[..|st|] == st;
    assert (st + [b])[|st|..] == [b] == f[0 := b][..1];
  }

  /** The superblock and the chain determine the stack. */
  lemma {:induction false} RepUnique(st: seq<int>, st': seq<int>, n: int, f: seq<int>, store: Store)
    requires Rep(st, n, f, store) && Rep(st', n, f, store)
    ensures st == st'
    decreases |st|
  {
    if n > 0 && f[0] != 0 {
      RepUnique(st[..|st|-n], st'[..|st'|-n], store[f[0]][0], store[f[0]][1..NICFREE+1], store);
      assert st == st[..|st|-n] + st[|st|-n..] && st' == st'[..|st'|-n] + st'[|st'|-n..];
    }
  }
}
