/** One block is added to a file: in an inode slot, in an indirect block, in the doubly indirect block, or below it.
    Each time exactly one block joins the tree and no mapped block moves. */
module FileGrow {
  import opened Counting
  import opened FreeList
  import opened FileTree

  function One(x: int, c: int): nat { if x == c then 1 else 0 }

  lemma {:induction false} CatEmpty(g: Family, n: nat)
    requires forall i :: 0 <= i < n ==> Member(g, i) == []
    ensures Cat(g, n) == []
  {
    if n > 0 { CatEmpty(g, n - 1); }
  }

  lemma RevZeros()
    ensures Rev(Zeros()) == []
  {
    CatEmpty(Leaves(Zeros()), WORDS + 1);
  }

  lemma RevSet(w: seq<int>, j: int, c: int, x: int)
    requires 0 <= j < |w| == WORDS && w[j] == 0 && c != 0
    ensures Count(Rev(w[j := c]), x) == Count(Rev(w), x) + One(x, c)
  {
    CatUpdate(Leaves(w), Leaves(w[j := c]), WORDS + 1, j, x);
    CountOne(c, x);
  }

  /** A slot that does not contain b does not notice a write to b. */
  lemma SlotApart(store: Store, a: int, large: bool, i: int, b: int, v: seq<int>)
    requires 0 < b < |store| && GoodStore(store) && b !in Slot(store, a, large, i)
    ensures Slot(store[b := v], a, large, i) == Slot(store, a, large, i)
  {
    if a != 0 && large && i == 7 {
      var w := Words(store, a);
      forall k | 0 <= k <= WORDS
        ensures At(w, k) == 0 || At(w, k) != b
      {
        if At(w, k) != 0 { InDbl(store, w, k, At(w, k)); }
      }
      DblFrame(store, w, b, v);
    }
  }

  /** Writing block b, which belongs to slot i, changes the count of blocks by the change in that slot. */
  lemma SlotChange(ino: Ino, store: Store, i: int, b: int, v: seq<int>, x: int)
    requires GoodIno(ino, store) && 0 <= i < NADDR && 0 < b < |store|
    requires b in Slot(store, At(ino.addr, i), ino.large, i)
    ensures Count(Blocks(ino, store[b := v]), x) + Count(Slot(store, At(ino.addr, i), ino.large, i), x)
         == Count(Blocks(ino, store), x) + Count(Slot(store[b := v], At(ino.addr, i), ino.large, i), x)
  {
    var g, h := Slots(ino, store), Slots(ino, store[b := v]);
    forall j | 0 <= j < NADDR && j != i
      ensures Member(g, j) == Member(h, j)
    {
      OneSlot(ino, store, i, j, b);
      SlotApart(store, At(ino.addr, j), ino.large, j, b, v);
    }
    CatUpdate(g, h, NADDR, i, x);
  }

  /* ---------------------------------------------------------------- a new address in the inode */

  /** A cleared block leads nowhere. */
  lemma FreshNode(store: Store, c: int)
    requires c != 0 && Words(store, c) == Zeros()
    ensures Node(store, c) == [c]
  {
    RevZeros();
  }

  lemma FreshSlot(store: Store, c: int, large: bool, i: int)
    requires c != 0 && Words(store, c) == Zeros()
    ensures Slot(store, c, large, i) == [c]
  {
    FreshNode(store, c);
    CatEmpty(Nodes(store, Zeros()), WORDS + 1);
  }

  lemma GrowSlot(ino: Ino, store: Store, i: int, c: int, x: int)
    requires |ino.addr| == NADDR && 0 <= i < NADDR && ino.addr[i] == 0 && c != 0 && Words(store, c) == Zeros()
    ensures Count(Blocks(ino.(addr := ino.addr[i := c]), store), x) == Count(Blocks(ino, store), x) + One(x, c)
  {
    var ino' := ino.(addr := ino.addr[i := c]);
    FreshSlot(store, c, ino.large, i);
    var g, h := Slots(ino, store), Slots(ino', store);
    assert At(ino.addr, i) == 0 && At(ino'.addr, i) == c;
    assert Member(g, i) == Slot(store, 0, ino.large, i) == [];
    assert Member(h, i) == Slot(store, c, ino.large, i) == [c];
    CatUpdate(g, h, NADDR, i, x);
    CountOne(c, x);
  }

  lemma GrowSlotLookup(ino: Ino, store: Store, i: int, c: int, bn: int)
    requires |ino.addr| == NADDR && 0 <= i < NADDR && ino.addr[i] == 0 && c != 0 && Words(store, c) == Zeros()
        && IsBn(bn)
    ensures Lookup(ino.(addr := ino.addr[i := c]), store, bn) == if !ino.large && bn == i then c
        else Lookup(ino, store, bn)
  {
  }

  /* ---------------------------------------------------------------- a new word in an indirect block */

  lemma GrowSingle(ino: Ino, store: Store, i: int, j: int, c: int, x: int)
    requires GoodIno(ino, store) && ino.large && 0 <= i < 7 && 0 <= j < WORDS && c != 0
    requires var b := At(ino.addr, i); 0 < b < |store| && At(Words(store, b), j) == 0
    ensures var b := At(ino.addr, i);
            Count(Blocks(ino, store[b := store[b][j := c]]), x) == Count(Blocks(ino, store), x) + One(x, c)
  {
    var b := At(ino.addr, i);
    var v := store[b][j := c];
    SlotChange(ino, store, i, b, v, x);
    NodeSet(store, b, j, c, x);
  }

  /** The other paths do not go through block b of slot i. */
  lemma OtherPaths(ino: Ino, store: Store, i: int, k: int)
    requires GoodIno(ino, store) && ino.large && 0 <= i < 7 && At(ino.addr, i) != 0
    ensures forall i' :: 0 <= i' < NADDR && i' != i ==> At(ino.addr, i') != At(ino.addr, i)
    ensures At(ino.addr, 7) != 0 && 0 <= k < WORDS ==> At(Words(store, At(ino.addr, 7)), k) != At(ino.addr, i)
  {
    var b := At(ino.addr, i);
    forall i' | 0 <= i' < NADDR && i' != i
      ensures At(ino.addr, i') != b
    {
      OneSlot(ino, store, i, i', b);
    }
    var w := Words(store, At(ino.addr, 7));
    if At(ino.addr, 7) != 0 && 0 <= k < WORDS && At(w, k) != 0 {
      InDbl(store, w, k, At(w, k));
      OneSlot(ino, store, i, 7, b);
    }
  }

  lemma GrowSingleLookup(ino: Ino, store: Store, i: int, j: int, c: int, bn: int)
    requires GoodIno(ino, store) && ino.large && 0 <= i < 7 && 0 <= j < WORDS && IsBn(bn)
    requires var b := At(ino.addr, i); 0 < b < |store|
    ensures var b := At(ino.addr, i);
            Lookup(ino, store[b := store[b][j := c]], bn) == if bn == 256 * i + j then c else Lookup(ino, store, bn)
  {
    OtherPaths(ino, store, i, bn / 256 - 7);
  }

  /* ---------------------------------------------------------------- the doubly indirect block */

  lemma NotBelowItself(ino: Ino, store: Store)
    requires GoodIno(ino, store) && ino.large && At(ino.addr, 7) != 0
    ensures At(ino.addr, 7) !in Dbl(store, Words(store, At(ino.addr, 7)))
  {
    var b := At(ino.addr, 7);
    var d := Dbl(store, Words(store, b));
    SlotCount(ino, store, 7, b);
    CountAppend(d, [b], b);
    CountOne(b, b);
    CountIn(d, b);
  }

  lemma GrowDouble(ino: Ino, store: Store, k: int, c: int, x: int)
    requires GoodIno(ino, store) && ino.large && 0 <= k < WORDS
    requires var b := At(ino.addr, 7); 0 < b < |store| && At(Words(store, b), k) == 0 && c != b
    requires 0 < c < |store| && store[c] == Zeros()
    ensures var b := At(ino.addr, 7);
            Count(Blocks(ino, store[b := store[b][k := c]]), x) == Count(Blocks(ino, store), x) + One(x, c)
  {
    var b := At(ino.addr, 7);
    var w := store[b];
    var v := w[k := c];
    SlotChange(ino, store, 7, b, v, x);
    DoubleCount(ino, store, k, c, x);
    CountAppend(Dbl(store, w), [b], x);
    CountAppend(Dbl(store[b := v], v), [b], x);
  }

  lemma DoubleCount(ino: Ino, store: Store, k: int, c: int, x: int)
    requires GoodIno(ino, store) && ino.large && 0 <= k < WORDS
    requires var b := At(ino.addr, 7); 0 < b < |store| && At(Words(store, b), k) == 0 && c != b
    requires 0 < c < |store| && store[c] == Zeros()
    ensures var b := At(ino.addr, 7);
            var v := store[b][k := c];
            Count(Dbl(store[b := v], v), x) == Count(Dbl(store, store[b]), x) + One(x, c)
  {
    var b := At(ino.addr, 7);
    var w := store[b];
    var v := w[k := c];
    var g, h := Nodes(store, w), Nodes(store[b := v], v);
    NotBelowItself(ino, store);
    forall j | 0 <= j <= WORDS && j != k
      ensures Member(g, j) == Member(h, j)
    {
      if At(w, j) != 0 { InDbl(store, w, j, At(w, j)); }
    }
    FreshNode(store[b := v], c);
    assert Member(g, k) == [] && Member(h, k) == [c];
    CatUpdate(g, h, WORDS + 1, k, x);
    CountOne(c, x);
  }

  lemma GrowDoubleLookup(ino: Ino, store: Store, k: int, c: int, bn: int)
    requires GoodIno(ino, store) && ino.large && 0 <= k < WORDS && IsBn(bn)
    requires var b := At(ino.addr, 7); 0 < b < |store| && At(Words(store, b), k) == 0 && c != b
    requires 0 < c < |store| && store[c] == Zeros()
    ensures var b := At(ino.addr, 7);
            Lookup(ino, store[b := store[b][k := c]], bn) == Lookup(ino, store, bn)
  {
    var b := At(ino.addr, 7);
    if bn / 256 < 7 {
      var a := At(ino.addr, bn / 256);
      if a != 0 { OneSlot(ino, store, 7, bn / 256, b); }
    } else {
      NotBelowItself(ino, store);
      var x := At(store[b], bn / 256 - 7);
      if x != 0 { InDbl(store, store[b], bn / 256 - 7, x); }
    }
  }

  /* ---------------------------------------------------------------- below the doubly indirect block */

  lemma SecondIn(ino: Ino, store: Store, k: int)
    requires GoodIno(ino, store) && ino.large && 0 <= k < WORDS && At(ino.addr, 7) != 0
    requires At(Words(store, At(ino.addr, 7)), k) != 0
    ensures var x := At(Words(store, At(ino.addr, 7)), k);
            && x in Slot(store, At(ino.addr, 7), true, 7) && x in Blocks(ino, store) && x != At(ino.addr, 7)
            && (forall k' :: 0 <= k' <= WORDS && k' != k ==> x !in Node(store, At(Words(store, At(ino.addr, 7)), k')))
  {
    var b := At(ino.addr, 7);
    var w := Words(store, b);
    var x := At(w, k);
    InDbl(store, w, k, x);
    InBlocks(ino, store, 7, x);
    NotBelowItself(ino, store);
    SlotCount(ino, store, 7, x);
    CountAppend(Dbl(store, w), [b], x);
    forall k' | 0 <= k' <= WORDS && k' != k
      ensures x !in Node(store, At(w, k'))
    {
      CatOnce(Nodes(store, w), WORDS + 1, k, k', x);
    }
  }

  lemma GrowBelow(ino: Ino, store: Store, k: int, j: int, c: int, x: int)
    requires GoodIno(ino, store) && ino.large && 0 <= k < WORDS && 0 <= j < WORDS && c != 0 && At(ino.addr, 7) != 0
    requires var b := At(Words(store, At(ino.addr, 7)), k); 0 < b < |store| && At(Words(store, b), j) == 0
    ensures var b := At(Words(store, At(ino.addr, 7)), k);
            Count(Blocks(ino, store[b := store[b][j := c]]), x) == Count(Blocks(ino, store), x) + One(x, c)
  {
    var a := At(ino.addr, 7);
    var w := Words(store, a);
    var b := At(w, k);
    var v := store[b][j := c];
    SecondIn(ino, store, k);
    SlotChange(ino, store, 7, b, v, x);
    BelowCount(ino, store, k, j, c, x);
    CountAppend(Dbl(store, w), [a], x);
    CountAppend(Dbl(store[b := v], w), [a], x);
  }

  lemma BelowCount(ino: Ino, store: Store, k: int, j: int, c: int, x: int)
    requires GoodIno(ino, store) && ino.large && 0 <= k < WORDS && 0 <= j < WORDS && c != 0 && At(ino.addr, 7) != 0
    requires var b := At(Words(store, At(ino.addr, 7)), k); 0 < b < |store| && At(Words(store, b), j) == 0
    ensures var w := Words(store, At(ino.addr, 7));
            var b := At(w, k);
            Count(Dbl(store[b := store[b][j := c]], w), x) == Count(Dbl(store, w), x) + One(x, c)
  {
    var w := Words(store, At(ino.addr, 7));
    var b := At(w, k);
    var v := store[b][j := c];
    var g, h := Nodes(store, w), Nodes(store[b := v], w);
    SecondIn(ino, store, k);
    assert forall k' :: 0 <= k' <= WORDS && k' != k ==> Member(g, k') == Member(h, k');
    CatUpdate(g, h, WORDS + 1, k, x);
    NodeSet(store, b, j, c, x);
  }

  lemma NodeSet(store: Store, b: int, j: int, c: int, x: int)
    requires 0 < b < |store| && |store[b]| == WORDS && 0 <= j < WORDS && store[b][j] == 0 && c != 0
    ensures Count(Node(store[b := store[b][j := c]], b), x) == Count(Node(store, b), x) + One(x, c)
  {
    var v := store[b][j := c];
    RevSet(store[b], j, c, x);
    CountAppend(Rev(store[b]), [b], x);
    CountAppend(Rev(v), [b], x);
  }

  lemma GrowBelowLookup(ino: Ino, store: Store, k: int, j: int, c: int, bn: int)
    requires GoodIno(ino, store) && ino.large && 0 <= k < WORDS && 0 <= j < WORDS && IsBn(bn) && At(ino.addr, 7) != 0
    requires var b := At(Words(store, At(ino.addr, 7)), k); 0 < b < |store|
    ensures var b := At(Words(store, At(ino.addr, 7)), k);
            Lookup(ino, store[b := store[b][j := c]], bn) == if bn == 256 * (k + 7) + j then c
                else Lookup(ino, store, bn)
  {
    var a := At(ino.addr, 7);
    var b := At(Words(store, a), k);
    SecondIn(ino, store, k);
    if bn / 256 < 7 {
      OneSlot(ino, store, 7, bn / 256, b);
      assert At(ino.addr, bn / 256) != b;
    } else {
      var k' := bn / 256 - 7;
      assert k' != k ==> At(Words(store, a), k') == 0 || At(Words(store, a), k') != b;
    }
  }

  /* ---------------------------------------------------------------- small becomes large */

  /** The eight addresses move into an indirect block. */
  function Packed(addr: seq<int>): (w: seq<int>)
    requires |addr| == NADDR
    ensures |w| == WORDS && w[..NADDR] == addr && forall i :: NADDR <= i < WORDS ==> w[i] == 0
  {
    addr + seq(WORDS - NADDR, i => 0)
  }

  function Converted(c: int): Ino { Ino([c, 0, 0, 0, 0, 0, 0, 0], true) }

  lemma {:induction false} CatTail(g: Family, m: nat, n: nat)
    requires m <= n && forall i :: m <= i < n ==> Member(g, i) == []
    ensures Cat(g, n) == Cat(g, m)
  {
    if m < n { CatTail(g, m, n - 1); }
  }

  lemma RevPacked(ino: Ino, store: Store)
    requires |ino.addr| == NADDR && !ino.large
    ensures Rev(Packed(ino.addr)) == Blocks(ino, store)
  {
    var w := Packed(ino.addr);
    var g, h := Leaves(w), Slots(ino, store);
    CatTail(g, NADDR, WORDS + 1);
    forall i | 0 <= i < NADDR
      ensures Member(g, i) == Member(h, i)
    {
      assert w[i] == w[..NADDR][i];
    }
    CatSame(g, h, NADDR);
  }

  lemma OnlySlot(store: Store, c: int)
    requires c != 0
    ensures Blocks(Converted(c), store) == Node(store, c)
  {
    var h := Slots(Converted(c), store);
    CatTail(h, 1, NADDR);
    assert Cat(h, 0) == [];
    assert Cat(h, 1) == Member(h, 0) + Cat(h, 0);
    assert Member(h, 0) == Slot(store, c, true, 0);
  }

  lemma ConvertCount(ino: Ino, store: Store, c: int, x: int)
    requires |ino.addr| == NADDR && !ino.large && 0 < c < |store| && store[c] == Packed(ino.addr)
    ensures Count(Blocks(Converted(c), store), x) == Count(Blocks(ino, store), x) + One(x, c)
  {
    RevPacked(ino, store);
    OnlySlot(store, c);
    CountAppend(Rev(store[c]), [c], x);
    CountOne(c, x);
  }

  lemma ConvertLookup(ino: Ino, store: Store, c: int, bn: int)
    requires |ino.addr| == NADDR && !ino.large && 0 < c < |store| && store[c] == Packed(ino.addr) && IsBn(bn)
    ensures Lookup(Converted(c), store, bn) == Lookup(ino, store, bn)
  {
    assert bn < 8 ==> store[c][bn] == store[c][..NADDR][bn];
  }

  /* ---------------------------------------------------------------- every path leads to a different block */

  lemma LookupIn(ino: Ino, store: Store, bn: int)
    requires GoodIno(ino, store) && IsBn(bn) && Lookup(ino, store, bn) != 0
    ensures Lookup(ino, store, bn) in Blocks(ino, store) && !Indirect(ino, store, Lookup(ino, store, bn))
  {
    var d := Lookup(ino, store, bn);
    if !ino.large {
      InBlocks(ino, store, bn, d);
    } else if bn / 256 < 7 {
      DataSingle(ino, store, bn / 256, bn % 256);
    } else {
      DataDouble(ino, store, bn / 256 - 7, bn % 256);
    }
  }

  /** A data block below slot i occurs there and only there, and is no indirect block. */
  lemma DataSingle(ino: Ino, store: Store, i: int, j: int)
    requires GoodIno(ino, store) && ino.large && 0 <= i < 7 && 0 <= j < WORDS && Entry(store, At(ino.addr, i), j) != 0
    ensures var d := Entry(store, At(ino.addr, i), j);
            && d in Slot(store, At(ino.addr, i), true, i) && d in Blocks(ino, store) && !Indirect(ino, store, d)
            && (forall j' :: 0 <= j' < WORDS && Entry(store, At(ino.addr, i), j') == d ==> j' == j)
  {
    var a := At(ino.addr, i);
    var w, d := Words(store, a), Entry(store, a, j);
    InRev(w, j);
    InBlocks(ino, store, i, d);
    SlotCount(ino, store, i, d);
    CountAppend(Rev(w), [a], d);
    CountIn(Rev(w), d);
    CountOne(a, d);
    assert d != a;
    forall j' | 0 <= j' < WORDS && Entry(store, a, j') == d
      ensures j' == j
    {
      RevCount(w, j', j, d);
    }
    forall i' | 0 <= i' < NADDR && i' != i
      ensures At(ino.addr, i') != d
    {
      OneSlot(ino, store, i, i', d);
    }
    if At(ino.addr, 7) != 0 {
      OneSlot(ino, store, i, 7, d);
      forall k | 0 <= k < WORDS
        ensures At(Words(store, At(ino.addr, 7)), k) != d
      {
        var y := At(Words(store, At(ino.addr, 7)), k);
        if y != 0 { InDbl(store, Words(store, At(ino.addr, 7)), k, y); }
      }
    }
  }

  lemma DataDouble(ino: Ino, store: Store, k: int, j: int)
    requires GoodIno(ino, store) && ino.large && 0 <= k < WORDS && 0 <= j < WORDS
    requires Entry(store, Entry(store, At(ino.addr, 7), k), j) != 0
    ensures var d := Entry(store, Entry(store, At(ino.addr, 7), k), j);
            && d in Slot(store, At(ino.addr, 7), true, 7) && d in Blocks(ino, store) && !Indirect(ino, store, d)
            && (forall k', j' ::
                  0 <= k' < WORDS && 0 <= j' < WORDS && Entry(store, Entry(store, At(ino.addr, 7), k'), j') == d
                  ==> k' == k && j' == j)
  {
    var a := At(ino.addr, 7);
    var w := Words(store, a);
    var d := Entry(store, At(w, k), j);
    BelowOnce(ino, store, k, j);
    InDbl(store, w, k, d);
    InBlocks(ino, store, 7, d);
    NotBelowItself(ino, store);
    forall k', j' | 0 <= k' < WORDS && 0 <= j' < WORDS && Entry(store, Entry(store, a, k'), j') == d
      ensures k' == k && j' == j
    {
      SamePath(ino, store, k, j, k', j');
    }
    BelowNotIndirect(ino, store, k, j);
  }

  lemma SamePath(ino: Ino, store: Store, k: int, j: int, k': int, j': int)
    requires GoodIno(ino, store) && ino.large && 0 <= k < WORDS && 0 <= j < WORDS && 0 <= k' < WORDS && 0 <= j' < WORDS
    requires Entry(store, Entry(store, At(ino.addr, 7), k), j) != 0
    requires Entry(store, Entry(store, At(ino.addr, 7), k'), j') == Entry(store, Entry(store, At(ino.addr, 7), k), j)
    ensures k' == k && j' == j
  {
    BelowOnce(ino, store, k, j);
    BelowOnce(ino, store, k', j');
    if k' != k { DblOnce(ino, store, k, k', Entry(store, Entry(store, At(ino.addr, 7), k), j)); }
  }

  lemma BelowNotIndirect(ino: Ino, store: Store, k: int, j: int)
    requires GoodIno(ino, store) && ino.large && 0 <= k < WORDS && 0 <= j < WORDS
    requires Entry(store, Entry(store, At(ino.addr, 7), k), j) != 0
    ensures !Indirect(ino, store, Entry(store, Entry(store, At(ino.addr, 7), k), j))
  {
    var a := At(ino.addr, 7);
    var w := Words(store, a);
    var d := Entry(store, At(w, k), j);
    BelowOnce(ino, store, k, j);
    InDbl(store, w, k, d);
    NotBelowItself(ino, store);
    forall k' | 0 <= k' < WORDS
      ensures At(w, k') != d
    {
      if k' != k { DblOnce(ino, store, k, k', d); }
    }
    forall i' | 0 <= i' < 7
      ensures At(ino.addr, i') != d
    {
      OneSlot(ino, store, 7, i', d);
    }
  }

  /** Within its own indirect block the data block is named once and is not that block. */
  lemma BelowOnce(ino: Ino, store: Store, k: int, j: int)
    requires GoodIno(ino, store) && ino.large && 0 <= k < WORDS && 0 <= j < WORDS && At(ino.addr, 7) != 0
    requires Entry(store, At(Words(store, At(ino.addr, 7)), k), j) != 0
    ensures var y := At(Words(store, At(ino.addr, 7)), k);
            var d := Entry(store, y, j);
            && d in Node(store, y) && d != y
            && (forall j' :: 0 <= j' < WORDS && Entry(store, y, j') == d ==> j' == j)
  {
    var y := At(Words(store, At(ino.addr, 7)), k);
    var v, d := Words(store, y), Entry(store, y, j);
    InRev(v, j);
    NodeOnce(ino, store, k, d);
    CountAppend(Rev(v), [y], d);
    CountIn(Rev(v), d);
    CountOne(y, d);
    forall j' | 0 <= j' < WORDS && Entry(store, y, j') == d
      ensures j' == j
    {
      RevCount(v, j', j, d);
    }
  }

  lemma NodeOnce(ino: Ino, store: Store, k: int, x: int)
    requires GoodIno(ino, store) && ino.large && 0 <= k < WORDS && At(ino.addr, 7) != 0
    ensures Count(Node(store, At(Words(store, At(ino.addr, 7)), k)), x) <= 1
    ensures Count(Dbl(store, Words(store, At(ino.addr, 7))), x) <= 1
  {
    var a := At(ino.addr, 7);
    var w := Words(store, a);
    SlotCount(ino, store, 7, x);
    CountAppend(Dbl(store, w), [a], x);
    CatPart(Nodes(store, w), WORDS + 1, k, x);
  }

  lemma DblOnce(ino: Ino, store: Store, k: int, k': int, x: int)
    requires GoodIno(ino, store) && ino.large && 0 <= k < WORDS && 0 <= k' < WORDS && k != k' && At(ino.addr, 7) != 0
    requires x in Node(store, At(Words(store, At(ino.addr, 7)), k))
    ensures x !in Node(store, At(Words(store, At(ino.addr, 7)), k'))
  {
    NodeOnce(ino, store, k, x);
    CatOnce(Nodes(store, Words(store, At(ino.addr, 7))), WORDS + 1, k, k', x);
  }

  /** The block map is injective: two logical blocks never share a block. */
  lemma LookupInjective(ino: Ino, store: Store, bn: int, bn': int)
    requires GoodIno(ino, store) && IsBn(bn) && IsBn(bn')
    requires Lookup(ino, store, bn) == Lookup(ino, store, bn') != 0
    ensures bn == bn'
  {
    var d := Lookup(ino, store, bn);
    if !ino.large {
      if bn != bn' { OneSlot(ino, store, bn, bn', d); }
    } else if bn / 256 < 7 && bn' / 256 < 7 {
      DataSingle(ino, store, bn / 256, bn % 256);
      DataSingle(ino, store, bn' / 256, bn' % 256);
      if bn / 256 != bn' / 256 { OneSlot(ino, store, bn / 256, bn' / 256, d); }
    } else if bn / 256 < 7 {
      DataSingle(ino, store, bn / 256, bn % 256);
      DataDouble(ino, store, bn' / 256 - 7, bn' % 256);
      OneSlot(ino, store, bn / 256, 7, d);
    } else if bn' / 256 < 7 {
      DataSingle(ino, store, bn' / 256, bn' % 256);
      DataDouble(ino, store, bn / 256 - 7, bn % 256);
      OneSlot(ino, store, bn' / 256, 7, d);
    } else {
      DataDouble(ino, store, bn / 256 - 7, bn % 256);
      assert 0 <= bn' / 256 - 7 < WORDS;
    }
  }
}
