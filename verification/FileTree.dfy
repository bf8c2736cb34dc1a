/** The blocks of a file: eight addresses in the inode, indirect blocks once it is large, and one doubly indirect
    block. */
module FileTree {
  import opened Counting
  import opened FreeList

  const NADDR := 8

  datatype Ino = Ino(addr: seq<int>, large: bool)

  /** Reading past a block, or outside the volume, gives zero: word 256 of a buffer is the spare word of its area. */
  function At(w: seq<int>, j: int): int { if 0 <= j < |w| then w[j] else 0 }

  function Words(store: Store, b: int): seq<int> { if 0 <= b < |store| then store[b] else [] }

  function Zeros(): (z: seq<int>)
    ensures |z| == WORDS && forall i :: 0 <= i < WORDS ==> z[i] == 0
  {
    seq(WORDS, i => 0)
  }

  /* ---------------------------------------------------------------- the tree, in the order itrunc meets it */

  /** What is strung together, last member first: the words of an indirect block, what the words of the doubly indirect
      block lead to, what the addresses of an inode lead to, the files of a volume. */
  datatype Family = Leaves(w: seq<int>) | Nodes(store: Store, w: seq<int>) | Slots(ino: Ino, store: Store)
      | Files(inos: seq<Ino>, store: Store)

  function Level(g: Family): nat {
    match g
    case Leaves(_) => 0
    case Nodes(_, _) => 1
    case Slots(_, _) => 2
    case Files(_, _) => 3
  }

  function Member(g: Family, i: int): seq<int>
    decreases Level(g), 0
  {
    match g
    case Leaves(w) => Leaf(w, i)
    case Nodes(store, w) => Node(store, At(w, i))
    case Slots(ino, store) => Slot(store, At(ino.addr, i), ino.large, i)
    case Files(inos, store) => if 0 <= i < |inos| then Blocks(inos[i], store) else []
  }

  function Cat(g: Family, n: nat): seq<int>
    decreases Level(g), 1, n
  {
    if n == 0 then [] else Member(g, n - 1) + Cat(g, n - 1)
  }

  function Leaf(w: seq<int>, j: int): seq<int> { if At(w, j) == 0 then [] else [At(w, j)] }

  /** The blocks an indirect block names, last word first, from the word after its end. */
  function Rev(w: seq<int>): seq<int>
    decreases 0, 2
  {
    Cat(Leaves(w), WORDS + 1)
  }

  /** An indirect block and what it names. */
  function Node(store: Store, x: int): seq<int>
    decreases 0, 3
  {
    if x == 0 then [] else Rev(Words(store, x)) + [x]
  }

  function Dbl(store: Store, w: seq<int>): seq<int>
    decreases 1, 2
  {
    Cat(Nodes(store, w), WORDS + 1)
  }

  function Slot(store: Store, a: int, large: bool, i: int): seq<int>
    decreases 1, 3
  {
    if a == 0 then [] else if !large then [a] else if i == 7 then Dbl(store, Words(store, a)) + [a] else Node(store, a)
  }

  /** Every block reached from the inode, once per path. */
  function Blocks(ino: Ino, store: Store): seq<int>
    decreases 2, 2
  {
    Cat(Slots(ino, store), NADDR)
  }

  /* ---------------------------------------------------------------- counting in families */

  /** How often x occurs in each member. */
  function Counts(g: Family, n: nat, x: int): (a: seq<nat>)
    ensures |a| == n
  {
    if n == 0 then [] else Counts(g, n - 1, x) + [Count(Member(g, n - 1), x)]
  }

  lemma {:induction false} CountsAt(g: Family, n: nat, x: int, i: nat)
    requires i < n
    ensures Counts(g, n, x)[i] == Count(Member(g, i), x)
  {
    if i < n - 1 { CountsAt(g, n - 1, x, i); }
  }

  lemma {:induction false} CatSum(g: Family, n: nat, x: int)
    ensures Count(Cat(g, n), x) == Sum(Counts(g, n, x))
  {
    if n > 0 {
      CatSum(g, n - 1, x);
      CountAppend(Member(g, n - 1), Cat(g, n - 1), x);
      assert Counts(g, n, x)[..n-1] == Counts(g, n - 1, x);
    }
  }

  lemma {:induction false} CatSame(g: Family, h: Family, n: nat)
    requires forall i :: 0 <= i < n ==> Member(g, i) == Member(h, i)
    ensures Cat(g, n) == Cat(h, n)
  {
    if n > 0 {
      CatSame(g, h, n - 1);
    }
  }

  /** Changing one member changes the count by that member's change. */
  lemma CatUpdate(g: Family, h: Family, n: nat, i: nat, x: int)
    requires i < n && forall j :: 0 <= j < n && j != i ==> Member(g, j) == Member(h, j)
    ensures Count(Cat(h, n), x) + Count(Member(g, i), x) == Count(Cat(g, n), x) + Count(Member(h, i), x)
  {
    var a, b := Counts(g, n, x), Counts(h, n, x);
    forall j | 0 <= j < n
      ensures a[j] == Count(Member(g, j), x) && b[j] == Count(Member(h, j), x)
    {
      CountsAt(g, n, x, j);
      CountsAt(h, n, x, j);
    }
    SumUpdate(a, b, i);
    CatSum(g, n, x);
    CatSum(h, n, x);
  }

  lemma CatPart(g: Family, n: nat, i: nat, x: int)
    requires i < n
    ensures Count(Member(g, i), x) <= Count(Cat(g, n), x)
  {
    CountsAt(g, n, x, i);
    SumPart(Counts(g, n, x), i);
    CatSum(g, n, x);
  }

  lemma CatHas(g: Family, n: nat, i: nat, x: int)
    requires i < n && x in Member(g, i)
    ensures x in Cat(g, n)
  {
    CatPart(g, n, i, x);
    CountIn(Member(g, i), x);
    CountIn(Cat(g, n), x);
  }

  lemma {:induction false} CatWhere(g: Family, n: nat, x: int) returns (i: nat)
    requires x in Cat(g, n)
    ensures i < n && x in Member(g, i)
  {
    if x in Member(g, n - 1) {
      i := n - 1;
    } else {
      i := CatWhere(g, n - 1, x);
    }
  }

  lemma CatTwice(g: Family, n: nat, i: nat, j: nat, x: int)
    requires i < j < n
    ensures Count(Member(g, i), x) + Count(Member(g, j), x) <= Count(Cat(g, n), x)
  {
    CountsAt(g, n, x, i);
    CountsAt(g, n, x, j);
    SumTwo(Counts(g, n, x), i, j);
    CatSum(g, n, x);
  }

  /** What occurs once is in one member only. */
  lemma CatOnce(g: Family, n: nat, i: nat, j: nat, x: int)
    requires Count(Cat(g, n), x) <= 1 && i < n && j < n && x in Member(g, i) && i != j
    ensures x !in Member(g, j)
  {
    if i < j { CatTwice(g, n, i, j, x); } else { CatTwice(g, n, j, i, x); }
    CountIn(Member(g, i), x);
    CountIn(Member(g, j), x);
  }

  /* ---------------------------------------------------------------- the map */

  function Entry(store: Store, b: int, j: int): int { if b == 0 then 0 else At(Words(store, b), j) }

  /** The block that holds logical block bn, 0 for a hole. */
  function Lookup(ino: Ino, store: Store, bn: int): int {
    if !ino.large then (if bn < 8 then At(ino.addr, bn) else 0)
    else if bn / 256 < 7 then Entry(store, At(ino.addr, bn / 256), bn % 256)
    else Entry(store, Entry(store, At(ino.addr, 7), bn / 256 - 7), bn % 256)
  }

  predicate IsBn(bn: int) { 0 <= bn <= 0x7fff }

  /** A block whose words the tree depends on. */
  ghost predicate Indirect(ino: Ino, store: Store, b: int) {
    ino.large && b != 0 && ((exists i :: 0 <= i < NADDR && At(ino.addr, i) == b) || Second(ino, store, b))
  }

  /** Named by the doubly indirect block. */
  ghost predicate Second(ino: Ino, store: Store, b: int) {
    At(ino.addr, 7) != 0 && exists k :: 0 <= k < WORDS && At(Words(store, At(ino.addr, 7)), k) == b
  }

  ghost predicate Once(ino: Ino, store: Store) { forall x :: Count(Blocks(ino, store), x) <= 1 }

  ghost predicate GoodIno(ino: Ino, store: Store) {
    |ino.addr| == NADDR && GoodStore(store) && Once(ino, store)
  }

  /* ---------------------------------------------------------------- where blocks are */

  lemma InRev(w: seq<int>, j: int)
    requires 0 <= j <= WORDS && At(w, j) != 0
    ensures At(w, j) in Rev(w)
  {
    CatHas(Leaves(w), WORDS + 1, j, At(w, j));
  }

  lemma RevCount(w: seq<int>, j: int, k: int, x: int)
    requires 0 <= j <= WORDS && 0 <= k <= WORDS && Count(Rev(w), x) <= 1 && x != 0 && At(w, j) == x && At(w, k) == x
    ensures j == k
  {
    if j != k {
      CatOnce(Leaves(w), WORDS + 1, j, k, x);
    }
  }

  lemma InDbl(store: Store, w: seq<int>, k: int, x: int)
    requires 0 <= k <= WORDS && x in Node(store, At(w, k))
    ensures x in Dbl(store, w)
  {
    CatHas(Nodes(store, w), WORDS + 1, k, x);
  }

  lemma InBlocks(ino: Ino, store: Store, i: int, x: int)
    requires 0 <= i < NADDR && x in Slot(store, At(ino.addr, i), ino.large, i)
    ensures x in Blocks(ino, store)
  {
    CatHas(Slots(ino, store), NADDR, i, x);
  }

  lemma OneSlot(ino: Ino, store: Store, i: int, j: int, x: int)
    requires Once(ino, store) && 0 <= i < NADDR && 0 <= j < NADDR && i != j
        && x in Slot(store, At(ino.addr, i), ino.large, i)
    ensures x !in Slot(store, At(ino.addr, j), ino.large, j)
  {
    assert Count(Blocks(ino, store), x) <= 1;
    CatOnce(Slots(ino, store), NADDR, i, j, x);
  }

  lemma SlotCount(ino: Ino, store: Store, i: int, x: int)
    requires Once(ino, store) && 0 <= i < NADDR
    ensures Count(Slot(store, At(ino.addr, i), ino.large, i), x) <= 1
  {
    assert Count(Blocks(ino, store), x) <= 1;
    CatPart(Slots(ino, store), NADDR, i, x);
  }

  lemma IndirectInBlocks(ino: Ino, store: Store, b: int)
    requires Indirect(ino, store, b)
    ensures b in Blocks(ino, store)
  {
    if i :| 0 <= i < NADDR && At(ino.addr, i) == b {
      InBlocks(ino, store, i, b);
    } else {
      var w := Words(store, At(ino.addr, 7));
      var k :| 0 <= k < WORDS && At(w, k) == b;
      InDbl(store, w, k, b);
      InBlocks(ino, store, 7, b);
    }
  }

  /* ---------------------------------------------------------------- writing a block the tree does not look at */

  lemma DblFrame(store: Store, w: seq<int>, b: int, v: seq<int>)
    requires 0 <= b < |store| && forall k :: 0 <= k <= WORDS ==> At(w, k) == 0 || At(w, k) != b
    ensures Dbl(store[b := v], w) == Dbl(store, w)
  {
    CatSame(Nodes(store, w), Nodes(store[b := v], w), WORDS + 1);
  }

  lemma SlotFrame(ino: Ino, store: Store, b: int, v: seq<int>, i: int)
    requires 0 <= b < |store| && GoodStore(store) && !Indirect(ino, store, b) && 0 <= i < NADDR
    ensures Slot(store[b := v], At(ino.addr, i), ino.large, i) == Slot(store, At(ino.addr, i), ino.large, i)
  {
    var a := At(ino.addr, i);
    if ino.large && a != 0 && i == 7 {
      assert a != b || b == 0;
      DblFrame(store, Words(store, a), b, v);
    }
  }

  lemma BlocksFrame(ino: Ino, store: Store, b: int, v: seq<int>)
    requires 0 < b < |store| && GoodStore(store) && !Indirect(ino, store, b)
    ensures Blocks(ino, store[b := v]) == Blocks(ino, store)
    ensures forall bn :: IsBn(bn) ==> Lookup(ino, store[b := v], bn) == Lookup(ino, store, bn)
  {
    forall i | 0 <= i < NADDR
      ensures Slot(store[b := v], At(ino.addr, i), ino.large, i) == Slot(store, At(ino.addr, i), ino.large, i)
    {
      SlotFrame(ino, store, b, v, i);
    }
    CatSame(Slots(ino, store), Slots(ino, store[b := v]), NADDR);
    forall bn | IsBn(bn)
      ensures Lookup(ino, store[b := v], bn) == Lookup(ino, store, bn)
    {
      LookupFrame(ino, store, b, v, bn);
    }
  }

  lemma LookupFrame(ino: Ino, store: Store, b: int, v: seq<int>, bn: int)
    requires 0 < b < |store| && GoodStore(store) && !Indirect(ino, store, b) && IsBn(bn)
    ensures Lookup(ino, store[b := v], bn) == Lookup(ino, store, bn)
  {
    if ino.large && bn / 256 < 7 {
      assert At(ino.addr, bn / 256) != b;
    } else if ino.large {
      assert At(ino.addr, 7) != b;
      var k := bn / 256 - 7;
      assert 0 <= k < WORDS;
      assert At(ino.addr, 7) != 0 ==> At(Words(store, At(ino.addr, 7)), k) != b;
    }
  }
}
