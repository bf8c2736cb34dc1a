/** The file system mkfs builds: files laid out block by block, in any interleaving, on the list that bflist made. */
module MkfsRuns {
  import opened Counting
  import opened FreeList
  import opened FileTree
  import opened FileGrow
  import opened BlockMap
  import opened FileCensus

  /** The table ib of a file being laid out, and what was written to each of its blocks. */
  datatype Draft = Draft(ib: seq<int>, data: seq<seq<int>>)

  /** Directories are laid out around the files in them, so several files may be open at once. */
  datatype Making = Making(fs: Fs, open: seq<Draft>, inos: seq<Ino>, done: seq<Draft>)

  datatype Event = Start | Block(k: nat, words: seq<int>) | Finish(k: nat)

  const MAXIB := 255

  /* ---------------------------------------------------------------- steps */

  function Padded(ib: seq<int>, n: nat): (w: seq<int>)
    requires |ib| <= n
    ensures |w| == n && w[..|ib|] == ib && forall i :: |ib| <= i < n ==> w[i] == 0
  {
    ib + seq(n - |ib|, i => 0)
  }

  /** newblk: the next free block takes the data and is recorded in ib. */
  function AddBlock(fs: Fs, d: Draft, words: seq<int>): (Fs, Draft)
    requires fs.st != [] && 0 <= Top(fs) < |fs.store|
  {
    (Fs(fs.st[..|fs.st|-1], fs.store[Top(fs) := words]), Draft(d.ib + [Top(fs)], d.data + [words]))
  }

  /** The layout of a finished file: up to eight direct addresses, or one indirect block holding ib. */
  function LayOut(fs: Fs, ib: seq<int>): (Fs, Ino)
    requires |ib| <= MAXIB && (|ib| > 8 ==> fs.st != [] && 0 <= Top(fs) < |fs.store|)
  {
    if |ib| > 8 then (Fs(fs.st[..|fs.st|-1], fs.store[Top(fs) := Padded(ib, WORDS)]), Converted(Top(fs)))
    else (fs, Ino(Padded(ib, NADDR), false))
  }

  /** A file of up to eight blocks has them in its inode, in order; a longer one has them in order in one indirect
      block. */
  lemma LaidOut(fs: Fs, ib: seq<int>, k: nat)
    requires |ib| <= MAXIB && (|ib| > 8 ==> fs.st != [] && 0 <= Top(fs) < |fs.store|)
    ensures var (f, n) := LayOut(fs, ib);
            && |n.addr| == NADDR && (n.large <==> |ib| > 8)
            && if |ib| <= 8 then f == fs && (k < NADDR ==> n.addr[k] == if k < |ib| then ib[k] else 0)
               else
                 && n.addr[0] == Top(fs) && f.st == fs.st[..|fs.st|-1] && (0 < k < NADDR ==> n.addr[k] == 0)
                 && |f.store[Top(fs)]| == WORDS && (k < WORDS ==> f.store[Top(fs)][k] == if k < |ib| then ib[k] else 0)
  {
  }

  predicate CanTake(fs: Fs) { fs.st != [] && 0 <= Top(fs) < |fs.store| }

  ghost predicate Step(m: Making, e: Event, m': Making) {
    match e
    case Start => m' == m.(open := m.open + [Draft([], [])])
    case Block(k, words) =>
      && k < |m.open| && |words| == WORDS && CanTake(m.fs) && |m.open[k].ib| < MAXIB
      && m' == m.(fs := AddBlock(m.fs, m.open[k], words).0, open := m.open[k := AddBlock(m.fs, m.open[k], words).1])
    case Finish(k) =>
      && k < |m.open| && |m.open[k].ib| <= MAXIB && (|m.open[k].ib| > 8 ==> CanTake(m.fs))
      && var r := LayOut(m.fs, m.open[k].ib);
         m' == Making(r.0, m.open[..k] + m.open[k+1..], m.inos + [r.1], m.done + [m.open[k]])
  }

  /* ---------------------------------------------------------------- invariant */

  function OpenCount(open: seq<Draft>, x: int): nat {
    if open == [] then 0 else OpenCount(open[1..], x) + Count(open[0].ib, x)
  }

  ghost function Total(m: Making, x: int): nat {
    Count(m.fs.st, x) + OpenCount(m.open, x) + Count(Cat(Files(m.inos, m.fs.store), |m.inos|), x)
  }

  /** The blocks of a draft hold its data. */
  ghost predicate Holds(store: Store, d: Draft) {
    |d.ib| == |d.data| && forall k :: 0 <= k < |d.ib| ==> 0 < d.ib[k] < |store| && store[d.ib[k]] == d.data[k]
  }

  /** bmap's path to logical block k ends at ib[k], and beyond the table there is nothing. */
  ghost predicate Mapped(ino: Ino, store: Store, ib: seq<int>) {
    && |ino.addr| == NADDR && |ib| <= MAXIB
    && forall k :: IsBn(k) ==> Lookup(ino, store, k) == At(ib, k)
  }

  ghost predicate Accounted(m: Making, low: int) {
    && 0 < low && GoodStore(m.fs.store)
    && forall x :: Total(m, x) == if low <= x < |m.fs.store| then 1 else 0
  }

  ghost predicate Inv(m: Making, low: int) {
    && Accounted(m, low) && |m.done| == |m.inos|
    && (forall k :: 0 <= k < |m.open| ==> Holds(m.fs.store, m.open[k]))
    && (forall i :: 0 <= i < |m.inos| ==> Holds(m.fs.store, m.done[i]) && Mapped(m.inos[i], m.fs.store, m.done[i].ib))
  }

  /* ---------------------------------------------------------------- counting drafts */

  lemma {:induction false} OpenUpdate(open: seq<Draft>, k: nat, d: Draft, x: int)
    requires k < |open|
    ensures OpenCount(open[k := d], x) + Count(open[k].ib, x) == OpenCount(open, x) + Count(d.ib, x)
    decreases k
  {
    if k == 0 {
      assert open[0 := d][1..] == open[1..];
    } else {
      OpenUpdate(open[1..], k - 1, d, x);
      assert open[k := d][1..] == open[1..][k-1 := d];
    }
  }

  lemma {:induction false} OpenRemove(open: seq<Draft>, k: nat, x: int)
    requires k < |open|
    ensures OpenCount(open[..k] + open[k+1..], x) + Count(open[k].ib, x) == OpenCount(open, x)
    decreases k
  {
    if k == 0 {
      assert open[..0] + open[1..] == open[1..];
    } else {
      OpenRemove(open[1..], k - 1, x);
      assert (open[..k] + open[k+1..])[1..] == open[1..][..k-1] + open[1..][k..];
    }
  }

  lemma {:induction false} OpenAdd(open: seq<Draft>, x: int)
    ensures OpenCount(open + [Draft([], [])], x) == OpenCount(open, x)
  {
    if open != [] {
      OpenAdd(open[1..], x);
      assert (open + [Draft([], [])])[1..] == open[1..] + [Draft([], [])];
    }
  }

  lemma OpenPart(open: seq<Draft>, k: nat, x: int)
    requires k < |open|
    ensures Count(open[k].ib, x) <= OpenCount(open, x)
  {
    OpenRemove(open, k, x);
  }

  /* ---------------------------------------------------------------- what a block table counts */

  /** The first n words, strung together, count what is not zero among them. */
  ghost predicate Counted(w: seq<int>, n: nat, x: int)
    requires n <= |w|
  {
    Count(Cat(Leaves(w), n), x) == if x == 0 then 0 else Count(w[..n], x)
  }

  lemma {:induction false} LeavesCount(w: seq<int>, n: nat, x: int)
    requires n <= |w|
    ensures Counted(w, n, x)
  {
    if n > 0 {
      LeavesCount(w, n - 1, x);
      LeavesStep(w, n, x);
    }
  }

  lemma LeavesStep(w: seq<int>, n: nat, x: int)
    requires 0 < n <= |w| && Counted(w, n - 1, x)
    ensures Counted(w, n, x)
  {
    CatStep(Leaves(w), n, x);
    LeafCount(w, n - 1, x);
    OneMoreWord(w, n, x);
  }

  lemma CatStep(g: Family, n: nat, x: int)
    requires n > 0
    ensures Count(Cat(g, n), x) == Count(Member(g, n - 1), x) + Count(Cat(g, n - 1), x)
  {
    CountAppend(Member(g, n - 1), Cat(g, n - 1), x);
  }

  lemma LeafCount(w: seq<int>, j: nat, x: int)
    requires j < |w|
    ensures Count(Leaf(w, j), x) == if x == 0 then 0 else One(x, w[j])
  {
    CountOne(w[j], x);
  }

  lemma OneMoreWord(w: seq<int>, n: nat, x: int)
    requires 0 < n <= |w|
    ensures Count(w[..n], x) == Count(w[..n-1], x) + One(x, w[n-1])
  {
    assert w[..n] == w[..n-1] + [w[n-1]];
    CountAppend(w[..n-1], [w[n-1]], x);
    CountOne(w[n-1], x);
  }

  lemma {:induction false} ZerosCount(n: nat, x: int)
    requires x != 0
    ensures Count(seq(n, i => 0), x) == 0
  {
    var z := seq(n, i => 0);
    assert x !in z;
  }

  /** A padded table names its own blocks. */
  lemma RevPadded(ib: seq<int>, x: int)
    requires |ib| <= WORDS && Count(ib, 0) == 0
    ensures Count(Rev(Padded(ib, WORDS)), x) == Count(ib, x)
  {
    var w := Padded(ib, WORDS);
    LeavesCount(w, WORDS, x);
    assert w[..WORDS] == w;
    assert Cat(Leaves(w), WORDS + 1) == Leaf(w, WORDS) + Cat(Leaves(w), WORDS) && Leaf(w, WORDS) == [];
    if x != 0 { PaddedCount(ib, WORDS, x); }
  }

  lemma PaddedCount(ib: seq<int>, n: nat, x: int)
    requires |ib| <= n && x != 0
    ensures Count(Padded(ib, n), x) == Count(ib, x)
  {
    CountAppend(ib, seq(n - |ib|, i => 0), x);
    ZerosCount(n - |ib|, x);
  }

  lemma LayOutCount(fs: Fs, ib: seq<int>, x: int)
    requires |ib| <= MAXIB && Count(ib, 0) == 0 && (|ib| > 8 ==> CanTake(fs) && 0 < Top(fs))
    ensures var (f, n) := LayOut(fs, ib);
            Count(f.st, x) + Count(Blocks(n, f.store), x) == Count(fs.st, x) + Count(ib, x)
  {
    RevPadded(ib, x);
    if |ib| > 8 {
      var c := Top(fs);
      var f := LayOut(fs, ib).0;
      OnlySlot(f.store, c);
      CountAppend(Rev(Padded(ib, WORDS)), [c], x);
      CountOne(c, x);
      PopCount(fs.st, x);
    } else {
      var a := Padded(ib, NADDR);
      RevPacked(Ino(a, false), fs.store);
      assert Packed(a) == Padded(ib, WORDS);
    }
  }

  lemma LayOutLookup(fs: Fs, ib: seq<int>, k: int)
    requires |ib| <= MAXIB && (|ib| > 8 ==> CanTake(fs) && 0 < Top(fs)) && IsBn(k)
    ensures var (f, n) := LayOut(fs, ib); Lookup(n, f.store, k) == At(ib, k)
  {
    var (f, n) := LayOut(fs, ib);
    if |ib| > 8 && k < 256 {
      assert k / 256 == 0 && k % 256 == k;
      assert f.store[Top(fs)] == Padded(ib, WORDS);
    }
  }

  /* ---------------------------------------------------------------- a write to a block off the free list */

  /** The block taken is in no file and no draft. */
  lemma TopElsewhere(m: Making, low: int)
    requires Accounted(m, low) && m.fs.st != []
    ensures CanTake(m.fs) && low <= Top(m.fs) && OpenCount(m.open, Top(m.fs)) == 0
    ensures forall i :: 0 <= i < |m.inos| ==> Count(Blocks(m.inos[i], m.fs.store), Top(m.fs)) == 0
  {
    var c := Top(m.fs);
    assert c in m.fs.st;
    CountIn(m.fs.st, c);
    assert Total(m, c) <= 1;
    forall i | 0 <= i < |m.inos|
      ensures Count(Blocks(m.inos[i], m.fs.store), c) == 0
    {
      CatPart(Files(m.inos, m.fs.store), |m.inos|, i, c);
    }
  }

  lemma FilesKept(m: Making, low: int, words: seq<int>)
    requires Accounted(m, low) && m.fs.st != [] && CanTake(m.fs) && |words| == WORDS
    ensures var store' := m.fs.store[Top(m.fs) := words];
            Cat(Files(m.inos, store'), |m.inos|) == Cat(Files(m.inos, m.fs.store), |m.inos|)
  {
    var store, store' := m.fs.store, m.fs.store[Top(m.fs) := words];
    TopElsewhere(m, low);
    var g, h := Files(m.inos, store), Files(m.inos, store');
    forall i | 0 <= i < |m.inos|
      ensures Member(g, i) == Member(h, i)
    {
      BlocksAgree(m.inos[i], store, store');
    }
    CatSame(g, h, |m.inos|);
  }

  lemma HoldsKept(m: Making, low: int, words: seq<int>, k: nat)
    requires Inv(m, low) && CanTake(m.fs) && k < |m.open|
    ensures Holds(m.fs.store[Top(m.fs) := words], m.open[k]) && Count(m.open[k].ib, Top(m.fs)) == 0
  {
    TopElsewhere(m, low);
    OpenPart(m.open, k, Top(m.fs));
    CountIn(m.open[k].ib, Top(m.fs));
    assert Holds(m.fs.store, m.open[k]);
  }

  /** A finished file's own tree and data stay as they are. */
  lemma FinishedKept(m: Making, low: int, words: seq<int>, i: nat)
    requires Inv(m, low) && CanTake(m.fs) && |words| == WORDS && i < |m.inos|
    ensures var store' := m.fs.store[Top(m.fs) := words];
            Holds(store', m.done[i]) && Mapped(m.inos[i], store', m.done[i].ib)
  {
    var c, ino, store := Top(m.fs), m.inos[i], m.fs.store;
    TopElsewhere(m, low);
    NotIndirect(ino, store, c);
    assert Mapped(ino, store, m.done[i].ib) && Holds(store, m.done[i]);
    forall k | IsBn(k)
      ensures Lookup(ino, store[c := words], k) == Lookup(ino, store, k)
    {
      LookupFrame(ino, store, c, words, k);
    }
    FileOnce(m, low, i);
    forall k | 0 <= k < |m.done[i].ib|
      ensures m.done[i].ib[k] != c
    {
      assert IsBn(k) && Lookup(ino, store, k) == m.done[i].ib[k];
      LookupIn(ino, store, k);
      CountIn(Blocks(ino, store), m.done[i].ib[k]);
    }
  }

  lemma NotIndirect(ino: Ino, store: Store, c: int)
    requires Count(Blocks(ino, store), c) == 0
    ensures !Indirect(ino, store, c)
  {
    CountIn(Blocks(ino, store), c);
    if Indirect(ino, store, c) { IndirectInBlocks(ino, store, c); }
  }

  lemma FileOnce(m: Making, low: int, i: nat)
    requires Inv(m, low) && i < |m.inos|
    ensures GoodIno(m.inos[i], m.fs.store)
  {
    assert Mapped(m.inos[i], m.fs.store, m.done[i].ib);
    forall x
      ensures Count(Blocks(m.inos[i], m.fs.store), x) <= 1
    {
      CatPart(Files(m.inos, m.fs.store), |m.inos|, i, x);
      assert Total(m, x) <= 1;
    }
  }

  /* ---------------------------------------------------------------- preservation */

  lemma BlockCounts(m: Making, k: nat, words: seq<int>, m': Making, low: int, x: int)
    requires Inv(m, low) && Step(m, Block(k, words), m')
    ensures Total(m', x) == Total(m, x)
  {
    var c := Top(m.fs);
    FilesKept(m, low, words);
    PopCount(m.fs.st, x);
    OpenUpdate(m.open, k, m'.open[k], x);
    CountAppend(m.open[k].ib, [c], x);
    CountOne(c, x);
  }

  lemma BlockInv(m: Making, k: nat, words: seq<int>, m': Making, low: int)
    requires Inv(m, low) && Step(m, Block(k, words), m')
    ensures Inv(m', low)
  {
    forall x ensures Total(m', x) == Total(m, x) { BlockCounts(m, k, words, m', low, x); }
    TopElsewhere(m, low);
    forall j | 0 <= j < |m'.open|
      ensures Holds(m'.fs.store, m'.open[j])
    {
      HoldsKept(m, low, words, j);
    }
    forall i | 0 <= i < |m'.inos|
      ensures Holds(m'.fs.store, m'.done[i]) && Mapped(m'.inos[i], m'.fs.store, m'.done[i].ib)
    {
      FinishedKept(m, low, words, i);
    }
  }

  /** Nothing on a draft is block zero. */
  lemma NoZero(m: Making, low: int, k: nat)
    requires Accounted(m, low) && k < |m.open|
    ensures Count(m.open[k].ib, 0) == 0
  {
    OpenPart(m.open, k, 0);
    assert Total(m, 0) == 0;
  }

  lemma FinishFiles(m: Making, k: nat, m': Making, low: int)
    requires Inv(m, low) && Step(m, Finish(k), m')
    ensures Cat(Files(m.inos, m'.fs.store), |m.inos|) == Cat(Files(m.inos, m.fs.store), |m.inos|)
  {
    if |m.open[k].ib| > 8 { FilesKept(m, low, Padded(m.open[k].ib, WORDS)); }
  }

  /** One more file at the end of the table. */
  lemma OneMore(inos: seq<Ino>, ino: Ino, store: Store, x: int)
    ensures Count(Cat(Files(inos + [ino], store), |inos| + 1), x) == Count(Blocks(ino, store), x)
        + Count(Cat(Files(inos, store), |inos|), x)
  {
    var g, h := Files(inos, store), Files(inos + [ino], store);
    CatSame(g, h, |inos|);
    CountAppend(Member(h, |inos|), Cat(h, |inos|), x);
  }

  lemma FinishCounts(m: Making, k: nat, m': Making, low: int, x: int)
    requires Inv(m, low) && Step(m, Finish(k), m')
    ensures Total(m', x) == Total(m, x)
  {
    var ib := m.open[k].ib;
    NoZero(m, low, k);
    if |ib| > 8 { TopElsewhere(m, low); }
    FinishFiles(m, k, m', low);
    var r := LayOut(m.fs, ib);
    OneMore(m.inos, r.1, r.0.store, x);
    LayOutCount(m.fs, ib, x);
    OpenRemove(m.open, k, x);
    assert |m'.inos| == |m.inos| + 1;
  }

  lemma FinishInv(m: Making, k: nat, m': Making, low: int)
    requires Inv(m, low) && Step(m, Finish(k), m')
    ensures Inv(m', low)
  {
    var d, n := m.open[k], |m.inos|;
    forall x ensures Total(m', x) == Total(m, x) { FinishCounts(m, k, m', low, x); }
    if |d.ib| > 8 { TopElsewhere(m, low); }
    forall j | 0 <= j < |m.open|
      ensures Holds(m'.fs.store, m.open[j])
    {
      if |d.ib| > 8 { HoldsKept(m, low, Padded(d.ib, WORDS), j); }
    }
    forall i | 0 <= i < n
      ensures Holds(m'.fs.store, m'.done[i]) && Mapped(m'.inos[i], m'.fs.store, m'.done[i].ib)
    {
      if |d.ib| > 8 { FinishedKept(m, low, Padded(d.ib, WORDS), i); }
    }
    forall b | IsBn(b)
      ensures Lookup(m'.inos[n], m'.fs.store, b) == At(d.ib, b)
    {
      LayOutLookup(m.fs, d.ib, b);
    }
  }

  lemma StepInv(m: Making, e: Event, m': Making, low: int)
    requires Inv(m, low) && Step(m, e, m')
    ensures Inv(m', low)
  {
    match e {
      case Start =>
        forall x ensures Total(m', x) == Total(m, x) { OpenAdd(m.open, x); }
      case Block(k, words) => BlockInv(m, k, words, m', low);
      case Finish(k) => FinishInv(m, k, m', low);
    }
  }

  lemma {:induction false} RunInv(ms: seq<Making>, es: seq<Event>, low: int)
    requires |ms| == |es| + 1 && Inv(ms[0], low)
    requires forall i :: 0 <= i < |es| ==> Step(ms[i], es[i], ms[i+1])
    ensures Inv(ms[|es|], low)
    decreases |es|
  {
    if |es| > 0 {
      var n := |es| - 1;
      RunInv(ms[..n+1], es[..n], low);
      StepInv(ms[n], es[n], ms[n+1], low);
    }
  }

  /* ---------------------------------------------------------------- hand-over */

  /** What bflist leaves (Mkfs.Maker.Bflist): every block of the data area on the list once, no files. */
  lemma Fresh(fs: Fs, low: int)
    requires 0 < low && GoodStore(fs.store) && forall x :: Count(fs.st, x) == if low <= x < |fs.store| then 1 else 0
    ensures Inv(Making(fs, [], [], []), low)
  {
  }

  /** The kernel finds every block free or on one path, and bmap leads to the block that mkfs recorded, with its
      data. */
  lemma HandOver(ms: seq<Making>, es: seq<Event>, low: int)
    requires |ms| == |es| + 1 && Inv(ms[0], low)
    requires forall i :: 0 <= i < |es| ==> Step(ms[i], es[i], ms[i+1])
    requires ms[|es|].open == []
    ensures var m := ms[|es|];
            && Census(Vol(m.fs, m.inos), low) && |m.done| == |m.inos|
            && (forall i, k :: 0 <= i < |m.inos| && 0 <= k < |m.done[i].ib| ==>
                 FoundAt(m.fs, m.inos[i], k, m.done[i].ib[k], m.done[i].data))
  {
    RunInv(ms, es, low);
    var m := ms[|es|];
    var v := Vol(m.fs, m.inos);
    assert forall i :: 0 <= i < |m.inos| ==> Mapped(m.inos[i], m.fs.store, m.done[i].ib);
    assert forall x :: FileCensus.Total(v, x) == Total(m, x);
    forall i, k | 0 <= i < |m.inos| && 0 <= k < |m.done[i].ib|
      ensures FoundAt(m.fs, m.inos[i], k, m.done[i].ib[k], m.done[i].data)
    {
      OneFile(v, low, i);
      assert Holds(m.fs.store, m.done[i]);
      assert IsBn(k) && Lookup(m.inos[i], m.fs.store, k) == m.done[i].ib[k];
      MappedNeedsNothing(m.fs, m.inos[i], k);
    }
  }

  ghost predicate FoundAt(fs: Fs, ino: Ino, k: int, b: int, data: seq<seq<int>>) {
    && Good(fs, ino) && IsBn(k) && Need(fs, ino, k) == 0
    && Bmap(fs, ino, k) == (fs, ino, b) && 0 < b < |fs.store| && 0 <= k < |data| && fs.store[b] == data[k]
  }
}
