/** Every block of the volume, over every run of bmap, itrunc and data writes on any number of files: on the free list,
    or reached by exactly one path from exactly one inode. */
module FileCensus {
  import opened Counting
  import opened FreeList
  import opened FileTree
  import opened FileGrow
  import opened BlockMap

  datatype Vol = Vol(fs: Fs, inos: seq<Ino>)

  /** How often block x occurs on the free list and in all the files. */
  ghost function Total(v: Vol, x: int): nat { Count(v.fs.st, x) + Count(Cat(Files(v.inos, v.fs.store), |v.inos|), x) }

  /** The data area is [low, size of the volume). */
  ghost predicate Census(v: Vol, low: int) {
    && 0 < low && GoodStore(v.fs.store)
    && (forall i :: 0 <= i < |v.inos| ==> |v.inos[i].addr| == NADDR)
    && (forall x :: Total(v, x) == if low <= x < |v.fs.store| then 1 else 0)
  }

  /* ---------------------------------------------------------------- files that a change does not reach */

  /** Two stores agree on every block counted in s. */
  ghost predicate AgreeOn(store: Store, store': Store, s: seq<int>) {
    |store'| == |store| && forall b :: 0 <= b < |store| && Count(s, b) > 0 ==> store'[b] == store[b]
  }

  lemma AgreePart(store: Store, store': Store, g: Family, n: nat, i: nat)
    requires AgreeOn(store, store', Cat(g, n)) && i < n
    ensures AgreeOn(store, store', Member(g, i))
  {
    forall b | 0 <= b < |store| && Count(Member(g, i), b) > 0
      ensures store'[b] == store[b]
    {
      CatPart(g, n, i, b);
    }
  }

  lemma AgreeLast(store: Store, store': Store, s: seq<int>, a: int)
    requires AgreeOn(store, store', s + [a])
    ensures AgreeOn(store, store', s) && Words(store', a) == Words(store, a)
  {
    forall b
      ensures Count(s + [a], b) == Count(s, b) + One(b, a)
    {
      CountAppend(s, [a], b);
      CountOne(a, b);
    }
    assert Count(s + [a], a) > 0;
  }

  lemma NodeAgree(store: Store, store': Store, x: int)
    requires AgreeOn(store, store', Node(store, x))
    ensures Node(store', x) == Node(store, x)
  {
    if x != 0 { AgreeLast(store, store', Rev(Words(store, x)), x); }
  }

  lemma DblAgree(store: Store, store': Store, w: seq<int>)
    requires AgreeOn(store, store', Dbl(store, w))
    ensures Dbl(store', w) == Dbl(store, w)
  {
    var g, h := Nodes(store, w), Nodes(store', w);
    forall k | 0 <= k < WORDS + 1
      ensures Member(g, k) == Member(h, k)
    {
      AgreePart(store, store', g, WORDS + 1, k);
      NodeAgree(store, store', At(w, k));
    }
    CatSame(g, h, WORDS + 1);
  }

  lemma SlotAgree(store: Store, store': Store, a: int, large: bool, i: int)
    requires AgreeOn(store, store', Slot(store, a, large, i))
    ensures Slot(store', a, large, i) == Slot(store, a, large, i)
  {
    if a != 0 && large && i == 7 {
      AgreeLast(store, store', Dbl(store, Words(store, a)), a);
      DblAgree(store, store', Words(store, a));
    } else if a != 0 && large {
      NodeAgree(store, store', a);
    }
  }

  /** A file depends on its own blocks only. */
  lemma BlocksAgree(ino: Ino, store: Store, store': Store)
    requires AgreeOn(store, store', Blocks(ino, store))
    ensures Blocks(ino, store') == Blocks(ino, store)
  {
    var g, h := Slots(ino, store), Slots(ino, store');
    forall i | 0 <= i < NADDR
      ensures Member(g, i) == Member(h, i)
    {
      AgreePart(store, store', g, NADDR, i);
      SlotAgree(store, store', At(ino.addr, i), ino.large, i);
    }
    CatSame(g, h, NADDR);
  }

  /* ---------------------------------------------------------------- one file among many */

  lemma OneFile(v: Vol, low: int, i: nat)
    requires Census(v, low) && i < |v.inos|
    ensures Good(v.fs, v.inos[i])
  {
    forall x
      ensures Uses(v.fs, v.inos[i], x) <= Total(v, x)
    {
      CatPart(Files(v.inos, v.fs.store), |v.inos|, i, x);
    }
    assert forall x :: Total(v, x) <= 1;
  }

  /** A block of another file is neither free nor in this one. */
  lemma OtherFile(v: Vol, low: int, i: nat, j: nat, x: int)
    requires Census(v, low) && i < |v.inos| && j < |v.inos| && i != j && Count(Blocks(v.inos[j], v.fs.store), x) > 0
    ensures Uses(v.fs, v.inos[i], x) == 0
  {
    var g := Files(v.inos, v.fs.store);
    assert Total(v, x) <= 1;
    if i < j { CatTwice(g, |v.inos|, i, j, x); } else { CatTwice(g, |v.inos|, j, i, x); }
  }

  /** Replacing one file, with everything outside it kept, changes the total by that file's change. */
  lemma TotalChange(v: Vol, low: int, i: nat, fs': Fs, ino': Ino, x: int)
    requires Census(v, low) && i < |v.inos| && OutsideKept(v.fs, v.inos[i], fs')
    ensures Total(Vol(fs', v.inos[i := ino']), x) + Uses(v.fs, v.inos[i], x) == Total(v, x) + Uses(fs', ino', x)
  {
    var v' := Vol(fs', v.inos[i := ino']);
    var g, h := Files(v.inos, v.fs.store), Files(v'.inos, fs'.store);
    forall j | 0 <= j < |v.inos| && j != i
      ensures Member(g, j) == Member(h, j)
    {
      OthersKept(v, low, i, j, fs');
    }
    CatUpdate(g, h, |v.inos|, i, x);
  }

  lemma OthersKept(v: Vol, low: int, i: nat, j: nat, fs': Fs)
    requires Census(v, low) && i < |v.inos| && j < |v.inos| && i != j && OutsideKept(v.fs, v.inos[i], fs')
    ensures Blocks(v.inos[j], fs'.store) == Blocks(v.inos[j], v.fs.store)
  {
    forall b | 0 <= b < |v.fs.store| && Count(Blocks(v.inos[j], v.fs.store), b) > 0
      ensures fs'.store[b] == v.fs.store[b]
    {
      OtherFile(v, low, i, j, b);
    }
    BlocksAgree(v.inos[j], v.fs.store, fs'.store);
  }

  /* ---------------------------------------------------------------- itrunc */

  function Empty(): Ino { Ino([0, 0, 0, 0, 0, 0, 0, 0], false) }

  /** itrunc pushes the blocks of the file, in its order, and clears the inode.  A freed block may have been written to:
      the free list keeps its chain there. */
  ghost predicate Truncated(fs: Fs, ino: Ino, fs': Fs, ino': Ino) {
    && ino' == Empty()
    && fs'.st == fs.st + Blocks(ino, fs.store)
    && |fs'.store| == |fs.store| && GoodStore(fs'.store)
    && (forall b :: 0 <= b < |fs.store| && Count(Blocks(ino, fs.store), b) == 0 ==> fs'.store[b] == fs.store[b])
  }

  lemma EmptyHasNone(store: Store)
    ensures Blocks(Empty(), store) == []
  {
    CatEmpty(Slots(Empty(), store), NADDR);
  }

  lemma TruncatedConserves(fs: Fs, ino: Ino, fs': Fs, ino': Ino)
    requires Good(fs, ino) && Truncated(fs, ino, fs', ino')
    ensures Conserved(fs, ino, fs', ino') && OutsideKept(fs, ino, fs') && Good(fs', ino')
  {
    forall x
      ensures Uses(fs', ino', x) == Uses(fs, ino, x)
    {
      CountAppend(fs.st, Blocks(ino, fs.store), x);
      EmptyHasNone(fs'.store);
    }
    GoodFromCounts(fs, ino, fs', ino');
  }

  /* ---------------------------------------------------------------- runs */

  datatype Op = Map(i: int, bn: int) | Truncate(i: int) | WriteData(i: int, bn: int, words: seq<int>)

  /** What an operation on file i may do to the volume. */
  ghost predicate Did(v: Vol, op: Op, v': Vol) {
    && 0 <= op.i < |v.inos| && |v'.inos| == |v.inos|
    && v'.inos == v.inos[op.i := v'.inos[op.i]]
    && var ino := v.inos[op.i];
       match op
       case Map(i, bn) =>
         && IsBn(bn) && Need(v.fs, ino, bn) <= |v.fs.st|
         && (Good(v.fs, ino) ==> v'.fs == Bmap(v.fs, ino, bn).0 && v'.inos[i] == Bmap(v.fs, ino, bn).1)
       case Truncate(i) => Truncated(v.fs, ino, v'.fs, v'.inos[i])
       case WriteData(i, bn, words) =>
         && IsBn(bn) && |words| == WORDS && 0 < Lookup(ino, v.fs.store, bn) < |v.fs.store|
         && v' == v.(fs := v.fs.(store := v.fs.store[Lookup(ino, v.fs.store, bn) := words]))
  }

  lemma StepCensus(v: Vol, op: Op, v': Vol, low: int)
    requires Census(v, low) && Did(v, op, v')
    ensures Census(v', low)
  {
    var i, ino := op.i, v.inos[op.i];
    OneFile(v, low, i);
    match op {
      case Map(_, bn) => BmapCorrect(v.fs, ino, bn);
      case Truncate(_) => TruncatedConserves(v.fs, ino, v'.fs, v'.inos[i]);
      case WriteData(_, bn, words) => DataWrite(v.fs, ino, bn, words);
    }
    forall x
      ensures Total(v', x) == Total(v, x)
    {
      TotalChange(v, low, i, v'.fs, v'.inos[i], x);
      assert Uses(v'.fs, v'.inos[i], x) == Uses(v.fs, ino, x);
    }
  }

  /** Writing a data block disturbs neither the file's tree nor the free list. */
  lemma DataWrite(fs: Fs, ino: Ino, bn: int, words: seq<int>)
    requires Good(fs, ino) && IsBn(bn) && Lookup(ino, fs.store, bn) != 0 && |words| == WORDS
    ensures var d := Lookup(ino, fs.store, bn);
            && 0 < d < |fs.store|
            && var fs' := fs.(store := fs.store[d := words]);
               && Good(fs', ino) && Conserved(fs, ino, fs', ino) && OutsideKept(fs, ino, fs')
               && (forall k :: IsBn(k) ==> Lookup(ino, fs'.store, k) == Lookup(ino, fs.store, k))
  {
    var d := Lookup(ino, fs.store, bn);
    DataCounted(fs, ino, bn);
    BlocksFrame(ino, fs.store, d, words);
    var fs' := fs.(store := fs.store[d := words]);
    assert Uses(fs, ino, d) > 0;
    assert Conserved(fs, ino, fs', ino);
    GoodFromCounts(fs, ino, fs', ino);
  }

  /** Block conservation over runs: if every block of the data area starts on the free list or on one path of one file,
      it is so after any sequence of operations. */
  lemma {:induction false} RunCensus(vs: seq<Vol>, ops: seq<Op>, low: int)
    requires |vs| == |ops| + 1 && Census(vs[0], low)
    requires forall k :: 0 <= k < |ops| ==> Did(vs[k], ops[k], vs[k+1])
    ensures Census(vs[|ops|], low)
  {
    if |ops| > 0 {
      var n := |ops| - 1;
      var us, os := vs[..n+1], ops[..n];
      forall k | 0 <= k < n
        ensures Did(us[k], os[k], us[k+1])
      {
        assert Did(vs[k], ops[k], vs[k+1]);
      }
      RunCensus(us, os, low);
      StepCensus(vs[n], ops[n], vs[n+1], low);
    }
  }

  /** What the census means for a single block. */
  lemma FreeOrOnOnePath(v: Vol, low: int, x: int)
    requires Census(v, low) && low <= x < |v.fs.store|
    ensures (x in v.fs.st) != (exists i :: 0 <= i < |v.inos| && x in Blocks(v.inos[i], v.fs.store))
    ensures forall i, j :: 0 <= i < j < |v.inos| && x in Blocks(v.inos[i], v.fs.store) ==>
        x !in Blocks(v.inos[j], v.fs.store)
    ensures forall i :: 0 <= i < |v.inos| ==> Count(Blocks(v.inos[i], v.fs.store), x) <= 1
  {
    var g := Files(v.inos, v.fs.store);
    assert Total(v, x) == 1;
    CountIn(v.fs.st, x);
    CountIn(Cat(g, |v.inos|), x);
    if x in Cat(g, |v.inos|) {
      var i := CatWhere(g, |v.inos|, x);
      assert x in Blocks(v.inos[i], v.fs.store);
    }
    forall i | 0 <= i < |v.inos| && x in Blocks(v.inos[i], v.fs.store)
      ensures x in Cat(g, |v.inos|)
    {
      CatHas(g, |v.inos|, i, x);
    }
    forall i, j | 0 <= i < j < |v.inos| && x in Blocks(v.inos[i], v.fs.store)
      ensures x !in Blocks(v.inos[j], v.fs.store)
    {
      CatOnce(g, |v.inos|, i, j, x);
    }
    forall i | 0 <= i < |v.inos|
      ensures Count(Blocks(v.inos[i], v.fs.store), x) <= 1
    {
      CatPart(g, |v.inos|, i, x);
    }
  }
}
