/** bmap over an unbounded free stack: which blocks it takes, what it returns, and what it leaves alone. */
module BlockMap {
  import opened Counting
  import opened FreeList
  import opened FileTree
  import opened FileGrow

  /** The free stack, top last, and the contents of every block. */
  datatype Fs = Fs(st: seq<int>, store: Store)

  function Top(fs: Fs): int
    requires fs.st != []
  {
    fs.st[|fs.st|-1]
  }

  /** alloc: the top block, cleared. */
  function Alloc(fs: Fs): (r: Fs)
    requires fs.st != [] && 0 <= Top(fs) < |fs.store|
    ensures |r.st| == |fs.st| - 1 && |r.store| == |fs.store|
  {
    Fs(fs.st[..|fs.st|-1], fs.store[Top(fs) := Zeros()])
  }

  /** How often block x occurs, on the free list and in the file together. */
  ghost function Uses(fs: Fs, ino: Ino, x: int): nat { Count(fs.st, x) + Count(Blocks(ino, fs.store), x) }

  ghost predicate Good(fs: Fs, ino: Ino) {
    && |ino.addr| == NADDR && GoodStore(fs.store)
    && (forall x :: Uses(fs, ino, x) <= 1)
    && (forall x :: Uses(fs, ino, x) > 0 ==> 0 < x < |fs.store|)
  }

  lemma GoodHasIno(fs: Fs, ino: Ino)
    requires Good(fs, ino)
    ensures GoodIno(ino, fs.store)
  {
    forall x
      ensures Count(Blocks(ino, fs.store), x) <= 1
    {
      assert Uses(fs, ino, x) <= 1;
    }
  }

  /** The top of the stack is a real block that the file does not contain. */
  lemma TopFacts(fs: Fs, ino: Ino)
    requires Good(fs, ino) && fs.st != []
    ensures 0 < Top(fs) < |fs.store| && Count(Blocks(ino, fs.store), Top(fs)) == 0 && !Indirect(ino, fs.store, Top(fs))
  {
    var c := Top(fs);
    assert c in fs.st;
    CountIn(fs.st, c);
    assert Uses(fs, ino, c) <= 1;
    CountIn(Blocks(ino, fs.store), c);
    if Indirect(ino, fs.store, c) { IndirectInBlocks(ino, fs.store, c); }
  }

  lemma PopCount(st: seq<int>, x: int)
    requires st != []
    ensures Count(st, x) == Count(st[..|st|-1], x) + One(x, st[|st|-1])
  {
    var c := st[|st|-1];
    assert st == st[..|st|-1] + [c];
    CountAppend(st[..|st|-1], [c], x);
    CountOne(c, x);
  }

  /* ---------------------------------------------------------------- what a step may do */

  /** Blocks move between the free list and the file; none is lost, none gained. */
  ghost predicate Conserved(fs: Fs, ino: Ino, fs': Fs, ino': Ino) { forall x :: Uses(fs', ino', x) == Uses(fs, ino, x) }

  /** Blocks that were neither free nor the file's keep their contents. */
  ghost predicate OutsideKept(fs: Fs, ino: Ino, fs': Fs) {
    |fs'.store| == |fs.store| && forall b :: 0 <= b < |fs.store| && Uses(fs, ino, b) == 0 ==>
        fs'.store[b] == fs.store[b]
  }

  /** Logical block bn stays where it was, with the contents it had. */
  ghost predicate Stays(fs: Fs, ino: Ino, fs': Fs, ino': Ino, bn: int) {
    var d := Lookup(ino, fs.store, bn);
    d != 0 ==> Lookup(ino', fs'.store, bn) == d && Words(fs'.store, d) == Words(fs.store, d)
  }

  ghost predicate DataKept(fs: Fs, ino: Ino, fs': Fs, ino': Ino) {
    forall bn :: IsBn(bn) ==> Stays(fs, ino, fs', ino', bn)
  }

  ghost predicate Progress(fs: Fs, ino: Ino, fs': Fs, ino': Ino) {
    && Good(fs', ino') && fs'.st <= fs.st
    && Conserved(fs, ino, fs', ino') && OutsideKept(fs, ino, fs') && DataKept(fs, ino, fs', ino')
  }

  lemma ProgressTrans(fs: Fs, ino: Ino, fs': Fs, ino': Ino, fs'': Fs, ino'': Ino)
    requires Progress(fs, ino, fs', ino') && Progress(fs', ino', fs'', ino'')
    ensures Progress(fs, ino, fs'', ino'')
  {
    forall bn | IsBn(bn)
      ensures Stays(fs, ino, fs'', ino'', bn)
    {
      assert Stays(fs, ino, fs', ino', bn) && Stays(fs', ino', fs'', ino'', bn);
    }
  }

  /** Conservation is all there is to check: goodness follows. */
  lemma GoodFromCounts(fs: Fs, ino: Ino, fs': Fs, ino': Ino)
    requires Good(fs, ino) && |ino'.addr| == NADDR && GoodStore(fs'.store) && |fs'.store| == |fs.store|
    requires Conserved(fs, ino, fs', ino')
    ensures Good(fs', ino')
  {
  }

  /** A data block is counted in the file and is not one of its indirect blocks. */
  lemma DataCounted(fs: Fs, ino: Ino, bn: int)
    requires Good(fs, ino) && IsBn(bn) && Lookup(ino, fs.store, bn) != 0
    ensures var d := Lookup(ino, fs.store, bn);
            0 < d < |fs.store| && Count(Blocks(ino, fs.store), d) > 0 && !Indirect(ino, fs.store, d)
  {
    var d := Lookup(ino, fs.store, bn);
    GoodHasIno(fs, ino);
    LookupIn(ino, fs.store, bn);
    CountIn(Blocks(ino, fs.store), d);
    assert Uses(fs, ino, d) > 0;
  }

  /** Only the block just allocated (c) and one indirect block of the file (b) differ. */
  ghost predicate WroteOnly(fs: Fs, ino: Ino, fs': Fs, c: int, b: int) {
    && |fs'.store| == |fs.store| && (b == c || Indirect(ino, fs.store, b))
    && (forall y :: 0 <= y < |fs.store| && y != c && y != b ==> fs'.store[y] == fs.store[y])
  }

  lemma StaysPut(fs: Fs, ino: Ino, fs': Fs, ino': Ino, c: int, b: int, bn: int)
    requires Good(fs, ino) && WroteOnly(fs, ino, fs', c, b) && Count(Blocks(ino, fs.store), c) == 0 && IsBn(bn)
    requires Lookup(ino, fs.store, bn) != 0 ==> Lookup(ino', fs'.store, bn) == Lookup(ino, fs.store, bn)
    ensures Stays(fs, ino, fs', ino', bn)
  {
    if Lookup(ino, fs.store, bn) != 0 { DataCounted(fs, ino, bn); }
  }

  lemma OutsideUntouched(fs: Fs, ino: Ino, fs': Fs, c: int, b: int)
    requires Good(fs, ino) && WroteOnly(fs, ino, fs', c, b) && c in fs.st
    ensures OutsideKept(fs, ino, fs')
  {
    CountIn(fs.st, c);
    assert Uses(fs, ino, c) > 0;
    if b != c {
      IndirectInBlocks(ino, fs.store, b);
      CountIn(Blocks(ino, fs.store), b);
      assert Uses(fs, ino, b) > 0;
    }
  }

  /* ---------------------------------------------------------------- the four ways to grow */

  function AddSlot(fs: Fs, ino: Ino, i: int): (Fs, Ino)
    requires fs.st != [] && 0 <= Top(fs) < |fs.store| && 0 <= i < |ino.addr|
  {
    (Alloc(fs), ino.(addr := ino.addr[i := Top(fs)]))
  }

  lemma SlotUses(fs: Fs, ino: Ino, i: int, x: int)
    requires Good(fs, ino) && fs.st != [] && 0 <= i < NADDR && ino.addr[i] == 0 && 0 < Top(fs) < |fs.store|
    ensures var (fs', ino') := AddSlot(fs, ino, i); Uses(fs', ino', x) == Uses(fs, ino, x)
  {
    var c := Top(fs);
    TopFacts(fs, ino);
    BlocksFrame(ino, fs.store, c, Zeros());
    GrowSlot(ino, Alloc(fs).store, i, c, x);
    PopCount(fs.st, x);
  }

  lemma SlotLookup(fs: Fs, ino: Ino, i: int, bn: int)
    requires Good(fs, ino) && fs.st != [] && 0 <= i < NADDR && ino.addr[i] == 0 && 0 < Top(fs) < |fs.store| && IsBn(bn)
    ensures var (fs', ino') := AddSlot(fs, ino, i);
            Lookup(ino', fs'.store, bn) == if !ino.large && bn == i then Top(fs) else Lookup(ino, fs.store, bn)
  {
    TopFacts(fs, ino);
    LookupFrame(ino, fs.store, Top(fs), Zeros(), bn);
    GrowSlotLookup(ino, Alloc(fs).store, i, Top(fs), bn);
  }

  lemma SlotProgress(fs: Fs, ino: Ino, i: int)
    requires Good(fs, ino) && fs.st != [] && 0 <= i < NADDR && ino.addr[i] == 0 && 0 < Top(fs) < |fs.store|
    ensures var (fs', ino') := AddSlot(fs, ino, i); Progress(fs, ino, fs', ino')
  {
    var c := Top(fs);
    var (fs', ino') := AddSlot(fs, ino, i);
    TopFacts(fs, ino);
    assert c in fs.st;
    forall x ensures Uses(fs', ino', x) == Uses(fs, ino, x) { SlotUses(fs, ino, i, x); }
    GoodFromCounts(fs, ino, fs', ino');
    OutsideUntouched(fs, ino, fs', c, c);
    forall bn | IsBn(bn)
      ensures Stays(fs, ino, fs', ino', bn)
    {
      SlotLookup(fs, ino, i, bn);
      StaysPut(fs, ino, fs', ino', c, c, bn);
    }
  }

  /** A word of indirect block b is set to a fresh, cleared block. */
  function AddWord(fs: Fs, b: int, j: int): Fs
    requires fs.st != [] && 0 <= Top(fs) < |fs.store| && 0 <= b < |fs.store| && 0 <= j < |Alloc(fs).store[b]|
  {
    var f := Alloc(fs);
    f.(store := f.store[b := f.store[b][j := Top(fs)]])
  }

  /** Where a new word goes: an indirect block of slots 0..6, the doubly indirect block, or one below it. */
  datatype Place = Single(i: int) | Double | Below(k: int)

  function PlaceBlock(fs: Fs, ino: Ino, p: Place): int {
    match p
    case Single(i) => At(ino.addr, i)
    case Double => At(ino.addr, 7)
    case Below(k) => Entry(fs.store, At(ino.addr, 7), k)
  }

  predicate GoodPlace(ino: Ino, p: Place) {
    match p
    case Single(i) => 0 <= i < 7
    case Double => true
    case Below(k) => 0 <= k < WORDS
  }

  /** The logical block that a word of this place maps, -1 when it maps an indirect block. */
  function PlaceBn(p: Place, j: int): int {
    match p
    case Single(i) => 256 * i + j
    case Double => -1
    case Below(k) => 256 * (k + 7) + j
  }

  ghost predicate CanAdd(fs: Fs, ino: Ino, p: Place, j: int) {
    && Good(fs, ino) && fs.st != [] && 0 < Top(fs) < |fs.store|
    && ino.large && GoodPlace(ino, p) && 0 <= j < WORDS
    && 0 < PlaceBlock(fs, ino, p) < |fs.store| && fs.store[PlaceBlock(fs, ino, p)][j] == 0
  }

  lemma PlaceIndirect(fs: Fs, ino: Ino, p: Place)
    requires Good(fs, ino) && fs.st != [] && ino.large && GoodPlace(ino, p) && PlaceBlock(fs, ino, p) != 0
    ensures Indirect(ino, fs.store, PlaceBlock(fs, ino, p)) && PlaceBlock(fs, ino, p) != Top(fs)
    ensures p.Below? ==> At(ino.addr, 7) != 0 && At(ino.addr, 7) != Top(fs)
  {
    TopFacts(fs, ino);
    if p.Below? {
      assert Indirect(ino, fs.store, At(ino.addr, 7));
      assert Second(ino, fs.store, PlaceBlock(fs, ino, p));
    }
  }

  lemma ClearedGood(fs: Fs, ino: Ino)
    requires Good(fs, ino) && fs.st != [] && 0 < Top(fs) < |fs.store|
    ensures GoodIno(ino, Alloc(fs).store) && Blocks(ino, Alloc(fs).store) == Blocks(ino, fs.store)
  {
    TopFacts(fs, ino);
    GoodHasIno(fs, ino);
    BlocksFrame(ino, fs.store, Top(fs), Zeros());
  }

  lemma WordUses(fs: Fs, ino: Ino, p: Place, j: int, x: int)
    requires CanAdd(fs, ino, p, j)
    ensures Uses(AddWord(fs, PlaceBlock(fs, ino, p), j), ino, x) == Uses(fs, ino, x)
  {
    var f, c := Alloc(fs), Top(fs);
    PlaceIndirect(fs, ino, p);
    ClearedGood(fs, ino);
    match p {
      case Single(i) => GrowSingle(ino, f.store, i, j, c, x);
      case Double => GrowDouble(ino, f.store, j, c, x);
      case Below(k) => GrowBelow(ino, f.store, k, j, c, x);
    }
    PopCount(fs.st, x);
  }

  lemma WordLookup(fs: Fs, ino: Ino, p: Place, j: int, bn: int)
    requires CanAdd(fs, ino, p, j) && IsBn(bn)
    ensures Lookup(ino, AddWord(fs, PlaceBlock(fs, ino, p), j).store, bn)
            == if bn == PlaceBn(p, j) then Top(fs) else Lookup(ino, fs.store, bn)
  {
    var f, c := Alloc(fs), Top(fs);
    TopFacts(fs, ino);
    PlaceIndirect(fs, ino, p);
    ClearedGood(fs, ino);
    LookupFrame(ino, fs.store, c, Zeros(), bn);
    match p {
      case Single(i) => GrowSingleLookup(ino, f.store, i, j, c, bn);
      case Double => GrowDoubleLookup(ino, f.store, j, c, bn);
      case Below(k) => GrowBelowLookup(ino, f.store, k, j, c, bn);
    }
  }

  /** The word was zero, so it mapped nothing. */
  lemma WordWasHole(fs: Fs, ino: Ino, p: Place, j: int)
    requires CanAdd(fs, ino, p, j) && IsBn(PlaceBn(p, j))
    ensures Lookup(ino, fs.store, PlaceBn(p, j)) == 0
  {
    match p {
      case Single(i) => Digits(i, j);
      case Double =>
      case Below(k) => Digits(k + 7, j);
    }
  }

  lemma Digits(i: int, j: int)
    requires 0 <= j < 256
    ensures (256 * i + j) / 256 == i && (256 * i + j) % 256 == j
  {
  }

  lemma WordProgress(fs: Fs, ino: Ino, p: Place, j: int)
    requires CanAdd(fs, ino, p, j)
    ensures Progress(fs, ino, AddWord(fs, PlaceBlock(fs, ino, p), j), ino)
  {
    var c, b := Top(fs), PlaceBlock(fs, ino, p);
    var fs' := AddWord(fs, b, j);
    TopFacts(fs, ino);
    PlaceIndirect(fs, ino, p);
    assert c in fs.st;
    forall x ensures Uses(fs', ino, x) == Uses(fs, ino, x) { WordUses(fs, ino, p, j, x); }
    GoodFromCounts(fs, ino, fs', ino);
    OutsideUntouched(fs, ino, fs', c, b);
    forall bn | IsBn(bn)
      ensures Stays(fs, ino, fs', ino, bn)
    {
      WordLookup(fs, ino, p, j, bn);
      if bn == PlaceBn(p, j) { WordWasHole(fs, ino, p, j); }
      StaysPut(fs, ino, fs', ino, c, b, bn);
    }
  }

  function Convert(fs: Fs, ino: Ino): (Fs, Ino)
    requires fs.st != [] && 0 <= Top(fs) < |fs.store| && |ino.addr| == NADDR
  {
    (Alloc(fs).(store := fs.store[Top(fs) := Packed(ino.addr)]), Converted(Top(fs)))
  }

  lemma ConvertUses(fs: Fs, ino: Ino, x: int)
    requires Good(fs, ino) && fs.st != [] && !ino.large && 0 < Top(fs) < |fs.store|
    ensures var (fs', ino') := Convert(fs, ino); Uses(fs', ino', x) == Uses(fs, ino, x)
  {
    var (fs', ino') := Convert(fs, ino);
    TopFacts(fs, ino);
    BlocksFrame(ino, fs.store, Top(fs), Packed(ino.addr));
    ConvertCount(ino, fs'.store, Top(fs), x);
    PopCount(fs.st, x);
  }

  lemma ConvertMap(fs: Fs, ino: Ino, bn: int)
    requires Good(fs, ino) && fs.st != [] && !ino.large && 0 < Top(fs) < |fs.store| && IsBn(bn)
    ensures var (fs', ino') := Convert(fs, ino); Lookup(ino', fs'.store, bn) == Lookup(ino, fs.store, bn)
  {
    var (fs', ino') := Convert(fs, ino);
    TopFacts(fs, ino);
    LookupFrame(ino, fs.store, Top(fs), Packed(ino.addr), bn);
    ConvertLookup(ino, fs'.store, Top(fs), bn);
  }

  lemma ConvertProgress(fs: Fs, ino: Ino)
    requires Good(fs, ino) && fs.st != [] && !ino.large && 0 < Top(fs) < |fs.store|
    ensures var (fs', ino') := Convert(fs, ino); Progress(fs, ino, fs', ino')
  {
    var c := Top(fs);
    var (fs', ino') := Convert(fs, ino);
    TopFacts(fs, ino);
    assert c in fs.st;
    forall x ensures Uses(fs', ino', x) == Uses(fs, ino, x) { ConvertUses(fs, ino, x); }
    GoodFromCounts(fs, ino, fs', ino');
    OutsideUntouched(fs, ino, fs', c, c);
    forall bn | IsBn(bn)
      ensures Stays(fs, ino, fs', ino', bn)
    {
      ConvertMap(fs, ino, bn);
      StaysPut(fs, ino, fs', ino', c, c, bn);
    }
  }

  /* ---------------------------------------------------------------- bmap */

  /** Nothing changes, or one of the steps above is taken. */
  ghost predicate Kept(fs: Fs, ino: Ino, fs': Fs, ino': Ino) {
    (fs' == fs && ino' == ino && Good(fs, ino)) || Progress(fs, ino, fs', ino')
  }

  lemma KeptProgress(fs: Fs, ino: Ino, fs': Fs, ino': Ino)
    requires Kept(fs, ino, fs', ino')
    ensures Progress(fs, ino, fs', ino')
  {
  }

  lemma AddressInRange(fs: Fs, ino: Ino, b: int)
    requires Good(fs, ino) && Indirect(ino, fs.store, b)
    ensures 0 < b < |fs.store|
  {
    IndirectInBlocks(ino, fs.store, b);
    CountIn(Blocks(ino, fs.store), b);
    assert Uses(fs, ino, b) > 0;
  }

  /** Fetch address i of the inode, allocating a block for it if there is none (ken/subr.c:68-74). */
  ghost function EnsureSlot(fs: Fs, ino: Ino, i: int): (r: (Fs, Ino))
    requires Good(fs, ino) && 0 <= i < NADDR && (ino.addr[i] == 0 ==> fs.st != [])
    ensures Good(r.0, r.1) && r.1.large == ino.large && r.1.addr[i] != 0
    ensures |r.0.st| == |fs.st| - if ino.addr[i] == 0 then 1 else 0
  {
    if ino.addr[i] != 0 then (fs, ino) else TopFacts(fs, ino); SlotProgress(fs, ino, i); AddSlot(fs, ino, i)
  }

  /** Fetch a word of an indirect block, allocating a block for it if it is zero (ken/subr.c:83-93 and 103-109). */
  ghost function EnsureWord(fs: Fs, ino: Ino, p: Place, j: int): (r: (Fs, int))
    requires Good(fs, ino) && ino.large && GoodPlace(ino, p) && 0 <= j < WORDS && PlaceBlock(fs, ino, p) != 0
    requires Entry(fs.store, PlaceBlock(fs, ino, p), j) == 0 ==> fs.st != []
    ensures Good(r.0, ino) && r.1 != 0 && PlaceBlock(r.0, ino, p) == PlaceBlock(fs, ino, p)
    ensures Entry(r.0.store, PlaceBlock(fs, ino, p), j) == r.1
    ensures |r.0.st| == |fs.st| - if Entry(fs.store, PlaceBlock(fs, ino, p), j) == 0 then 1 else 0
  {
    var b := PlaceBlock(fs, ino, p);
    PlaceRange(fs, ino, p);
    if Entry(fs.store, b, j) != 0 then (fs, Entry(fs.store, b, j)) else
    TopFacts(fs, ino); WordProgress(fs, ino, p, j); PlaceStays(fs, ino, p, j);
    (AddWord(fs, b, j), Top(fs))
  }

  lemma PlaceRange(fs: Fs, ino: Ino, p: Place)
    requires Good(fs, ino) && ino.large && GoodPlace(ino, p) && PlaceBlock(fs, ino, p) != 0
    ensures 0 < PlaceBlock(fs, ino, p) < |fs.store|
  {
    var b := PlaceBlock(fs, ino, p);
    assert p.Below? ==> Second(ino, fs.store, b);
    AddressInRange(fs, ino, b);
  }

  lemma PlaceStays(fs: Fs, ino: Ino, p: Place, j: int)
    requires CanAdd(fs, ino, p, j)
    ensures PlaceBlock(AddWord(fs, PlaceBlock(fs, ino, p), j), ino, p) == PlaceBlock(fs, ino, p)
    ensures Entry(AddWord(fs, PlaceBlock(fs, ino, p), j).store, PlaceBlock(fs, ino, p), j) == Top(fs)
  {
    PlaceIndirect(fs, ino, p);
    if p.Below? {
      GoodHasIno(fs, ino);
      SecondIn(ino, fs.store, p.k);
    }
  }

  lemma EnsureSlotKept(fs: Fs, ino: Ino, i: int)
    requires Good(fs, ino) && 0 <= i < NADDR && (ino.addr[i] == 0 ==> fs.st != [])
    ensures var (f, n) := EnsureSlot(fs, ino, i);
            && Kept(fs, ino, f, n)
            && (forall bn :: IsBn(bn) && (ino.large || bn != i) ==> Lookup(n, f.store, bn) == Lookup(ino, fs.store, bn))
  {
    if ino.addr[i] == 0 {
      TopFacts(fs, ino);
      SlotProgress(fs, ino, i);
      forall bn | IsBn(bn) && (ino.large || bn != i)
        ensures var (f, n) := EnsureSlot(fs, ino, i); Lookup(n, f.store, bn) == Lookup(ino, fs.store, bn)
      {
        SlotLookup(fs, ino, i, bn);
      }
    }
  }

  /** A block that was free and is now cleared. */
  ghost predicate FreshFrom(fs: Fs, fs': Fs, nb: int) { nb in fs.st && Words(fs'.store, nb) == Zeros() }

  lemma EnsureWordKept(fs: Fs, ino: Ino, p: Place, j: int)
    requires Good(fs, ino) && ino.large && GoodPlace(ino, p) && 0 <= j < WORDS && PlaceBlock(fs, ino, p) != 0
    requires Entry(fs.store, PlaceBlock(fs, ino, p), j) == 0 ==> fs.st != []
    ensures var f := EnsureWord(fs, ino, p, j).0;
            && Kept(fs, ino, f, ino)
            && (forall bn :: IsBn(bn) && bn != PlaceBn(p, j) ==> Lookup(ino, f.store, bn) == Lookup(ino, fs.store, bn))
            && (Entry(fs.store, PlaceBlock(fs, ino, p), j) == 0 ==> FreshFrom(fs, f, EnsureWord(fs, ino, p, j).1))
  {
    var b := PlaceBlock(fs, ino, p);
    PlaceRange(fs, ino, p);
    if Entry(fs.store, b, j) == 0 {
      TopFacts(fs, ino);
      PlaceIndirect(fs, ino, p);
      WordProgress(fs, ino, p, j);
      forall bn | IsBn(bn) && bn != PlaceBn(p, j)
        ensures Lookup(ino, EnsureWord(fs, ino, p, j).0.store, bn) == Lookup(ino, fs.store, bn)
      {
        WordLookup(fs, ino, p, j, bn);
      }
      assert Top(fs) in fs.st;
    }
  }

  function SlotOf(bn: int): int { if bn / 256 < 7 then bn / 256 else 7 }

  function PlaceFor(bn: int): Place { if SlotOf(bn) < 7 then Single(SlotOf(bn)) else Below(bn / 256 - 7) }

  /** How many blocks bmap must allocate for logical block bn of a large file. */
  function NeedLarge(fs: Fs, ino: Ino, bn: int): nat {
    var a := At(ino.addr, SlotOf(bn));
    if SlotOf(bn) < 7 then (if a == 0 then 2 else if Entry(fs.store, a, bn % 256) == 0 then 1 else 0)
    else if a == 0 then 3
    else var b := Entry(fs.store, a, bn / 256 - 7);
         if b == 0 then 2 else if Entry(fs.store, b, bn % 256) == 0 then 1 else 0
  }

  function Need(fs: Fs, ino: Ino, bn: int): nat {
    if ino.large then NeedLarge(fs, ino, bn)
    else if bn < 8 then (if At(ino.addr, bn) == 0 then 1 else 0)
    else if bn < 256 then 2 else if SlotOf(bn) < 7 then 3 else 4
  }

  /** The large file algorithm, first part: the indirect block that names logical block bn. */
  ghost function ToPlace(fs: Fs, ino: Ino, bn: int): (r: (Fs, Ino, Place))
    requires Good(fs, ino) && ino.large && IsBn(bn) && NeedLarge(fs, ino, bn) <= |fs.st|
    ensures Good(r.0, r.1) && r.1.large && GoodPlace(r.1, r.2) && PlaceBlock(r.0, r.1, r.2) != 0
    ensures r.2 == PlaceFor(bn) && PlaceBn(r.2, bn % 256) == bn
  {
    var s := SlotOf(bn);
    var (f, n) := EnsureSlot(fs, ino, s);
    if s < 7 then (f, n, Single(s)) else
    ToDouble(fs, ino, bn);
    var (g, b) := EnsureWord(f, n, Double, bn / 256 - 7);
    (g, n, Below(bn / 256 - 7))
  }

  /** A doubly indirect block just allocated is empty. */
  lemma ToDouble(fs: Fs, ino: Ino, bn: int)
    requires Good(fs, ino) && ino.large && IsBn(bn) && NeedLarge(fs, ino, bn) <= |fs.st| && SlotOf(bn) == 7
    ensures var (f, n) := EnsureSlot(fs, ino, 7);
            && PlaceBlock(f, n, Double) != 0
            && (Entry(f.store, PlaceBlock(f, n, Double), bn / 256 - 7) == 0 ==> f.st != [])
  {
    if ino.addr[7] == 0 { TopFacts(fs, ino); }
  }

  /** Whatever had to be allocated on the way, the last word is still to be had. */
  lemma PlaceNeed(fs: Fs, ino: Ino, bn: int)
    requires Good(fs, ino) && ino.large && IsBn(bn) && NeedLarge(fs, ino, bn) <= |fs.st|
    ensures var (f, n, p) := ToPlace(fs, ino, bn); Entry(f.store, PlaceBlock(f, n, p), bn % 256) == 0 ==> f.st != []
  {
    var s := SlotOf(bn);
    var (f, n) := EnsureSlot(fs, ino, s);
    if ino.addr[s] == 0 { TopFacts(fs, ino); }
    if s == 7 {
      ToDouble(fs, ino, bn);
    }
  }

  lemma DoubleKept(fs: Fs, ino: Ino, k: int)
    requires Good(fs, ino) && ino.large && 0 <= k < WORDS && PlaceBlock(fs, ino, Double) != 0
    requires Entry(fs.store, PlaceBlock(fs, ino, Double), k) == 0 ==> fs.st != []
    ensures var f := EnsureWord(fs, ino, Double, k).0;
            && Progress(fs, ino, f, ino)
            && (forall bn :: IsBn(bn) ==> Lookup(ino, f.store, bn) == Lookup(ino, fs.store, bn))
  {
    EnsureWordKept(fs, ino, Double, k);
    KeptProgress(fs, ino, EnsureWord(fs, ino, Double, k).0, ino);
  }

  /** The place of bn leads to bn. */
  lemma PlaceLookup(fs: Fs, ino: Ino, bn: int, p: Place)
    requires ino.large && IsBn(bn) && p == PlaceFor(bn)
    ensures Entry(fs.store, PlaceBlock(fs, ino, p), bn % 256) == Lookup(ino, fs.store, bn)
  {
  }

  lemma ToPlaceKept(fs: Fs, ino: Ino, bn: int)
    requires Good(fs, ino) && ino.large && IsBn(bn) && NeedLarge(fs, ino, bn) <= |fs.st|
    ensures var (f, n, p) := ToPlace(fs, ino, bn);
            && Progress(fs, ino, f, n)
            && (forall k :: IsBn(k) ==> Lookup(n, f.store, k) == Lookup(ino, fs.store, k))
  {
    var s := SlotOf(bn);
    var (f, n) := EnsureSlot(fs, ino, s);
    EnsureSlotKept(fs, ino, s);
    KeptProgress(fs, ino, f, n);
    if s == 7 {
      ToDouble(fs, ino, bn);
      var k := bn / 256 - 7;
      assert 0 <= k < WORDS;
      var g := EnsureWord(f, n, Double, k).0;
      DoubleKept(f, n, k);
      ProgressTrans(fs, ino, f, n, g, n);
      assert ToPlace(fs, ino, bn) == (g, n, Below(k));
    }
  }

  ghost function BmapLarge(fs: Fs, ino: Ino, bn: int): (Fs, Ino, int)
    requires Good(fs, ino) && ino.large && IsBn(bn) && NeedLarge(fs, ino, bn) <= |fs.st|
  {
    var (f, n, p) := ToPlace(fs, ino, bn);
    PlaceNeed(fs, ino, bn);
    var (g, nb) := EnsureWord(f, n, p, bn % 256);
    (g, n, nb)
  }

  /** What every successful call of bmap owes its caller. */
  ghost predicate Mapped(fs: Fs, ino: Ino, fs': Fs, ino': Ino, bn: int, nb: int) {
    && Progress(fs, ino, fs', ino')
    && nb != 0 && Lookup(ino', fs'.store, bn) == nb
    && (forall k :: IsBn(k) && k != bn ==> Lookup(ino', fs'.store, k) == Lookup(ino, fs.store, k))
    && (Lookup(ino, fs.store, bn) == 0 ==> FreshFrom(fs, fs', nb))
  }

  lemma BmapLargeMapped(fs: Fs, ino: Ino, bn: int)
    requires Good(fs, ino) && ino.large && IsBn(bn) && NeedLarge(fs, ino, bn) <= |fs.st|
    ensures var (g, n, nb) := BmapLarge(fs, ino, bn); Mapped(fs, ino, g, n, bn, nb) && n.large
  {
    var (f, n, p) := ToPlace(fs, ino, bn);
    ToPlaceKept(fs, ino, bn);
    PlaceNeed(fs, ino, bn);
    EnsureWordKept(f, n, p, bn % 256);
    var (g, nb) := EnsureWord(f, n, p, bn % 256);
    PlaceLookup(f, n, bn, p);
    KeptProgress(f, n, g, n);
    ProgressTrans(fs, ino, f, n, g, n);
    assert f.st <= fs.st;
    PlaceLookup(g, n, bn, p);
  }

  /** bmap, when the free list holds the blocks it needs. */
  ghost function Bmap(fs: Fs, ino: Ino, bn: int): (Fs, Ino, int)
    requires Good(fs, ino) && IsBn(bn) && Need(fs, ino, bn) <= |fs.st|
  {
    if ino.large then BmapLarge(fs, ino, bn)
    else if bn < 8 then
      var (f, n) := EnsureSlot(fs, ino, bn);
      (f, n, n.addr[bn])
    else
      TopFacts(fs, ino); ConvertProgress(fs, ino); ConvertNeed(fs, ino, bn);
      var (f, n) := Convert(fs, ino);
      BmapLarge(f, n, bn)
  }

  lemma ConvertNeed(fs: Fs, ino: Ino, bn: int)
    requires Good(fs, ino) && !ino.large && IsBn(bn) && bn >= 8 && fs.st != [] && 0 < Top(fs) < |fs.store|
    ensures var (f, n) := Convert(fs, ino); NeedLarge(f, n, bn) + 1 == Need(fs, ino, bn) && |f.st| == |fs.st| - 1
  {
  }

  /** bmap returns the block of bn in the file as it then is, moves no other block of the file, loses and shares no
      block, and touches nothing outside the file; a block it has to allocate comes off the free list cleared. */
  lemma BmapCorrect(fs: Fs, ino: Ino, bn: int)
    requires Good(fs, ino) && IsBn(bn) && Need(fs, ino, bn) <= |fs.st|
    ensures var (f, n, nb) := Bmap(fs, ino, bn); Mapped(fs, ino, f, n, bn, nb)
  {
    if ino.large {
      BmapLargeMapped(fs, ino, bn);
    } else if bn < 8 {
      BmapSmall(fs, ino, bn);
    } else {
      TopFacts(fs, ino);
      ConvertProgress(fs, ino);
      ConvertNeed(fs, ino, bn);
      var (f, n) := Convert(fs, ino);
      forall k | IsBn(k)
        ensures Lookup(n, f.store, k) == Lookup(ino, fs.store, k)
      {
        ConvertMap(fs, ino, k);
      }
      BmapLargeMapped(f, n, bn);
      var (g, n', nb) := BmapLarge(f, n, bn);
      ProgressTrans(fs, ino, f, n, g, n');
    }
  }

  lemma BmapSmall(fs: Fs, ino: Ino, bn: int)
    requires Good(fs, ino) && !ino.large && 0 <= bn < 8 && Need(fs, ino, bn) <= |fs.st|
    ensures var (f, n) := EnsureSlot(fs, ino, bn); Mapped(fs, ino, f, n, bn, n.addr[bn])
  {
    EnsureSlotKept(fs, ino, bn);
    var (f, n) := EnsureSlot(fs, ino, bn);
    KeptProgress(fs, ino, f, n);
    if ino.addr[bn] == 0 {
      TopFacts(fs, ino);
      assert Top(fs) in fs.st;
    }
  }

  /** Asked again, bmap gives the same answer and changes nothing. */
  lemma BmapStable(fs: Fs, ino: Ino, bn: int)
    requires Good(fs, ino) && IsBn(bn) && Need(fs, ino, bn) <= |fs.st|
    ensures var (f, n, nb) := Bmap(fs, ino, bn);
            Good(f, n) && Need(f, n, bn) == 0 && Bmap(f, n, bn) == (f, n, nb)
  {
    BmapCorrect(fs, ino, bn);
    var (f, n, nb) := Bmap(fs, ino, bn);
    assert !n.large ==> bn < 8;
  }

  lemma MappedNeedsNothing(fs: Fs, ino: Ino, bn: int)
    requires Good(fs, ino) && IsBn(bn) && Lookup(ino, fs.store, bn) != 0
    ensures Need(fs, ino, bn) == 0 && Bmap(fs, ino, bn) == (fs, ino, Lookup(ino, fs.store, bn))
  {
  }

  /** bmap changes nothing if and only if the block is already there. */
  lemma StillIffMapped(fs: Fs, ino: Ino, bn: int)
    requires Good(fs, ino) && IsBn(bn) && Need(fs, ino, bn) <= |fs.st|
    ensures Bmap(fs, ino, bn).0 == fs && Bmap(fs, ino, bn).1 == ino <==> Lookup(ino, fs.store, bn) != 0
  {
    BmapCorrect(fs, ino, bn);
    if Lookup(ino, fs.store, bn) != 0 { MappedNeedsNothing(fs, ino, bn); }
  }
}
