/** Files as byte sequences: what reading and writing through bmap mean. */
module FileBytes {
  import opened FreeList
  import opened FileTree
  import opened FileGrow
  import opened BlockMap
  import opened FileCensus

  const BSIZE := 512
  const FMAX := 0x100_0000

  /* ---------------------------------------------------------------- bytes of a block of words, low byte first */

  function ByteOf(x: int, odd: bool): int { if odd then x / 256 % 256 else x % 256 }

  function ByteAt(w: seq<int>, k: int): int { ByteOf(At(w, k / 2), k % 2 == 1) }

  function WithByte(x: int, odd: bool, c: int): int { if odd then x % 256 + 256 * c else x - x % 256 + c }

  predicate IsByte(c: int) { 0 <= c < 256 }

  function SetByte(w: seq<int>, k: int, c: int): (r: seq<int>)
    requires 0 <= k < 2 * |w|
    ensures |r| == |w|
  {
    w[k / 2 := WithByte(w[k / 2], k % 2 == 1, c)]
  }

  lemma WithByteOf(x: int, c: int)
    requires IsByte(c)
    ensures ByteOf(WithByte(x, false, c), false) == c && ByteOf(WithByte(x, false, c), true) == ByteOf(x, true)
    ensures ByteOf(WithByte(x, true, c), true) == c && ByteOf(WithByte(x, true, c), false) == ByteOf(x, false)
  {
  }

  lemma SetByteAt(w: seq<int>, k: int, c: int, j: int)
    requires 0 <= k < 2 * |w| && IsByte(c) && 0 <= j
    ensures ByteAt(SetByte(w, k, c), j) == if j == k then c else ByteAt(w, j)
  {
    WithByteOf(w[k / 2], c);
  }

  ghost predicate AllBytes(p: seq<int>) { forall i :: 0 <= i < |p| ==> IsByte(p[i]) }

  /** Bytes p are copied into the block from byte o on. */
  function StoreBytes(w: seq<int>, o: int, p: seq<int>): (r: seq<int>)
    requires 0 <= o && o + |p| <= 2 * |w|
    ensures |r| == |w|
    decreases |p|
  {
    if p == [] then w else StoreBytes(SetByte(w, o, p[0]), o + 1, p[1..])
  }

  lemma {:induction false} StoreBytesAt(w: seq<int>, o: int, p: seq<int>, j: int)
    requires 0 <= o && o + |p| <= 2 * |w| && AllBytes(p) && 0 <= j
    ensures ByteAt(StoreBytes(w, o, p), j) == if o <= j < o + |p| then p[j-o] else ByteAt(w, j)
    decreases |p|
  {
    if p != [] {
      SetByteAt(w, o, p[0], j);
      StoreBytesAt(SetByte(w, o, p[0]), o + 1, p[1..], j);
    }
  }

  /** A whole block overwritten does not remember what the buffer held: getblk will do. */
  lemma {:induction false} StoreWhole(w: seq<int>, w': seq<int>, o: int, p: seq<int>)
    requires |w| == |w'| && 0 <= o && o % 2 == 0 && o + |p| == 2 * |w| && AllBytes(p)
    requires forall i :: 0 <= i < o / 2 ==> w[i] == w'[i]
    ensures StoreBytes(w, o, p) == StoreBytes(w', o, p)
    decreases |p|
  {
    if p == [] {
      assert w == w';
    } else {
      var a, b := SetByte(SetByte(w, o, p[0]), o + 1, p[1]), SetByte(SetByte(w', o, p[0]), o + 1, p[1]);
      TwoBytes(w, o, p[0], p[1]);
      TwoBytes(w', o, p[0], p[1]);
      assert p[1..][0] == p[1] && p[1..][1..] == p[2..];
      StoreWhole(a, b, o + 2, p[2..]);
    }
  }

  lemma TwoBytes(w: seq<int>, o: int, c: int, d: int)
    requires 0 <= o && o % 2 == 0 && o + 2 <= 2 * |w| && IsByte(c) && IsByte(d)
    ensures SetByte(SetByte(w, o, c), o + 1, d) == w[o / 2 := c + 256 * d]
  {
    assert (o + 1) / 2 == o / 2;
  }

  function LoadBytes(w: seq<int>, o: int, n: nat): (p: seq<int>)
    ensures |p| == n && forall i :: 0 <= i < n ==> p[i] == ByteAt(w, o + i)
  {
    seq(n, i => ByteAt(w, o + i))
  }

  /* ---------------------------------------------------------------- the bytes of a file */

  /** Byte k of the file; a hole reads as zero. */
  ghost function FileByte(ino: Ino, store: Store, k: int): int {
    var d := Lookup(ino, store, k / BSIZE);
    if d == 0 then 0 else ByteAt(Words(store, d), k % BSIZE)
  }

  /** The file is the byte sequence s, and nothing lies beyond it. */
  ghost predicate IsFile(ino: Ino, store: Store, s: seq<int>) {
    forall k :: 0 <= k < FMAX ==> FileByte(ino, store, k) == if k < |s| then s[k] else 0
  }

  ghost predicate SameBytes(ino: Ino, store: Store, ino': Ino, store': Store) {
    forall k :: 0 <= k < FMAX ==> FileByte(ino', store', k) == FileByte(ino, store, k)
  }

  /** Writing p at off, on a zero-filled sparse byte array with a size; writing nothing does nothing. */
  function Patched(s: seq<int>, off: nat, p: seq<int>): (r: seq<int>)
    ensures |r| == if p == [] then |s| else Max(|s|, off + |p|)
    ensures forall k :: 0 <= k < |r| ==> r[k] == if off <= k < off + |p| then p[k-off] else if k < |s| then s[k] else 0
  {
    if p == [] then s else
    seq(Max(|s|, off + |p|), k requires 0 <= k < Max(|s|, off + |p|) =>
      if off <= k < off + |p| then p[k-off] else if k < |s| then s[k] else 0)
  }

  /** Reading n bytes at off stops at the end of the file. */
  function Slice(s: seq<int>, off: nat, n: nat): seq<int> { if off >= |s| then [] else s[off..Min(off + n, |s|)] }

  function Max(a: nat, b: nat): nat { if a < b then b else a }
  function Min(a: int, b: int): int { if a < b then a else b }

  /* ---------------------------------------------------------------- one block */

  /** What file operations owe the rest of the volume. */
  ghost predicate Tidy(fs: Fs, ino: Ino, fs': Fs, ino': Ino) {
    Good(fs', ino') && Conserved(fs, ino, fs', ino') && OutsideKept(fs, ino, fs')
  }

  lemma TidyTrans(fs: Fs, ino: Ino, fs': Fs, ino': Ino, fs'': Fs, ino'': Ino)
    requires Tidy(fs, ino, fs', ino') && Tidy(fs', ino', fs'', ino'')
    ensures Tidy(fs, ino, fs'', ino'')
  {
  }

  /** bmap changes no byte: a block it adds is clear. */
  lemma MapKeepsBytes(fs: Fs, ino: Ino, bn: int)
    requires Good(fs, ino) && IsBn(bn) && Need(fs, ino, bn) <= |fs.st|
    ensures var (f, n, nb) := Bmap(fs, ino, bn);
            Tidy(fs, ino, f, n) && SameBytes(ino, fs.store, n, f.store) && Lookup(n, f.store, bn) == nb
                && 0 < nb < |f.store|
  {
    BmapCorrect(fs, ino, bn);
    var (f, n, nb) := Bmap(fs, ino, bn);
    DataCounted(f, n, bn);
    forall k | 0 <= k < FMAX
      ensures FileByte(n, f.store, k) == FileByte(ino, fs.store, k)
    {
      var b := k / BSIZE;
      assert IsBn(b);
      assert Stays(fs, ino, f, n, b);
      ZeroByte(k % BSIZE);
    }
  }

  lemma ZeroByte(k: int)
    ensures ByteAt(Zeros(), k) == 0
  {
  }

  /** The part of a transfer that falls into one block. */
  datatype Piece = Piece(bn: int, on: int, bytes: seq<int>)

  ghost predicate GoodPiece(p: Piece) { IsBn(p.bn) && 0 <= p.on && p.on + |p.bytes| <= BSIZE && AllBytes(p.bytes) }

  function Start(p: Piece): int { BSIZE * p.bn + p.on }

  ghost function WriteChunk(fs: Fs, ino: Ino, p: Piece): (r: (Fs, Ino))
    requires Good(fs, ino) && GoodPiece(p) && Need(fs, ino, p.bn) <= |fs.st|
    ensures Tidy(fs, ino, r.0, r.1)
  {
    MapKeepsBytes(fs, ino, p.bn);
    var (f, n, nb) := Bmap(fs, ino, p.bn);
    var words := StoreBytes(f.store[nb], p.on, p.bytes);
    DataWrite(f, n, p.bn, words);
    TidyTrans(fs, ino, f, n, f.(store := f.store[nb := words]), n);
    (f.(store := f.store[nb := words]), n)
  }

  ghost predicate Wrote(ino: Ino, store: Store, ino': Ino, store': Store, off: int, p: seq<int>) {
    forall k :: 0 <= k < FMAX ==>
      FileByte(ino', store', k) == if off <= k < off + |p| then p[k-off] else FileByte(ino, store, k)
  }

  lemma DataWriteByte(fs: Fs, ino: Ino, bn: int, w: seq<int>, k: int)
    requires Good(fs, ino) && IsBn(bn) && Lookup(ino, fs.store, bn) != 0 && |w| == WORDS && 0 <= k < FMAX
    ensures 0 < Lookup(ino, fs.store, bn) < |fs.store|
    ensures FileByte(ino, fs.store[Lookup(ino, fs.store, bn) := w], k)
            == if k / BSIZE == bn then ByteAt(w, k % BSIZE) else FileByte(ino, fs.store, k)
  {
    DataWrite(fs, ino, bn, w);
    var b := k / BSIZE;
    assert IsBn(b);
    GoodHasIno(fs, ino);
    if b != bn && Lookup(ino, fs.store, b) == Lookup(ino, fs.store, bn) {
      LookupInjective(ino, fs.store, bn, b);
    }
  }

  lemma WriteChunkBytes(fs: Fs, ino: Ino, p: Piece)
    requires Good(fs, ino) && GoodPiece(p) && Need(fs, ino, p.bn) <= |fs.st|
    ensures var (f, n) := WriteChunk(fs, ino, p); Wrote(ino, fs.store, n, f.store, Start(p), p.bytes)
  {
    MapKeepsBytes(fs, ino, p.bn);
    var (f, n, nb) := Bmap(fs, ino, p.bn);
    var store' := f.store[nb := StoreBytes(f.store[nb], p.on, p.bytes)];
    assert WriteChunk(fs, ino, p) == (f.(store := store'), n);
    StoreIsWrite(f, n, p);
    SameThenWrote(ino, fs.store, n, f.store, n, store', Start(p), p.bytes);
  }

  /** Storing bytes in a block that is there writes them. */
  lemma StoreIsWrite(f: Fs, n: Ino, p: Piece)
    requires Good(f, n) && GoodPiece(p) && 0 < Lookup(n, f.store, p.bn) < |f.store|
    ensures var d := Lookup(n, f.store, p.bn);
            Wrote(n, f.store, n, f.store[d := StoreBytes(f.store[d], p.on, p.bytes)], Start(p), p.bytes)
  {
    var d, off := Lookup(n, f.store, p.bn), Start(p);
    var words := StoreBytes(f.store[d], p.on, p.bytes);
    var store' := f.store[d := words];
    forall k | 0 <= k < FMAX
      ensures FileByte(n, store', k) == if off <= k < off + |p.bytes| then p.bytes[k-off] else FileByte(n, f.store, k)
    {
      DataWriteByte(f, n, p.bn, words, k);
      StoreBytesAt(f.store[d], p.on, p.bytes, k % BSIZE);
      InBlock(p, k);
    }
  }

  lemma SameThenWrote(ino: Ino, store: Store, ino': Ino, store': Store, ino'': Ino, store'': Store, off: int,
                      p: seq<int>)
    requires SameBytes(ino, store, ino', store') && Wrote(ino', store', ino'', store'', off, p)
    ensures Wrote(ino, store, ino'', store'', off, p)
  {
    forall k | 0 <= k < FMAX
      ensures FileByte(ino'', store'', k) == if off <= k < off + |p| then p[k-off] else FileByte(ino, store, k)
    {
      assert FileByte(ino', store', k) == FileByte(ino, store, k);
    }
  }

  /** Positions inside one block. */
  lemma InBlock(p: Piece, k: int)
    requires 0 <= p.on && p.on + |p.bytes| <= BSIZE
    ensures Start(p) <= k < Start(p) + |p.bytes| <==> k / BSIZE == p.bn && p.on <= k % BSIZE < p.on + |p.bytes|
    ensures k / BSIZE == p.bn ==> k % BSIZE - p.on == k - Start(p)
  {
  }

  /* ---------------------------------------------------------------- writei */

  function Chunk(off: int, n: nat): (c: nat)
    requires 0 <= off
    ensures c <= n && (n > 0 ==> c > 0)
  {
    Min(BSIZE - off % BSIZE, n)
  }

  function FirstPiece(off: int, data: seq<int>): Piece
    requires 0 <= off
  {
    Piece(off / BSIZE, off % BSIZE, data[..Chunk(off, |data|)])
  }

  /** writei is one update of the byte array, whatever blocks it crosses, adds or converts: one more block of it. */
  lemma WroteTrans(ino: Ino, store: Store, ino': Ino, store': Store, ino'': Ino, store'': Store, off: int, pos: int,
                   p: seq<int>, q: seq<int>)
    requires Wrote(ino, store, ino', store', off, p) && pos == off + |p| && Wrote(ino', store', ino'', store'', pos, q)
    ensures Wrote(ino, store, ino'', store'', off, p + q)
  {
    forall k | 0 <= k < FMAX
      ensures FileByte(ino'', store'', k) == if off <= k < off + |p + q| then (p + q)[k-off]
          else FileByte(ino, store, k)
    {
      assert FileByte(ino', store', k) == if off <= k < off + |p| then p[k-off] else FileByte(ino, store, k);
    }
  }

  /** How a write goes: the states it passes through and where it stands in each, block by block. */
  datatype Plan = Plan(off: int, data: seq<int>, ps: seq<Piece>, fs: seq<Fs>, ns: seq<Ino>, at: seq<int>)

  ghost predicate Turn(f: Fs, n: Ino, p: Piece, f': Fs, n': Ino) {
    Good(f, n) && GoodPiece(p) && Need(f, n, p.bn) <= |f.st| && (f', n') == WriteChunk(f, n, p)
  }

  /** Piece p is what the loop takes at position k of the data, which leaves it at position k'. */
  ghost predicate Takes(off: int, data: seq<int>, k: int, p: Piece, k': int) {
    0 <= off && 0 <= k < k' <= |data| && k' == k + |p.bytes| && p == FirstPiece(off + k, data[k..])
  }

  /** Each element leads from one state to the next. */
  ghost predicate Linked<A, B, P>(step: (A, B, P, A, B) -> bool, fs: seq<A>, ns: seq<B>, ps: seq<P>)
    requires |fs| == |ns| == |ps| + 1
  {
    forall i :: 0 <= i < |ps| ==> step(fs[i], ns[i], ps[i], fs[i+1], ns[i+1])
  }

  lemma LinkedMore<A, B, P>(step: (A, B, P, A, B) -> bool, f: A, n: B, p: P, fs: seq<A>, ns: seq<B>, ps: seq<P>)
    requires |fs| == |ns| == |ps| + 1 && Linked(step, fs, ns, ps) && step(f, n, p, fs[0], ns[0])
    ensures Linked(step, [f] + fs, [n] + ns, [p] + ps)
  {
    forall i | 0 <= i < |[p] + ps|
      ensures step(([f] + fs)[i], ([n] + ns)[i], ([p] + ps)[i], ([f] + fs)[i+1], ([n] + ns)[i+1])
    {
      assert i > 0 ==> step(fs[i-1], ns[i-1], ps[i-1], fs[i], ns[i]);
    }
  }

  ghost predicate AllTake(pl: Plan)
    requires |pl.at| == |pl.ps| + 1
  {
    forall i :: 0 <= i < |pl.ps| ==> Takes(pl.off, pl.data, pl.at[i], pl.ps[i], pl.at[i+1])
  }

  ghost predicate IsPlan(pl: Plan, f: Fs, n: Ino) {
    && |pl.fs| == |pl.ns| == |pl.at| == |pl.ps| + 1
    && pl.fs[0] == f && pl.ns[0] == n && pl.at[0] == 0 && pl.at[|pl.ps|] == |pl.data|
    && Linked(Turn, pl.fs, pl.ns, pl.ps) && AllTake(pl)
  }

  /** The free list holds what each block of the write will need when its turn comes. */
  ghost predicate Fits(f: Fs, n: Ino, off: int, data: seq<int>) {
    exists pl: Plan :: IsPlan(pl, f, n) && pl.off == off && pl.data == data
  }

  lemma Extend(q: Plan, f: Fs, n: Ino, off: int, data: seq<int>, p: Piece, f': Fs, n': Ino) returns (pl: Plan)
    requires Turn(f, n, p, f', n') && Takes(off, data, 0, p, |p.bytes|)
    requires IsPlan(q, f', n') && q.off == off + |p.bytes| && q.data == data[|p.bytes|..]
    ensures IsPlan(pl, f, n) && pl.off == off && pl.data == data
  {
    pl := Plan(off, data, [p] + q.ps, [f] + q.fs, [n] + q.ns, [0] + Moved(q.at, |p.bytes|));
    LinkedMore(Turn, f, n, p, q.fs, q.ns, q.ps);
    ExtendTakes(q, off, data, p, pl);
  }

  lemma ExtendTakes(q: Plan, off: int, data: seq<int>, p: Piece, pl: Plan)
    requires Takes(off, data, 0, p, |p.bytes|) && |q.at| == |q.ps| + 1 && q.at[0] == 0
    requires AllTake(q) && q.off == off + |p.bytes| && q.data == data[|p.bytes|..]
    requires pl.at == [0] + Moved(q.at, |p.bytes|) && pl.ps == [p] + q.ps && pl.off == off && pl.data == data
    ensures AllTake(pl)
  {
    forall i | 0 <= i < |pl.ps|
      ensures Takes(off, data, pl.at[i], pl.ps[i], pl.at[i+1])
    {
      if i > 0 { TakesLater(off, data, |p.bytes|, q.at[i-1], q.ps[i-1], q.at[i]); }
    }
  }

  function Moved(at: seq<int>, c: int): (r: seq<int>)
    ensures |r| == |at| && forall i :: 0 <= i < |at| ==> r[i] == at[i] + c
  {
    seq(|at|, i requires 0 <= i < |at| => at[i] + c)
  }

  /** What is taken from the rest of the data is taken from the data. */
  lemma TakesLater(off: int, data: seq<int>, c: nat, k: int, p: Piece, k': int)
    requires 0 <= off && c <= |data| && Takes(off + c, data[c..], k, p, k')
    ensures Takes(off, data, k + c, p, k' + c)
  {
    assert data[c..][k..] == data[k+c..];
    assert off + c + k == off + (k + c);
  }

  /** Along the plan, what has been written is what the file has. */
  lemma {:induction false} PlanWrote(pl: Plan, f: Fs, n: Ino, i: nat)
    requires IsPlan(pl, f, n) && Good(f, n) && i <= |pl.ps| && 0 <= pl.off && pl.off + |pl.data| <= FMAX
    ensures 0 <= pl.at[i] <= |pl.data| && WriteDid(f, n, pl.fs[i], pl.ns[i], pl.off, pl.data[..pl.at[i]])
  {
    if i > 0 {
      PlanWrote(pl, f, n, i - 1);
      PlanStep(pl, f, n, i - 1);
    }
  }

  lemma PlanStep(pl: Plan, f: Fs, n: Ino, i: nat)
    requires IsPlan(pl, f, n) && i < |pl.ps| && 0 <= pl.off && pl.off + |pl.data| <= FMAX
    requires 0 <= pl.at[i] <= |pl.data| && WriteDid(f, n, pl.fs[i], pl.ns[i], pl.off, pl.data[..pl.at[i]])
    ensures 0 <= pl.at[i+1] <= |pl.data| && WriteDid(f, n, pl.fs[i+1], pl.ns[i+1], pl.off, pl.data[..pl.at[i+1]])
  {
    assert Takes(pl.off, pl.data, pl.at[i], pl.ps[i], pl.at[i+1]);
    var p := PlanTurn(pl, i);
    FirstStarts(pl.off + pl.at[i], pl.data[pl.at[i]..]);
    WroteNext(f, n, pl.fs[i], pl.ns[i], pl.off, pl.data[..pl.at[i]], p);
    assert pl.data[..pl.at[i]] + p.bytes == pl.data[..pl.at[i+1]];
  }

  lemma FirstStarts(off: int, data: seq<int>)
    requires 0 <= off
    ensures Start(FirstPiece(off, data)) == off
  {
  }

  lemma PlanTurn(pl: Plan, i: int) returns (p: Piece)
    requires |pl.fs| > 0 && |pl.ns| > 0 && IsPlan(pl, pl.fs[0], pl.ns[0]) && 0 <= i <= |pl.ps| && pl.at[i] < |pl.data|
    ensures i < |pl.ps| && p == pl.ps[i] && Turn(pl.fs[i], pl.ns[i], p, pl.fs[i+1], pl.ns[i+1])
    ensures 0 <= pl.at[i] <= pl.at[i+1] <= |pl.data| && pl.at[i+1] == pl.at[i] + |p.bytes| && |p.bytes| > 0
    ensures 0 <= pl.off && p == FirstPiece(pl.off + pl.at[i], pl.data[pl.at[i]..])
    ensures pl.data[pl.at[i]..][|p.bytes|..] == pl.data[pl.at[i+1]..]
  {
    TakesAt(pl, i);
    p := pl.ps[i];
  }

  lemma TakesAt(pl: Plan, i: int)
    requires |pl.at| == |pl.ps| + 1 && AllTake(pl) && pl.at[|pl.ps|] == |pl.data| && 0 <= i <= |pl.ps|
        && pl.at[i] < |pl.data|
    ensures i < |pl.ps| && 0 <= pl.at[i] <= pl.at[i+1] <= |pl.data| && pl.at[i+1] == pl.at[i] + |pl.ps[i].bytes|
    ensures |pl.ps[i].bytes| > 0 && 0 <= pl.off && pl.ps[i] == FirstPiece(pl.off + pl.at[i], pl.data[pl.at[i]..])
    ensures pl.data[pl.at[i]..][|pl.ps[i].bytes|..] == pl.data[pl.at[i+1]..]
  {
    assert Takes(pl.off, pl.data, pl.at[i], pl.ps[i], pl.at[i+1]);
  }

  lemma PlanEnd(pl: Plan, i: int)
    requires |pl.fs| > 0 && |pl.ns| > 0 && IsPlan(pl, pl.fs[0], pl.ns[0]) && 0 <= i <= |pl.ps| && pl.at[i] == |pl.data|
    ensures i == |pl.ps|
  {
    assert i < |pl.ps| ==> Takes(pl.off, pl.data, pl.at[i], pl.ps[i], pl.at[i+1]);
  }

  /** What one more block adds to a write under way. */
  lemma WroteNext(f0: Fs, n0: Ino, f: Fs, n: Ino, off: int, done: seq<int>, p: Piece)
    requires WriteDid(f0, n0, f, n, off, done) && GoodPiece(p) && Start(p) == off + |done| && Need(f, n, p.bn) <= |f.st|
    requires off + |done| + |p.bytes| <= FMAX
    ensures var r := WriteChunk(f, n, p); WriteDid(f0, n0, r.0, r.1, off, done + p.bytes)
  {
    var r := WriteChunk(f, n, p);
    ChunkDid(f, n, p);
    WriteDidTrans(f0, n0, f, n, r.0, r.1, off, Start(p), done, p.bytes);
  }

  lemma ChunkDid(f: Fs, n: Ino, p: Piece)
    requires Good(f, n) && GoodPiece(p) && Need(f, n, p.bn) <= |f.st| && Start(p) + |p.bytes| <= FMAX
    ensures var r := WriteChunk(f, n, p); WriteDid(f, n, r.0, r.1, Start(p), p.bytes)
  {
    WriteChunkBytes(f, n, p);
  }

  lemma WriteDidTrans(f0: Fs, n0: Ino, f: Fs, n: Ino, f': Fs, n': Ino, off: int, pos: int, done: seq<int>,
                      more: seq<int>)
    requires WriteDid(f0, n0, f, n, off, done) && pos == off + |done| && WriteDid(f, n, f', n', pos, more)
    ensures WriteDid(f0, n0, f', n', off, done + more)
  {
    TidyTrans(f0, n0, f, n, f', n');
    WroteTrans(n0, f0.store, n, f.store, n', f'.store, off, pos, done, more);
  }

  /** Four free blocks for each block touched are always enough. */
  lemma {:induction false} FitsWhenRoom(f: Fs, n: Ino, off: int, data: seq<int>) returns (pl: Plan)
    requires Good(f, n) && 0 <= off && off + |data| <= FMAX && AllBytes(data) && 4 * |Touched(off, |data|)| <= |f.st|
    ensures IsPlan(pl, f, n) && pl.off == off && pl.data == data && Fits(f, n, off, data)
    decreases |data|
  {
    if data == [] {
      pl := Plan(off, data, [], [f], [n], [0]);
    } else {
      var p := FirstPiece(off, data);
      FirstTakes(off, data);
      var m := |Touched(off, |data|)|;
      TouchedNext(off, |data|);
      ChunkTakes(f, n, p, m);
      var r, c := WriteChunk(f, n, p), |p.bytes|;
      var q := FitsWhenRoom(r.0, r.1, off + c, data[c..]);
      pl := Extend(q, f, n, off, data, p, r.0, r.1);
    }
  }

  lemma TouchedNext(off: int, n: nat)
    requires 0 <= off && off + n <= FMAX && n > 0
    ensures |Touched(off, n)| == 1 + |Touched(off + Chunk(off, n), n - Chunk(off, n))|
  {
  }

  /** One block of the write takes four free blocks at most. */
  lemma ChunkTakes(f: Fs, n: Ino, p: Piece, m: nat)
    requires Good(f, n) && GoodPiece(p) && 0 < m && 4 * m <= |f.st|
    ensures Need(f, n, p.bn) <= |f.st| && 4 * (m - 1) <= |WriteChunk(f, n, p).0.st|
  {
    NeedAtMost(f, n, p.bn);
    BmapTakes(f, n, p.bn);
  }

  lemma FirstTakes(off: int, data: seq<int>)
    requires 0 <= off && off + |data| <= FMAX && AllBytes(data) && data != []
    ensures var p := FirstPiece(off, data);
            GoodPiece(p) && Takes(off, data, 0, p, |p.bytes|) && |p.bytes| == Chunk(off, |data|)
  {
    assert data[0..] == data;
  }

  lemma NeedAtMost(fs: Fs, ino: Ino, bn: int)
    ensures Need(fs, ino, bn) <= 4
  {
  }

  /** bmap takes no more blocks than it needs. */
  lemma BmapTakes(fs: Fs, ino: Ino, bn: int)
    requires Good(fs, ino) && IsBn(bn) && Need(fs, ino, bn) <= |fs.st|
    ensures |fs.st| - Need(fs, ino, bn) <= |Bmap(fs, ino, bn).0.st|
  {
    if ino.large {
      LargeTakes(fs, ino, bn);
    } else if bn >= 8 {
      TopFacts(fs, ino);
      ConvertProgress(fs, ino);
      ConvertNeed(fs, ino, bn);
      var (f, n) := Convert(fs, ino);
      LargeTakes(f, n, bn);
    }
  }

  lemma LargeTakes(fs: Fs, ino: Ino, bn: int)
    requires Good(fs, ino) && ino.large && IsBn(bn) && NeedLarge(fs, ino, bn) <= |fs.st|
    ensures |fs.st| - NeedLarge(fs, ino, bn) <= |BmapLarge(fs, ino, bn).0.st|
  {
    PlaceNeed(fs, ino, bn);
    if SlotOf(bn) == 7 { BelowTakes(fs, ino, bn); } else if ino.addr[SlotOf(bn)] == 0 { TopFacts(fs, ino); }
  }

  lemma BelowTakes(fs: Fs, ino: Ino, bn: int)
    requires Good(fs, ino) && ino.large && IsBn(bn) && NeedLarge(fs, ino, bn) <= |fs.st| && SlotOf(bn) == 7
    ensures var (f, n, p) := ToPlace(fs, ino, bn);
            |fs.st| - NeedLarge(fs, ino, bn) <= |f.st| - if Entry(f.store, PlaceBlock(f, n, p), bn % 256) == 0 then 1
                else 0
  {
    ToDouble(fs, ino, bn);
    if ino.addr[7] == 0 { TopFacts(fs, ino); }
    var (f, n) := EnsureSlot(fs, ino, 7);
    var k := bn / 256 - 7;
    assert n.addr[7] == PlaceBlock(f, n, Double);
  }

  /* ---------------------------------------------------------------- readi */

  /** The blocks that reading n bytes at off goes through, in order. */
  function Touched(off: int, n: nat): (bs: seq<int>)
    requires 0 <= off && off + n <= FMAX
    ensures forall i :: 0 <= i < |bs| ==> IsBn(bs[i])
    decreases n
  {
    if n == 0 then [] else [off / BSIZE] + Touched(off + Chunk(off, n), n - Chunk(off, n))
  }

  /** How much of a read of n bytes at off lies inside the file. */
  function Within(size: int, off: int, n: nat): (m: nat)
    ensures m <= n
  {
    if size <= off then 0 else Min(n, size - off)
  }

  /** A whole write: the volume stays in order and the file's bytes are updated, all of them and no others. */
  ghost predicate WriteDid(fs: Fs, ino: Ino, fs': Fs, ino': Ino, off: int, data: seq<int>) {
    off + |data| <= FMAX && Tidy(fs, ino, fs', ino') && Wrote(ino, fs.store, ino', fs'.store, off, data)
  }

  /** A whole read: the bytes from off on, as many as asked for or as there are; no byte changes. */
  ghost predicate ReadDid(fs: Fs, ino: Ino, fs': Fs, ino': Ino, size: int, off: int, n: int, got: seq<int>) {
    && Tidy(fs, ino, fs', ino') && SameBytes(ino, fs.store, ino', fs'.store)
    && 0 <= n && |got| == Within(size, off, n)
    && forall i :: 0 <= i < |got| ==> got[i] == FileByte(ino, fs.store, off + i)
  }

  /** Part of a read: the bytes got so far are the file's from off on, and none has changed. */
  ghost predicate Got(fs: Fs, ino: Ino, fs': Fs, ino': Ino, off: int, got: seq<int>) {
    && Tidy(fs, ino, fs', ino') && SameBytes(ino, fs.store, ino', fs'.store)
    && forall i :: 0 <= i < |got| ==> got[i] == FileByte(ino, fs.store, off + i)
  }

  lemma GotTrans(fs: Fs, ino: Ino, fs': Fs, ino': Ino, fs'': Fs, ino'': Ino, off: int, pos: int, got: seq<int>,
                 more: seq<int>)
    requires Got(fs, ino, fs', ino', off, got) && pos == off + |got| && Got(fs', ino', fs'', ino'', pos, more)
    requires 0 <= off && off + |got| + |more| <= FMAX
    ensures Got(fs, ino, fs'', ino'', off, got + more)
  {
    TidyTrans(fs, ino, fs', ino', fs'', ino'');
    forall i | 0 <= i < |got + more|
      ensures (got + more)[i] == FileByte(ino, fs.store, off + i)
    {
      if i >= |got| {
        assert more[i-|got|] == FileByte(ino', fs'.store, pos + (i - |got|));
        assert FileByte(ino', fs'.store, off + i) == FileByte(ino, fs.store, off + i);
      }
    }
  }

  /** The states bmap leads through, for block bn and those after it: a read fills in holes, so it too needs blocks. */
  datatype Trace = Trace(fs: seq<Fs>, ns: seq<Ino>)

  ghost predicate Maps(f: Fs, n: Ino, bn: int, f': Fs, n': Ino) {
    Good(f, n) && IsBn(bn) && Need(f, n, bn) <= |f.st| && f' == Bmap(f, n, bn).0 && n' == Bmap(f, n, bn).1
  }

  ghost predicate IsTrace(t: Trace, f: Fs, n: Ino, bn: int, m: nat) {
    && |t.fs| == |t.ns| == m + 1 && t.fs[0] == f && t.ns[0] == n
    && forall i :: 0 <= i < m ==> Maps(t.fs[i], t.ns[i], bn + i, t.fs[i+1], t.ns[i+1])
  }

  ghost predicate ReadFits(f: Fs, n: Ino, off: int, len: nat) {
    exists t: Trace :: IsTrace(t, f, n, off / BSIZE, Spanned(off, len))
  }

  /** How many blocks len bytes at off lie in. */
  function Spanned(off: int, len: nat): (m: nat) { if len == 0 then 0 else (off % BSIZE + len - 1) / BSIZE + 1 }

  /** Position k of a read of len bytes at off is in block number |_k_| of those spanned. */
  lemma BlockNumber(off: int, len: nat, k: nat)
    requires 0 <= off && k < len
    ensures 0 <= (off + k) / BSIZE - off / BSIZE < Spanned(off, len)
  {
  }

  lemma ChunkBytes(fs: Fs, ino: Ino, off: int, c: nat)
    requires 0 <= off && off % BSIZE + c <= BSIZE && 0 < Lookup(ino, fs.store, off / BSIZE) < |fs.store|
    ensures forall i :: 0 <= i < c ==>
      LoadBytes(fs.store[Lookup(ino, fs.store, off / BSIZE)], off % BSIZE, c)[i] == FileByte(ino, fs.store, off + i)
  {
    var got := LoadBytes(fs.store[Lookup(ino, fs.store, off / BSIZE)], off % BSIZE, c);
    forall i | 0 <= i < c
      ensures got[i] == FileByte(ino, fs.store, off + i)
    {
      InBlock(Piece(off / BSIZE, off % BSIZE, got), off + i);
    }
  }
}
