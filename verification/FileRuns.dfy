/** Any number of files, over any run of reads, writes and truncations: each behaves as its own byte sequence, and every
    block of the volume stays accounted for. */
module FileRuns {
  import opened Counting
  import opened FreeList
  import opened FileTree
  import opened FileGrow
  import opened BlockMap
  import opened FileCensus
  import opened FileBytes
  import Longs

  datatype FileOp = Writes(i: int, off: nat, data: seq<int>) | Reads(i: int, off: nat, n: nat, got: seq<int>)
      | Truncates(i: int)

  /** The volume and the sizes kept in the inodes. */
  datatype Files = Files(v: Vol, sizes: seq<nat>)

  /** What readi, writei and itrunc do to file i (the contracts of FileIO.Readi, FileIO.Writei and Volume.Itrunc, with
      the counts and offsets they ask for). */
  ghost predicate Did(s: Files, op: FileOp, s': Files) {
    && 0 <= op.i < |s.v.inos| == |s.sizes| && |s'.v.inos| == |s.v.inos|
    && s'.v.inos == s.v.inos[op.i := s'.v.inos[op.i]]
    && var ino, ino', size := s.v.inos[op.i], s'.v.inos[op.i], s.sizes[op.i];
       match op
       case Writes(i, off, data) =>
         && |data| <= Longs.MAXINT && off + |data| < FMAX && WriteDid(s.v.fs, ino, s'.v.fs, ino', off, data)
         && s'.sizes == s.sizes[i := if data == [] then size else Max(size, off + |data|)]
       case Reads(i, off, n, got) =>
         && n <= Longs.MAXINT && off < Longs.HALF && ReadDid(s.v.fs, ino, s'.v.fs, ino', size, off, n, got)
         && s'.sizes == s.sizes
       case Truncates(i) => Truncated(s.v.fs, ino, s'.v.fs, ino') && s'.sizes == s.sizes[i := 0]
  }

  /** The same operation on plain byte sequences. */
  function Abstract(c: seq<seq<int>>, op: FileOp): seq<seq<int>>
    requires 0 <= op.i < |c|
  {
    match op
    case Writes(i, off, data) => c[i := Patched(c[i], off, data)]
    case Reads(_, _, _, _) => c
    case Truncates(i) => c[i := []]
  }

  /** File i holds exactly the bytes c[i]. */
  ghost predicate Refines(s: Files, c: seq<seq<int>>) {
    && |s.v.inos| == |s.sizes| == |c|
    && forall i :: 0 <= i < |c| ==> s.sizes[i] == |c[i]| <= FMAX && IsFile(s.v.inos[i], s.v.fs.store, c[i])
  }

  /* ---------------------------------------------------------------- other files */

  lemma InBlocksAgree(ino: Ino, store: Store, store': Store, b: int)
    requires AgreeOn(store, store', Blocks(ino, store)) && b in Blocks(ino, store)
    ensures Words(store', b) == Words(store, b)
  {
    CountIn(Blocks(ino, store), b);
  }

  lemma LookupAgree(ino: Ino, store: Store, store': Store, bn: int)
    requires GoodIno(ino, store) && AgreeOn(store, store', Blocks(ino, store)) && IsBn(bn)
    ensures Lookup(ino, store', bn) == Lookup(ino, store, bn)
    ensures var d := Lookup(ino, store, bn); d != 0 ==> Words(store', d) == Words(store, d)
  {
    if ino.large {
      var a := At(ino.addr, SlotOf(bn));
      if a != 0 {
        assert Indirect(ino, store, a);
        IndirectInBlocks(ino, store, a);
        InBlocksAgree(ino, store, store', a);
        if SlotOf(bn) == 7 { SecondAgree(ino, store, store', bn / 256 - 7); }
      }
    }
    if Lookup(ino, store, bn) != 0 {
      LookupIn(ino, store, bn);
      InBlocksAgree(ino, store, store', Lookup(ino, store, bn));
    }
  }

  lemma SecondAgree(ino: Ino, store: Store, store': Store, k: int)
    requires AgreeOn(store, store', Blocks(ino, store)) && ino.large && 0 <= k < WORDS && At(ino.addr, 7) != 0
    ensures var b := At(Words(store, At(ino.addr, 7)), k); b != 0 ==> Words(store', b) == Words(store, b)
  {
    var b := At(Words(store, At(ino.addr, 7)), k);
    if b != 0 {
      assert Second(ino, store, b);
      IndirectInBlocks(ino, store, b);
      InBlocksAgree(ino, store, store', b);
    }
  }

  /** What happens to one file cannot be seen in another. */
  lemma OtherBytes(v: Vol, low: int, i: nat, j: nat, fs': Fs, c: seq<int>)
    requires Census(v, low) && i < |v.inos| && j < |v.inos| && i != j && OutsideKept(v.fs, v.inos[i], fs')
    requires IsFile(v.inos[j], v.fs.store, c)
    ensures IsFile(v.inos[j], fs'.store, c)
  {
    var ino, store, store' := v.inos[j], v.fs.store, fs'.store;
    OneFile(v, low, j);
    GoodHasIno(v.fs, ino);
    forall b | 0 <= b < |store| && Count(Blocks(ino, store), b) > 0
      ensures store'[b] == store[b]
    {
      OtherFile(v, low, i, j, b);
    }
    forall k | 0 <= k < FMAX
      ensures FileByte(ino, store', k) == FileByte(ino, store, k)
    {
      assert IsBn(k / BSIZE);
      LookupAgree(ino, store, store', k / BSIZE);
    }
  }

  /* ---------------------------------------------------------------- steps and runs */

  lemma WriteRefines(fs: Fs, ino: Ino, fs': Fs, ino': Ino, off: nat, data: seq<int>, c: seq<int>)
    requires WriteDid(fs, ino, fs', ino', off, data) && IsFile(ino, fs.store, c)
    ensures IsFile(ino', fs'.store, Patched(c, off, data))
  {
    forall k | 0 <= k < FMAX
      ensures FileByte(ino', fs'.store, k) == if k < |Patched(c, off, data)| then Patched(c, off, data)[k] else 0
    {
      assert FileByte(ino', fs'.store, k) == if off <= k < off + |data| then data[k-off]
          else FileByte(ino, fs.store, k);
    }
  }

  lemma ReadRefines(fs: Fs, ino: Ino, fs': Fs, ino': Ino, off: nat, n: nat, got: seq<int>, c: seq<int>)
    requires |c| <= FMAX && ReadDid(fs, ino, fs', ino', |c|, off, n, got) && IsFile(ino, fs.store, c)
    ensures IsFile(ino', fs'.store, c) && got == Slice(c, off, n)
  {
    var s := Slice(c, off, n);
    assert |got| == |s|;
    forall k | 0 <= k < |got|
      ensures got[k] == s[k]
    {
      assert got[k] == FileByte(ino, fs.store, off + k);
    }
  }

  lemma TruncateRefines(fs: Fs, ino: Ino, fs': Fs, ino': Ino)
    requires Truncated(fs, ino, fs', ino')
    ensures IsFile(ino', fs'.store, [])
  {
  }

  lemma StepTidy(s: Files, op: FileOp, s': Files, low: int)
    requires Census(s.v, low) && Did(s, op, s')
    ensures Tidy(s.v.fs, s.v.inos[op.i], s'.v.fs, s'.v.inos[op.i])
  {
    OneFile(s.v, low, op.i);
    if op.Truncates? { TruncatedConserves(s.v.fs, s.v.inos[op.i], s'.v.fs, s'.v.inos[op.i]); }
  }

  lemma TidyCensus(v: Vol, v': Vol, i: nat, low: int)
    requires Census(v, low) && i < |v.inos| == |v'.inos| && v'.inos == v.inos[i := v'.inos[i]]
    requires Tidy(v.fs, v.inos[i], v'.fs, v'.inos[i])
    ensures Census(v', low)
  {
    forall x
      ensures Total(v', x) == Total(v, x)
    {
      TotalChange(v, low, i, v'.fs, v'.inos[i], x);
      assert Uses(v'.fs, v'.inos[i], x) == Uses(v.fs, v.inos[i], x);
    }
  }

  lemma StepRefines(s: Files, op: FileOp, s': Files, low: int, c: seq<seq<int>>)
    requires Census(s.v, low) && Refines(s, c) && Did(s, op, s')
    ensures Census(s'.v, low) && Refines(s', Abstract(c, op))
    ensures op.Reads? ==> op.got == Slice(c[op.i], op.off, op.n)
  {
    var i := op.i;
    StepTidy(s, op, s', low);
    TidyCensus(s.v, s'.v, i, low);
    OwnBytes(s, op, s', c);
    forall j | 0 <= j < |c| && j != i
      ensures IsFile(s'.v.inos[j], s'.v.fs.store, c[j])
    {
      OtherBytes(s.v, low, i, j, s'.v.fs, c[j]);
    }
  }

  lemma OwnBytes(s: Files, op: FileOp, s': Files, c: seq<seq<int>>)
    requires Refines(s, c) && Did(s, op, s')
    ensures IsFile(s'.v.inos[op.i], s'.v.fs.store, Abstract(c, op)[op.i])
    ensures op.Reads? ==> op.got == Slice(c[op.i], op.off, op.n)
  {
    var i := op.i;
    var fs, fs', ino, ino' := s.v.fs, s'.v.fs, s.v.inos[i], s'.v.inos[i];
    match op {
      case Writes(_, off, data) => WriteRefines(fs, ino, fs', ino', off, data, c[i]);
      case Reads(_, off, n, got) => ReadRefines(fs, ino, fs', ino', off, n, got, c[i]);
      case Truncates(_) => TruncateRefines(fs, ino, fs', ino');
    }
  }

  function AbstractRun(c: seq<seq<int>>, ops: seq<FileOp>): (r: seq<seq<int>>)
    requires forall k :: 0 <= k < |ops| ==> 0 <= ops[k].i < |c|
    ensures |r| == |c|
  {
    if ops == [] then c else Abstract(AbstractRun(c, ops[..|ops|-1]), ops[|ops|-1])
  }

  ghost predicate IsRun(ss: seq<Files>, ops: seq<FileOp>) {
    && |ss| == |ops| + 1
    && forall k :: 0 <= k < |ops| ==> Did(ss[k], ops[k], ss[k+1])
  }

  lemma {:induction false} SameFiles(ss: seq<Files>, ops: seq<FileOp>, k: nat)
    requires IsRun(ss, ops) && k < |ops|
    ensures |ss[k].v.inos| == |ss[0].v.inos| && 0 <= ops[k].i < |ss[0].v.inos|
  {
    assert Did(ss[k], ops[k], ss[k+1]);
    if k > 0 {
      SameFiles(ss, ops, k - 1);
      assert Did(ss[k-1], ops[k-1], ss[k]);
    }
  }

  /** After the first n operations. */
  lemma {:induction false} RefinesUpTo(ss: seq<Files>, ops: seq<FileOp>, low: int, c: seq<seq<int>>, n: nat)
    requires IsRun(ss, ops) && Census(ss[0].v, low) && Refines(ss[0], c) && n <= |ops|
    requires forall k :: 0 <= k < |ops| ==> 0 <= ops[k].i < |c|
    ensures Census(ss[n].v, low) && Refines(ss[n], AbstractRun(c, ops[..n]))
  {
    if n > 0 {
      RefinesUpTo(ss, ops, low, c, n - 1);
      StepRefines(ss[n-1], ops[n-1], ss[n], low, AbstractRun(c, ops[..n-1]));
      RunSplit(c, ops, n);
    } else {
      assert ops[..0] == [];
    }
  }

  lemma RunSplit(c: seq<seq<int>>, ops: seq<FileOp>, n: nat)
    requires 0 < n <= |ops| && forall k :: 0 <= k < |ops| ==> 0 <= ops[k].i < |c|
    ensures AbstractRun(c, ops[..n]) == Abstract(AbstractRun(c, ops[..n-1]), ops[n-1])
  {
    var r := ops[..n];
    assert r[..n-1] == ops[..n-1] && r[n-1] == ops[n-1];
    assert AbstractRun(c, r) == Abstract(AbstractRun(c, r[..n-1]), r[n-1]);
  }

  /** Operation k, a read, returned the slice of the byte sequence as it then was. */
  ghost predicate ReadRight(c: seq<seq<int>>, ops: seq<FileOp>, k: nat) {
    && k < |ops| && ops[k].Reads? && (forall j :: 0 <= j < |ops| ==> 0 <= ops[j].i < |c|)
    && ops[k].got == Slice(AbstractRun(c, ops[..k])[ops[k].i], ops[k].off, ops[k].n)
  }

  /** File refinement: after any run every file is the byte sequence the same run leaves on plain sequences, every read
      along the way returned the matching slice, and no block was lost or shared. */
  lemma FilesAreByteArrays(ss: seq<Files>, ops: seq<FileOp>, low: int, c: seq<seq<int>>)
    requires IsRun(ss, ops) && Census(ss[0].v, low) && Refines(ss[0], c)
    ensures forall k :: 0 <= k < |ops| ==> 0 <= ops[k].i < |c|
    ensures Census(ss[|ops|].v, low) && Refines(ss[|ops|], AbstractRun(c, ops))
    ensures forall k :: 0 <= k < |ops| && ops[k].Reads? ==> ReadRight(c, ops, k)
  {
    forall k | 0 <= k < |ops| ensures 0 <= ops[k].i < |c| { SameFiles(ss, ops, k); }
    RefinesUpTo(ss, ops, low, c, |ops|);
    assert ops[..|ops|] == ops;
    forall k | 0 <= k < |ops| && ops[k].Reads?
      ensures ReadRight(c, ops, k)
    {
      RefinesUpTo(ss, ops, low, c, k);
      StepRefines(ss[k], ops[k], ss[k+1], low, AbstractRun(c, ops[..k]));
    }
  }

  /** Read what was just written. */
  lemma ReadBack(c: seq<int>, off: nat, data: seq<int>)
    ensures Slice(Patched(c, off, data), off, |data|) == data
  {
  }
}
