/** The file behind a pipe: never large, and its bytes are what the pipe protocol takes them to be. */
module PipeFile {
  import opened FreeList
  import opened FileTree
  import opened BlockMap
  import opened FileBytes
  import PipeMachine

  /** The first PIPSIZ bytes of the file. */
  ghost predicate IsRaw(ino: Ino, store: Store, raw: seq<int>) {
    |raw| == PipeMachine.PIPSIZ && forall k :: 0 <= k < PipeMachine.PIPSIZ ==> FileByte(ino, store, k) == raw[k]
  }

  /** A write that stays below PIPSIZ touches blocks 0 to 7 only, so the inode never becomes large. */
  lemma {:induction false} PipeStaysSmall(pl: Plan, f: Fs, n: Ino, i: nat)
    requires IsPlan(pl, f, n) && !n.large && i <= |pl.ps| && 0 <= pl.off && pl.off + |pl.data| <= PipeMachine.PIPSIZ
    ensures !pl.ns[i].large
  {
    if i > 0 {
      PipeStaysSmall(pl, f, n, i - 1);
      EarlyBlock(pl, i - 1);
      SmallStep(pl, i - 1);
    }
  }

  lemma SmallStep(pl: Plan, i: nat)
    requires |pl.fs| == |pl.ns| == |pl.ps| + 1 && Linked(Turn, pl.fs, pl.ns, pl.ps)
    requires i < |pl.ps| && pl.ps[i].bn < 8 && !pl.ns[i].large
    ensures !pl.ns[i+1].large
  {
    SmallTurn(pl.fs[i], pl.ns[i], pl.ps[i], pl.fs[i+1], pl.ns[i+1]);
  }

  lemma EarlyBlock(pl: Plan, i: nat)
    requires |pl.at| == |pl.ps| + 1 && AllTake(pl) && i < |pl.ps| && pl.off + |pl.data| <= PipeMachine.PIPSIZ
    ensures pl.ps[i].bn < 8
  {
    assert Takes(pl.off, pl.data, pl.at[i], pl.ps[i], pl.at[i+1]);
  }

  lemma SmallTurn(f: Fs, n: Ino, p: Piece, f': Fs, n': Ino)
    requires Turn(f, n, p, f', n') && !n.large && p.bn < 8
    ensures !n'.large
  {
  }

  /** So does a read. */
  lemma {:induction false} PipeReadStaysSmall(t: Trace, f: Fs, n: Ino, bn: int, m: nat, i: nat)
    requires IsTrace(t, f, n, bn, m) && !n.large && 0 <= bn && bn + m <= 8 && i <= m
    ensures !t.ns[i].large
  {
    if i > 0 {
      PipeReadStaysSmall(t, f, n, bn, m, i - 1);
      assert Maps(t.fs[i-1], t.ns[i-1], bn + (i - 1), t.fs[i], t.ns[i]);
    }
  }

  /** writei at the end of the pipe's file is PipeMachine.WriteBytes. */
  lemma PipeWrite(fs: Fs, ino: Ino, fs': Fs, ino': Ino, raw: seq<int>, size: nat, b: seq<int>)
    requires IsRaw(ino, fs.store, raw) && size + |b| <= PipeMachine.PIPSIZ && WriteDid(fs, ino, fs', ino', size, b)
    ensures IsRaw(ino', fs'.store, raw[..size] + b + raw[size+|b|..])
  {
    var r := raw[..size] + b + raw[size+|b|..];
    forall k | 0 <= k < PipeMachine.PIPSIZ
      ensures FileByte(ino', fs'.store, k) == r[k]
    {
      assert FileByte(ino', fs'.store, k) == if size <= k < size + |b| then b[k-size] else FileByte(ino, fs.store, k);
    }
  }

  /** readi at the read offset gives PipeMachine.Chunk and leaves the bytes alone. */
  lemma PipeRead(fs: Fs, ino: Ino, fs': Fs, ino': Ino, s: PipeMachine.Pipe, n: nat, got: seq<int>)
    requires IsRaw(ino, fs.store, s.raw) && 0 <= s.offset <= s.size <= PipeMachine.PIPSIZ
    requires ReadDid(fs, ino, fs', ino', s.size, s.offset, n, got)
    ensures IsRaw(ino', fs'.store, s.raw) && got == PipeMachine.Chunk(s, n)
  {
    var c := PipeMachine.Chunk(s, n);
    forall i | 0 <= i < |got|
      ensures got[i] == c[i]
    {
      assert got[i] == FileByte(ino, fs.store, s.offset + i);
    }
    forall k | 0 <= k < PipeMachine.PIPSIZ
      ensures FileByte(ino', fs'.store, k) == s.raw[k]
    {
      assert FileByte(ino', fs'.store, k) == FileByte(ino, fs.store, k);
    }
  }
}
