/** A mounted volume as a table of byte sequences: what readi, writei and itrunc do to it, code and meaning together. */
module VolumeFiles {
  import Longs
  import opened FileTree
  import opened BlockMap
  import opened FileCensus
  import opened FileBytes
  import opened FileHoles
  import opened FileRuns
  import opened Volume
  import opened FileIO

  /** File i of the volume is the byte sequence c[i], and every block is free or in one place. */
  ghost predicate HoldsFiles(v: Volume, c: seq<seq<int>>)
    reads v
  {
    && v.Valid() && Census(Vol(v.Abs(), v.ino), v.isize + 2) && |c| == |v.ino|
    && forall i :: 0 <= i < |c| ==> v.size[i] == |c[i]| < FMAX && IsFile(v.ino[i], v.store, c[i])
  }

  /** One file changed, in good order; the others did not notice. */
  lemma OneChanged(v: Vol, low: int, i: nat, fs': Fs, ino': Ino, c: seq<seq<int>>)
    requires Census(v, low) && i < |v.inos| == |c| && Tidy(v.fs, v.inos[i], fs', ino')
    requires forall j :: 0 <= j < |c| ==> IsFile(v.inos[j], v.fs.store, c[j])
    ensures Census(Vol(fs', v.inos[i := ino']), low)
    ensures forall j :: 0 <= j < |c| && j != i ==> IsFile(v.inos[j], fs'.store, c[j])
  {
    TidyCensus(v, Vol(fs', v.inos[i := ino']), i, low);
    forall j | 0 <= j < |c| && j != i
      ensures IsFile(v.inos[j], fs'.store, c[j])
    {
      OtherBytes(v, low, i, j, fs', c[j]);
    }
  }

  /** write: the file becomes itself with the user's bytes at the offset. */
  method WriteFile(v: Volume, u: User, ip: int, ghost c: seq<seq<int>>)
    requires HoldsFiles(v, c) && u.Valid() && 0 <= ip < |c| && u.count <= MAXCOUNT && u.Offset() + u.count < FMAX
    requires AllBytes(u.Rest()) && Fits(v.Abs(), v.ino[ip], u.Offset(), u.Rest())
    modifies v`nfree, v`free, v`st, v`store, v`ino, v`size, u`offset0, u`offset1, u`count, u`base
    ensures HoldsFiles(v, c[ip := Patched(c[ip], old(u.Offset()), old(u.Rest()))]) && u.count == 0
  {
    ghost var w, off, data := Vol(v.Abs(), v.ino), u.Offset(), u.Rest();
    OneFile(w, v.isize + 2, ip);
    Writei(v, u, ip);
    OneChanged(w, v.isize + 2, ip, v.Abs(), v.ino[ip], c);
    WriteRefines(w.fs, w.inos[ip], v.Abs(), v.ino[ip], off, data, c[ip]);
  }

  /** read: the user gets the slice of the file at the offset; the files stay the same. */
  method ReadFile(v: Volume, u: User, ip: int, ghost c: seq<seq<int>>)
    requires HoldsFiles(v, c) && u.Valid() && 0 <= ip < |c| && u.count <= MAXCOUNT && u.Offset() < Longs.HALF
    requires ReadFits(v.Abs(), v.ino[ip], u.Offset(), Within(v.size[ip], u.Offset(), u.count))
    modifies v`nfree, v`free, v`st, v`store, v`ino, u
    ensures HoldsFiles(v, c)
    ensures var got := Slice(c[ip], old(u.Offset()), old(u.count));
            && |got| <= old(u.count) && u.area == Overlay(old(u.area), old(u.base), got)
                 && u.count == old(u.count) - |got|
            && (v.Abs() == old(v.Abs()) && v.ino == old(v.ino) <==>
                AllMapped(old(v.ino[ip]), old(v.store), old(u.Offset()) / BSIZE, Spanned(old(u.Offset()), |got|)))
  {
    ghost var w, off, count := Vol(v.Abs(), v.ino), u.Offset(), u.count;
    OneFile(w, v.isize + 2, ip);
    ghost var got := Readi(v, u, ip);
    OneChanged(w, v.isize + 2, ip, v.Abs(), v.ino[ip], c);
    ReadRefines(w.fs, w.inos[ip], v.Abs(), v.ino[ip], off, count, got, c[ip]);
  }

  /** itrunc: the file becomes empty. */
  method TruncateFile(v: Volume, ip: int, ghost c: seq<seq<int>>)
    requires HoldsFiles(v, c) && 0 <= ip < |c|
    modifies v
    ensures HoldsFiles(v, c[ip := []])
  {
    ghost var w := Vol(v.Abs(), v.ino);
    OneFile(w, v.isize + 2, ip);
    InDataArea(w, v.isize + 2, ip);
    v.Itrunc(ip);
    TruncatedConserves(w.fs, w.inos[ip], v.Abs(), v.ino[ip]);
    OneChanged(w, v.isize + 2, ip, v.Abs(), v.ino[ip], c);
    TruncateRefines(w.fs, w.inos[ip], v.Abs(), v.ino[ip]);
  }

  /** Whatever a file or the free list uses lies in the data area. */
  lemma InDataArea(w: Vol, low: int, i: nat)
    requires Census(w, low) && i < |w.inos|
    ensures forall x :: Uses(w.fs, w.inos[i], x) > 0 ==> low <= x < |w.fs.store|
  {
    forall x | Uses(w.fs, w.inos[i], x) > 0
      ensures low <= x < |w.fs.store|
    {
      CatPart(Family.Files(w.inos, w.fs.store), |w.inos|, i, x);
      assert FileCensus.Total(w, x) > 0;
    }
  }
}
