/** The pipe protocol on its file, over every run: the inode stays small, and the bytes the protocol speaks of are the
    bytes of the file. */
module PipeRuns {
  import opened FreeList
  import opened FileTree
  import opened BlockMap
  import opened FileBytes
  import opened PipeFile
  import opened PipeMachine

  /** The protocol, and the volume with the pipe's inode. */
  datatype Whole = Whole(s: Pipe, f: Fs, n: Ino)

  /** writei puts b at the end of the file. */
  ghost predicate Writei(f: Fs, n: Ino, size: int, b: seq<int>, f': Fs, n': Ino) {
    exists pl: Plan :: IsPlan(pl, f, n) && pl.off == size && pl.data == b && pl.fs[|pl.ps|] == f'
        && pl.ns[|pl.ps|] == n'
  }

  /** readi goes through the blocks that len bytes at off lie in. */
  ghost predicate Readi(f: Fs, n: Ino, off: int, len: nat, f': Fs, n': Ino) {
    exists t: Trace :: IsTrace(t, f, n, off / BSIZE, Spanned(off, len)) && t.fs[Spanned(off, len)] == f'
        && t.ns[Spanned(off, len)] == n'
  }

  ghost predicate WholeStep(w: Whole, e: Event, w': Whole) {
    && Step(w.s, e, w'.s)
    && match e
       case WritePart(p, k) => Writei(w.f, w.n, w.s.size, w.s.ps[p].now[..k], w'.f, w'.n)
       case ReadDone(p) => Readi(w.f, w.n, w.s.offset, |PipeMachine.Chunk(w.s, w.s.ps[p].n)|, w'.f, w'.n)
       case _ => w'.f == w.f && w'.n == w.n
  }

  ghost predicate WholeInv(w: Whole) { Inv(w.s) && Good(w.f, w.n) && !w.n.large && IsRaw(w.n, w.f.store, w.s.raw) }

  lemma WriteKeeps(w: Whole, p: nat, k: nat, w': Whole)
    requires WholeInv(w) && WholeStep(w, WritePart(p, k), w') && Inv(w'.s)
    ensures WholeInv(w')
  {
    var b := w.s.ps[p].now[..k];
    var pl: Plan :| IsPlan(pl, w.f, w.n) && pl.off == w.s.size && pl.data == b && pl.fs[|pl.ps|] == w'.f
        && pl.ns[|pl.ps|] == w'.n;
    assert Local(w.s, w.s.ps[p]);
    PipeStaysSmall(pl, w.f, w.n, |pl.ps|);
    PlanWrote(pl, w.f, w.n, |pl.ps|);
    assert pl.data[..|pl.data|] == b;
    PipeWrite(w.f, w.n, w'.f, w'.n, w.s.raw, w.s.size, b);
  }

  /** A walk through bmap changes no byte. */
  lemma {:induction false} TraceBytes(t: Trace, f: Fs, n: Ino, bn: int, m: nat, i: nat)
    requires IsTrace(t, f, n, bn, m) && Good(f, n) && i <= m
    ensures Good(t.fs[i], t.ns[i]) && SameBytes(n, f.store, t.ns[i], t.fs[i].store)
  {
    if i > 0 {
      TraceBytes(t, f, n, bn, m, i - 1);
      var g, q := t.fs[i-1], t.ns[i-1];
      assert Maps(g, q, bn + (i - 1), t.fs[i], t.ns[i]);
      MapKeepsBytes(g, q, bn + (i - 1));
      SameTrans(n, f.store, q, g.store, t.ns[i], t.fs[i].store);
    }
  }

  lemma SameTrans(n: Ino, s: Store, n': Ino, s': Store, n'': Ino, s'': Store)
    requires SameBytes(n, s, n', s') && SameBytes(n', s', n'', s'')
    ensures SameBytes(n, s, n'', s'')
  {
    forall k | 0 <= k < FMAX
      ensures FileByte(n'', s'', k) == FileByte(n, s, k)
    {
      assert FileByte(n', s', k) == FileByte(n, s, k);
    }
  }

  /** Within a pipe's file a read spans blocks 0 to 7. */
  lemma SpanInPipe(off: int, len: nat)
    requires 0 <= off && off + len <= PIPSIZ
    ensures 0 <= off / BSIZE && off / BSIZE + Spanned(off, len) <= 8
  {
  }

  lemma ReadKeeps(w: Whole, p: nat, w': Whole)
    requires WholeInv(w) && WholeStep(w, ReadDone(p), w') && Inv(w'.s)
    ensures WholeInv(w')
  {
    var off, len := w.s.offset, |PipeMachine.Chunk(w.s, w.s.ps[p].n)|;
    var bn, m := off / BSIZE, Spanned(off, len);
    var t: Trace :| IsTrace(t, w.f, w.n, bn, m) && t.fs[m] == w'.f && t.ns[m] == w'.n;
    SpanInPipe(off, len);
    PipeReadStaysSmall(t, w.f, w.n, bn, m, m);
    TraceBytes(t, w.f, w.n, bn, m, m);
    forall k | 0 <= k < PIPSIZ
      ensures FileByte(w'.n, w'.f.store, k) == w.s.raw[k]
    {
      assert FileByte(w'.n, w'.f.store, k) == FileByte(w.n, w.f.store, k);
    }
    assert w'.s.raw == w.s.raw;
  }

  lemma WholeKeeps(w: Whole, e: Event, w': Whole)
    requires WholeInv(w) && WholeStep(w, e, w')
    ensures WholeInv(w')
  {
    StepInv(w.s, e, w'.s);
    match e {
      case WritePart(p, k) => WriteKeeps(w, p, k, w');
      case ReadDone(p) => ReadKeeps(w, p, w');
      case _ => SameRaw(w.s, e, w'.s);
    }
  }

  /** Only a write changes the bytes. */
  lemma SameRaw(s: Pipe, e: Event, s': Pipe)
    requires Step(s, e, s') && !e.WritePart?
    ensures s'.raw == s.raw
  {
  }

  /** At every moment of every run of a pipe on a good volume: the inode is not large, the volume is in order as far as
      the pipe's file goes, and the bytes accepted but not yet delivered are bytes of the file, from the read offset up
      to the size. */
  lemma {:induction false} PipeOnItsFile(ws: seq<Whole>, es: seq<Event>, i: nat)
    requires |ws| == |es| + 1 && i <= |es| && forall j :: 0 <= j < |es| ==> WholeStep(ws[j], es[j], ws[j+1])
    requires ws[0].s == Initial(ws[0].s.raw, |ws[0].s.ps|) && |ws[0].s.raw| == PIPSIZ
    requires Good(ws[0].f, ws[0].n) && !ws[0].n.large && IsRaw(ws[0].n, ws[0].f.store, ws[0].s.raw)
    ensures WholeInv(ws[i])
    ensures var w := ws[i];
            && 0 <= w.s.offset <= w.s.size <= PIPSIZ && |w.s.accepted| == |w.s.delivered| + (w.s.size - w.s.offset)
            && forall k :: w.s.offset <= k < w.s.size ==>
                 FileByte(w.n, w.f.store, k) == w.s.accepted[|w.s.delivered| + k - w.s.offset]
  {
    if i == 0 {
      InitialInv(ws[0].s.raw, |ws[0].s.ps|);
    } else {
      PipeOnItsFile(ws, es, i - 1);
      WholeKeeps(ws[i-1], es[i-1], ws[i]);
    }
    HeldBytes(ws[i]);
  }

  lemma HeldBytes(w: Whole)
    requires WholeInv(w)
    ensures |w.s.accepted| == |w.s.delivered| + (w.s.size - w.s.offset)
    ensures forall k :: w.s.offset <= k < w.s.size ==>
      FileByte(w.n, w.f.store, k) == w.s.accepted[|w.s.delivered| + k - w.s.offset]
  {
    forall k | w.s.offset <= k < w.s.size
      ensures FileByte(w.n, w.f.store, k) == w.s.accepted[|w.s.delivered| + k - w.s.offset]
    {
      assert FileByte(w.n, w.f.store, k) == w.s.raw[k];
      assert w.s.raw[w.s.offset..w.s.size][k - w.s.offset] == w.s.raw[k];
    }
  }
}
