/** The buffer cache as the kernel keeps it: headers threaded on circular lists by forward and backward links,
    with the available-list link doing second duty as the driver's queue link.  Pointers are header numbers. */
module BufferCache {
  import opened Options
  import opened Rings
  import opened Buffers

  const FREE := NBUF        // bfreelist, heading the available list and the unassociated chain
  const RK := NBUF + 1      // rktab, heading the association chain of the disk
  const NIL := -1

  /** The available ring and the driver's queue, sharing the forward links. */
  ghost predicate AvOk(forw: seq<int>, back: seq<int>, avail: seq<int>, actf: int, actl: int, queue: seq<int>) {
    && |forw| == |back| == NBUF + 2
    && Ring(forw, back, FREE, avail)
    && Links(forw, actf, queue)
    && (queue != [] ==> actl == queue[|queue|-1])
    && (forall b :: b in avail ==> IsBuf(b))
    && (forall b :: b in queue ==> IsBuf(b) && b !in avail)
  }

  lemma AvRemove(forw: seq<int>, back: seq<int>, avail: seq<int>, actf: int, actl: int, queue: seq<int>, b: int)
    requires AvOk(forw, back, avail, actf, actl, queue) && b in avail
    ensures 0 <= back[b] < |forw| && 0 <= forw[b] < |back|
    ensures AvOk(forw[back[b] := forw[b]], back[forw[b] := back[b]], Without(avail, b), actf, actl, queue)
  {
    RingRemove(forw, back, FREE, avail, b);
    WithoutMembers(avail, b);
    LinksFrame(forw, forw[back[b] := forw[b]], actf, queue);
  }

  lemma AvAppend(forw: seq<int>, back: seq<int>, avail: seq<int>, actf: int, actl: int, queue: seq<int>, b: int)
    requires AvOk(forw, back, avail, actf, actl, queue) && IsBuf(b) && b !in avail && b !in queue
    ensures 0 <= back[FREE] < |forw|
    ensures AvOk(forw[back[FREE] := b][b := FREE], back[b := back[FREE]][FREE := b], avail + [b], actf, actl, queue)
  {
    RingPushBack(forw, back, FREE, avail, b);
    LinksFrame(forw, forw[back[FREE] := b][b := FREE], actf, queue);
  }

  lemma AvEnqueue(forw: seq<int>, back: seq<int>, avail: seq<int>, actf: int, actl: int, queue: seq<int>, b: int)
    requires AvOk(forw, back, avail, actf, actl, queue) && IsBuf(b) && b !in avail && b !in queue
    ensures (actf == NIL) == (queue == []) && (actf != NIL ==> IsBuf(actl) && actl in queue)
    ensures if actf == NIL then AvOk(forw[b := NIL], back, avail, b, b, queue + [b])
            else AvOk(forw[b := NIL][actl := b], back, avail, actf, b, queue + [b])
  {
    assert queue != [] ==> queue[0] in queue && queue[|queue|-1] in queue;
    LinksPush(forw, actf, actl, queue, b);
    if actf == NIL {
      RingFrame(forw, back, forw[b := NIL], back, FREE, avail);
    } else {
      RingFrame(forw, back, forw[b := NIL][actl := b], back, FREE, avail);
    }
  }

  lemma AvDequeue(forw: seq<int>, back: seq<int>, avail: seq<int>, actf: int, actl: int, queue: seq<int>)
    requires AvOk(forw, back, avail, actf, actl, queue) && queue != []
    ensures actf == queue[0] && IsBuf(actf) && actf !in avail && actf !in queue[1..]
    ensures AvOk(forw, back, avail, forw[actf], actl, queue[1..])
  {
    assert queue[0] in queue;
    LinksPop(forw, actf, queue);
  }

  /** The two association chains. */
  ghost predicate ChOk(forw: seq<int>, back: seq<int>, chain: seq<int>, loose: seq<int>) {
    && |forw| == |back| == NBUF + 2
    && Ring(forw, back, RK, chain)
    && Ring(forw, back, FREE, loose)
    && (forall b :: b in chain ==> IsBuf(b) && b !in loose)
    && (forall b :: b in loose ==> IsBuf(b))
  }

  lemma ChRemove(forw: seq<int>, back: seq<int>, chain: seq<int>, loose: seq<int>, b: int)
    requires ChOk(forw, back, chain, loose) && (b in chain || b in loose)
    ensures 0 <= back[b] < |forw| && 0 <= forw[b] < |back|
    ensures ChOk(forw[back[b] := forw[b]], back[forw[b] := back[b]], Without(chain, b), Without(loose, b))
  {
    WithoutMembers(chain, b);
    WithoutMembers(loose, b);
    if b in chain {
      RingRemove(forw, back, RK, chain, b);
      WithoutAbsent(loose, b);
      RingFrame(forw, back, forw[back[b] := forw[b]], back[forw[b] := back[b]], FREE, loose);
    } else {
      RingRemove(forw, back, FREE, loose, b);
      WithoutAbsent(chain, b);
      RingFrame(forw, back, forw[back[b] := forw[b]], back[forw[b] := back[b]], RK, chain);
    }
  }

  lemma ChInsert(forw: seq<int>, back: seq<int>, chain: seq<int>, loose: seq<int>, b: int, dp: int)
    requires ChOk(forw, back, chain, loose) && IsBuf(b) && b !in chain && b !in loose && (dp == RK || dp == FREE)
    ensures 0 <= forw[dp] < |back|
    ensures var f, k := forw[b := forw[dp]][dp := b], back[b := dp][forw[dp] := b];
            if dp == RK then ChOk(f, k, [b] + chain, loose) else ChOk(f, k, chain, [b] + loose)
  {
    if dp == RK {
      RingPushFront(forw, back, RK, chain, b);
      RingFrame(forw, back, forw[b := forw[dp]][dp := b], back[b := dp][forw[dp] := b], FREE, loose);
    } else {
      RingPushFront(forw, back, FREE, loose, b);
      RingFrame(forw, back, forw[b := forw[dp]][dp := b], back[b := dp][forw[dp] := b], RK, chain);
    }
  }

  class Cache {
    var hdr: seq<Buf>
    var bForw: seq<int>
    var bBack: seq<int>
    var avForw: seq<int>
    var avBack: seq<int>
    var freeWanted: bool
    var actf: int
    var actl: int
    var active: int
    var disk: seq<seq<int>>
    var wchan: map<int, Chan>

    ghost var avail: seq<int>
    ghost var chain: seq<int>
    ghost var loose: seq<int>
    ghost var queue: seq<int>

    ghost predicate Valid()
      reads this
    {
      && |hdr| == NBUF
      && AvOk(avForw, avBack, avail, actf, actl, queue)
      && ChOk(bForw, bBack, chain, loose)
    }

    /** The lists with the links forgotten. */
    ghost function Abs(): Pool
      reads this
    {
      Pool(hdr, freeWanted, avail, chain, loose, queue, active, disk, wchan)
    }

    method Wakeup(ch: Chan)
      modifies this`wchan
      ensures wchan == Buffers.Wakeup(old(wchan), ch)
    {
      wchan := map p | p in wchan && wchan[p] != ch :: wchan[p];
    }

    method Notavail(bp: int)
      requires Valid() && bp in avail
      modifies this
      ensures Valid() && Abs() == Buffers.Notavail(old(Abs()), bp) && bp !in avail
    {
      WithoutMembers(avail, bp);
      AvRemove(avForw, avBack, avail, actf, actl, queue, bp);
      var back, forw := avBack[bp], avForw[bp];
      avForw := avForw[back := forw];
      avBack := avBack[forw := back];
      avail := Without(avail, bp);
      hdr := hdr[bp := hdr[bp].(busy := true)];
    }

    /** The wakeups brelse owes: to those who want this buffer, and to those who want any. */
    method WakeWaiters(bp: int)
      requires IsBuf(bp) && |hdr| == NBUF
      modifies this`wchan, this`freeWanted
      ensures !freeWanted
      ensures wchan == var w := if hdr[bp].wanted then Buffers.Wakeup(old(wchan), OnBuf(bp)) else old(wchan);
                       if old(freeWanted) then Buffers.Wakeup(w, OnFree) else w
    {
      if hdr[bp].wanted {
        Wakeup(OnBuf(bp));
      }
      if freeWanted {
        freeWanted := false;
        Wakeup(OnFree);
      }
    }

    method Brelse(bp: int)
      requires Valid() && IsBuf(bp) && bp !in avail && bp !in queue
      modifies this
      ensures Valid() && Abs() == Buffers.Brelse(old(Abs()), bp)
    {
      WakeWaiters(bp);
      hdr := hdr[bp := hdr[bp].(wanted := false, busy := false, async := false)];
      LinkLast(bp);
    }

    /** Onto the tail of the available list. */
    method LinkLast(bp: int)
      requires AvOk(avForw, avBack, avail, actf, actl, queue) && IsBuf(bp) && bp !in avail && bp !in queue
      modifies this`avForw, this`avBack, this`avail
      ensures AvOk(avForw, avBack, avail, actf, actl, queue) && avail == old(avail) + [bp]
    {
      AvAppend(avForw, avBack, avail, actf, actl, queue, bp);
      var last := avBack[FREE];
      avForw := avForw[last := bp];
      avBack := avBack[bp := last];
      avBack := avBack[FREE := bp];
      avForw := avForw[bp := FREE];
      avail := avail + [bp];
    }

    /** Walk the association chain of the disk. */
    method Incore(dev: int, blkno: int) returns (r: int)
      requires Valid()
      ensures r == match Buffers.Incore(Abs(), chain, dev, blkno) case Some(b) => b case None => NIL
    {
      var bp := bForw[RK];
      ghost var i := 0;
      assert Lap(RK, chain)[0] == RK;
      assert chain[0..] == chain;
      while bp != RK
        invariant 0 <= i <= |chain| && bp == Lap(RK, chain)[i+1]
        invariant Buffers.Incore(Abs(), chain[i..], dev, blkno) == Buffers.Incore(Abs(), chain, dev, blkno)
        decreases |chain| - i
      {
        assert bp == chain[i] && chain[i] in chain && chain[i..][0] == chain[i];
        if hdr[bp].blkno == blkno && hdr[bp].dev == dev {
          return bp;
        }
        assert bForw[Lap(RK, chain)[i+1]] == Lap(RK, chain)[i+2];
        assert chain[i..][1..] == chain[i+1..];
        bp := bForw[bp];
        i := i + 1;
      }
      return NIL;
    }

    method Rkstart()
      requires actf == NIL || IsBuf(actf)
      modifies this`active
      ensures active == if actf == NIL then old(active) else old(active) + 1
    {
      if actf == NIL {
        return;
      }
      active := active + 1;
    }

    method Rkstrategy(bp: int)
      requires Valid() && IsBuf(bp) && bp !in avail && bp !in queue
      modifies this
      ensures Valid() && Abs() == Strategy(old(Abs()), bp)
    {
      Enqueue(bp);
      if active == 0 {
        Rkstart();
      }
    }

    /** Onto the tail of the driver's queue, through the available-list link. */
    method Enqueue(bp: int)
      requires AvOk(avForw, avBack, avail, actf, actl, queue) && IsBuf(bp) && bp !in avail && bp !in queue
      modifies this`avForw, this`actf, this`actl, this`queue
      ensures AvOk(avForw, avBack, avail, actf, actl, queue) && queue == old(queue) + [bp] && IsBuf(actf)
    {
      AvEnqueue(avForw, avBack, avail, actf, actl, queue, bp);
      assert queue != [] ==> queue[0] in queue;
      avForw := avForw[bp := NIL];
      if actf == NIL {
        actf := bp;
      } else {
        avForw := avForw[actl := bp];
      }
      actl := bp;
      queue := queue + [bp];
    }

    method Iodone(bp: int)
      requires Valid() && IsBuf(bp) && bp !in avail && bp !in queue
      modifies this
      ensures Valid() && Abs() == Buffers.Iodone(old(Abs()), bp)
    {
      hdr := hdr[bp := hdr[bp].(done := true)];
      if hdr[bp].async {
        Brelse(bp);
      } else {
        hdr := hdr[bp := hdr[bp].(wanted := false)];
        assert hdr == old(hdr)[bp := old(hdr)[bp].(done := true, wanted := false)];
        Wakeup(OnBuf(bp));
      }
    }

    /** The controller has finished the transfer devstart began. */
    method TransferDone(bp: int)
      requires Valid() && IsBuf(bp) && Ready(Abs())
      modifies this`hdr, this`disk
      ensures Valid() && Abs() == Transfer(old(Abs()), bp)
    {
      var k := Sector(hdr[bp].dev, hdr[bp].blkno);
      if hdr[bp].read {
        hdr := hdr[bp := hdr[bp].(mem := disk[k] + hdr[bp].mem[WORDS..])];
      } else {
        disk := disk[k := hdr[bp].mem[..WORDS]];
      }
    }

    /** Take the head of the driver's queue. */
    method Dequeue() returns (bp: int)
      requires Valid() && queue != []
      modifies this`actf, this`queue, this`active
      ensures Valid() && bp == old(queue)[0] && IsBuf(bp) && bp !in avail && bp !in queue
      ensures queue == old(queue)[1..] && active == 0
    {
      AvDequeue(avForw, avBack, avail, actf, actl, queue);
      bp := actf;
      active := 0;
      actf := avForw[bp];
      queue := queue[1..];
    }

    /** The finished transfer leaves the queue and is marked done. */
    method Completion()
      requires Valid() && Ready(Abs()) && queue != []
      modifies this
      ensures IsBuf(old(queue)[0])
      ensures Valid() && Abs() == Completed(old(Abs()))
    {
      assert queue[0] in queue;
      TransferDone(actf);
      var bp := Dequeue();
      Iodone(bp);
    }

    method Rkintr()
      requires Valid() && Ready(Abs())
      requires active == if queue == [] then 0 else 1
      modifies this
      ensures Valid() && Abs() == Buffers.Rkintr(old(Abs()))
    {
      if active != 0 {
        Completion();
        ghost var d := Abs();
        assert queue != [] ==> queue[0] in queue;
        Rkstart();
        assert Abs() == if d.queue == [] then d else d.(active := 1);
      }
    }

    /** bwrite up to its iowait. */
    method StartWrite(bp: int)
      requires Valid() && IsBuf(bp) && bp !in avail && bp !in queue
      modifies this
      ensures Valid() && Abs() == Buffers.StartWrite(old(Abs()), bp)
    {
      hdr := hdr[bp := hdr[bp].(read := false, done := false, delwri := false)];
      Rkstrategy(bp);
    }

    /** bread and breada up to their iowait: the buffer is queued to be read, asynchronously for read-ahead. */
    method StartRead(bp: int, asynchronous: bool)
      requires Valid() && IsBuf(bp) && bp !in avail && bp !in queue
      modifies this
      ensures Valid() && Abs() == Buffers.StartRead(old(Abs()), bp, asynchronous)
    {
      hdr := hdr[bp := hdr[bp].(read := true)];
      if asynchronous {
        hdr := hdr[bp := hdr[bp].(async := true)];
      }
      Rkstrategy(bp);
    }

    method Bawrite(bp: int)
      requires Valid() && IsBuf(bp) && bp !in avail && bp !in queue
      modifies this
      ensures Valid() && Abs() == Buffers.Bawrite(old(Abs()), bp)
    {
      hdr := hdr[bp := hdr[bp].(async := true)];
      StartWrite(bp);
    }

    method Bdwrite(bp: int)
      requires Valid() && IsBuf(bp) && bp !in avail && bp !in queue
      modifies this
      ensures Valid() && Abs() == Buffers.Bdwrite(old(Abs()), bp)
    {
      hdr := hdr[bp := hdr[bp].(delwri := true, done := true)];
      Brelse(bp);
    }

    /** getblk's relinking of the buffer it takes over. */
    method Reassign(bp: int, dev: int, blkno: int)
      requires Valid() && IsBuf(bp) && (bp in chain || bp in loose)
      modifies this
      ensures Valid() && Abs() == Buffers.Reassign(old(Abs()), bp, dev, blkno)
    {
      var f := hdr[bp].(read := false, done := false, busy := true, wanted := false, async := false, delwri := false,
                        dev := dev, blkno := blkno);
      ghost var c := Abs();
      hdr := hdr[bp := f];
      Rechain(bp, if dev < 0 then FREE else RK);
      Relinked(c, bp, f, dev, chain, loose);
    }

    lemma Relinked(c: Pool, bp: int, f: Buf, dev: int, ch: seq<int>, lo: seq<int>)
      requires 0 <= bp < |c.buf| && f == Buffers.Reassign(c, bp, dev, f.blkno).buf[bp]
      requires ch == Moved(c.chain, bp, dev >= 0) && lo == Moved(c.loose, bp, dev < 0)
      ensures SetBuf(c, bp, f).(chain := ch, loose := lo) == Buffers.Reassign(c, bp, dev, f.blkno)
    {
    }

    /** From whatever chain it is on to the front of another. */
    method Rechain(bp: int, dp: int)
      requires ChOk(bForw, bBack, chain, loose) && IsBuf(bp) && (bp in chain || bp in loose) && (dp == RK || dp == FREE)
      modifies this`bForw, this`bBack, this`chain, this`loose
      ensures ChOk(bForw, bBack, chain, loose)
      ensures chain == Moved(old(chain), bp, dp == RK) && loose == Moved(old(loose), bp, dp == FREE)
    {
      Unchain(bp);
      Enchain(bp, dp);
    }

    method Unchain(bp: int)
      requires ChOk(bForw, bBack, chain, loose) && (bp in chain || bp in loose)
      modifies this`bForw, this`bBack, this`chain, this`loose
      ensures ChOk(bForw, bBack, chain, loose)
      ensures chain == Without(old(chain), bp) && loose == Without(old(loose), bp)
      ensures bp !in chain && bp !in loose
    {
      WithoutMembers(chain, bp);
      WithoutMembers(loose, bp);
      ChRemove(bForw, bBack, chain, loose, bp);
      var back, forw := bBack[bp], bForw[bp];
      bForw := bForw[back := forw];
      bBack := bBack[forw := back];
      chain, loose := Without(chain, bp), Without(loose, bp);
    }

    /** Link a buffer in at the front of a chain. */
    method Enchain(bp: int, dp: int)
      requires ChOk(bForw, bBack, chain, loose) && IsBuf(bp) && bp !in chain && bp !in loose && (dp == RK || dp == FREE)
      modifies this`bForw, this`bBack, this`chain, this`loose
      ensures ChOk(bForw, bBack, chain, loose)
      ensures chain == if dp == RK then [bp] + old(chain) else old(chain)
      ensures loose == if dp == FREE then [bp] + old(loose) else old(loose)
    {
      ChInsert(bForw, bBack, chain, loose, bp, dp);
      var first := bForw[dp];
      bForw := bForw[bp := first];
      bBack := bBack[bp := dp];
      bBack := bBack[first := bp];
      bForw := bForw[dp := bp];
      if dp == RK {
        chain := [bp] + chain;
      } else {
        loose := [bp] + loose;
      }
    }

    /** getblk when the block is in no buffer: take the oldest available one. */
    method GetOldest(p: int, dev: int, blkno: int) returns (r: Outcome)
      requires Valid() && Sane(Abs())
      requires forall b :: IsBuf(b) ==> b in chain || b in loose
      modifies this
      ensures Valid() && (Abs(), r) == OldestPass(old(Abs()), p, dev, blkno)
    {
      assert avForw[Lap(FREE, avail)[0]] == Lap(FREE, avail)[1];
      assert avail != [] ==> avail[0] in avail;
      if avForw[FREE] == FREE {
        freeWanted := true;
        wchan := wchan[p := OnFree];
        return Slept;
      }
      var bp := avForw[FREE];
      Notavail(bp);
      if hdr[bp].delwri {
        Bawrite(bp);
        return Retry;
      }
      Reassign(bp, dev, blkno);
      return Got(bp);
    }

    /** One pass of getblk on behalf of process p. */
    method Getblk(p: int, dev: int, blkno: int) returns (r: Outcome)
      requires Valid() && Sane(Abs())
      requires forall b :: IsBuf(b) ==> (b in chain || b in loose) && (b in avail <==> !hdr[b].busy)
      modifies this
      ensures Valid() && (Abs(), r) == GetblkPass(old(Abs()), p, dev, blkno)
    {
      var bp := NIL;
      if dev >= 0 {
        bp := Incore(dev, blkno);
      }
      if bp == NIL {
        r := GetOldest(p, dev, blkno);
        return;
      }
      if hdr[bp].busy {
        hdr := hdr[bp := hdr[bp].(wanted := true)];
        wchan := wchan[p := OnBuf(bp)];
        return Slept;
      }
      Notavail(bp);
      return Got(bp);
    }

    /** binit: thread every buffer on the unassociated chain and release it. */
    constructor Binit(blocks: seq<seq<int>>)
      ensures Valid() && Abs() == Initial(blocks)
    {
      hdr := seq(NBUF, i => Blank(true));
      bForw, bBack := seq(NBUF + 2, i => i), seq(NBUF + 2, i => i);
      avForw, avBack := seq(NBUF + 2, i => i), seq(NBUF + 2, i => i);
      freeWanted, actf, actl, active, disk, wchan := false, NIL, NIL, 0, blocks, map[];
      avail, chain, loose, queue := [], [], [], [];
      new;
      for i := 0 to NBUF
        invariant Valid() && InitState(i, blocks)
      {
        InitOne(i, blocks);
      }
      assert hdr == Initial(blocks).buf;
      assert avail == Initial(blocks).avail;
      assert loose == Initial(blocks).loose;
    }

    /** binit has dealt with the first i buffers. */
    ghost predicate InitState(i: nat, blocks: seq<seq<int>>)
      reads this
    {
      && |hdr| == NBUF && |avail| == |loose| == i <= NBUF && chain == [] && queue == []
      && (forall j :: 0 <= j < i ==> avail[j] == j)
      && (forall j :: 0 <= j < i ==> loose[j] == i - 1 - j)
      && (forall j :: 0 <= j < NBUF ==> hdr[j] == Blank(j >= i))
      && !freeWanted && active == 0 && disk == blocks && wchan == map[]
    }

    method InitOne(i: nat, ghost blocks: seq<seq<int>>)
      requires Valid() && InitState(i, blocks) && i < NBUF
      modifies this
      ensures Valid() && InitState(i + 1, blocks)
    {
      Enchain(i, FREE);
      ghost var c := Abs();
      Brelse(i);
      assert Abs() == Buffers.Brelse(c, i) && c.buf[i] == Blank(true);
      assert avail == c.avail + [i] && loose == c.loose;
    }

    /** bflush's scan of the available list. */
    method FirstDelayed(dev: int) returns (r: int)
      requires Valid() && Sane(Abs())
      ensures r == match FirstFlush(Abs(), avail, dev) case Some(b) => b case None => NIL
    {
      assert Lap(FREE, avail)[0] == FREE;
      var bp := avForw[FREE];
      ghost var i := 0;
      assert avail[0..] == avail;
      while bp != FREE
        invariant 0 <= i <= |avail| && bp == Lap(FREE, avail)[i+1]
        invariant FirstFlush(Abs(), avail[i..], dev) == FirstFlush(Abs(), avail, dev)
        decreases |avail| - i
      {
        assert bp == avail[i] && avail[i] in avail && avail[i..][0] == avail[i];
        if hdr[bp].delwri && (dev == NODEV || dev == hdr[bp].dev) {
          return bp;
        }
        assert avForw[Lap(FREE, avail)[i+1]] == Lap(FREE, avail)[i+2];
        assert avail[i..][1..] == avail[i+1..];
        bp := avForw[bp];
        i := i + 1;
      }
      return NIL;
    }

    lemma ValidSane()
      requires Valid() && Ready(Abs())
      ensures Sane(Abs())
    {
      assert forall i :: 0 <= i < |avail| ==> avail[i] in avail;
      assert forall i :: 0 <= i < |chain| ==> chain[i] in chain;
    }

    /** One round of bflush: write the first delayed buffer, or report that there is none. */
    method FlushRound(dev: int) returns (more: bool)
      requires Valid() && Driving(Abs()) && Sane(Abs())
      modifies this
      ensures Valid() && Driving(Abs())
      ensures if more then FlushPass(old(Abs()), dev) == Some(Abs()) && Pending(Abs(), dev) < old(Pending(Abs(), dev))
              else Abs() == old(Abs()) && FlushPass(Abs(), dev).None?
    {
      var bp := FirstDelayed(dev);
      if bp == NIL {
        return false;
      }
      FlushShrinks(Abs(), bp, dev);
      Notavail(bp);
      Bawrite(bp);
      return true;
    }

    /** Disk interrupts, as many as happen to come. */
    method Interrupts(dev: int) returns (ghost n: nat)
      requires Valid() && Driving(Abs())
      modifies this
      ensures Valid() && Driving(Abs()) && Pending(Abs(), dev) <= old(Pending(Abs(), dev))
      ensures Abs() == IntrTimes(old(Abs()), n)
    {
      var count: int := *;
      n := 0;
      var i := 0;
      while i < count
        invariant n == i
        invariant Valid() && Driving(Abs()) && Pending(Abs(), dev) <= old(Pending(Abs(), dev))
        invariant Abs() == IntrTimes(old(Abs()), n)
      {
        OneInterrupt(dev);
        i, n := i + 1, n + 1;
      }
    }

    method OneInterrupt(ghost dev: int)
      requires Valid() && Driving(Abs())
      modifies this
      ensures Valid() && Driving(Abs()) && Pending(Abs(), dev) <= old(Pending(Abs(), dev))
      ensures Abs() == Buffers.Rkintr(old(Abs()))
    {
      RkintrDriving(Abs(), dev);
      Rkintr();
    }

    /** bflush: ends because every round leaves one delayed write fewer and interrupts add none. */
    method Bflush(dev: int) returns (ghost rounds: seq<nat>)
      requires Valid() && Driving(Abs())
      modifies this
      ensures Valid() && Driving(Abs()) && Abs() == Replay(old(Abs()), rounds, dev)
      ensures forall b :: b in avail ==> IsBuf(b) && !FlushMatch(Abs(), b, dev)
    {
      rounds := [];
      var more := true;
      while more
        invariant Valid() && Driving(Abs()) && Abs() == Replay(old(Abs()), rounds, dev)
        invariant !more ==> forall b :: b in avail ==> !FlushMatch(Abs(), b, dev)
        decreases more, Pending(Abs(), dev)
      {
        ghost var n := Interrupts(dev);
        ValidSane();
        more := FlushRound(dev);
        ReplayNext(old(Abs()), rounds, n, dev);
        rounds := rounds + [n];
      }
    }
  }
}
