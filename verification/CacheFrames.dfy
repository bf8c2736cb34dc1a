/** What one event of the cache leaves alone: the buffers of calls in progress, and the order of the available list. */
module CacheFrames {
  import opened Options
  import opened Rings
  import opened Buffers
  import opened CacheMachine
  import opened CachePool
  import opened CacheSteps
  import opened CacheTheorems

  /** Buffer b as it was, except that somebody may have come to want it. */
  ghost predicate Spared(c: Pool, d: Pool, b: int) {
    && IsBuf(b) && |c.buf| == |d.buf| == NBUF && d.buf[b].(wanted := false) == c.buf[b].(wanted := false)
    && (b in d.queue <==> b in c.queue) && d.disk == c.disk
  }

  lemma OthersSpared(c: Pool, x: int, b: int)
    requires IsBuf(x) && IsBuf(b) && x != b && |c.buf| == NBUF
    ensures Spared(c, Notavail(c, x), b) && Spared(c, Brelse(c, x), b) && Spared(c, Bdwrite(c, x), b)
  {
  }

  lemma StartSpares(c: Pool, x: int, b: int, async: bool)
    requires IsBuf(x) && IsBuf(b) && x != b && |c.buf| == NBUF
    ensures Spared(c, StartRead(c, x, async), b) && Spared(c, StartWrite(c, x), b) && Spared(c, Bawrite(c, x), b)
  {
  }

  lemma TakingSpares(c: Pool, x: int, b: int, dev: int, blkno: int)
    requires IsBuf(x) && IsBuf(b) && x != b && |c.buf| == NBUF
    ensures Spared(c, Bawrite(Notavail(c, x), x), b) && Spared(c, Reassign(Notavail(c, x), x, dev, blkno), b)
  {
    OthersSpared(c, x, b);
    StartSpares(Notavail(c, x), x, b, false);
  }

  ghost predicate Untouched(s: State, t: State, b: int) {
    Spared(s.pool, t.pool, b) && |s.owner| == |t.owner| == NBUF && t.owner[b] == s.owner[b]
  }

  ghost predicate SameTask(s: State, t: State, p: int) { p in s.tasks && p in t.tasks && t.tasks[p] == s.tasks[p] }

  /** getblk on behalf of another takes no busy buffer. */
  lemma GettingSpares(s: State, q: int, b: int)
    requires PoolInv(s.pool) && Sane(s.pool) && |s.owner| == NBUF && q in s.tasks && s.tasks[q].pc.Getting?
    requires IsBuf(b) && s.pool.buf[b].busy
    ensures Spared(s.pool, GetblkPass(s.pool, q, s.tasks[q].dev, s.tasks[q].pc.want).0, b)
  {
    var c, dev, want := s.pool, s.tasks[q].dev, s.tasks[q].pc.want;
    var found := if dev < 0 then None else Incore(c, c.chain, dev, want);
    if found.Some? && !c.buf[found.value].busy {
      OthersSpared(c, found.value, b);
    } else if found.None? && c.avail != [] {
      assert c.avail[0] in c.avail;
      TakingSpares(c, c.avail[0], b, dev, want);
    }
  }

  /** Nor does it change whose that is. */
  lemma GettingOwners(s: State, q: int, b: int)
    requires PoolInv(s.pool) && Sane(s.pool) && |s.owner| == NBUF && q in s.tasks && s.tasks[q].pc.Getting?
    requires IsBuf(b) && s.pool.buf[b].busy
    ensures var t := RunGetting(s, q); |t.owner| == NBUF && t.owner[b] == s.owner[b]
  {
    RunGettingCases(s, q);
    var f := Found(s, q);
    if f.None? && s.pool.avail != [] { assert s.pool.avail[0] in s.pool.avail; }
  }

  lemma GettingLeaves(s: State, q: int, p: int, b: int)
    requires PoolInv(s.pool) && Shape(s) && q in s.tasks && s.tasks[q].pc.Getting? && p in s.tasks && p != q
    requires IsBuf(b) && s.pool.buf[b].busy
    ensures Untouched(s, RunGetting(s, q), b) && SameTask(s, RunGetting(s, q), p)
  {
    GettingSpares(s, q, b);
    GettingOwners(s, q, b);
  }

  /** What another does with its own buffer does not touch this one. */
  lemma HaveLeaves(s: State, q: int, p: int, b: int)
    requires Sane(s.pool) && |s.owner| == NBUF && q in s.tasks && s.tasks[q].pc.Have? && p in s.tasks && p != q
    requires IsBuf(b) && IsBuf(s.tasks[q].pc.b) && s.tasks[q].pc.b != b
    ensures Untouched(s, RunHave(s, q), b) && SameTask(s, RunHave(s, q), p)
  {
    var x := s.tasks[q].pc.b;
    OthersSpared(s.pool, x, b);
    StartSpares(s.pool, x, b, false);
    StartSpares(s.pool, x, b, true);
  }

  lemma WaitLeaves(s: State, q: int, p: int, b: int)
    requires Shape(s) && q in s.tasks && p in s.tasks && p != q
    requires s.tasks[q].pc.IoWait? && IsBuf(s.tasks[q].pc.b) && s.tasks[q].pc.b != b && IsBuf(b)
    ensures Untouched(s, RunIoWait(s, q), b) && SameTask(s, RunIoWait(s, q), p)
  {
    OthersSpared(s.pool, s.tasks[q].pc.b, b);
  }

  lemma RunLeaves(s: State, store: seq<seq<int>>, q: int, p: int, b: int)
    requires Inv(s, store) && Shape(s) && q in s.tasks && p != q && IsBuf(b) && s.owner[b] == Proc(p)
    ensures Untouched(s, RunStep(s, q), b) && SameTask(s, RunStep(s, q), p)
  {
    assert OwnerOk(s, b) && GoodTask(s.zone, s.tasks[q]);
    match s.tasks[q].pc
    case Getting(_, _) => GettingLeaves(s, q, p, b);
    case Have(x, _) =>
      assert Mine(s.tasks[q], x);
      HaveLeaves(s, q, p, b);
    case Ahead(_, _) =>
    case IoWait(x, _) =>
      assert Mine(s.tasks[q], x);
      WaitLeaves(s, q, p, b);
  }

  /** A client's own buffer, or one that is available, is another buffer. */
  lemma ClientLeaves(s: State, e: Event, x: int, p: int, b: int)
    requires Shape(s) && Enabled(s, e) && IsBuf(b) && s.owner[b] == Proc(p) && p in s.tasks
    requires (e.Poke? && x == e.b) || e == Release(x) || e == WriteDelayed(x) || e == WriteAsync(x)
          || (e.WriteSync? && x == e.b)
    ensures Untouched(s, Step(s, e), b) && SameTask(s, Step(s, e), p)
  {
    assert x != b;
    OthersSpared(s.pool, x, b);
    StartSpares(s.pool, x, b, false);
  }

  lemma FlushLeaves(s: State, dev: int, p: int, b: int)
    requires PoolInv(s.pool) && Shape(s) && IsBuf(b) && s.pool.buf[b].busy && p in s.tasks
    ensures Untouched(s, FlushStep(s, dev), b) && SameTask(s, FlushStep(s, dev), p)
  {
    var f := FirstFlush(s.pool, s.pool.avail, dev);
    if f.Some? { TakingSpares(s.pool, f.value, b, 0, 0); }
  }

  /** The buffers of a call in progress are touched by its own steps and by the disk only. */
  lemma OthersLeave(s: State, store: seq<seq<int>>, e: Event, p: int, b: int)
    requires Inv(s, store) && Shape(s) && Enabled(s, e) && IsBuf(b) && s.owner[b] == Proc(p) && e != Run(p) && e != Intr
    ensures Untouched(s, Step(s, e), b) && SameTask(s, Step(s, e), p)
  {
    assert OwnerOk(s, b);
    match e
    case Run(q) => RunLeaves(s, store, q, p, b);
    case Flush(dev) => FlushLeaves(s, dev, p, b);
    case Poke(x, _, _) => ClientLeaves(s, e, x, p, b);
    case Release(x) => ClientLeaves(s, e, x, p, b);
    case WriteDelayed(x) => ClientLeaves(s, e, x, p, b);
    case WriteAsync(x) => ClientLeaves(s, e, x, p, b);
    case WriteSync(_, x) => ClientLeaves(s, e, x, p, b);
    case _ =>
  }

  /* ---------------------------------------------------------------- the call alone */

  /** Only its own steps move a call on. */
  lemma TaskKept(s: State, e: Event, p: int)
    requires PoolInv(s.pool) && Shape(s) && Enabled(s, e) && p in s.tasks && e != Run(p)
    ensures SameTask(s, Step(s, e), p)
  {
    match e
    case Run(q) =>
      if s.tasks[q].pc.Getting? { RunGettingCases(s, q); }
    case _ =>
  }

  /* ---------------------------------------------------------------- the available list */

  /** What one event does to the available list: nothing, or one buffer leaves it, or one joins its tail. */
  ghost predicate OneMoves(a: seq<int>, a': seq<int>) {
    || a' == a
    || (exists x :: x in a && a' == Without(a, x))
    || (exists x :: x !in a && a' == a + [x])
  }

  lemma GettingAvail(s: State, p: int)
    requires PoolInv(s.pool) && Shape(s) && p in s.tasks && s.tasks[p].pc.Getting?
    ensures OneMoves(s.pool.avail, RunGetting(s, p).pool.avail)
  {
    RunGettingCases(s, p);
    var f := Found(s, p);
    if f.None? && s.pool.avail != [] { assert s.pool.avail[0] in s.pool.avail; }
  }

  lemma RunAvail(s: State, store: seq<seq<int>>, p: int)
    requires Inv(s, store) && Shape(s) && p in s.tasks
    ensures OneMoves(s.pool.avail, RunStep(s, p).pool.avail)
  {
    assert GoodTask(s.zone, s.tasks[p]);
    match s.tasks[p].pc
    case Getting(_, _) => GettingAvail(s, p);
    case Have(x, _) =>
      BusyMine(s, p, x);
      HaveAvail(s, p);
    case IoWait(x, _) =>
      BusyMine(s, p, x);
      WaitAvail(s, p);
    case Ahead(_, _) =>
  }

  lemma BusyMine(s: State, p: int, x: int)
    requires PoolInv(s.pool) && Custody(s) && p in s.tasks && IsBuf(x) && Mine(s.tasks[p], x)
    ensures x !in s.pool.avail
  {
    assert OwnerOk(s, x);
  }

  lemma HaveAvail(s: State, p: int)
    requires Sane(s.pool) && |s.owner| == NBUF && p in s.tasks && s.tasks[p].pc.Have? && IsBuf(s.tasks[p].pc.b)
    requires s.tasks[p].pc.b !in s.pool.avail
    ensures OneMoves(s.pool.avail, RunHave(s, p).pool.avail)
  {
  }

  lemma WaitAvail(s: State, p: int)
    requires Sane(s.pool) && |s.owner| == NBUF && p in s.tasks && s.tasks[p].pc.IoWait? && IsBuf(s.tasks[p].pc.b)
    requires s.tasks[p].pc.b !in s.pool.avail
    ensures OneMoves(s.pool.avail, RunIoWait(s, p).pool.avail)
  {
  }

  lemma IntrAvail(s: State)
    requires PoolInv(s.pool) && Shape(s)
    ensures OneMoves(s.pool.avail, IntrStep(s).pool.avail)
  {
    if s.pool.queue != [] {
      RkintrSplits(s.pool);
      assert s.pool.queue[0] in s.pool.queue;
    }
  }

  /** The available list is served in the order of release: whatever happens, at most one buffer leaves it or one joins
      it, and that one joins at the tail. */
  lemma AvailIsFifo(z: Zone, disk: seq<seq<int>>, es: seq<Event>, e: Event)
    requires GoodDisk(disk) && IsZone(z)
    ensures OneMoves(After(z, disk, es).pool.avail, After(z, disk, es + [e]).pool.avail)
  {
    RunInv(z, disk, es);
    assert (es + [e])[..|es|] == es;
    var s := After(z, disk, es);
    if Happens(s, e) { StepAvail(s, LastReleased(z, disk, es), e); }
  }

  lemma StepAvail(s: State, store: seq<seq<int>>, e: Event)
    requires Inv(s, store) && Shape(s) && Enabled(s, e)
    ensures OneMoves(s.pool.avail, Step(s, e).pool.avail)
  {
    match e
    case Run(p) => RunAvail(s, store, p);
    case Intr => IntrAvail(s);
    case Release(b) => assert OwnerOk(s, b);
    case WriteDelayed(b) => assert OwnerOk(s, b);
    case _ =>
  }

  /** Process p is in getblk for a block that is in no buffer, and some buffer is available. */
  ghost predicate Misses(s: State, p: int) {
    && Happens(s, Run(p)) && s.tasks[p].pc.Getting? && s.pool.avail != []
    && (s.tasks[p].dev >= 0 ==> forall b :: IsBuf(b) ==> !HasKey(s.pool.buf[b], s.tasks[p].dev, s.tasks[p].pc.want))
  }

  /** Process p now has the buffer that was at the head of the available list, under the block it wants, or that buffer
      is on its way to the disk. */
  ghost predicate TookHead(s: State, t: State, p: int)
    requires p in s.tasks && s.tasks[p].pc.Getting? && s.pool.avail != []
  {
    var b := s.pool.avail[0];
    && IsBuf(b) && |s.pool.buf| == |t.pool.buf| == NBUF && t.pool.avail == s.pool.avail[1..] && p in t.tasks
    && if s.pool.buf[b].delwri then b in t.pool.queue && t.tasks[p] == s.tasks[p]
       else HasKey(t.pool.buf[b], s.tasks[p].dev, s.tasks[p].pc.want)
            && t.tasks[p] == s.tasks[p].(pc := Have(b, s.tasks[p].pc.why))
  }

  lemma HeadTaken(s: State, p: int)
    requires PoolInv(s.pool) && Misses(s, p)
    ensures TookHead(s, RunGetting(s, p), p)
  {
    var c := s.pool;
    assert c.avail[0] in c.avail;
    RunGettingCases(s, p);
    assert Found(s, p).None?;
    WithoutAt(c.avail, 0);
    assert c.avail[..0] + c.avail[1..] == c.avail[1..];
  }

  /** getblk for a block in no buffer takes the one at the head, the one released longest ago: to reassign it, or to
      write it out first. */
  lemma TakesOldest(z: Zone, disk: seq<seq<int>>, es: seq<Event>, p: int)
    requires GoodDisk(disk) && IsZone(z) && Misses(After(z, disk, es), p)
    ensures TookHead(After(z, disk, es), After(z, disk, es + [Run(p)]), p)
  {
    RunInv(z, disk, es);
    assert (es + [Run(p)])[..|es|] == es;
    HeadTaken(After(z, disk, es), p);
  }

  /** bflush for a device leaves the buffers of others alone. */
  lemma FlushSpares(s: State, dev: int, b: int)
    requires Shape(s) && IsBuf(b) && dev != NODEV && s.pool.buf[b].dev != dev
    ensures |FlushStep(s, dev).pool.buf| == NBUF && FlushStep(s, dev).pool.buf[b] == s.pool.buf[b]
    ensures b in FlushStep(s, dev).pool.queue <==> b in s.pool.queue
  {
    var f := FirstFlush(s.pool, s.pool.avail, dev);
    if f.Some? { TakingSpares(s.pool, f.value, b, 0, 0); }
  }
}
