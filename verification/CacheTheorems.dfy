/** What the buffer cache guarantees over every run. */
module CacheTheorems {
  import opened Rings
  import opened Buffers
  import opened CacheMachine
  import opened CacheSteps

  predicate GoodDisk(disk: seq<seq<int>>) {
    |disk| == NSECTOR && forall k :: 0 <= k < NSECTOR ==> |disk[k]| == WORDS
  }

  function Start(z: Zone, disk: seq<seq<int>>): State {
    State(Initial(disk), map[], seq(NBUF, i => Nobody), {}, z)
  }

  lemma StartInv(z: Zone, disk: seq<seq<int>>)
    requires GoodDisk(disk) && IsZone(z)
    ensures Inv(Start(z, disk), disk)
  {
    var c := Start(z, disk).pool;
    assert forall b :: IsBuf(b) ==> c.avail[b] == b;
    assert forall b :: IsBuf(b) ==> c.loose[NBUF - 1 - b] == b;
    assert forall k :: !Cached(c, k);
    forall b | IsBuf(b)
      ensures OwnerOk(Start(z, disk), b)
    {
    }
  }

  lemma InvShape(s: State, store: seq<seq<int>>)
    requires Inv(s, store)
    ensures Shape(s)
  {
    PoolSane(s.pool);
  }

  lemma StepKeeps(s: State, e: Event, store: seq<seq<int>>)
    requires Inv(s, store) && Shape(s) && Enabled(s, e)
    ensures Inv(Step(s, e), match Released(s, e) case Some(w) => store[w.0 := w.1] case None => store)
  {
    match e
    case Run(p) => RunKeeps(s, p, store);
    case Intr => IntrKeeps(s, store);
    case Poke(b, off, words) => PokeKeeps(s, b, off, words, store);
    case Release(b) => ReleaseKeeps(s, b, store);
    case WriteDelayed(b) => DelayedKeeps(s, b, store);
    case WriteAsync(b) => AsyncKeeps(s, b, store);
    case WriteSync(p, b) => SyncKeeps(s, p, b, store);
    case Flush(dev) => FlushKeeps(s, dev, store);
    case Wake(p) => WakeKeeps(s, p, store);
    case _ => CallsKeep(s, e, store);
  }

  lemma CallsKeep(s: State, e: Event, store: seq<seq<int>>)
    requires Inv(s, store) && Shape(s) && Enabled(s, e) && (e.CallGetblk? || e.CallBread? || e.CallBreada?)
    ensures Inv(Step(s, e), store)
  {
    match e
    case CallGetblk(p, dev, blkno) => CallKeeps(s, p, Task(dev, blkno, Getting(blkno, ForGetblk)), store);
    case CallBread(p, dev, blkno) => CallKeeps(s, p, Task(dev, blkno, Getting(blkno, ForBread)), store);
    case CallBreada(p, dev, blkno, ra) =>
      if Incore(s.pool, s.pool.chain, dev, blkno).None? {
        CallKeeps(s, p, Task(dev, blkno, Getting(blkno, ForReada(ra))), store);
      } else {
        CallKeeps(s, p, Task(dev, blkno, Ahead(-1, ra)), store);
      }
  }

  lemma ZoneKept(s: State, e: Event)
    requires Shape(s) && Enabled(s, e)
    ensures Step(s, e).zone == s.zone
  {
    match e
    case Run(p) => RunZone(s, p);
    case _ =>
  }

  lemma RunZone(s: State, p: int)
    requires Shape(s) && p in s.tasks
    ensures RunStep(s, p).zone == s.zone
  {
  }

  lemma RunKeeps(s: State, p: int, store: seq<seq<int>>)
    requires Inv(s, store) && Shape(s) && p in s.tasks && p !in s.pool.wchan
    ensures Inv(RunStep(s, p), store)
  {
    assert GoodTask(s.zone, s.tasks[p]);
    match s.tasks[p].pc
    case Getting(_, _) => RunGettingKeeps(s, p, store);
    case Have(_, _) => RunHaveKeeps(s, p, store);
    case Ahead(_, _) => RunAheadKeeps(s, p, store);
    case IoWait(_, _) => RunIoWaitKeeps(s, p, store);
  }

  lemma FlushKeeps(s: State, dev: int, store: seq<seq<int>>)
    requires Inv(s, store) && Sane(s.pool)
    ensures Inv(FlushStep(s, dev), store)
  {
    var f := FirstFlush(s.pool, s.pool.avail, dev);
    if f.Some? {
      WriteBehind(s, f.value, store);
    }
  }

  /* ---------------------------------------------------------------- runs */

  /** An event that its caller has no right to does not happen. */
  ghost predicate Happens(s: State, e: Event) { Shape(s) && Enabled(s, e) }

  ghost function After(z: Zone, disk: seq<seq<int>>, es: seq<Event>): State {
    if es == [] then Start(z, disk) else
    var s, e := After(z, disk, es[..|es|-1]), es[|es|-1];
    if Happens(s, e) then Step(s, e) else s
  }

  /** For every sector, what was last released by bwrite, bawrite or bdwrite, else what the disk held at boot. */
  ghost function LastReleased(z: Zone, disk: seq<seq<int>>, es: seq<Event>): seq<seq<int>> {
    if es == [] then disk else
    var s, e, before := After(z, disk, es[..|es|-1]), es[|es|-1], LastReleased(z, disk, es[..|es|-1]);
    if Happens(s, e) && Released(s, e).Some? && Released(s, e).value.0 < |before|
    then before[Released(s, e).value.0 := Released(s, e).value.1] else before
  }

  lemma {:induction false} RunInv(z: Zone, disk: seq<seq<int>>, es: seq<Event>)
    requires GoodDisk(disk) && IsZone(z)
    ensures Inv(After(z, disk, es), LastReleased(z, disk, es)) && Shape(After(z, disk, es))
        && After(z, disk, es).zone == z
  {
    if es == [] {
      StartInv(z, disk);
      InvShape(Start(z, disk), disk);
    } else {
      var pre, e := es[..|es|-1], es[|es|-1];
      RunInv(z, disk, pre);
      var s := After(z, disk, pre);
      if Happens(s, e) {
        ZoneKept(s, e);
        StepKeeps(s, e, LastReleased(z, disk, pre));
      }
      InvShape(After(z, disk, es), LastReleased(z, disk, es));
    }
  }

  /** The buffer bread or breada is about to return, when process p next runs. */
  ghost predicate Returning(s: State, p: int, b: int) {
    && p in s.tasks && p !in s.pool.wchan && IsBuf(b) && Ready(s.pool)
    && (s.tasks[p].pc == Have(b, ForBread) || s.tasks[p].pc == IoWait(b, false))
    && s.pool.buf[b].done
  }

  /** Cache coherence: whatever the interleaving, a finished bread or breada yields the block asked for,
      with the contents last released for it, if no two blocks in use share a sector. */
  lemma ReadsSeeLastWrite(z: Zone, disk: seq<seq<int>>, es: seq<Event>, p: int, b: int)
    requires GoodDisk(disk) && IsZone(z) && Apart(z)
    requires Returning(After(z, disk, es), p, b)
    ensures var s, s' := After(z, disk, es), After(z, disk, es + [Run(p)]);
            && Shape(s) && |LastReleased(z, disk, es)| == NSECTOR
            && s'.owner == s.owner[b := Client] && p !in s'.tasks && s'.pool == s.pool
            && HasKey(s'.pool.buf[b], s.tasks[p].dev, s.tasks[p].blkno)
            && Contents(s'.pool.buf[b]) == LastReleased(z, disk, es)[Sector(s.tasks[p].dev, s.tasks[p].blkno)]
  {
    var s := After(z, disk, es);
    RunInv(z, disk, es);
    assert (es + [Run(p)])[..|es|] == es;
    assert Happens(s, Run(p));
    assert GoodTask(s.zone, s.tasks[p]);
    assert Mine(s.tasks[p], b) && OwnerOk(s, b) && s.owner[b] == Proc(p);
    assert Agrees(s.pool, s.dirty, LastReleased(z, disk, es), b);
  }

  /** A block that no caller and no transfer holds is readable from the cache or from the disk, and the two agree
      with the last write: nothing written is lost when a delayed block is evicted. */
  lemma NoWriteLost(z: Zone, disk: seq<seq<int>>, es: seq<Event>, k: int)
    requires GoodDisk(disk) && IsZone(z) && Apart(z) && 0 <= k < NSECTOR
    ensures var c := After(z, disk, es).pool;
            && Ready(c) && |LastReleased(z, disk, es)| == NSECTOR
            && (NobodyHolds(c, k) ==>
                  c.disk[k] == LastReleased(z, disk, es)[k] || Delayed(c, k, LastReleased(z, disk, es)[k]))
  {
    var s, store := After(z, disk, es), LastReleased(z, disk, es);
    RunInv(z, disk, es);
    if NobodyHolds(s.pool, k) && Cached(s.pool, k) {
      var b :| IsBuf(b) && s.pool.buf[b].dev >= 0 && KeySector(s.pool.buf[b]) == k;
      assert Agrees(s.pool, s.dirty, store, b) && OwnerOk(s, b);
    }
  }

  ghost predicate NobodyHolds(c: Pool, k: int)
    requires Ready(c)
  {
    forall b :: IsBuf(b) && c.buf[b].dev >= 0 && KeySector(c.buf[b]) == k ==> !c.buf[b].busy
  }

  /** The block waits on the available list for its delayed write. */
  ghost predicate Delayed(c: Pool, k: int, words: seq<int>)
    requires Ready(c)
  {
    exists b :: IsBuf(b) && b in c.avail && c.buf[b].delwri && KeySector(c.buf[b]) == k && Contents(c.buf[b]) == words
  }

  /** The list invariant of h/buf.h, in every reachable state. */
  lemma ListsAlwaysHold(z: Zone, disk: seq<seq<int>>, es: seq<Event>)
    requires GoodDisk(disk) && IsZone(z)
    ensures var c := After(z, disk, es).pool;
            && |c.buf| == NBUF
            && NoDup(c.avail) && NoDup(c.chain) && NoDup(c.loose) && NoDup(c.queue)
            && (forall b :: IsBuf(b) ==> (b in c.avail <==> !c.buf[b].busy))
            && (forall b :: IsBuf(b) ==> (b in c.chain <==> b !in c.loose))
            && (forall b :: b in c.queue ==> IsBuf(b) && c.buf[b].busy)
            && (c.active == 1 <==> c.queue != []) && (c.active == 0 <==> c.queue == [])
            && (forall b, b' :: IsBuf(b) && IsBuf(b') && b != b' && c.buf[b].dev >= 0 ==>
                                !HasKey(c.buf[b'], c.buf[b].dev, c.buf[b].blkno))
  {
    RunInv(z, disk, es);
    var c := After(z, disk, es).pool;
    forall b, b' | IsBuf(b) && IsBuf(b') && b != b' && c.buf[b].dev >= 0
      ensures !HasKey(c.buf[b'], c.buf[b].dev, c.buf[b].blkno)
    {
      assert !Twins(c, b, b');
    }
  }

  /** The 257th word of a buffer area is never anything but zero. */
  lemma LastWordAlwaysZero(z: Zone, disk: seq<seq<int>>, es: seq<Event>, b: int)
    requires GoodDisk(disk) && IsZone(z) && IsBuf(b)
    ensures var c := After(z, disk, es).pool; |c.buf| == NBUF && |c.buf[b].mem| == AREA && c.buf[b].mem[WORDS] == 0
  {
    RunInv(z, disk, es);
  }

  /** A process asleep in the cache always has its wakeup still to come: the buffer it waits for is busy and marked
      wanted, or its transfer is still queued, or no buffer is available and the free list is marked wanted. */
  lemma NoLostWakeup(z: Zone, disk: seq<seq<int>>, es: seq<Event>, p: int)
    requires GoodDisk(disk) && IsZone(z) && p in After(z, disk, es).pool.wchan
    ensures StillDue(After(z, disk, es), p)
  {
    RunInv(z, disk, es);
    SleeperDue(After(z, disk, es), p, LastReleased(z, disk, es));
  }

  ghost predicate StillDue(s: State, p: int)
    requires p in s.pool.wchan
  {
    var c := s.pool;
    && p in s.tasks && |c.buf| == NBUF
    && match c.wchan[p]
       case OnFree => c.freeWanted && c.avail == []
       case OnBuf(b) => IsBuf(b) && c.buf[b].busy && (c.buf[b].wanted || (b in c.queue && !c.buf[b].async))
  }

  lemma SleeperDue(s: State, p: int, store: seq<seq<int>>)
    requires Inv(s, store) && p in s.pool.wchan
    ensures StillDue(s, p)
  {
    assert AsleepOk(s, p);
    if s.tasks[p].pc.IoWait? {
      var b := s.tasks[p].pc.b;
      assert Mine(s.tasks[p], b) && OwnerOk(s, b);
    }
  }

  /** The driver serves its queue first come, first served: an interrupt takes the head, everything else only
      appends. */
  lemma QueueIsFifo(z: Zone, disk: seq<seq<int>>, es: seq<Event>, e: Event)
    requires GoodDisk(disk) && IsZone(z)
    ensures var q, q' := After(z, disk, es).pool.queue, After(z, disk, es + [e]).pool.queue;
            if e.Intr? then q' == (if q == [] then [] else q[1..])
            else q' == q || (|q'| == |q| + 1 && q'[..|q|] == q)
  {
    RunInv(z, disk, es);
    assert (es + [e])[..|es|] == es;
    var s := After(z, disk, es);
    if Happens(s, e) && e.Intr? && s.pool.queue != [] {
      IntrShape(s.pool);
    } else if Happens(s, e) && e.Run? {
      RunQueue(s, e.p);
    }
  }

  lemma RunQueue(s: State, p: int)
    requires PoolInv(s.pool) && Shape(s) && p in s.tasks
    ensures var q, q' := s.pool.queue, RunStep(s, p).pool.queue; q' == q || (|q'| == |q| + 1 && q'[..|q|] == q)
  {
    if s.tasks[p].pc.Getting? {
      RunGettingCases(s, p);
    }
  }

  /* ---------------------------------------------------------------- bflush */

  /** Interrupts until the driver's queue is empty. */
  ghost function Drain(s: State, store: seq<seq<int>>): State
    requires Inv(s, store)
    decreases |s.pool.queue|
  {
    if s.pool.queue == [] then s else
    InvShape(s, store); IntrKeeps(s, store); IntrShape(s.pool);
    Drain(IntrStep(s), store)
  }

  /** Nothing dirty waits on the available list for this device. */
  ghost predicate Flushed(c: Pool, dev: int)
    requires |c.buf| == NBUF
  {
    forall b :: IsBuf(b) && !c.buf[b].busy ==> !FlushMatch(c, b, dev)
  }

  lemma IntrFlushed(s: State, dev: int, store: seq<seq<int>>)
    requires Inv(s, store) && s.pool.queue != [] && Flushed(s.pool, dev) && IsBuf(s.pool.queue[0])
    ensures |IntrStep(s).pool.buf| == NBUF && Flushed(IntrStep(s).pool, dev)
  {
    IntrShape(s.pool);
    assert s.pool.queue[0] in s.pool.queue;
  }

  /** Once bflush has found nothing more to write and the queue has drained, every block of the device that no caller
      holds is on the disk exactly as last released. */
  lemma {:induction false} FlushReachesDisk(s: State, dev: int, store: seq<seq<int>>, k: int)
    requires Inv(s, store) && Apart(s.zone) && Flushed(s.pool, dev) && 0 <= k < NSECTOR
    requires dev == NODEV || exists blkno :: Used(s.zone, dev, blkno) && Sector(dev, blkno) == k
    ensures var c := Drain(s, store).pool;
            Ready(c) && c.queue == [] && (NobodyHolds(c, k) ==> c.disk[k] == store[k])
    decreases |s.pool.queue|
  {
    if s.pool.queue == [] {
      if NobodyHolds(s.pool, k) { DrainedDisk(s, dev, store, k); }
    } else {
      InvShape(s, store);
      IntrKeeps(s, store);
      IntrShape(s.pool);
      IntrFlushed(s, dev, store);
      FlushReachesDisk(IntrStep(s), dev, store, k);
    }
  }

  lemma DrainedDisk(s: State, dev: int, store: seq<seq<int>>, k: int)
    requires Inv(s, store) && Apart(s.zone) && Flushed(s.pool, dev) && 0 <= k < NSECTOR && s.pool.queue == []
    requires dev == NODEV || exists blkno :: Used(s.zone, dev, blkno) && Sector(dev, blkno) == k
    requires NobodyHolds(s.pool, k)
    ensures s.pool.disk[k] == store[k]
  {
    var c := s.pool;
    if Cached(c, k) {
      var b :| IsBuf(b) && c.buf[b].dev >= 0 && KeySector(c.buf[b]) == k;
      assert Agrees(c, s.dirty, store, b);
      if dev != NODEV {
        var blkno :| Used(s.zone, dev, blkno) && Sector(dev, blkno) == k;
        assert OwnerOk(s, b);
      }
      assert !FlushMatch(c, b, dev);
    }
  }

  /** A pool that belongs to a state in good order. */
  ghost predicate Sound(c: Pool, z: Zone, store: seq<seq<int>>) {
    exists s: State :: Inv(s, store) && s.zone == z && s.pool == c
  }

  /** The interrupts between two rounds of bflush are steps of the machine. */
  lemma SoundIntrs(c: Pool, n: nat, z: Zone, store: seq<seq<int>>)
    requires Sound(c, z, store)
    ensures Sound(IntrTimes(c, n), z, store)
  {
    forall d | Sound(d, z, store)
      ensures Sound(Interrupted(d), z, store)
    {
      SoundIntr(d, z, store);
    }
    KeptByIntrs(d => Sound(d, z, store), c, n);
  }

  lemma {:induction false} KeptByIntrs(good: Pool -> bool, c: Pool, n: nat)
    requires good(c) && forall d :: good(d) ==> good(Interrupted(d))
    ensures good(IntrTimes(c, n))
  {
    if n > 0 { KeptByIntrs(good, c, n - 1); }
  }

  lemma SoundIntr(c: Pool, z: Zone, store: seq<seq<int>>)
    requires Sound(c, z, store)
    ensures Sound(Interrupted(c), z, store)
  {
    var s: State :| Inv(s, store) && s.zone == z && s.pool == c;
    InvDriving(s, store);
    IntrKeeps(s, store);
    var t := IntrStep(s);
    assert t.zone == z && t.pool == Interrupted(c);
  }

  lemma InvDriving(s: State, store: seq<seq<int>>)
    requires Inv(s, store)
    ensures Shape(s) && Driving(s.pool) && (s.pool.queue != [] ==> IsBuf(s.pool.queue[0]))
  {
    InvShape(s, store);
    PoolSane(s.pool);
    assert forall i :: 0 <= i < |s.pool.queue| ==> s.pool.queue[i] in s.pool.queue;
  }

  lemma SoundRound(c: Pool, dev: int, z: Zone, store: seq<seq<int>>)
    requires Sound(c, z, store)
    ensures Sound(FlushRound(c, dev), z, store)
  {
    var s: State :| Inv(s, store) && s.zone == z && s.pool == c;
    InvDriving(s, store);
    FlushKeeps(s, dev, store);
    var t := FlushStep(s, dev);
    assert t.zone == z && t.pool == FlushRound(c, dev);
  }

  /** What BufferCache.Cache.Bflush does to the pool, with the interrupts it lets in, keeps it in good order. */
  lemma {:induction false} ReplayKeeps(c: Pool, rounds: seq<nat>, dev: int, z: Zone, store: seq<seq<int>>)
    requires Sound(c, z, store)
    ensures Sound(Replay(c, rounds, dev), z, store)
    decreases |rounds|
  {
    if rounds != [] {
      var n := |rounds| - 1;
      ReplayKeeps(c, rounds[..n], dev, z, store);
      SoundIntrs(Replay(c, rounds[..n], dev), rounds[n], z, store);
      SoundRound(IntrTimes(Replay(c, rounds[..n], dev), rounds[n]), dev, z, store);
    }
  }

  /** bflush as a whole: called in a good state it returns, with interrupts coming at any time, in a good state, and
      once the queue has drained the disk is current for every block of the device that no caller holds. */
  lemma BflushMakesDiskCurrent(s: State, store: seq<seq<int>>, rounds: seq<nat>, dev: int, k: int) returns (t: State)
    requires Inv(s, store) && Apart(s.zone) && 0 <= k < NSECTOR
    requires var c := Replay(s.pool, rounds, dev); |c.buf| == NBUF && forall b :: b in c.avail ==>
        IsBuf(b) && !FlushMatch(c, b, dev)
    requires dev == NODEV || exists blkno :: Used(s.zone, dev, blkno) && Sector(dev, blkno) == k
    ensures Inv(t, store) && t.zone == s.zone && t.pool == Replay(s.pool, rounds, dev)
    ensures var c := Drain(t, store).pool;
            Ready(c) && c.queue == [] && (NobodyHolds(c, k) ==> c.disk[k] == store[k])
  {
    assert Sound(s.pool, s.zone, store);
    ReplayKeeps(s.pool, rounds, dev, s.zone, store);
    t :| Inv(t, store) && t.zone == s.zone && t.pool == Replay(s.pool, rounds, dev);
    FlushReachesDisk(t, dev, store, k);
  }
}
