/** Every step of the machine keeps the whole invariant. */
module CacheSteps {
  import opened Options
  import opened Rings
  import opened Buffers
  import opened CacheMachine
  import opened CachePool

  /** A buffer whose header, queue place, owner and owner's task did not change is still in order. */
  lemma OwnerFrame(s: State, t: State, b: int)
    requires Ready(s.pool) && Ready(t.pool) && |s.owner| == |t.owner| == NBUF && IsBuf(b)
    requires OwnerOk(s, b) && t.zone == s.zone
    requires t.pool.buf[b].(wanted := false, mem := []) == s.pool.buf[b].(wanted := false, mem := [])
    requires b in t.pool.queue <==> b in s.pool.queue
    requires t.owner[b] == s.owner[b]
    requires s.owner[b].Proc? ==> s.owner[b].p in t.tasks && t.tasks[s.owner[b].p] == s.tasks[s.owner[b].p]
    ensures OwnerOk(t, b)
  {
  }

  /** Custody after a step that concerns one buffer and no task. */
  lemma CustodyBuf(s: State, t: State, b: int)
    requires Custody(s) && Ready(t.pool) && |t.owner| == NBUF && t.tasks == s.tasks && IsBuf(b) && t.zone == s.zone
    requires forall x :: IsBuf(x) && x != b ==>
      && t.pool.buf[x] == s.pool.buf[x] && (x in t.pool.queue <==> x in s.pool.queue) && t.owner[x] == s.owner[x]
    requires OwnerOk(t, b)
    requires s.owner[b].Proc? || t.owner[b].Proc? ==> t.owner[b] == s.owner[b]
    requires forall x :: x in t.dirty ==> IsBuf(x) && t.owner[x] == Client
    ensures Custody(t)
  {
    forall x | IsBuf(x)
      ensures OwnerOk(t, x)
    {
      if x != b {
        OwnerFrame(s, t, x);
      }
    }
  }

  /** Custody after a step of process p that concerns at most buffer b (-1 if none). */
  lemma CustodyTask(s: State, t: State, p: int, b: int)
    requires Custody(s) && Ready(t.pool) && |t.owner| == NBUF && t.zone == s.zone
    requires forall q :: q != p ==> (q in t.tasks <==> q in s.tasks) && (q in s.tasks ==> t.tasks[q] == s.tasks[q])
    requires p in t.tasks ==> GoodTask(t.zone, t.tasks[p])
    requires forall x :: IsBuf(x) && x != b ==>
      && t.pool.buf[x] == s.pool.buf[x] && (x in t.pool.queue <==> x in s.pool.queue) && t.owner[x] == s.owner[x]
    requires forall x :: IsBuf(x) && (x == b || s.owner[x] == Proc(p)) ==> OwnerOk(t, x)
    requires IsBuf(b) ==> !s.owner[b].Proc? || s.owner[b] == Proc(p)
    requires forall x :: IsBuf(x) && p in t.tasks && Mine(t.tasks[p], x) ==> t.owner[x] == Proc(p)
    requires forall x :: x in t.dirty ==> IsBuf(x) && t.owner[x] == Client
    ensures Custody(t)
  {
    forall x | IsBuf(x)
      ensures OwnerOk(t, x)
    {
      if x != b && s.owner[x] != Proc(p) {
        OwnerFrame(s, t, x);
      }
    }
  }

  /* ---------------------------------------------------------------- getblk */

  lemma PoolSane(c: Pool)
    requires PoolInv(c)
    ensures Sane(c)
    ensures c.queue != [] ==> IsBuf(c.queue[0])
  {
    assert forall i :: 0 <= i < |c.avail| ==> c.avail[i] in c.avail;
    assert forall i :: 0 <= i < |c.chain| ==> c.chain[i] in c.chain;
    assert c.queue != [] ==> c.queue[0] in c.queue;
  }

  /** getblk finds the block busy: mark it wanted and sleep on it. */
  lemma SleepOnBuf(s: State, p: int, b: int, store: seq<seq<int>>)
    requires Inv(s, store) && p in s.tasks && s.tasks[p].pc.Getting? && p !in s.pool.wchan
    requires IsBuf(b) && s.pool.buf[b].busy
    ensures var c := s.pool;
            Inv(s.(pool := SetBuf(c, b, c.buf[b].(wanted := true)).(wchan := c.wchan[p := OnBuf(b)])), store)
  {
    var c := s.pool;
    var d := SetBuf(c, b, c.buf[b].(wanted := true)).(wchan := c.wchan[p := OnBuf(b)]);
    var t := s.(pool := d);
    WantedPool(c, d, b, s.dirty, store);
    OwnerFrame(s, t, b);
    CustodyBuf(s, t, b);
    SleeperJoins(s, t, p, b);
  }

  /** Marking a busy buffer wanted disturbs neither lists nor contents. */
  lemma WantedPool(c: Pool, d: Pool, b: int, dirty: set<int>, store: seq<seq<int>>)
    requires PoolInv(c) && IsBuf(b) && c.buf[b].busy
    requires d == SetBuf(c, b, c.buf[b].(wanted := true)).(wchan := d.wchan)
    ensures PoolInv(d) && (Coherent(c, dirty, store) ==> Coherent(d, dirty, store))
  {
    KeysKept(c, d, b);
    if Coherent(c, dirty, store) {
      assert Agrees(c, dirty, store, b);
      CoherentKept(c, d, dirty, dirty, store, b);
    }
  }

  /** Nothing but who sleeps, and who is to be woken, changes. */
  lemma SameBuffers(c: Pool, d: Pool, dirty: set<int>, store: seq<seq<int>>)
    requires PoolInv(c) && d == c.(wchan := d.wchan, freeWanted := d.freeWanted)
    ensures PoolInv(d) && (Coherent(c, dirty, store) ==> Coherent(d, dirty, store))
  {
    KeysKept(c, d, 0);
    if Coherent(c, dirty, store) {
      assert Agrees(c, dirty, store, 0);
      CoherentKept(c, d, dirty, dirty, store, 0);
    }
  }

  lemma SleeperJoins(s: State, t: State, p: int, b: int)
    requires PoolInv(s.pool) && PoolInv(t.pool) && Sleepers(s) && IsBuf(b) && s.pool.buf[b].busy
    requires p in s.tasks && s.tasks[p].pc.Getting?
    requires t == s.(pool := SetBuf(s.pool, b, s.pool.buf[b].(wanted := true)).(wchan := s.pool.wchan[p := OnBuf(b)]))
    ensures Sleepers(t)
  {
    forall q | q in t.pool.wchan
      ensures AsleepOk(t, q)
    {
      assert q != p ==> AsleepOk(s, q);
    }
  }

  /** No buffer is available: sleep until one is. */
  lemma SleepOnFree(s: State, p: int, store: seq<seq<int>>)
    requires Inv(s, store) && p in s.tasks && s.tasks[p].pc.Getting? && p !in s.pool.wchan
    requires s.pool.avail == []
    ensures Inv(s.(pool := s.pool.(freeWanted := true, wchan := s.pool.wchan[p := OnFree])), store)
  {
    var c := s.pool;
    var d := c.(freeWanted := true, wchan := c.wchan[p := OnFree]);
    var t := s.(pool := d);
    SameBuffers(c, d, s.dirty, store);
    OwnerFrame(s, t, 0);
    CustodyBuf(s, t, 0);
    forall q | q in d.wchan
      ensures AsleepOk(t, q)
    {
      assert q != p ==> AsleepOk(s, q);
    }
  }

  lemma BehindPool(c: Pool, b: int, dirty: set<int>, store: seq<seq<int>>)
    requires PoolInv(c) && b in c.avail && c.buf[b].delwri && b !in dirty
    ensures PoolInv(Bawrite(Notavail(c, b), b))
    ensures Coherent(c, dirty, store) ==> Coherent(Bawrite(Notavail(c, b), b), dirty, store)
  {
    NotavailKeeps(c, b, dirty, store);
    var n := Notavail(c, b);
    assert b !in c.queue;
    QueuedPool(n, Bawrite(n, b), b);
    assert dirty - {b} == dirty;
    if Coherent(c, dirty, store) { QueuedCoherent(n, Bawrite(n, b), b, dirty, store); }
  }

  /** A buffer leaves the available list for an asynchronous write: eviction and flush alike. */
  lemma WriteBehind(s: State, b: int, store: seq<seq<int>>)
    requires Inv(s, store) && b in s.pool.avail && s.pool.buf[b].delwri
    ensures Inv(SetOwner(s.(pool := Bawrite(Notavail(s.pool, b), b)), b, Driver), store)
  {
    assert s.owner[b] == Nobody by { assert OwnerOk(s, b); }
    BehindPool(s.pool, b, s.dirty, store);
    var t := SetOwner(s.(pool := Bawrite(Notavail(s.pool, b), b)), b, Driver);
    CustodyBuf(s, t, b);
    forall q | q in t.pool.wchan
      ensures AsleepOk(t, q)
    {
      assert AsleepOk(s, q);
    }
  }

  /** What getblk has done to the pool when it is about to return b. */
  ghost predicate Took(s: State, p: int, b: int, d: Pool)
  {
    && PoolInv(s.pool) && PoolInv(d) && Custody(s)
    && p in s.tasks && s.tasks[p].pc.Getting? && p !in s.pool.wchan && b in s.pool.avail
    && d.queue == s.pool.queue && d.wchan == s.pool.wchan && d.freeWanted == s.pool.freeWanted
    && d.avail == Without(s.pool.avail, b)
    && (forall x :: IsBuf(x) && x != b ==> d.buf[x] == s.pool.buf[x])
    && d.buf[b].busy && !d.buf[b].async
    && HasKey(d.buf[b], s.tasks[p].dev, s.tasks[p].pc.want)
  }

  lemma TookCustody(s: State, p: int, b: int, d: Pool)
    requires Took(s, p, b, d)
    ensures Custody(SetOwner(SetTask(s.(pool := d), p, Have(b, s.tasks[p].pc.why)), b, Proc(p)))
  {
    var t := SetOwner(SetTask(s.(pool := d), p, Have(b, s.tasks[p].pc.why)), b, Proc(p));
    assert OwnerOk(s, b) && s.owner[b] == Nobody && b !in s.pool.queue;
    assert GoodTask(s.zone, s.tasks[p]);
    assert !Mine(s.tasks[p], b);
    assert GoodTask(t.zone, t.tasks[p]);
    assert OwnerOk(t, b);
    forall x | IsBuf(x) && x != b && s.owner[x] == Proc(p)
      ensures OwnerOk(t, x)
    {
      assert OwnerOk(s, x);
    }
    CustodyTask(s, t, p, b);
  }

  lemma TookSleepers(s: State, p: int, b: int, d: Pool)
    requires Took(s, p, b, d) && Sleepers(s)
    ensures Sleepers(SetOwner(SetTask(s.(pool := d), p, Have(b, s.tasks[p].pc.why)), b, Proc(p)))
  {
    var t := SetOwner(SetTask(s.(pool := d), p, Have(b, s.tasks[p].pc.why)), b, Proc(p));
    forall q | q in t.pool.wchan
      ensures AsleepOk(t, q)
    {
      assert AsleepOk(s, q);
      assert OwnerOk(s, b);
    }
  }

  function Found(s: State, p: int): Option<int>
    requires Sane(s.pool) && p in s.tasks && s.tasks[p].pc.Getting?
  {
    if s.tasks[p].dev < 0 then None else Incore(s.pool, s.pool.chain, s.tasks[p].dev, s.tasks[p].pc.want)
  }

  /** getblk's pass, case by case. */
  lemma RunGettingCases(s: State, p: int)
    requires PoolInv(s.pool) && |s.owner| == NBUF && p in s.tasks && s.tasks[p].pc.Getting? && Sane(s.pool)
    ensures var c, t, f := s.pool, s.tasks[p], Found(s, p);
            RunGetting(s, p) ==
            if f.Some? && c.buf[f.value].busy then
              s.(pool := SetBuf(c, f.value, c.buf[f.value].(wanted := true)).(wchan := c.wchan[p := OnBuf(f.value)]))
            else if f.Some? then
              SetOwner(SetTask(s.(pool := Notavail(c, f.value)), p, Have(f.value, t.pc.why)), f.value, Proc(p))
            else if c.avail == [] then s.(pool := c.(freeWanted := true, wchan := c.wchan[p := OnFree]))
            else if c.buf[c.avail[0]].delwri then
              SetOwner(s.(pool := Bawrite(Notavail(c, c.avail[0]), c.avail[0])), c.avail[0], Driver)
            else
              SetOwner(SetTask(s.(pool := Reassign(Notavail(c, c.avail[0]), c.avail[0], t.dev, t.pc.want)), p,
                               Have(c.avail[0], t.pc.why)), c.avail[0], Proc(p))
  {
  }

  lemma RunGettingKeeps(s: State, p: int, store: seq<seq<int>>)
    requires Inv(s, store) && p in s.tasks && s.tasks[p].pc.Getting? && p !in s.pool.wchan
    requires Sane(s.pool)
    ensures Inv(RunGetting(s, p), store)
  {
    var c, f := s.pool, Found(s, p);
    RunGettingCases(s, p);
    if f.Some? && c.buf[f.value].busy {
      SleepOnBuf(s, p, f.value, store);
    } else if f.Some? {
      NotavailKeeps(c, f.value, s.dirty, store);
      TookCustody(s, p, f.value, Notavail(c, f.value));
      TookSleepers(s, p, f.value, Notavail(c, f.value));
    } else if c.avail == [] {
      SleepOnFree(s, p, store);
    } else if c.buf[c.avail[0]].delwri {
      assert c.avail[0] in c.avail;
      WriteBehind(s, c.avail[0], store);
    } else {
      EvictClean(s, p, store);
    }
  }

  lemma EvictClean(s: State, p: int, store: seq<seq<int>>)
    requires Inv(s, store) && p in s.tasks && s.tasks[p].pc.Getting? && p !in s.pool.wchan
    requires s.pool.avail != [] && IsBuf(s.pool.avail[0]) && !s.pool.buf[s.pool.avail[0]].delwri
    requires s.tasks[p].dev >= 0 ==> forall b :: b in s.pool.chain ==>
        !HasKey(s.pool.buf[b], s.tasks[p].dev, s.tasks[p].pc.want)
    ensures var b, t := s.pool.avail[0], s.tasks[p];
            var d := Reassign(Notavail(s.pool, b), b, t.dev, t.pc.want);
            Inv(SetOwner(SetTask(s.(pool := d), p, Have(b, t.pc.why)), b, Proc(p)), store)
  {
    var t, c, b := s.tasks[p], s.pool, s.pool.avail[0];
    assert GoodTask(s.zone, t);
    assert b in c.avail && b !in c.queue;
    NotavailKeeps(c, b, s.dirty, store);
    var n := Notavail(c, b);
    if t.dev >= 0 {
      NotIncore(n, t.dev, t.pc.want);
    }
    ReassignLists(n, b, t.dev, t.pc.want);
    ReassignKeys(n, b, t.dev, t.pc.want);
    if Apart(s.zone) {
      assert forall x :: IsBuf(x) ==> OwnerOk(s, x);
      if t.dev >= 0 { NotCached(n, s.zone, t.dev, t.pc.want); }
      ReassignCoherent(n, b, t.dev, t.pc.want, s.dirty, store);
    }
    var d := Reassign(n, b, t.dev, t.pc.want);
    TookCustody(s, p, b, d);
    TookSleepers(s, p, b, d);
  }

  /* ---------------------------------------------------------------- releases */

  /** brelse, whoever calls it, wakes exactly those who must look again. */
  lemma BrelseSleepers(s: State, t: State, b: int)
    requires PoolInv(s.pool) && Custody(s) && Sleepers(s) && IsBuf(b) && s.pool.buf[b].busy && b !in s.pool.queue
    requires t.pool == Brelse(s.pool, b)
    requires forall q :: q in s.pool.wchan ==> q in t.tasks && t.tasks[q] == s.tasks[q]
    ensures Sleepers(t)
  {
    forall q | q in t.pool.wchan
      ensures AsleepOk(t, q)
    {
      assert AsleepOk(s, q);
      assert OwnerOk(s, b);
      assert Mine(s.tasks[q], b) ==> s.owner[b] == Proc(q);
    }
  }

  /** Putting a buffer on the driver's queue wakes nobody and disturbs no sleeper. */
  lemma QueueSleepers(s: State, t: State, b: int)
    requires Ready(s.pool) && Ready(t.pool) && Sleepers(s) && IsBuf(b)
    requires forall x :: IsBuf(x) && x != b ==> t.pool.buf[x] == s.pool.buf[x]
    requires t.pool.buf[b].busy == s.pool.buf[b].busy && t.pool.buf[b].wanted == s.pool.buf[b].wanted
        && !t.pool.buf[b].done
    requires t.pool.wchan == s.pool.wchan && t.pool.avail == s.pool.avail && t.pool.freeWanted == s.pool.freeWanted
    requires forall q :: q in s.pool.wchan ==> q in t.tasks && t.tasks[q] == s.tasks[q]
    ensures Sleepers(t)
  {
    forall q | q in t.pool.wchan
      ensures AsleepOk(t, q)
    {
      assert AsleepOk(s, q);
    }
  }

  lemma SameSleepers(s: State, t: State)
    requires Ready(s.pool) && Sleepers(s) && t.pool == s.pool
    requires forall q :: q in s.pool.wchan ==> q in t.tasks && t.tasks[q] == s.tasks[q]
    ensures Sleepers(t)
  {
    forall q | q in t.pool.wchan
      ensures AsleepOk(t, q)
    {
      assert AsleepOk(s, q);
    }
  }

  /* ---------------------------------------------------------------- the rest of bread, breada, bwrite */

  /** A call ends and hands its buffer to the client. */
  lemma HandOver(s: State, p: int, b: int, store: seq<seq<int>>)
    requires Inv(s, store) && p in s.tasks && p !in s.pool.wchan && IsBuf(b)
    requires s.tasks[p].pc == Have(b, ForGetblk) || s.tasks[p].pc == Have(b, ForBread)
        || s.tasks[p].pc == IoWait(b, false)
    requires s.tasks[p].pc.IoWait? ==> s.pool.buf[b].done
    ensures Inv(SetOwner(EndTask(s, p), b, Client), store)
  {
    var t := SetOwner(EndTask(s, p), b, Client);
    assert Mine(s.tasks[p], b) && OwnerOk(s, b) && s.owner[b] == Proc(p);
    assert b !in s.pool.queue;
    forall x | IsBuf(x) && x != b
      ensures s.owner[x] != Proc(p)
    {
      assert OwnerOk(s, x);
    }
    CustodyTask(s, t, p, b);
    SameSleepers(s, t);
  }

  /** A read is started for a buffer just obtained; the call keeps the buffer. */
  lemma StartsRead(s: State, p: int, b: int, pc: Pc, store: seq<seq<int>>)
    requires Inv(s, store) && p in s.tasks && p !in s.pool.wchan && IsBuf(b) && !s.pool.buf[b].done
    requires (s.tasks[p].pc == Have(b, ForBread) && pc == IoWait(b, false))
          || (s.tasks[p].pc.Have? && s.tasks[p].pc.b == b && s.tasks[p].pc.why.ForReada?
               && pc == Ahead(b, s.tasks[p].pc.why.ra))
    ensures Inv(SetTask(s.(pool := StartRead(s.pool, b, false)), p, pc), store)
  {
    var d := StartRead(s.pool, b, false);
    var t := SetTask(s.(pool := d), p, pc);
    assert GoodTask(s.zone, s.tasks[p]) && Mine(s.tasks[p], b) && OwnerOk(s, b) && s.owner[b] == Proc(p);
    QueuedPool(s.pool, d, b);
    if Apart(s.zone) { QueuedCoherent(s.pool, d, b, s.dirty, store); }
    assert s.dirty - {b} == s.dirty;
    forall x | IsBuf(x) && x != b
      ensures s.owner[x] != Proc(p)
    {
      assert OwnerOk(s, x);
    }
    CustodyTask(s, t, p, b);
    QueueSleepers(s, t, b);
  }

  /** The call moves on, the buffers it answers for stay as they are. */
  lemma MovesOn(s: State, p: int, pc: Pc, store: seq<seq<int>>)
    requires Inv(s, store) && p in s.tasks && p !in s.pool.wchan
    requires GoodTask(s.zone, s.tasks[p].(pc := pc)) && !pc.Have?
    requires forall x :: IsBuf(x) ==> (Mine(s.tasks[p], x) <==> Mine(s.tasks[p].(pc := pc), x))
    requires forall x :: IsBuf(x) && Mine(s.tasks[p], x) ==> Wanted(s.tasks[p], x)
    requires forall x :: IsBuf(x) && Mine(s.tasks[p], x) && Fresh(s.tasks[p], x) ==> s.pool.buf[x].done
    ensures Inv(SetTask(s, p, pc), store)
  {
    var t := SetTask(s, p, pc);
    forall x | IsBuf(x) && s.owner[x] == Proc(p)
      ensures OwnerOk(t, x)
    {
      assert OwnerOk(s, x);
    }
    CustodyTask(s, t, p, -1);
    SameSleepers(s, t);
  }

  /** Once the read-ahead block is dealt with, the process still owns what it owned besides. */
  lemma AheadOwners(s: State, t: State, p: int, b: int, main: int)
    requires Custody(s) && p in s.tasks && s.tasks[p].pc == Have(b, ForAhead(main)) && IsBuf(b) && s.owner[b] == Proc(p)
    requires Ready(t.pool) && |t.owner| == NBUF && t.zone == s.zone && t.dirty == s.dirty && b !in s.dirty
    requires t.tasks == SetTask(s, p, AfterAhead(main, s.tasks[p].blkno)).tasks
    requires forall x :: IsBuf(x) && x != b ==>
      && t.pool.buf[x] == s.pool.buf[x] && (x in t.pool.queue <==> x in s.pool.queue) && t.owner[x] == s.owner[x]
    requires OwnerOk(t, b)
    ensures Custody(t)
  {
    assert GoodTask(s.zone, s.tasks[p]);
    forall x | IsBuf(x) && x != b && s.owner[x] == Proc(p)
      ensures OwnerOk(t, x)
    {
      assert OwnerOk(s, x);
    }
    CustodyTask(s, t, p, b);
  }

  /** The read-ahead block turned out to be valid: give it straight back. */
  lemma AheadReleased(s: State, p: int, b: int, main: int, store: seq<seq<int>>)
    requires Inv(s, store) && p in s.tasks && p !in s.pool.wchan
    requires s.tasks[p].pc == Have(b, ForAhead(main)) && IsBuf(b) && s.pool.buf[b].done
    ensures Inv(SetOwner(SetTask(s.(pool := Brelse(s.pool, b)), p, AfterAhead(main, s.tasks[p].blkno)), b, Nobody),
        store)
  {
    var t := SetOwner(SetTask(s.(pool := Brelse(s.pool, b)), p, AfterAhead(main, s.tasks[p].blkno)), b, Nobody);
    assert GoodTask(s.zone, s.tasks[p]) && Mine(s.tasks[p], b) && OwnerOk(s, b) && s.owner[b] == Proc(p);
    BrelsePool(s.pool, b);
    if Apart(s.zone) { BrelseCoherent(s.pool, b, s.dirty, store); }
    assert s.dirty - {b} == s.dirty;
    AheadOwners(s, t, p, b, main);
    BrelseSleepers(s, t, b);
  }

  /** The read-ahead block is read asynchronously and becomes the driver's. */
  lemma AheadStarted(s: State, p: int, b: int, main: int, store: seq<seq<int>>)
    requires Inv(s, store) && p in s.tasks && p !in s.pool.wchan
    requires s.tasks[p].pc == Have(b, ForAhead(main)) && IsBuf(b) && !s.pool.buf[b].done
    ensures Inv(SetOwner(SetTask(s.(pool := StartRead(s.pool, b, true)), p, AfterAhead(main, s.tasks[p].blkno)), b,
        Driver), store)
  {
    var d := StartRead(s.pool, b, true);
    var t := SetOwner(SetTask(s.(pool := d), p, AfterAhead(main, s.tasks[p].blkno)), b, Driver);
    assert GoodTask(s.zone, s.tasks[p]) && Mine(s.tasks[p], b) && OwnerOk(s, b) && s.owner[b] == Proc(p);
    QueuedPool(s.pool, d, b);
    if Apart(s.zone) { QueuedCoherent(s.pool, d, b, s.dirty, store); }
    assert s.dirty - {b} == s.dirty;
    AheadOwners(s, t, p, b, main);
    QueueSleepers(s, t, b);
  }

  lemma RunHaveKeeps(s: State, p: int, store: seq<seq<int>>)
    requires Inv(s, store) && p in s.tasks && s.tasks[p].pc.Have? && p !in s.pool.wchan && Sane(s.pool)
    requires IsBuf(s.tasks[p].pc.b)
    ensures Inv(RunHave(s, p), store)
  {
    var t := s.tasks[p];
    var b := t.pc.b;
    assert GoodTask(s.zone, t);
    match t.pc.why
    case ForGetblk => HandOver(s, p, b, store);
    case ForBread =>
      if s.pool.buf[b].done { HandOver(s, p, b, store); } else { StartsRead(s, p, b, IoWait(b, false), store); }
    case ForReada(ra) =>
      if s.pool.buf[b].done { MovesOn(s, p, Ahead(b, ra), store); } else { StartsRead(s, p, b, Ahead(b, ra), store); }
    case ForAhead(main) =>
      if s.pool.buf[b].done { AheadReleased(s, p, b, main, store); } else { AheadStarted(s, p, b, main, store); }
  }

  lemma RunAheadKeeps(s: State, p: int, store: seq<seq<int>>)
    requires Inv(s, store) && p in s.tasks && s.tasks[p].pc.Ahead? && p !in s.pool.wchan && Sane(s.pool)
    ensures Inv(RunAhead(s, p), store)
  {
    var t := s.tasks[p];
    assert GoodTask(s.zone, t);
    if t.pc.ra != 0 && Incore(s.pool, s.pool.chain, t.dev, t.pc.ra).None? {
      MovesOn(s, p, Getting(t.pc.ra, ForAhead(t.pc.main)), store);
    } else {
      MovesOn(s, p, AfterAhead(t.pc.main, t.blkno), store);
    }
  }

  /** iowait: not done yet, so sleep on the buffer. */
  lemma SleepOnIo(s: State, p: int, store: seq<seq<int>>)
    requires Inv(s, store) && p in s.tasks && s.tasks[p].pc.IoWait? && p !in s.pool.wchan
    requires IsBuf(s.tasks[p].pc.b) && !s.pool.buf[s.tasks[p].pc.b].done
    ensures Inv(s.(pool := s.pool.(wchan := s.pool.wchan[p := OnBuf(s.tasks[p].pc.b)])), store)
  {
    var c := s.pool;
    var d := c.(wchan := c.wchan[p := OnBuf(s.tasks[p].pc.b)]);
    var t := s.(pool := d);
    SameBuffers(c, d, s.dirty, store);
    OwnerFrame(s, t, 0);
    CustodyBuf(s, t, 0);
    forall q | q in d.wchan
      ensures AsleepOk(t, q)
    {
      assert q != p ==> AsleepOk(s, q);
    }
  }

  /** bwrite's last act. */
  lemma WriteEnds(s: State, p: int, b: int, store: seq<seq<int>>)
    requires Inv(s, store) && p in s.tasks && p !in s.pool.wchan
    requires s.tasks[p].pc == IoWait(b, true) && IsBuf(b) && s.pool.buf[b].done
    ensures Inv(SetOwner(EndTask(s.(pool := Brelse(s.pool, b)), p), b, Nobody), store)
  {
    var t := SetOwner(EndTask(s.(pool := Brelse(s.pool, b)), p), b, Nobody);
    assert Mine(s.tasks[p], b) && OwnerOk(s, b) && s.owner[b] == Proc(p) && b !in s.pool.queue;
    BrelsePool(s.pool, b);
    if Apart(s.zone) { BrelseCoherent(s.pool, b, s.dirty, store); }
    assert s.dirty - {b} == s.dirty;
    forall x | IsBuf(x) && x != b
      ensures s.owner[x] != Proc(p)
    {
      assert OwnerOk(s, x);
    }
    CustodyTask(s, t, p, b);
    BrelseSleepers(s, t, b);
  }

  lemma RunIoWaitKeeps(s: State, p: int, store: seq<seq<int>>)
    requires Inv(s, store) && p in s.tasks && s.tasks[p].pc.IoWait? && p !in s.pool.wchan && Sane(s.pool)
    requires IsBuf(s.tasks[p].pc.b)
    ensures Inv(RunIoWait(s, p), store)
  {
    var b := s.tasks[p].pc.b;
    if !s.pool.buf[b].done {
      SleepOnIo(s, p, store);
    } else if s.tasks[p].pc.release {
      WriteEnds(s, p, b, store);
    } else {
      HandOver(s, p, b, store);
    }
  }

  /* ---------------------------------------------------------------- clients and interrupts */

  lemma PokeCoherent(c: Pool, b: int, m: seq<int>, dirty: set<int>, store: seq<seq<int>>)
    requires PoolInv(c) && Coherent(c, dirty, store) && IsBuf(b) && b !in c.queue && |m| == AREA && m[WORDS] == 0
    ensures Coherent(SetBuf(c, b, c.buf[b].(mem := m)), dirty + {b}, store)
  {
    var d := SetBuf(c, b, c.buf[b].(mem := m));
    assert forall x, y :: Clash(d, x, y) ==> Clash(c, x, y);
    forall x | IsBuf(x)
      ensures Agrees(d, dirty + {b}, store, x)
    {
      assert Agrees(c, dirty, store, x);
    }
    assert forall x :: IsBuf(x) ==> d.buf[x].dev == c.buf[x].dev && KeySector(d.buf[x]) == KeySector(c.buf[x]);
    assert forall k :: Cached(c, k) ==> Cached(d, k);
  }

  lemma PokeLists(c: Pool, b: int, m: seq<int>)
    requires PoolInv(c) && IsBuf(b) && |m| == AREA && m[WORDS] == 0
    ensures PoolInv(SetBuf(c, b, c.buf[b].(mem := m)))
  {
    var d := SetBuf(c, b, c.buf[b].(mem := m));
    assert forall x, y :: Twins(d, x, y) ==> Twins(c, x, y);
  }

  lemma PokeKeeps(s: State, b: int, off: int, words: seq<int>, store: seq<seq<int>>)
    requires Inv(s, store) && ClientHas(s, b) && 0 <= off && off + |words| <= WORDS
    ensures Inv(s.(pool := SetBuf(s.pool, b, s.pool.buf[b].(mem := PokeMem(s.pool.buf[b].mem, off, words))),
        dirty := s.dirty + {b}), store)
  {
    var c, m := s.pool, PokeMem(s.pool.buf[b].mem, off, words);
    assert OwnerOk(s, b);
    PokeLists(c, b, m);
    if Apart(s.zone) { PokeCoherent(c, b, m, s.dirty, store); }
    var t := s.(pool := SetBuf(c, b, c.buf[b].(mem := m)), dirty := s.dirty + {b});
    OwnerFrame(s, t, b);
    CustodyBuf(s, t, b);
    forall q | q in t.pool.wchan
      ensures AsleepOk(t, q)
    {
      assert AsleepOk(s, q);
    }
  }

  lemma ReleaseKeeps(s: State, b: int, store: seq<seq<int>>)
    requires Inv(s, store) && ClientHas(s, b) && (b in s.dirty ==> !s.pool.buf[b].done)
    ensures Inv(SetOwner(s.(pool := Brelse(s.pool, b), dirty := s.dirty - {b}), b, Nobody), store)
  {
    var t := SetOwner(s.(pool := Brelse(s.pool, b), dirty := s.dirty - {b}), b, Nobody);
    assert OwnerOk(s, b);
    BrelsePool(s.pool, b);
    if Apart(s.zone) { BrelseCoherent(s.pool, b, s.dirty, store); }
    CustodyBuf(s, t, b);
    BrelseSleepers(s, t, b);
  }

  /** The client has finished writing: from here on these contents are the block. */
  lemma Record(s: State, b: int, store: seq<seq<int>>)
    requires Inv(s, store) && ClientHas(s, b) && s.pool.buf[b].dev >= 0
    ensures var store' := store[KeySector(s.pool.buf[b]) := Contents(s.pool.buf[b])];
            Inv(s.(pool := SetBuf(s.pool, b, s.pool.buf[b].(done := true, delwri := true)), dirty := s.dirty - {b}),
                store')
  {
    var c := s.pool;
    var d := SetBuf(c, b, c.buf[b].(done := true, delwri := true));
    var t := s.(pool := d, dirty := s.dirty - {b});
    assert OwnerOk(s, b);
    RecordPool(c, b);
    if Apart(s.zone) { RecordCoherent(c, b, s.dirty, store); }
    CustodyBuf(s, t, b);
    assert forall q :: q in s.tasks ==> !Mine(s.tasks[q], b);
    forall q | q in d.wchan
      ensures AsleepOk(t, q)
    {
      assert AsleepOk(s, q);
    }
  }

  lemma DelayedKeeps(s: State, b: int, store: seq<seq<int>>)
    requires Inv(s, store) && ClientHas(s, b) && s.pool.buf[b].dev >= 0
    ensures var store' := store[KeySector(s.pool.buf[b]) := Contents(s.pool.buf[b])];
            Inv(SetOwner(s.(pool := Bdwrite(s.pool, b), dirty := s.dirty - {b}), b, Nobody), store')
  {
    var store' := store[KeySector(s.pool.buf[b]) := Contents(s.pool.buf[b])];
    var r := s.(pool := SetBuf(s.pool, b, s.pool.buf[b].(done := true, delwri := true)), dirty := s.dirty - {b});
    Record(s, b, store);
    ReleaseKeeps(r, b, store');
    assert s.dirty - {b} - {b} == s.dirty - {b};
  }

  lemma AsyncShape(c: Pool, r: Pool, b: int)
    requires IsBuf(b) && |c.buf| == NBUF && r == SetBuf(c, b, c.buf[b].(done := true, delwri := true))
    ensures Bawrite(c, b) == Strategy(r.(buf := Bawrite(c, b).buf), b)
  {
  }

  lemma AsyncPool(r: Pool, d: Pool, b: int, dirty: set<int>, store: seq<seq<int>>)
    requires PoolInv(r) && IsBuf(b) && r.buf[b].busy && r.buf[b].done && b !in r.queue && b !in dirty
    requires r.buf[b].dev >= 0 && |d.buf| == NBUF && d == Strategy(r.(buf := d.buf), b)
    requires d.buf == r.buf[b := r.buf[b].(read := false, done := false, delwri := false, async := true)]
    ensures PoolInv(d) && (Coherent(r, dirty, store) ==> Coherent(d, dirty, store))
  {
    QueuedPool(r, d, b);
    if Coherent(r, dirty, store) { QueuedCoherent(r, d, b, dirty, store); }
    assert dirty - {b} == dirty;
  }

  lemma AsyncKeeps(s: State, b: int, store: seq<seq<int>>)
    requires Inv(s, store) && ClientHas(s, b) && s.pool.buf[b].dev >= 0
    ensures var store' := store[KeySector(s.pool.buf[b]) := Contents(s.pool.buf[b])];
            Inv(SetOwner(s.(pool := Bawrite(s.pool, b), dirty := s.dirty - {b}), b, Driver), store')
  {
    var store' := store[KeySector(s.pool.buf[b]) := Contents(s.pool.buf[b])];
    var r := s.(pool := SetBuf(s.pool, b, s.pool.buf[b].(done := true, delwri := true)), dirty := s.dirty - {b});
    Record(s, b, store);
    assert OwnerOk(r, b);
    var d := Bawrite(s.pool, b);
    AsyncShape(s.pool, r.pool, b);
    AsyncPool(r.pool, d, b, r.dirty, store');
    var t := SetOwner(r.(pool := d), b, Driver);
    CustodyBuf(r, t, b);
    QueueSleepers(r, t, b);
  }

  /** The synchronous write of a recorded buffer becomes a task of its own. */
  lemma SyncStarts(r: State, p: int, b: int, store: seq<seq<int>>)
    requires Inv(r, store) && ClientHas(r, b) && r.pool.buf[b].dev >= 0 && r.pool.buf[b].done && p !in r.tasks
    requires b !in r.dirty
    ensures Inv(SetOwner(r.(pool := StartWrite(r.pool, b),
                            tasks := r.tasks[p := Task(r.pool.buf[b].dev, r.pool.buf[b].blkno, IoWait(b, true))]), b,
                                Proc(p)), store)
  {
    var d := StartWrite(r.pool, b);
    assert OwnerOk(r, b);
    QueuedPool(r.pool, d, b);
    if Apart(r.zone) { QueuedCoherent(r.pool, d, b, r.dirty, store); }
    assert r.dirty - {b} == r.dirty;
    var task := Task(r.pool.buf[b].dev, r.pool.buf[b].blkno, IoWait(b, true));
    var t := SetOwner(r.(pool := d, tasks := r.tasks[p := task]), b, Proc(p));
    assert GoodTask(t.zone, t.tasks[p]);
    forall x | IsBuf(x)
      ensures r.owner[x] != Proc(p)
    {
      assert OwnerOk(r, x);
    }
    CustodyTask(r, t, p, b);
    assert forall q :: q in r.pool.wchan ==> AsleepOk(r, q);
    QueueSleepers(r, t, b);
  }

  lemma SyncKeeps(s: State, p: int, b: int, store: seq<seq<int>>)
    requires Inv(s, store) && ClientHas(s, b) && s.pool.buf[b].dev >= 0 && p !in s.tasks
    ensures var store' := store[KeySector(s.pool.buf[b]) := Contents(s.pool.buf[b])];
            Inv(SetOwner(s.(pool := StartWrite(s.pool, b), dirty := s.dirty - {b},
                            tasks := s.tasks[p := Task(s.pool.buf[b].dev, s.pool.buf[b].blkno, IoWait(b, true))]), b,
                                Proc(p)), store')
  {
    var r := s.(pool := SetBuf(s.pool, b, s.pool.buf[b].(done := true, delwri := true)), dirty := s.dirty - {b});
    Record(s, b, store);
    SyncStarts(r, p, b, store[KeySector(s.pool.buf[b]) := Contents(s.pool.buf[b])]);
    SyncSame(s.pool, b);
  }

  /** bwrite sets these flags itself. */
  lemma SyncSame(c: Pool, b: int)
    requires IsBuf(b) && |c.buf| == NBUF
    ensures StartWrite(SetBuf(c, b, c.buf[b].(done := true, delwri := true)), b) == StartWrite(c, b)
  {
  }

  /** What an interrupt does to the headers and the queue. */
  lemma IntrShape(c: Pool)
    requires PoolInv(c) && c.queue != []
    ensures Ready(Rkintr(c)) && Rkintr(c).queue == c.queue[1..]
    ensures var b, d := c.queue[0], Rkintr(c);
            && IsBuf(b)
            && (forall x :: IsBuf(x) && x != b ==> d.buf[x] == c.buf[x] && (x in d.queue <==> x in c.queue))
            && b !in d.queue
            && d.buf[b].(mem := []) == c.buf[b].(done := true, wanted := false, busy := !c.buf[b].async, async := false,
                 mem := [])
  {
    RestNoDup(c.queue);
    assert c.queue[0] in c.queue;
    RkintrSplits(c);
    RkintrPool(c);
    var b, t := c.queue[0], Transferred(c);
    assert t.buf[b].(mem := []) == c.buf[b].(done := true, mem := []);
    assert Settled(t, b).buf[b].(mem := []) == t.buf[b].(wanted := false, busy := !t.buf[b].async, async := false,
        mem := []);
  }

  lemma IntrCustody(s: State)
    requires PoolInv(s.pool) && Custody(s) && s.pool.queue != [] && IsBuf(s.pool.queue[0])
    ensures Custody(IntrStep(s))
  {
    var b, t := s.pool.queue[0], IntrStep(s);
    assert b in s.pool.queue && OwnerOk(s, b);
    IntrShape(s.pool);
    assert OwnerOk(t, b);
    CustodyBuf(s, t, b);
  }

  /** A synchronous completion wakes all who sleep on the buffer; an asynchronous one is a release. */
  lemma IntrWakes(c: Pool)
    requires PoolInv(c) && c.queue != []
    ensures var b, d := c.queue[0], Rkintr(c);
            && (forall q :: q in d.wchan ==> q in c.wchan && d.wchan[q] == c.wchan[q])
            && (forall q :: q in d.wchan && d.wchan[q] == OnBuf(b) ==> c.buf[b].async && !c.buf[b].wanted)
            && (forall q :: q in d.wchan && d.wchan[q] == OnFree && c.freeWanted ==> d.freeWanted && d.avail == c.avail)
  {
    assert c.queue[0] in c.queue;
    RkintrSplits(c);
  }

  lemma IntrSleepers(s: State)
    requires PoolInv(s.pool) && Custody(s) && Sleepers(s) && s.pool.queue != [] && IsBuf(s.pool.queue[0])
    ensures Ready(IntrStep(s).pool) && Sleepers(IntrStep(s))
  {
    var b, t := s.pool.queue[0], IntrStep(s);
    assert b in s.pool.queue && OwnerOk(s, b);
    IntrShape(s.pool);
    IntrWakes(s.pool);
    forall q | q in t.pool.wchan
      ensures AsleepOk(t, q)
    {
      assert AsleepOk(s, q);
      assert Mine(s.tasks[q], b) ==> s.owner[b] == Proc(q);
    }
  }

  lemma IntrKeeps(s: State, store: seq<seq<int>>)
    requires Inv(s, store) && (s.pool.queue != [] ==> IsBuf(s.pool.queue[0]))
    ensures Inv(IntrStep(s), store)
  {
    if s.pool.queue != [] {
      var b := s.pool.queue[0];
      assert b in s.pool.queue && OwnerOk(s, b);
      RkintrPool(s.pool);
      if Apart(s.zone) { RkintrCoherent(s.pool, s.dirty, store); }
      IntrCustody(s);
      IntrSleepers(s);
    }
  }

  lemma CallKeeps(s: State, p: int, task: Task, store: seq<seq<int>>)
    requires Inv(s, store) && p !in s.tasks && GoodTask(s.zone, task)
    requires forall b :: IsBuf(b) ==> !Mine(task, b)
    ensures Inv(s.(tasks := s.tasks[p := task]), store)
  {
    var t := s.(tasks := s.tasks[p := task]);
    forall x | IsBuf(x)
      ensures s.owner[x] != Proc(p)
    {
      assert OwnerOk(s, x);
    }
    CustodyTask(s, t, p, -1);
    assert forall q :: q in s.pool.wchan ==> AsleepOk(s, q);
    SameSleepers(s, t);
  }

  lemma WakeKeeps(s: State, p: int, store: seq<seq<int>>)
    requires Inv(s, store)
    ensures Inv(s.(pool := s.pool.(wchan := s.pool.wchan - {p})), store)
  {
    var d := s.pool.(wchan := s.pool.wchan - {p});
    var t := s.(pool := d);
    SameBuffers(s.pool, d, s.dirty, store);
    OwnerFrame(s, t, 0);
    CustodyBuf(s, t, 0);
    forall q | q in d.wchan
      ensures AsleepOk(t, q)
    {
      assert AsleepOk(s, q);
    }
  }
}
