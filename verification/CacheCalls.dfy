/** One call of bwrite, bread, breada or getblk, from the event that begins it to the one that ends it. */
module CacheCalls {
  import opened Options
  import opened Rings
  import opened Buffers
  import opened CacheMachine
  import opened CachePool
  import opened CacheSteps
  import opened CacheTheorems
  import opened CacheFrames

  /** The states of a run. */
  ghost function States(z: Zone, disk: seq<seq<int>>, es: seq<Event>): nat -> State {
    (k: nat) => After(z, disk, if k <= |es| then es[..k] else es)
  }

  /** Event c happens, and no event after it, up to state i, ends the call that process p is in. */
  ghost predicate InCall(st: nat -> State, es: seq<Event>, c: nat, i: nat, p: int) {
    c < i <= |es| && Happens(st(c), es[c]) && forall j :: c + 1 < j <= i ==> p in st(j).tasks
  }

  /** One event of a run. */
  lemma NextState(z: Zone, disk: seq<seq<int>>, es: seq<Event>, k: nat) returns (store: seq<seq<int>>)
    requires GoodDisk(disk) && IsZone(z) && k < |es|
    ensures var st := States(z, disk, es);
            && Inv(st(k), store) && Shape(st(k)) && st(k).zone == z && store == LastReleased(z, disk, es[..k])
            && st(k + 1) == if Happens(st(k), es[k]) then Step(st(k), es[k]) else st(k)
  {
    RunInv(z, disk, es[..k]);
    store := LastReleased(z, disk, es[..k]);
    assert es[..k+1][..k] == es[..k] && es[..k+1][k] == es[k];
  }

  /* ---------------------------------------------------------------- bwrite */

  /** Process p is in bwrite of buffer b, which has w for block (dev, blkno): nobody else has the buffer, and it waits
      for the disk, or the disk has it. */
  ghost predicate Writing(s: State, p: int, b: int, dev: int, blkno: int, w: seq<int>) {
    && IsBuf(b) && |s.pool.buf| == NBUF && |s.owner| == NBUF && |s.pool.disk| == NSECTOR
    && 0 <= dev && p in s.tasks && s.tasks[p] == Task(dev, blkno, IoWait(b, true)) && s.owner[b] == Proc(p)
    && var f := s.pool.buf[b];
       && HasKey(f, dev, blkno) && f.busy && !f.async && |f.mem| == AREA && Contents(f) == w
       && if f.done then s.pool.disk[Sector(dev, blkno)] == w else b in s.pool.queue && !f.read
  }

  /** The call is over: the disk has w, and the buffer is available and valid. */
  ghost predicate Written(t: State, p: int, b: int, dev: int, blkno: int, w: seq<int>) {
    && IsBuf(b) && |t.pool.buf| == NBUF && |t.pool.disk| == NSECTOR
    && p !in t.tasks && t.pool.disk[Sector(dev, blkno)] == w
    && var f := t.pool.buf[b];
       b in t.pool.avail && !f.busy && f.done && HasKey(f, dev, blkno) && |f.mem| == AREA && Contents(f) == w
  }

  lemma OwnWriteTurn(s: State, p: int, b: int, dev: int, blkno: int, w: seq<int>)
    requires Shape(s) && Writing(s, p, b, dev, blkno, w)
    ensures var t := RunStep(s, p);
            if s.pool.buf[b].done then Written(t, p, b, dev, blkno, w) else Writing(t, p, b, dev, blkno, w)
  {
  }

  lemma OthersWriteTurn(s: State, t: State, p: int, b: int, dev: int, blkno: int, w: seq<int>)
    requires Writing(s, p, b, dev, blkno, w) && Untouched(s, t, b) && SameTask(s, t, p)
    ensures Writing(t, p, b, dev, blkno, w)
  {
    var f, g := s.pool.buf[b], t.pool.buf[b];
    assert g.mem == f.mem && g.dev == f.dev && g.blkno == f.blkno && g.busy == f.busy && g.async == f.async;
    assert g.done == f.done && g.read == f.read;
  }

  /** The interrupt for the buffer itself carries out the write. */
  lemma OwnIntr(s: State, p: int, b: int, dev: int, blkno: int, w: seq<int>)
    requires PoolInv(s.pool) && Shape(s) && Writing(s, p, b, dev, blkno, w) && s.pool.queue != []
        && s.pool.queue[0] == b
    ensures Writing(IntrStep(s), p, b, dev, blkno, w)
  {
    assert b in s.pool.queue;
    RkintrSplits(s.pool);
    IntrShape(s.pool);
    var f := s.pool.buf[b];
    assert !f.done && Transferred(s.pool).disk == s.pool.disk[Sector(dev, blkno) := w];
    assert IntrStep(s).pool.disk == Transferred(s.pool).disk;
    assert IntrStep(s).pool.buf[b].mem == f.mem;
  }

  /** The interrupt for another buffer writes another sector. */
  lemma OtherIntr(s: State, store: seq<seq<int>>, p: int, b: int, dev: int, blkno: int, w: seq<int>)
    requires Inv(s, store) && Shape(s) && Apart(s.zone) && Writing(s, p, b, dev, blkno, w)
    requires s.pool.queue != [] && s.pool.queue[0] != b
    ensures Writing(IntrStep(s), p, b, dev, blkno, w)
  {
    var c, x := s.pool, s.pool.queue[0];
    assert x in c.queue;
    RkintrSplits(c);
    IntrShape(c);
    assert !Clash(c, x, b);
    assert IntrStep(s).pool.disk == Transferred(c).disk;
    assert IntrStep(s).owner[b] == s.owner[b] && IntrStep(s).tasks == s.tasks;
  }

  /** One event: bwrite goes on, or its own last turn ends it. */
  lemma WriteTurn(s: State, store: seq<seq<int>>, e: Event, p: int, b: int, dev: int, blkno: int, w: seq<int>)
    requires Inv(s, store) && Shape(s) && Enabled(s, e) && Apart(s.zone) && Writing(s, p, b, dev, blkno, w)
    ensures Writing(Step(s, e), p, b, dev, blkno, w)
         || (e == Run(p) && Written(Step(s, e), p, b, dev, blkno, w))
  {
    if e == Run(p) {
      OwnWriteTurn(s, p, b, dev, blkno, w);
    } else if e == Intr {
      if s.pool.queue != [] && s.pool.queue[0] == b { OwnIntr(s, p, b, dev, blkno, w); }
      else if s.pool.queue != [] { OtherIntr(s, store, p, b, dev, blkno, w); }
    } else {
      OthersLeave(s, store, e, p, b);
      OthersWriteTurn(s, Step(s, e), p, b, dev, blkno, w);
    }
  }

  lemma WriteBegins(s: State, p: int, b: int)
    requires Shape(s) && Enabled(s, WriteSync(p, b))
    ensures var f := s.pool.buf[b]; Writing(Step(s, WriteSync(p, b)), p, b, f.dev, f.blkno, Contents(f))
  {
    assert OwnerOk(s, b);
  }

  /** What a step does to a write in progress. */
  ghost predicate WriteGoesOn(s: State, e: Event, t: State, p: int, b: int, dev: int, blkno: int, w: seq<int>) {
    Writing(s, p, b, dev, blkno, w) ==>
      Writing(t, p, b, dev, blkno, w) || (e == Run(p) && Written(t, p, b, dev, blkno, w))
  }

  lemma {:induction false} WritingStays(st: nat -> State, es: seq<Event>, c: nat, i: nat,
                                        p: int, b: int, dev: int, blkno: int, w: seq<int>)
    requires c < i <= |es| && Writing(st(c + 1), p, b, dev, blkno, w)
    requires forall j :: c + 1 < j <= i ==> p in st(j).tasks
    requires forall j :: c < j < i ==> WriteGoesOn(st(j), es[j], st(j + 1), p, b, dev, blkno, w)
    ensures Writing(st(i), p, b, dev, blkno, w)
    decreases i
  {
    if i > c + 1 {
      WritingStays(st, es, c, i - 1, p, b, dev, blkno, w);
      assert WriteGoesOn(st(i - 1), es[i-1], st(i - 1 + 1), p, b, dev, blkno, w);
    }
  }

  lemma WriteStepAt(z: Zone, disk: seq<seq<int>>, es: seq<Event>, j: nat, p: int, b: int, dev: int, blkno: int,
                    w: seq<int>)
    requires GoodDisk(disk) && IsZone(z) && Apart(z) && j < |es|
    ensures var st := States(z, disk, es); WriteGoesOn(st(j), es[j], st(j + 1), p, b, dev, blkno, w)
  {
    var st := States(z, disk, es);
    var store := NextState(z, disk, es, j);
    if Happens(st(j), es[j]) && Writing(st(j), p, b, dev, blkno, w) {
      WriteTurn(st(j), store, es[j], p, b, dev, blkno, w);
    }
  }

  /** bwrite: from the event on the process is in the call, and as long as it lasts nobody else has the buffer. */
  lemma BwriteHolds(z: Zone, disk: seq<seq<int>>, es: seq<Event>, c: nat, i: nat, p: int, b: int)
    requires GoodDisk(disk) && IsZone(z) && Apart(z) && c < |es| && es[c] == WriteSync(p, b)
    requires InCall(States(z, disk, es), es, c, i, p)
    ensures var st := States(z, disk, es);
            && IsBuf(b) && |st(c).pool.buf| == NBUF && |st(c).pool.buf[b].mem| == AREA
            && var f := st(c).pool.buf[b];
               && Writing(st(i), p, b, f.dev, f.blkno, Contents(f))
               && (forall q :: q in st(i).tasks && Mine(st(i).tasks[q], b) ==> q == p)
               && !ClientHas(st(i), b) && b !in st(i).pool.avail
  {
    var st := States(z, disk, es);
    var store := NextState(z, disk, es, c);
    WriteBegins(st(c), p, b);
    var f := st(c).pool.buf[b];
    forall j | c < j < i
      ensures WriteGoesOn(st(j), es[j], st(j + 1), p, b, f.dev, f.blkno, Contents(f))
    {
      WriteStepAt(z, disk, es, j, p, b, f.dev, f.blkno, Contents(f));
    }
    WritingStays(st, es, c, i, p, b, f.dev, f.blkno, Contents(f));
    RunInv(z, disk, es[..i]);
    NobodyElse(st(i), p, b);
  }

  lemma NobodyElse(s: State, p: int, b: int)
    requires Shape(s) && IsBuf(b) && s.owner[b] == Proc(p) && s.pool.buf[b].busy && PoolInv(s.pool)
    ensures (forall q :: q in s.tasks && Mine(s.tasks[q], b) ==> q == p) && !ClientHas(s, b) && b !in s.pool.avail
  {
  }

  /** bwrite waits: when the call ends, which takes a turn of its own, the disk has what was released, and the buffer is
      available and valid. */
  lemma BwriteWaits(z: Zone, disk: seq<seq<int>>, es: seq<Event>, c: nat, i: nat, p: int, b: int)
    requires GoodDisk(disk) && IsZone(z) && Apart(z) && c < i < |es| && es[c] == WriteSync(p, b)
    requires var st := States(z, disk, es); InCall(st, es, c, i, p) && p !in st(i + 1).tasks
    ensures var st := States(z, disk, es);
            && es[i] == Run(p) && IsBuf(b) && |st(c).pool.buf| == NBUF && |st(c).pool.buf[b].mem| == AREA
            && var f := st(c).pool.buf[b]; Written(st(i + 1), p, b, f.dev, f.blkno, Contents(f))
  {
    var st := States(z, disk, es);
    BwriteHolds(z, disk, es, c, i, p, b);
    var f := st(c).pool.buf[b];
    WriteStepAt(z, disk, es, i, p, b, f.dev, f.blkno, Contents(f));
  }

  /* ---------------------------------------------------------------- bread and breada */

  /** In bread or breada of block (dev, blkno). */
  predicate IsReading(t: Task, dev: int, blkno: int) {
    && t.dev == dev && t.blkno == blkno
    && match t.pc
       case Getting(_, why) => !why.ForGetblk?
       case Have(_, why) => !why.ForGetblk?
       case Ahead(_, _) => true
       case IoWait(_, release) => !release
  }

  /** What a step does to a read in progress: it goes on, or its own turn ends it with a valid buffer in hand. */
  ghost predicate ReadGoesOn(s: State, e: Event, t: State, p: int, dev: int, blkno: int) {
    p in s.tasks && IsReading(s.tasks[p], dev, blkno) ==>
      if p in t.tasks then IsReading(t.tasks[p], dev, blkno) else e == Run(p) && exists b :: Returning(s, p, b)
  }

  lemma OwnReadTurn(s: State, store: seq<seq<int>>, p: int, dev: int, blkno: int)
    requires Inv(s, store) && Shape(s) && p in s.tasks && p !in s.pool.wchan && IsReading(s.tasks[p], dev, blkno)
    ensures ReadGoesOn(s, Run(p), RunStep(s, p), p, dev, blkno)
  {
    assert GoodTask(s.zone, s.tasks[p]);
    match s.tasks[p].pc
    case Getting(_, _) => RunGettingCases(s, p);
    case Have(b, _) => assert s.pool.buf[b].done && s.tasks[p].pc.why.ForBread? ==> Returning(s, p, b);
    case Ahead(_, _) =>
    case IoWait(b, _) => assert s.pool.buf[b].done ==> Returning(s, p, b);
  }

  lemma ReadStepAt(z: Zone, disk: seq<seq<int>>, es: seq<Event>, j: nat, p: int, dev: int, blkno: int)
    requires GoodDisk(disk) && IsZone(z) && j < |es|
    ensures var st := States(z, disk, es); ReadGoesOn(st(j), es[j], st(j + 1), p, dev, blkno)
  {
    var st := States(z, disk, es);
    var store := NextState(z, disk, es, j);
    var s, e := st(j), es[j];
    if Happens(s, e) && p in s.tasks && IsReading(s.tasks[p], dev, blkno) {
      if e == Run(p) { OwnReadTurn(s, store, p, dev, blkno); } else { TaskKept(s, e, p); }
    }
  }

  lemma {:induction false} ReadingStays(st: nat -> State, es: seq<Event>, c: nat, i: nat, p: int, dev: int, blkno: int)
    requires c < i <= |es| && p in st(c + 1).tasks && IsReading(st(c + 1).tasks[p], dev, blkno)
    requires forall j :: c + 1 < j <= i ==> p in st(j).tasks
    requires forall j :: c < j < i ==> ReadGoesOn(st(j), es[j], st(j + 1), p, dev, blkno)
    ensures p in st(i).tasks && IsReading(st(i).tasks[p], dev, blkno)
    decreases i
  {
    if i > c + 1 {
      ReadingStays(st, es, c, i - 1, p, dev, blkno);
      assert ReadGoesOn(st(i - 1), es[i-1], st(i - 1 + 1), p, dev, blkno);
    }
  }

  predicate ReadsBlock(e: Event, p: int, dev: int, blkno: int) {
    e == CallBread(p, dev, blkno) || (e.CallBreada? && e.p == p && e.dev == dev && e.blkno == blkno)
  }

  lemma ReadInProgress(z: Zone, disk: seq<seq<int>>, es: seq<Event>, c: nat, i: nat, p: int, dev: int, blkno: int)
    requires GoodDisk(disk) && IsZone(z) && c < |es| && ReadsBlock(es[c], p, dev, blkno)
    requires InCall(States(z, disk, es), es, c, i, p)
    ensures var st := States(z, disk, es); p in st(i).tasks && IsReading(st(i).tasks[p], dev, blkno)
  {
    var st := States(z, disk, es);
    var store := NextState(z, disk, es, c);
    forall j | c < j < i
      ensures ReadGoesOn(st(j), es[j], st(j + 1), p, dev, blkno)
    {
      ReadStepAt(z, disk, es, j, p, dev, blkno);
    }
    ReadingStays(st, es, c, i, p, dev, blkno);
  }

  /** The client has been given buffer b, which holds block (dev, blkno) with contents w. */
  ghost predicate Given(s: State, t: State, p: int, b: int, dev: int, blkno: int, w: seq<int>) {
    && IsBuf(b) && |t.owner| == NBUF && |s.owner| == NBUF && s.owner[b] == Proc(p) && t.owner[b] == Client
         && p !in t.tasks
    && |t.pool.buf| == NBUF && |t.pool.buf[b].mem| == AREA && t.pool.buf[b].busy
    && HasKey(t.pool.buf[b], dev, blkno) && t.pool.buf[b].done && Contents(t.pool.buf[b]) == w
  }

  /** bread and breada wait: when the call ends, which takes a turn of its own, the client has a buffer that nobody else
      has, of the block asked for, with the contents last released for it. */
  lemma BreadGives(z: Zone, disk: seq<seq<int>>, es: seq<Event>, c: nat, i: nat, p: int, dev: int, blkno: int)
    returns (b: int)
    requires GoodDisk(disk) && IsZone(z) && Apart(z) && c < i < |es| && ReadsBlock(es[c], p, dev, blkno)
    requires var st := States(z, disk, es); InCall(st, es, c, i, p) && p !in st(i + 1).tasks
    ensures es[i] == Run(p) && |LastReleased(z, disk, es[..i])| == NSECTOR
    ensures var st := States(z, disk, es);
            Given(st(i), st(i + 1), p, b, dev, blkno, LastReleased(z, disk, es[..i])[Sector(dev, blkno)])
  {
    var st := States(z, disk, es);
    ReadInProgress(z, disk, es, c, i, p, dev, blkno);
    ReadStepAt(z, disk, es, i, p, dev, blkno);
    b :| Returning(st(i), p, b);
    ReadGiven(z, disk, es, i, p, b, dev, blkno);
  }

  lemma ReadGiven(z: Zone, disk: seq<seq<int>>, es: seq<Event>, i: nat, p: int, b: int, dev: int, blkno: int)
    requires GoodDisk(disk) && IsZone(z) && Apart(z) && i < |es| && es[i] == Run(p)
    requires var s := States(z, disk, es)(i); Returning(s, p, b) && s.tasks[p].dev == dev && s.tasks[p].blkno == blkno
    ensures |LastReleased(z, disk, es[..i])| == NSECTOR
    ensures var st := States(z, disk, es);
            Given(st(i), st(i + 1), p, b, dev, blkno, LastReleased(z, disk, es[..i])[Sector(dev, blkno)])
  {
    var st := States(z, disk, es);
    ReadsSeeLastWrite(z, disk, es[..i], p, b);
    assert es[..i] + [Run(p)] == es[..i+1];
    RunInv(z, disk, es[..i]);
    GivenFrom(st(i), LastReleased(z, disk, es[..i]), st(i + 1), p, b);
  }

  lemma GivenFrom(s: State, store: seq<seq<int>>, t: State, p: int, b: int)
    requires Inv(s, store) && Returning(s, p, b) && IsBuf(b) && |s.owner| == NBUF
    requires t.owner == s.owner[b := Client] && p !in t.tasks && t.pool == s.pool
    requires HasKey(s.pool.buf[b], s.tasks[p].dev, s.tasks[p].blkno)
    ensures Given(s, t, p, b, s.tasks[p].dev, s.tasks[p].blkno, Contents(s.pool.buf[b]))
  {
    assert Mine(s.tasks[p], b) && OwnerOk(s, b);
  }

  /* ---------------------------------------------------------------- read-ahead */

  ghost predicate InSomeBuffer(s: State, dev: int, blkno: int) {
    |s.pool.buf| == NBUF && exists b :: IsBuf(b) && HasKey(s.pool.buf[b], dev, blkno)
  }

  /** In breada, which has yet to get the read-ahead block ra. */
  predicate StillAhead(t: Task, ra: int) {
    match t.pc
    case Getting(want, why) => why == ForReada(ra) || (why.ForAhead? && want == ra)
    case Have(_, why) => why == ForReada(ra)
    case Ahead(_, r) => r == ra
    case IoWait(_, _) => false
  }

  /** breada gets past its read-ahead block only when that is in some buffer. */
  ghost predicate AheadGoesOn(s: State, t: State, p: int, dev: int, ra: int) {
    p in s.tasks && s.tasks[p].dev == dev && StillAhead(s.tasks[p], ra) ==>
      || (p in t.tasks && t.tasks[p].dev == dev && StillAhead(t.tasks[p], ra))
      || InSomeBuffer(s, dev, ra) || InSomeBuffer(t, dev, ra)
  }

  lemma OwnAheadTurn(s: State, store: seq<seq<int>>, p: int, dev: int, ra: int)
    requires Inv(s, store) && Shape(s) && p in s.tasks && ra != 0 && 0 <= dev
    requires s.tasks[p].dev == dev && StillAhead(s.tasks[p], ra)
    ensures AheadGoesOn(s, RunStep(s, p), p, dev, ra)
  {
    assert GoodTask(s.zone, s.tasks[p]);
    match s.tasks[p].pc
    case Getting(_, _) => GettingAhead(s, p, dev, ra);
    case Have(_, _) =>
    case Ahead(_, _) =>
      var r := Incore(s.pool, s.pool.chain, dev, ra);
      if r.Some? { assert IsBuf(r.value) && HasKey(s.pool.buf[r.value], dev, ra); }
    case IoWait(_, _) =>
  }

  lemma GettingAhead(s: State, p: int, dev: int, ra: int)
    requires PoolInv(s.pool) && Shape(s) && p in s.tasks && s.tasks[p].pc.Getting?
    requires s.tasks[p].dev == dev && StillAhead(s.tasks[p], ra)
    ensures AheadGoesOn(s, RunGetting(s, p), p, dev, ra)
  {
    RunGettingCases(s, p);
    var t := RunGetting(s, p);
    if t.tasks[p].pc.Have? && t.tasks[p].pc.why.ForAhead? {
      assert IsBuf(t.tasks[p].pc.b) && HasKey(t.pool.buf[t.tasks[p].pc.b], dev, ra);
    }
  }

  lemma AheadStepAt(z: Zone, disk: seq<seq<int>>, es: seq<Event>, j: nat, p: int, dev: int, ra: int)
    requires GoodDisk(disk) && IsZone(z) && j < |es| && ra != 0 && 0 <= dev
    ensures var st := States(z, disk, es); AheadGoesOn(st(j), st(j + 1), p, dev, ra)
  {
    var st := States(z, disk, es);
    var store := NextState(z, disk, es, j);
    var s, e := st(j), es[j];
    if Happens(s, e) && p in s.tasks && s.tasks[p].dev == dev && StillAhead(s.tasks[p], ra) {
      if e == Run(p) { OwnAheadTurn(s, store, p, dev, ra); } else { TaskKept(s, e, p); }
    }
  }

  lemma {:induction false} AheadOverTime(st: nat -> State, c: nat, i: nat, p: int, dev: int, ra: int)
    requires c < i && p in st(c + 1).tasks && st(c + 1).tasks[p].dev == dev && StillAhead(st(c + 1).tasks[p], ra)
    requires forall j :: c < j < i ==> AheadGoesOn(st(j), st(j + 1), p, dev, ra)
    requires forall j :: c < j <= i ==> !InSomeBuffer(st(j), dev, ra)
    ensures p in st(i).tasks && st(i).tasks[p].dev == dev && StillAhead(st(i).tasks[p], ra)
    decreases i
  {
    if i > c + 1 {
      AheadOverTime(st, c, i - 1, p, dev, ra);
      assert AheadGoesOn(st(i - 1), st(i - 1 + 1), p, dev, ra);
    }
  }

  /** breada does start the read-ahead: by the time the call ends the read-ahead block has been in a buffer. */
  lemma BreadaReadsAhead(z: Zone, disk: seq<seq<int>>, es: seq<Event>, c: nat, i: nat, p: int, dev: int, blkno: int,
                         ra: int)
    requires GoodDisk(disk) && IsZone(z) && c < i < |es| && es[c] == CallBreada(p, dev, blkno, ra) && ra != 0
        && 0 <= dev
    requires var st := States(z, disk, es); InCall(st, es, c, i, p) && p !in st(i + 1).tasks
    ensures exists j :: c < j <= i + 1 && InSomeBuffer(States(z, disk, es)(j), dev, ra)
  {
    var st := States(z, disk, es);
    BreadaBegins(z, disk, es, c, p, dev, blkno, ra);
    forall j | c < j < i + 1
      ensures AheadGoesOn(st(j), st(j + 1), p, dev, ra)
    {
      AheadStepAt(z, disk, es, j, p, dev, ra);
    }
    AheadInTime(st, c, i + 1, p, dev, ra);
  }

  lemma BreadaBegins(z: Zone, disk: seq<seq<int>>, es: seq<Event>, c: nat, p: int, dev: int, blkno: int, ra: int)
    requires GoodDisk(disk) && IsZone(z) && c < |es| && es[c] == CallBreada(p, dev, blkno, ra)
    requires Happens(States(z, disk, es)(c), es[c])
    ensures var t := States(z, disk, es)(c + 1); p in t.tasks && t.tasks[p].dev == dev && StillAhead(t.tasks[p], ra)
  {
    var store := NextState(z, disk, es, c);
  }

  lemma AheadInTime(st: nat -> State, c: nat, i: nat, p: int, dev: int, ra: int)
    requires c < i && p in st(c + 1).tasks && st(c + 1).tasks[p].dev == dev && StillAhead(st(c + 1).tasks[p], ra)
    requires forall j :: c < j < i ==> AheadGoesOn(st(j), st(j + 1), p, dev, ra)
    requires p !in st(i).tasks
    ensures exists j :: c < j <= i && InSomeBuffer(st(j), dev, ra)
  {
    if forall j :: c < j <= i ==> !InSomeBuffer(st(j), dev, ra) { AheadOverTime(st, c, i, p, dev, ra); }
  }

  /** The turn that deals with the read-ahead block leaves it valid and available, or queued to be read for nobody. */
  lemma AheadStarts(s: State, p: int)
    requires Shape(s) && p in s.tasks && s.tasks[p].pc.Have? && s.tasks[p].pc.why.ForAhead? && IsBuf(s.tasks[p].pc.b)
    ensures var x, t := s.tasks[p].pc.b, RunStep(s, p);
            && |t.pool.buf| == NBUF
            && if s.pool.buf[x].done then x in t.pool.avail && t.pool.buf[x].done
               else x in t.pool.queue && t.pool.buf[x].read && t.pool.buf[x].async
  {
  }

  /* ---------------------------------------------------------------- getblk */

  /** In getblk of block (dev, blkno). */
  predicate IsGetting(t: Task, dev: int, blkno: int) {
    && t.dev == dev && t.blkno == blkno
    && ((t.pc.Getting? && t.pc == Getting(blkno, ForGetblk)) || (t.pc.Have? && t.pc.why.ForGetblk?))
  }

  ghost predicate GetGoesOn(s: State, e: Event, t: State, p: int, dev: int, blkno: int) {
    p in s.tasks && IsGetting(s.tasks[p], dev, blkno) ==>
      if p in t.tasks then IsGetting(t.tasks[p], dev, blkno)
      else e == Run(p) && exists b :: Handed(s, t, p, b, dev, blkno)
  }

  /** The client has been given buffer b for block (dev, blkno), whatever its contents. */
  ghost predicate Handed(s: State, t: State, p: int, b: int, dev: int, blkno: int) {
    && IsBuf(b) && |t.owner| == NBUF && |s.owner| == NBUF && s.owner[b] == Proc(p) && t.owner[b] == Client
         && p !in t.tasks
    && |t.pool.buf| == NBUF && t.pool.buf[b].busy && b !in t.pool.avail && b !in t.pool.queue
    && HasKey(t.pool.buf[b], dev, blkno)
  }

  lemma OwnGetTurn(s: State, store: seq<seq<int>>, p: int, dev: int, blkno: int)
    requires Inv(s, store) && Shape(s) && p in s.tasks && p !in s.pool.wchan && IsGetting(s.tasks[p], dev, blkno)
    ensures GetGoesOn(s, Run(p), RunStep(s, p), p, dev, blkno)
  {
    assert GoodTask(s.zone, s.tasks[p]);
    match s.tasks[p].pc
    case Getting(_, _) => RunGettingCases(s, p);
    case Have(b, _) =>
      assert Mine(s.tasks[p], b) && OwnerOk(s, b);
      assert Handed(s, RunStep(s, p), p, b, dev, blkno);
    case _ =>
  }

  lemma GetStepAt(z: Zone, disk: seq<seq<int>>, es: seq<Event>, j: nat, p: int, dev: int, blkno: int)
    requires GoodDisk(disk) && IsZone(z) && j < |es|
    ensures var st := States(z, disk, es); GetGoesOn(st(j), es[j], st(j + 1), p, dev, blkno)
  {
    var st := States(z, disk, es);
    var store := NextState(z, disk, es, j);
    var s, e := st(j), es[j];
    if Happens(s, e) && p in s.tasks && IsGetting(s.tasks[p], dev, blkno) {
      if e == Run(p) { OwnGetTurn(s, store, p, dev, blkno); } else { TaskKept(s, e, p); }
    }
  }

  lemma {:induction false} GettingStays(st: nat -> State, es: seq<Event>, c: nat, i: nat, p: int, dev: int, blkno: int)
    requires c < i <= |es| && p in st(c + 1).tasks && IsGetting(st(c + 1).tasks[p], dev, blkno)
    requires forall j :: c + 1 < j <= i ==> p in st(j).tasks
    requires forall j :: c < j < i ==> GetGoesOn(st(j), es[j], st(j + 1), p, dev, blkno)
    ensures p in st(i).tasks && IsGetting(st(i).tasks[p], dev, blkno)
    decreases i
  {
    if i > c + 1 {
      GettingStays(st, es, c, i - 1, p, dev, blkno);
      assert GetGoesOn(st(i - 1), es[i-1], st(i - 1 + 1), p, dev, blkno);
    }
  }

  /** getblk: when the call ends the client has a buffer for the block asked for, which nobody else has. */
  lemma GetblkGives(z: Zone, disk: seq<seq<int>>, es: seq<Event>, c: nat, i: nat, p: int, dev: int, blkno: int)
    returns (b: int)
    requires GoodDisk(disk) && IsZone(z) && c < i < |es| && es[c] == CallGetblk(p, dev, blkno)
    requires var st := States(z, disk, es); InCall(st, es, c, i, p) && p !in st(i + 1).tasks
    ensures var st := States(z, disk, es);
            es[i] == Run(p) && Handed(st(i), st(i + 1), p, b, dev, blkno)
  {
    var st := States(z, disk, es);
    var store := NextState(z, disk, es, c);
    forall j | c < j < i
      ensures GetGoesOn(st(j), es[j], st(j + 1), p, dev, blkno)
    {
      GetStepAt(z, disk, es, j, p, dev, blkno);
    }
    GettingStays(st, es, c, i, p, dev, blkno);
    GetStepAt(z, disk, es, i, p, dev, blkno);
    b :| Handed(st(i), st(i + 1), p, b, dev, blkno);
  }

  /* ---------------------------------------------------------------- what a client does with its buffer */

  /** The same block with the same contents, whatever has become of the flags. */
  ghost predicate SameBlock(s: State, t: State, b: int) {
    && IsBuf(b) && |s.pool.buf| == |t.pool.buf| == NBUF && |t.pool.buf[b].mem| == AREA
    && t.pool.buf[b].mem == s.pool.buf[b].mem && HasKey(t.pool.buf[b], s.pool.buf[b].dev, s.pool.buf[b].blkno)
  }

  /** brelse and bdwrite put the buffer at the tail of the available list at once; neither goes to the disk.  bdwrite
      leaves it marked to be written before it is used for another block. */
  lemma ReleaseAndDelay(s: State, e: Event, b: int)
    requires Shape(s) && Enabled(s, e) && (e == Release(b) || e == WriteDelayed(b))
    ensures var t := Step(s, e);
            && SameBlock(s, t, b) && t.pool.avail == s.pool.avail + [b] && !t.pool.buf[b].busy
            && t.pool.queue == s.pool.queue && t.pool.disk == s.pool.disk && t.tasks == s.tasks
            && (e.Release? ==> t.pool.buf[b].delwri == s.pool.buf[b].delwri && t.pool.buf[b].done == s.pool.buf[b].done)
            && (e.WriteDelayed? ==> t.pool.buf[b].delwri && t.pool.buf[b].done)
  {
    assert OwnerOk(s, b);
  }

  /** bawrite queues the buffer and does not wait; the interrupt will release it. */
  lemma AsyncQueues(s: State, b: int)
    requires Shape(s) && Enabled(s, WriteAsync(b))
    ensures var t := Step(s, WriteAsync(b));
            && SameBlock(s, t, b) && t.pool.queue == s.pool.queue + [b] && t.pool.avail == s.pool.avail
            && t.tasks == s.tasks && t.pool.disk == s.pool.disk
            && var f := t.pool.buf[b]; f.busy && f.async && !f.read && !f.done && !f.delwri
  {
    assert OwnerOk(s, b);
  }

  /** A client's change to its buffer is there at once, and is in no other. */
  lemma PokeChanges(s: State, b: int, off: int, words: seq<int>)
    requires Shape(s) && Enabled(s, Poke(b, off, words))
    ensures var t := Step(s, Poke(b, off, words));
            && |t.pool.buf| == NBUF && |t.pool.buf[b].mem| == AREA
            && (forall k :: 0 <= k < AREA ==>
                  t.pool.buf[b].mem[k] == if off <= k < off + |words| then words[k-off] else s.pool.buf[b].mem[k])
            && (forall x :: IsBuf(x) && x != b ==> t.pool.buf[x] == s.pool.buf[x])
            && t.pool.disk == s.pool.disk && t.pool.queue == s.pool.queue && t.pool.avail == s.pool.avail
  {
  }
}
