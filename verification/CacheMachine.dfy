/** The cache under concurrency.  Any number of processes are inside getblk, bread, breada or
    bwrite; a step is at most the code between two sleeps (finer than the kernel's own schedule),
    or one disk interrupt.  Clients are free to interleave all of this. */
module CacheMachine {
  import opened Options
  import opened Rings
  import opened Buffers

  /** Why getblk was called, hence what follows its return.  `main` is breada's own buffer, -1 if none. */
  datatype Why = ForGetblk | ForBread | ForReada(ra: int) | ForAhead(main: int)

  datatype Pc =
    | Getting(want: int, why: Why)        // inside getblk(dev, want)
    | Have(b: int, why: Why)              // getblk has just returned b
    | Ahead(main: int, ra: int)           // breada, about to look for the read-ahead block
    | IoWait(b: int, release: bool)       // iowait; bwrite then releases the buffer

  /** A call in progress on block (dev, blkno). */
  datatype Task = Task(dev: int, blkno: int, pc: Pc)

  /** Who is answerable for a buffer. */
  datatype Owner = Nobody | Driver | Client | Proc(p: int)

  /** `zone` says how many blocks of each drive are in use; it never changes. */
  datatype State = State(pool: Pool, tasks: map<int, Task>, owner: seq<Owner>, dirty: set<int>, zone: Zone)

  datatype Event =
    | CallGetblk(p: int, dev: int, blkno: int)
    | CallBread(p: int, dev: int, blkno: int)
    | CallBreada(p: int, dev: int, blkno: int, ra: int)
    | Run(p: int)
    | Intr
    | Poke(b: int, off: int, words: seq<int>)
    | Release(b: int)
    | WriteDelayed(b: int)
    | WriteAsync(b: int)
    | WriteSync(p: int, b: int)
    | Flush(dev: int)
    | Wake(p: int)

  /* ---------------------------------------------------------------- invariants */

  ghost predicate Lists(c: Pool) {
    && Ready(c)
    && NoDup(c.avail) && NoDup(c.chain) && NoDup(c.loose) && NoDup(c.queue)
    && (forall b :: b in c.avail <==> IsBuf(b) && !c.buf[b].busy)
    && (forall b :: b in c.chain <==> IsBuf(b) && c.buf[b].dev >= 0)
    && (forall b :: b in c.loose <==> IsBuf(b) && c.buf[b].dev < 0)
    && (forall b :: b in c.queue ==> IsBuf(b) && c.buf[b].busy && !c.buf[b].done && c.buf[b].dev >= 0)
    && c.active == if c.queue == [] then 0 else 1
  }

  ghost predicate Twins(c: Pool, b: int, b': int)
    requires Ready(c)
  {
    IsBuf(b) && IsBuf(b') && c.buf[b].dev >= 0 && HasKey(c.buf[b'], c.buf[b].dev, c.buf[b].blkno)
  }

  /** No block is in two buffers. */
  ghost predicate Keys(c: Pool)
    requires Ready(c)
  {
    forall b, b' :: Twins(c, b, b') ==> b == b'
  }

  ghost predicate Clash(c: Pool, b: int, b': int)
    requires Ready(c)
  {
    && IsBuf(b) && IsBuf(b')
    && c.buf[b].dev >= 0 && c.buf[b'].dev >= 0
    && KeySector(c.buf[b]) == KeySector(c.buf[b'])
  }

  /** No sector is in two buffers: when no two blocks in use share one, the same thing. */
  ghost predicate Separate(c: Pool)
    requires Ready(c)
  {
    forall b, b' :: Clash(c, b, b') ==> b == b'
  }

  ghost predicate FlagsOk(c: Pool)
    requires Ready(c)
  {
    forall b :: IsBuf(b) ==>
      && (!c.buf[b].busy ==> !c.buf[b].wanted && !c.buf[b].async)
      && (c.buf[b].delwri ==> c.buf[b].done && c.buf[b].dev >= 0)
      && c.buf[b].mem[WORDS] == 0
  }

  ghost predicate PoolInv(c: Pool) { Lists(c) && Keys(c) && FlagsOk(c) }

  function MainOf(w: Why): int { if w.ForAhead? then w.main else -1 }

  /** The buffers a call in progress is answerable for. */
  predicate Mine(t: Task, b: int) {
    match t.pc
    case Getting(_, why) => b == MainOf(why)
    case Have(x, why) => b == x || b == MainOf(why)
    case Ahead(main, _) => b == main
    case IoWait(x, _) => b == x
  }

  /** The buffer of a call that holds the very block the call asked for. */
  predicate Wanted(t: Task, b: int) {
    match t.pc
    case Getting(_, why) => b == MainOf(why)
    case Have(x, why) => if why.ForAhead? then b == why.main else b == x
    case Ahead(main, _) => b == main
    case IoWait(x, release) => !release && b == x
  }

  predicate GoodTask(z: Zone, t: Task) {
    && (t.dev == NODEV || Used(z, t.dev, t.blkno))
    && match t.pc
       case Getting(want, why) =>
         && (why.ForGetblk? || Used(z, t.dev, want))
         && (why.ForAhead? || want == t.blkno)
         && (why.ForReada? ==> why.ra == 0 || Used(z, t.dev, why.ra))
         && (why.ForAhead? ==> Used(z, t.dev, t.blkno) && -1 <= why.main < NBUF)
       case Have(b, why) =>
         && IsBuf(b)
         && (why.ForGetblk? || Used(z, t.dev, t.blkno))
         && (why.ForReada? ==> why.ra == 0 || Used(z, t.dev, why.ra))
         && (why.ForAhead? ==> -1 <= why.main < NBUF && why.main != b)
       case Ahead(main, ra) => Used(z, t.dev, t.blkno) && -1 <= main < NBUF && (ra == 0 || Used(z, t.dev, ra))
       case IoWait(b, release) => IsBuf(b) && (release || Used(z, t.dev, t.blkno))
  }

  /** Have means getblk returned and no I/O has been started since. */
  predicate Fresh(t: Task, b: int) { t.pc.Have? && t.pc.b == b }

  /** Every busy buffer has exactly one party answerable for it, and that party's view fits the flags. */
  ghost predicate OwnerOk(s: State, b: int)
    requires Ready(s.pool) && |s.owner| == NBUF && IsBuf(b)
  {
    var c, f := s.pool, s.pool.buf[b];
    (f.dev >= 0 ==> Used(s.zone, f.dev, f.blkno)) &&
    match s.owner[b]
    case Nobody => !f.busy
    case Driver => f.busy && f.async && b in c.queue
    case Client => f.busy && !f.async && b !in c.queue
    case Proc(p) =>
      && f.busy && !f.async
      && p in s.tasks && Mine(s.tasks[p], b)
      && (Wanted(s.tasks[p], b) ==> HasKey(f, s.tasks[p].dev, s.tasks[p].blkno))
      && (Fresh(s.tasks[p], b) ==> b !in c.queue && (s.tasks[p].dev >= 0 ==> f.dev == s.tasks[p].dev))
      && (!Fresh(s.tasks[p], b) && !f.done ==> b in c.queue)
  }

  ghost predicate Custody(s: State) {
    && Ready(s.pool) && |s.owner| == NBUF
    && (forall b :: IsBuf(b) ==> OwnerOk(s, b))
    && (forall p :: p in s.tasks ==> GoodTask(s.zone, s.tasks[p]))
    && (forall p, b :: p in s.tasks && IsBuf(b) && Mine(s.tasks[p], b) ==> s.owner[b] == Proc(p))
    && (forall b :: b in s.dirty ==> IsBuf(b) && s.owner[b] == Client)
  }

  /** Nobody sleeps on an event that has already happened. */
  ghost predicate AsleepOk(s: State, p: int)
    requires Ready(s.pool) && p in s.pool.wchan
  {
    && p in s.tasks
    && match s.pool.wchan[p]
       case OnFree => s.tasks[p].pc.Getting? && s.pool.freeWanted && s.pool.avail == []
       case OnBuf(b) =>
         && IsBuf(b)
         && if s.tasks[p].pc.IoWait? then b == s.tasks[p].pc.b && !s.pool.buf[b].done
            else s.tasks[p].pc.Getting? && s.pool.buf[b].busy && s.pool.buf[b].wanted
  }

  ghost predicate Sleepers(s: State)
    requires Ready(s.pool)
  {
    forall p :: p in s.pool.wchan ==> AsleepOk(s, p)
  }

  /** One buffer against the block contents last released (`store`). */
  ghost predicate Agrees(c: Pool, dirty: set<int>, store: seq<seq<int>>, b: int)
    requires Ready(c) && |store| == NSECTOR && IsBuf(b)
  {
    var f := c.buf[b];
    var k := KeySector(f);
    f.dev >= 0 ==>
      if b in c.queue then
        if f.read then c.disk[k] == store[k] else Contents(f) == store[k]
      else
        && (!f.delwri ==> c.disk[k] == store[k])
        && (f.done && b !in dirty ==> Contents(f) == store[k])
  }

  ghost predicate Cached(c: Pool, k: int)
    requires Ready(c)
  {
    exists b :: IsBuf(b) && c.buf[b].dev >= 0 && KeySector(c.buf[b]) == k
  }

  ghost predicate Coherent(c: Pool, dirty: set<int>, store: seq<seq<int>>)
    requires Ready(c)
  {
    && |store| == NSECTOR && Separate(c)
    && (forall b :: IsBuf(b) ==> Agrees(c, dirty, store, b))
    && (forall k :: 0 <= k < NSECTOR && !Cached(c, k) ==> c.disk[k] == store[k])
  }

  /** Lists, custody and sleepers are in order whatever blocks are in use; the contents are right when no two of them
      share a sector. */
  ghost predicate Inv(s: State, store: seq<seq<int>>) {
    && PoolInv(s.pool) && Custody(s) && Sleepers(s) && IsZone(s.zone) && |store| == NSECTOR
    && (Apart(s.zone) ==> Coherent(s.pool, s.dirty, store))
  }

  /* ---------------------------------------------------------------- steps */

  function SetTask(s: State, p: int, pc: Pc): State
    requires p in s.tasks
  {
    s.(tasks := s.tasks[p := s.tasks[p].(pc := pc)])
  }

  function EndTask(s: State, p: int): State { s.(tasks := s.tasks - {p}) }

  function SetOwner(s: State, b: int, o: Owner): State
    requires 0 <= b < |s.owner|
  {
    s.(owner := s.owner[b := o])
  }

  /** getblk's pass, and what its result does to the call. */
  function RunGetting(s: State, p: int): State
    requires Sane(s.pool) && |s.owner| == NBUF && p in s.tasks && s.tasks[p].pc.Getting?
    requires forall b :: b in s.pool.chain ==> IsBuf(b)
  {
    var t := s.tasks[p];
    var r := GetblkPass(s.pool, p, t.dev, t.pc.want);
    match r.1
    case Got(b) => SetOwner(SetTask(s.(pool := r.0), p, Have(b, t.pc.why)), b, Proc(p))
    case Slept => s.(pool := r.0)
    case Retry => SetOwner(s.(pool := r.0), s.pool.avail[0], Driver)
  }

  function AfterAhead(main: int, blkno: int): Pc {
    if main < 0 then Getting(blkno, ForBread) else IoWait(main, false)
  }

  function RunHave(s: State, p: int): State
    requires Sane(s.pool) && |s.owner| == NBUF && p in s.tasks && s.tasks[p].pc.Have? && IsBuf(s.tasks[p].pc.b)
  {
    var t := s.tasks[p];
    var b, done := t.pc.b, s.pool.buf[t.pc.b].done;
    match t.pc.why
    case ForGetblk => SetOwner(EndTask(s, p), b, Client)
    case ForBread =>
      if done then SetOwner(EndTask(s, p), b, Client)
      else SetTask(s.(pool := StartRead(s.pool, b, false)), p, IoWait(b, false))
    case ForReada(ra) =>
      if done then SetTask(s, p, Ahead(b, ra))
      else SetTask(s.(pool := StartRead(s.pool, b, false)), p, Ahead(b, ra))
    case ForAhead(main) =>
      if done then SetOwner(SetTask(s.(pool := Brelse(s.pool, b)), p, AfterAhead(main, t.blkno)), b, Nobody)
      else SetOwner(SetTask(s.(pool := StartRead(s.pool, b, true)), p, AfterAhead(main, t.blkno)), b, Driver)
  }

  function RunAhead(s: State, p: int): State
    requires Sane(s.pool) && p in s.tasks && s.tasks[p].pc.Ahead?
  {
    var t := s.tasks[p];
    if t.pc.ra != 0 && Incore(s.pool, s.pool.chain, t.dev, t.pc.ra).None?
    then SetTask(s, p, Getting(t.pc.ra, ForAhead(t.pc.main)))
    else SetTask(s, p, AfterAhead(t.pc.main, t.blkno))
  }

  function RunIoWait(s: State, p: int): State
    requires Sane(s.pool) && |s.owner| == NBUF && p in s.tasks && s.tasks[p].pc.IoWait? && IsBuf(s.tasks[p].pc.b)
  {
    var t := s.tasks[p];
    var b := t.pc.b;
    if !s.pool.buf[b].done then s.(pool := s.pool.(wchan := s.pool.wchan[p := OnBuf(b)]))
    else if t.pc.release then SetOwner(EndTask(s.(pool := Brelse(s.pool, b)), p), b, Nobody)
    else SetOwner(EndTask(s, p), b, Client)
  }

  function RunStep(s: State, p: int): State
    requires Sane(s.pool) && Custody(s) && p in s.tasks
    requires forall b :: b in s.pool.chain ==> IsBuf(b)
  {
    match s.tasks[p].pc
    case Getting(_, _) => RunGetting(s, p)
    case Have(_, _) => RunHave(s, p)
    case Ahead(_, _) => RunAhead(s, p)
    case IoWait(_, _) => RunIoWait(s, p)
  }

  function IntrStep(s: State): State
    requires Ready(s.pool) && |s.owner| == NBUF
    requires s.pool.active != 0 ==> s.pool.queue != [] && IsBuf(s.pool.queue[0])
  {
    var t := s.(pool := Rkintr(s.pool));
    if s.pool.active == 0 || !s.pool.buf[s.pool.queue[0]].async then t
    else SetOwner(t, s.pool.queue[0], Nobody)
  }

  function PokeMem(m: seq<int>, off: int, words: seq<int>): seq<int>
    requires 0 <= off && off + |words| <= |m|
  {
    m[..off] + words + m[off + |words|..]
  }

  predicate ClientHas(s: State, b: int) { IsBuf(b) && |s.owner| == NBUF && s.owner[b] == Client }

  /** What a client may ask for: the calling conventions of the buffer routines. */
  predicate Enabled(s: State, e: Event)
    requires |s.pool.buf| == NBUF
  {
    match e
    case CallGetblk(p, dev, blkno) => p !in s.tasks && (dev == NODEV || Used(s.zone, dev, blkno))
    case CallBread(p, dev, blkno) => p !in s.tasks && Used(s.zone, dev, blkno)
    case CallBreada(p, dev, blkno, ra) => p !in s.tasks && Used(s.zone, dev, blkno)
        && (ra == 0 || Used(s.zone, dev, ra))
    case Run(p) => p in s.tasks && p !in s.pool.wchan
    case Intr => true
    case Poke(b, off, words) => ClientHas(s, b) && 0 <= off && off + |words| <= WORDS
    case Release(b) => ClientHas(s, b) && (b in s.dirty ==> !s.pool.buf[b].done)
    case WriteDelayed(b) => ClientHas(s, b) && s.pool.buf[b].dev >= 0
    case WriteAsync(b) => ClientHas(s, b) && s.pool.buf[b].dev >= 0
    case WriteSync(p, b) => ClientHas(s, b) && s.pool.buf[b].dev >= 0 && p !in s.tasks
    case Flush(_) => true
    case Wake(p) => p in s.pool.wchan
  }

  ghost predicate Shape(s: State) {
    && Sane(s.pool) && Custody(s)
    && (forall b :: b in s.pool.chain ==> IsBuf(b))
    && (s.pool.active != 0 ==> s.pool.queue != [] && IsBuf(s.pool.queue[0]))
  }

  function FlushStep(s: State, dev: int): State
    requires Sane(s.pool) && |s.owner| == NBUF
  {
    var f := FirstFlush(s.pool, s.pool.avail, dev);
    if f.None? then s else SetOwner(s.(pool := Bawrite(Notavail(s.pool, f.value), f.value)), f.value, Driver)
  }

  function Step(s: State, e: Event): State
    requires Shape(s) && Enabled(s, e)
  {
    match e
    case CallGetblk(p, dev, blkno) => s.(tasks := s.tasks[p := Task(dev, blkno, Getting(blkno, ForGetblk))])
    case CallBread(p, dev, blkno) => s.(tasks := s.tasks[p := Task(dev, blkno, Getting(blkno, ForBread))])
    case CallBreada(p, dev, blkno, ra) =>
      s.(tasks := s.tasks[p := Task(dev, blkno,
           if Incore(s.pool, s.pool.chain, dev, blkno).None? then Getting(blkno, ForReada(ra)) else Ahead(-1, ra))])
    case Run(p) => RunStep(s, p)
    case Intr => IntrStep(s)
    case Poke(b, off, words) =>
      s.(pool := SetBuf(s.pool, b, s.pool.buf[b].(mem := PokeMem(s.pool.buf[b].mem, off, words))),
          dirty := s.dirty + {b})
    case Release(b) => SetOwner(s.(pool := Brelse(s.pool, b), dirty := s.dirty - {b}), b, Nobody)
    case WriteDelayed(b) => SetOwner(s.(pool := Bdwrite(s.pool, b), dirty := s.dirty - {b}), b, Nobody)
    case WriteAsync(b) => SetOwner(s.(pool := Bawrite(s.pool, b), dirty := s.dirty - {b}), b, Driver)
    case WriteSync(p, b) =>
      SetOwner(s.(pool := StartWrite(s.pool, b), dirty := s.dirty - {b},
                  tasks := s.tasks[p := Task(s.pool.buf[b].dev, s.pool.buf[b].blkno, IoWait(b, true))]), b, Proc(p))
    case Flush(dev) => FlushStep(s, dev)
    case Wake(p) => s.(pool := s.pool.(wchan := s.pool.wchan - {p}))
  }

  /** The block contents an event releases for writing, if it is a write. */
  function Released(s: State, e: Event): Option<(int, seq<int>)>
    requires Ready(s.pool) && Enabled(s, e)
  {
    match e
    case WriteDelayed(b) => Some((KeySector(s.pool.buf[b]), Contents(s.pool.buf[b])))
    case WriteAsync(b) => Some((KeySector(s.pool.buf[b]), Contents(s.pool.buf[b])))
    case WriteSync(_, b) => Some((KeySector(s.pool.buf[b]), Contents(s.pool.buf[b])))
    case _ => None
  }
}
