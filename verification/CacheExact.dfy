/** Exactly when the cache is coherent, block by block: when no two blocks in use share a sector. */
module CacheExact {
  import opened Options
  import opened Rings
  import opened Buffers
  import opened CacheMachine
  import opened CacheSteps
  import opened CacheTheorems

  /** The buffer that an event releases for writing, if it is a write. */
  function Writes(e: Event): Option<int> {
    match e
    case WriteDelayed(b) => Some(b)
    case WriteAsync(b) => Some(b)
    case WriteSync(_, b) => Some(b)
    case _ => None
  }

  /** The event writes block (dev, blkno). */
  ghost predicate WritesTo(s: State, e: Event, dev: int, blkno: int) {
    && Happens(s, e) && Writes(e).Some?
    && 0 <= Writes(e).value < |s.pool.buf| && |s.pool.buf[Writes(e).value].mem| == AREA
    && HasKey(s.pool.buf[Writes(e).value], dev, blkno)
  }

  /** What was last released for a block, else what its sector held at boot. */
  ghost function LastWritten(z: Zone, disk: seq<seq<int>>, es: seq<Event>, dev: int, blkno: int): seq<int>
    requires GoodDisk(disk)
  {
    if es == [] then disk[Sector(dev, blkno)] else
    var s, e := After(z, disk, es[..|es|-1]), es[|es|-1];
    if WritesTo(s, e, dev, blkno) then Contents(s.pool.buf[Writes(e).value])
    else LastWritten(z, disk, es[..|es|-1], dev, blkno)
  }

  /** When no two blocks in use share a sector, sectors and blocks are the same thing. */
  lemma {:induction false} SectorIsBlock(z: Zone, disk: seq<seq<int>>, es: seq<Event>, dev: int, blkno: int)
    requires GoodDisk(disk) && IsZone(z) && Apart(z) && Used(z, dev, blkno)
    ensures |LastReleased(z, disk, es)| == NSECTOR
    ensures LastReleased(z, disk, es)[Sector(dev, blkno)] == LastWritten(z, disk, es, dev, blkno)
  {
    if es != [] {
      var pre, e := es[..|es|-1], es[|es|-1];
      var s := After(z, disk, pre);
      SectorIsBlock(z, disk, pre, dev, blkno);
      RunInv(z, disk, pre);
      if Happens(s, e) && Writes(e).Some? {
        var b := Writes(e).value;
        assert OwnerOk(s, b);
        var f := s.pool.buf[b];
        assert Sector(f.dev, f.blkno) == Sector(dev, blkno) <==> HasKey(f, dev, blkno);
      }
    }
  }

  /** Every finished bread or breada, in every run, gives what was last written to its block. */
  ghost predicate AlwaysCoherent(z: Zone) {
    forall disk, es, p, b :: GoodDisk(disk) && Returning(After(z, disk, es), p, b) ==> Right(z, disk, es, p, b)
  }

  ghost predicate Right(z: Zone, disk: seq<seq<int>>, es: seq<Event>, p: int, b: int)
    requires GoodDisk(disk) && Returning(After(z, disk, es), p, b)
  {
    var s := After(z, disk, es);
    Contents(s.pool.buf[b]) == LastWritten(z, disk, es, s.tasks[p].dev, s.tasks[p].blkno)
  }

  lemma ApartIsRight(z: Zone, disk: seq<seq<int>>, es: seq<Event>, p: int, b: int)
    requires GoodDisk(disk) && IsZone(z) && Apart(z) && Returning(After(z, disk, es), p, b)
    ensures Right(z, disk, es, p, b)
  {
    var s := After(z, disk, es);
    RunInv(z, disk, es);
    assert GoodTask(s.zone, s.tasks[p]);
    ReadsSeeLastWrite(z, disk, es, p, b);
    SectorIsBlock(z, disk, es, s.tasks[p].dev, s.tasks[p].blkno);
  }

  /* ---------------------------------------------------------------- two blocks on one sector */

  /** A disk of ones: the buffers start out cleared, so a write of one of them shows. */
  function Ones(): (d: seq<seq<int>>)
    ensures GoodDisk(d) && forall k :: 0 <= k < NSECTOR ==> d[k] == seq(WORDS, _ => 1)
  {
    seq(NSECTOR, k => seq(WORDS, _ => 1))
  }

  lemma Next(z: Zone, disk: seq<seq<int>>, es: seq<Event>, e: Event)
    requires GoodDisk(disk) && IsZone(z) && |After(z, disk, es).pool.buf| == NBUF && Enabled(After(z, disk, es), e)
    ensures Shape(After(z, disk, es)) && After(z, disk, es + [e]) == Step(After(z, disk, es), e)
  {
    RunInv(z, disk, es);
    assert (es + [e])[..|es|] == es;
  }

  /** The buffers not yet used, oldest first. */
  function Rest(): seq<int> { seq(NBUF - 1, i => i + 1) }

  function Taken(dev: int, blkno: int): Buf { Blank(true).(dev := dev, blkno := blkno) }

  ghost predicate Quiet(c: Pool) {
    |c.buf| == NBUF && c.queue == [] && c.active == 0 && c.wchan == map[] && !c.freeWanted
  }

  /** Process 1 has been given buffer 0 for the first block. */
  ghost predicate StageA(s: State, z: Zone, d: int, n: int) {
    && Quiet(s.pool) && s.zone == z && |s.owner| == NBUF && s.pool.disk == Ones()
    && s.tasks == map[1 := Task(d, n, Have(0, ForGetblk))]
    && s.pool.chain == [0] && s.pool.avail == Rest() && s.pool.buf[0] == Taken(d, n) && s.pool.buf[1] == Blank(false)
  }

  lemma Called(z: Zone, d: int, n: int) returns (s: State)
    requires IsZone(z) && Used(z, d, n)
    ensures s == After(z, Ones(), [CallGetblk(1, d, n)]) && PoolInv(s.pool) && Shape(s)
    ensures s.pool == Initial(Ones()) && s.zone == z
    ensures s.tasks == map[1 := Task(d, n, Getting(n, ForGetblk))]
  {
    var disk, e := Ones(), CallGetblk(1, d, n);
    Next(z, disk, [], e);
    assert [] + [e] == [e];
    RunInv(z, disk, [e]);
    s := After(z, disk, [e]);
  }

  lemma CalledRuns(z: Zone, d: int, n: int, s: State) returns (t: State)
    requires IsZone(z) && s == After(z, Ones(), [CallGetblk(1, d, n)]) && Shape(s) && 1 in s.tasks
        && s.pool.wchan == map[]
    ensures t == After(z, Ones(), [CallGetblk(1, d, n)] + [Run(1)]) && t == RunStep(s, 1)
  {
    Next(z, Ones(), [CallGetblk(1, d, n)], Run(1));
    t := RunStep(s, 1);
  }

  lemma ReachA(z: Zone, d: int, n: int)
    requires IsZone(z) && Used(z, d, n)
    ensures StageA(After(z, Ones(), [CallGetblk(1, d, n), Run(1)]), z, d, n)
  {
    var s := Called(z, d, n);
    assert [CallGetblk(1, d, n)] + [Run(1)] == [CallGetblk(1, d, n), Run(1)];
    var t := CalledRuns(z, d, n, s);
    FirstTurn(s, d, n);
    FirstTaken(s, z, d, n, t);
  }

  /** getblk finds nothing and takes the oldest buffer. */
  lemma FirstTurn(s: State, d: int, n: int)
    requires PoolInv(s.pool) && Shape(s) && s.pool == Initial(Ones())
        && s.tasks == map[1 := Task(d, n, Getting(n, ForGetblk))]
    ensures RunStep(s, 1) == SetOwner(SetTask(s.(pool := Reassign(Notavail(s.pool, 0), 0, d, n)), 1,
        Have(0, ForGetblk)), 0, Proc(1))
  {
    RunGettingCases(s, 1);
    assert Found(s, 1).None? && s.pool.avail[0] == 0;
  }

  lemma FirstTaken(s: State, z: Zone, d: int, n: int, t: State)
    requires s.pool == Initial(Ones()) && NoDup(s.pool.avail) && |s.owner| == NBUF && s.zone == z && 0 <= d
    requires s.tasks == map[1 := Task(d, n, Getting(n, ForGetblk))]
    requires t == SetOwner(SetTask(s.(pool := Reassign(Notavail(s.pool, 0), 0, d, n)), 1, Have(0, ForGetblk)), 0,
        Proc(1))
    ensures StageA(t, z, d, n)
  {
    FirstPool(s.pool, d, n);
  }

  lemma FirstPool(c: Pool, d: int, n: int)
    requires c == Initial(Ones()) && NoDup(c.avail) && 0 <= d
    ensures var r := Reassign(Notavail(c, 0), 0, d, n);
            Quiet(r) && r.disk == Ones() && r.chain == [0] && r.avail == Rest() && r.buf[0] == Taken(d, n)
                && r.buf[1] == Blank(false)
  {
    WithoutAt(c.avail, 0);
    assert c.avail[..0] + c.avail[1..] == Rest();
    assert c.chain == [] && Moved([], 0, true) == [0];
  }

  /** The client writes buffer 0 as it is, all zeros, and the driver has it. */
  ghost predicate StageB(s: State, z: Zone, d: int, n: int) {
    && |s.pool.buf| == NBUF && s.pool.queue == [0] && s.pool.active == 1 && s.pool.wchan == map[] && !s.pool.freeWanted
    && s.zone == z && |s.owner| == NBUF && s.pool.disk == Ones() && s.tasks == map[]
    && s.pool.chain == [0] && s.pool.avail == Rest() && s.pool.buf[1] == Blank(false)
    && s.pool.buf[0] == Taken(d, n).(async := true)
  }

  lemma ReachB(z: Zone, es: seq<Event>, d: int, n: int)
    requires IsZone(z) && Used(z, d, n) && StageA(After(z, Ones(), es), z, d, n)
    ensures StageB(After(z, Ones(), es + [Run(1)] + [WriteAsync(0)]), z, d, n)
    ensures forall d', n' :: !HasKey(Taken(d, n), d', n') ==>
      LastWritten(z, Ones(), es + [Run(1)] + [WriteAsync(0)], d', n') == LastWritten(z, Ones(), es, d', n')
  {
    var disk := Ones();
    Next(z, disk, es, Run(1));
    var fs := es + [Run(1)];
    Next(z, disk, fs, WriteAsync(0));
    assert fs[..|fs|-1] == es;
    var gs := fs + [WriteAsync(0)];
    assert gs[..|gs|-1] == fs;
  }

  /** The write has reached the sector. */
  ghost predicate StageC(s: State, z: Zone, d: int, n: int) {
    && Quiet(s.pool) && s.zone == z && |s.owner| == NBUF && s.tasks == map[]
    && |s.pool.disk| == NSECTOR && s.pool.disk[Sector(d, n)] == Contents(Blank(false))
    && s.pool.chain == [0] && s.pool.avail == Rest() + [0] && s.pool.buf[1] == Blank(false)
    && s.pool.buf[0].dev == d && s.pool.buf[0].blkno == n
  }

  /** An event that is no write changes no block's record. */
  lemma NoWrite(z: Zone, disk: seq<seq<int>>, es: seq<Event>, e: Event)
    requires GoodDisk(disk) && Writes(e).None?
    ensures forall d, n :: LastWritten(z, disk, es + [e], d, n) == LastWritten(z, disk, es, d, n)
  {
    assert (es + [e])[..|es|] == es;
  }

  lemma ReachC(z: Zone, es: seq<Event>, d: int, n: int)
    requires IsZone(z) && Used(z, d, n) && StageB(After(z, Ones(), es), z, d, n)
    ensures StageC(After(z, Ones(), es + [Intr]), z, d, n)
  {
    Next(z, Ones(), es, Intr);
    assert Wakeup(map[], OnFree) == map[];
  }

  /** Process 2 asks for the second block. */
  ghost predicate StageCalled(s: State, z: Zone, d: int, n: int, d': int, n': int) {
    StageC(s.(tasks := map[]), z, d, n) && s.tasks == map[2 := Task(d', n', Getting(n', ForBread))]
  }

  lemma ReachCalled(z: Zone, es: seq<Event>, d: int, n: int, d': int, n': int)
    requires IsZone(z) && Used(z, d', n') && StageC(After(z, Ones(), es), z, d, n)
    ensures StageCalled(After(z, Ones(), es + [CallBread(2, d', n')]), z, d, n, d', n')
  {
    Next(z, Ones(), es, CallBread(2, d', n'));
  }

  /** Process 2 has been given buffer 1 to read it into. */
  ghost predicate StageD(s: State, z: Zone, k: int, d: int, n: int) {
    && Quiet(s.pool) && s.zone == z && |s.owner| == NBUF
    && s.tasks == map[2 := Task(d, n, Have(1, ForBread))]
    && 0 <= k < |s.pool.disk| == NSECTOR && s.pool.disk[k] == Contents(Blank(false)) && s.pool.buf[1] == Taken(d, n)
  }

  lemma ReachD(z: Zone, es: seq<Event>, d: int, n: int, d': int, n': int)
    requires IsZone(z) && Used(z, d', n') && (d, n) != (d', n') && StageCalled(After(z, Ones(), es), z, d, n, d', n')
    ensures StageD(After(z, Ones(), es + [Run(2)]), z, Sector(d, n), d', n')
  {
    var s := After(z, Ones(), es);
    RunInv(z, Ones(), es);
    Next(z, Ones(), es, Run(2));
    RunGettingCases(s, 2);
    NotFound(s.pool, d', n');
    assert s.pool.avail[0] == 1;
  }

  lemma NotFound(c: Pool, d: int, n: int)
    requires |c.buf| == NBUF && c.chain == [0] && !HasKey(c.buf[0], d, n)
    ensures Incore(c, c.chain, d, n).None?
  {
    assert c.chain[1..] == [];
  }

  /** The read has been started. */
  ghost predicate StageE(s: State, z: Zone, k: int, d: int, n: int) {
    && |s.pool.buf| == NBUF && s.pool.queue == [1] && s.pool.active == 1 && s.pool.wchan == map[]
    && s.zone == z && |s.owner| == NBUF && s.tasks == map[2 := Task(d, n, IoWait(1, false))]
    && 0 <= k < |s.pool.disk| == NSECTOR && s.pool.disk[k] == Contents(Blank(false))
         && s.pool.buf[1] == Taken(d, n).(read := true)
  }

  lemma ReachE(z: Zone, es: seq<Event>, k: int, d: int, n: int)
    requires IsZone(z) && 0 <= k < NSECTOR && StageD(After(z, Ones(), es), z, k, d, n)
    ensures StageE(After(z, Ones(), es + [Run(2)]), z, k, d, n)
  {
    Next(z, Ones(), es, Run(2));
  }

  /** The read is over and brings what was written to the other block. */
  lemma ReachEnd(z: Zone, es: seq<Event>, k: int, d: int, n: int)
    requires IsZone(z) && k == Sector(d, n) && StageE(After(z, Ones(), es), z, k, d, n)
    ensures var s := After(z, Ones(), es + [Intr]);
            && Returning(s, 2, 1) && s.tasks[2].dev == d && s.tasks[2].blkno == n
            && Contents(s.pool.buf[1]) == Contents(Blank(false))
  {
    Next(z, Ones(), es, Intr);
    RunInv(z, Ones(), es + [Intr]);
  }

  /** The run: a client writes the first block, and the second is read. */
  function ClashRun(d: int, n: int, d': int, n': int): seq<Event> {
    [CallGetblk(1, d, n)] + [Run(1)] + [Run(1)] + [WriteAsync(0)] + [Intr] + [CallBread(2, d', n')] + [Run(2)]
        + [Run(2)] + [Intr]
  }

  /** Nothing in it is a write of the second block. */
  lemma NotWritten(z: Zone, d: int, n: int, d': int, n': int)
    requires IsZone(z) && Used(z, d, n) && (d, n) != (d', n')
    ensures LastWritten(z, Ones(), ClashRun(d, n, d', n'), d', n') == Ones()[Sector(d', n')]
  {
    var disk := Ones();
    var e1 := [CallGetblk(1, d, n)];
    var e2 := e1 + [Run(1)];
    var e4 := e2 + [Run(1)] + [WriteAsync(0)];
    assert [] + e1 == e1 && e2 == [CallGetblk(1, d, n), Run(1)];
    NoWrite(z, disk, [], CallGetblk(1, d, n));
    NoWrite(z, disk, e1, Run(1));
    ReachA(z, d, n);
    ReachB(z, e2, d, n);
    NoWrite(z, disk, e4, Intr);
    NoWrite(z, disk, e4 + [Intr], CallBread(2, d', n'));
    NoWrite(z, disk, e4 + [Intr] + [CallBread(2, d', n')], Run(2));
    NoWrite(z, disk, e4 + [Intr] + [CallBread(2, d', n')] + [Run(2)], Run(2));
    NoWrite(z, disk, e4 + [Intr] + [CallBread(2, d', n')] + [Run(2)] + [Run(2)], Intr);
  }

  /** At the end of the run process 2 returns with the zeros that process 1 wrote. */
  lemma RunEnds(z: Zone, d: int, n: int, d': int, n': int)
    requires IsZone(z) && Used(z, d, n) && Used(z, d', n') && (d, n) != (d', n') && Sector(d, n) == Sector(d', n')
    ensures var s := After(z, Ones(), ClashRun(d, n, d', n'));
            Returning(s, 2, 1) && s.tasks[2].dev == d' && s.tasks[2].blkno == n'
                && Contents(s.pool.buf[1]) == Contents(Blank(false))
  {
    var k, e2 := Sector(d, n), [CallGetblk(1, d, n)] + [Run(1)];
    var e4 := e2 + [Run(1)] + [WriteAsync(0)];
    assert e2 == [CallGetblk(1, d, n), Run(1)];
    ReachA(z, d, n);
    ReachB(z, e2, d, n);
    ReachC(z, e4, d, n);
    ReachCalled(z, e4 + [Intr], d, n, d', n');
    ReachD(z, e4 + [Intr] + [CallBread(2, d', n')], d, n, d', n');
    ReachE(z, e4 + [Intr] + [CallBread(2, d', n')] + [Run(2)], k, d', n');
    ReachEnd(z, e4 + [Intr] + [CallBread(2, d', n')] + [Run(2)] + [Run(2)], k, d', n');
  }

  /** A block written through one drive comes back when another is read. */
  lemma SharedSector(z: Zone, d: int, n: int, d': int, n': int)
    requires IsZone(z) && Used(z, d, n) && Used(z, d', n') && (d, n) != (d', n') && Sector(d, n) == Sector(d', n')
    ensures Returning(After(z, Ones(), ClashRun(d, n, d', n')), 2, 1) && !Right(z, Ones(), ClashRun(d, n, d', n'), 2, 1)
  {
    RunEnds(z, d, n, d', n');
    NotWritten(z, d, n, d', n');
    assert Ones()[Sector(d, n)][0] == 1 && Contents(Blank(false))[0] == 0;
  }

  /** Cache coherence, exactly: for any set of blocks that the driver admits, every read of every run is right if and
      only if no two blocks in use share a sector. */
  lemma CoherentIffApart(z: Zone)
    requires IsZone(z)
    ensures AlwaysCoherent(z) <==> Apart(z)
  {
    if Apart(z) {
      forall disk, es, p, b | GoodDisk(disk) && Returning(After(z, disk, es), p, b)
        ensures Right(z, disk, es, p, b)
      {
        ApartIsRight(z, disk, es, p, b);
      }
    } else {
      var d, n, d', n' :| Used(z, d, n) && Used(z, d', n') && Sector(d, n) == Sector(d', n') && !(d == d' && n == n');
      SharedSector(z, d, n, d', n');
    }
  }
}
