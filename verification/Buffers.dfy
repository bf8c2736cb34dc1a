/** The buffer pool as plain values: sequences instead of linked lists.  One function
    per routine of dmr/bio.c and dmr/rk.c; BufferCache refines these with real links. */
module Buffers {
  import opened Options
  import opened Rings

  const NBUF := 15          // h/param.h
  const NRKBLK := 4872      // dmr/rk.c
  const NSECTOR := 65536    // the driver hands the controller sixteen bits of sector number
  const WORDS := 256        // words in a block
  const AREA := 257         // words in a buffer area: buffers[NBUF][514]
  const NODEV := -1

  /** What a process sleeps on. */
  datatype Chan = OnBuf(b: int) | OnFree

  /** A buffer header; the flag bits are spelled out, `mem` is the area at b_addr. */
  datatype Buf = Buf(read: bool, done: bool, busy: bool, wanted: bool, async: bool, delwri: bool,
                     dev: int, blkno: int, mem: seq<int>)

  /** `avail` is the available list, `chain` rktab's association list, `loose` the one headed by
      bfreelist, `queue` the driver's queue; `wchan` records who sleeps on what. */
  datatype Pool = Pool(buf: seq<Buf>, freeWanted: bool, avail: seq<int>, chain: seq<int>, loose: seq<int>,
                       queue: seq<int>, active: int, disk: seq<seq<int>>, wchan: map<int, Chan>)

  predicate IsBuf(b: int) { 0 <= b < NBUF }

  /* ---------------------------------------------------------------- drives and sectors */

  /** How many blocks rkstrategy admits on a drive: NRKBLK times d, as a signed word. */
  function Limit(dev: int): (n: int)
    ensures n < 32768
  {
    var w := NRKBLK * (if dev - 7 <= 0 then 1 else dev - 7) % NSECTOR;
    if w < 32768 then w else w - NSECTOR
  }

  /** Where devstart sends a block: blkno + NRKBLK*minor in sixteen bits. */
  function Sector(dev: int, blkno: int): (k: int)
    ensures 0 <= k < NSECTOR
  {
    (blkno + NRKBLK * (dev % 256)) % NSECTOR
  }

  /** The blocks in use, by minor device and block number. */
  type Zone = set<(int, int)>

  /** The test of rkstrategy, on signed words: it admits every negative block number. */
  predicate Admits(dev: int, blkno: int) { 0 <= dev < 256 && -32768 <= blkno < Limit(dev) }

  ghost predicate IsZone(z: Zone) { forall dev, blkno :: Used(z, dev, blkno) ==> Admits(dev, blkno) }

  predicate Used(z: Zone, dev: int, blkno: int) { (dev, blkno) in z }

  /** No two blocks in use share a sector. */
  ghost predicate Apart(z: Zone) {
    forall dev, blkno, dev', blkno' ::
      Used(z, dev, blkno) && Used(z, dev', blkno') && Sector(dev, blkno) == Sector(dev', blkno') ==>
          dev == dev' && blkno == blkno'
  }

  /** Which blocks share a sector: those as far apart, in sixteen bits, as their drives. */
  lemma SectorClash(dev: int, blkno: int, dev': int, blkno': int)
    requires 0 <= dev < 256 && 0 <= dev' < 256
    ensures Sector(dev, blkno) == Sector(dev', blkno') <==> (blkno - blkno' - NRKBLK * (dev' - dev)) % NSECTOR == 0
  {
    var x, y := blkno + NRKBLK * dev, blkno' + NRKBLK * dev';
    SameSector(x, y);
    assert x - y == blkno - blkno' - NRKBLK * (dev' - dev);
  }

  lemma SameSector(x: int, y: int)
    ensures x % NSECTOR == y % NSECTOR <==> (x - y) % NSECTOR == 0
  {
    var p, q := x / NSECTOR, y / NSECTOR;
    assert x == NSECTOR * p + x % NSECTOR && y == NSECTOR * q + y % NSECTOR;
  }

  /** Numbers less than a full turn apart that agree in sixteen bits. */
  lemma WithinTurn(x: int, y: int)
    requires -NSECTOR < x - y < NSECTOR
    ensures x % NSECTOR == y % NSECTOR <==> x == y
  {
    SameSector(x, y);
  }

  /* ---------------------------------------------------------------- drives used from one block up to another */

  /** Blocks lo to hi-1. */
  datatype Span = Span(lo: int, hi: int) {
    function Len(): int { hi - lo }
  }

  /** Spans of blocks that the driver admits, by minor device number. */
  ghost predicate IsLayout(ds: seq<Span>) {
    |ds| <= 256 && forall m :: 0 <= m < |ds| ==> -32768 <= ds[m].lo && ds[m].hi <= Limit(m)
  }

  predicate Within(ds: seq<Span>, dev: int, blkno: int) { 0 <= dev < |ds| && ds[dev].lo <= blkno < ds[dev].hi }

  function BlocksOf(ds: seq<Span>): (z: Zone)
    ensures IsLayout(ds) ==> IsZone(z) && forall dev, blkno :: Used(z, dev, blkno) <==> Within(ds, dev, blkno)
  {
    set dev, blkno | 0 <= dev < |ds| && -32768 <= blkno < 32768 && Within(ds, dev, blkno) :: (dev, blkno)
  }

  /** From the first sector in use of one drive up to the first of another, going round. */
  function Gap(ds: seq<Span>, m: int, m': int): (g: int)
    requires 0 <= m < |ds| && 0 <= m' < |ds|
    ensures 0 <= g < NSECTOR
  {
    (Sector(m', ds[m'].lo) - Sector(m, ds[m].lo)) % NSECTOR
  }

  /** No drive in use reaches the start of another. */
  ghost predicate SpansApart(ds: seq<Span>) {
    forall m, m' :: 0 <= m < |ds| && 0 <= m' < |ds| && m != m' && ds[m].Len() > 0 && ds[m'].Len() > 0 ==>
        ds[m].Len() <= Gap(ds, m, m')
  }

  /** How far into its drive a block lies beyond another of the same sector. */
  lemma ClashAhead(ds: seq<Span>, dev: int, blkno: int, dev': int, blkno': int)
    requires IsLayout(ds) && Within(ds, dev, blkno) && Within(ds, dev', blkno')
        && Sector(dev, blkno) == Sector(dev', blkno')
    requires blkno - ds[dev].lo >= blkno' - ds[dev'].lo
    ensures blkno - ds[dev].lo == Gap(ds, dev, dev') + (blkno' - ds[dev'].lo)
  {
    var a, x := ds[dev].lo + NRKBLK * dev, blkno - ds[dev].lo;
    var a', x' := ds[dev'].lo + NRKBLK * dev', blkno' - ds[dev'].lo;
    SpanLength(ds, dev);
    SectorFrom(dev, blkno, a + x);
    SectorFrom(dev', blkno', a' + x');
    AheadBy(a, x, a', x');
    GapIs(ds, dev, dev');
  }

  lemma SectorFrom(dev: int, blkno: int, v: int)
    requires 0 <= dev < 256 && v == blkno + NRKBLK * dev
    ensures Sector(dev, blkno) == v % NSECTOR
  {
  }

  lemma SpanLength(ds: seq<Span>, m: int)
    requires IsLayout(ds) && 0 <= m < |ds|
    ensures ds[m].Len() < NSECTOR
  {
  }

  lemma AheadBy(a: int, x: int, a': int, x': int)
    requires 0 <= x - x' < NSECTOR && (a + x) % NSECTOR == (a' + x') % NSECTOR
    ensures x == (a' - a) % NSECTOR + x'
  {
    SameSector(a + x, a' + x');
    SameSector(x - x', a' - a);
    assert (a + x) - (a' + x') == (x - x') - (a' - a);
  }

  lemma GapIs(ds: seq<Span>, m: int, m': int)
    requires 0 <= m < |ds| <= 256 && 0 <= m' < |ds|
    ensures Gap(ds, m, m') == ((ds[m'].lo + NRKBLK * m') - (ds[m].lo + NRKBLK * m)) % NSECTOR
  {
    ModMinus(ds[m'].lo + NRKBLK * m', ds[m].lo + NRKBLK * m);
  }

  lemma ModMinus(x: int, y: int)
    ensures (x % NSECTOR - y % NSECTOR) % NSECTOR == (x - y) % NSECTOR
  {
    var p, q := x / NSECTOR, y / NSECTOR;
    assert x == NSECTOR * p + x % NSECTOR && y == NSECTOR * q + y % NSECTOR;
    SameSector(x % NSECTOR - y % NSECTOR, x - y);
    Turns(x % NSECTOR - y % NSECTOR - (x - y), q - p);
  }

  lemma Turns(x: int, k: int)
    requires x == NSECTOR * k
    ensures x % NSECTOR == 0
  {
  }

  /** A drive that reaches the start of another shares its first block. */
  lemma ReachesStart(ds: seq<Span>, m: int, m': int)
    requires IsLayout(ds) && 0 <= m < |ds| && 0 <= m' < |ds| && ds[m].Len() > Gap(ds, m, m') && ds[m'].Len() > 0
    ensures Used(BlocksOf(ds), m, ds[m].lo + Gap(ds, m, m')) && Used(BlocksOf(ds), m', ds[m'].lo)
    ensures Sector(m, ds[m].lo + Gap(ds, m, m')) == Sector(m', ds[m'].lo)
  {
    var x, y, g := ds[m].lo + NRKBLK * m, ds[m'].lo + NRKBLK * m', Gap(ds, m, m');
    GapIs(ds, m, m');
    Ahead(x, y);
    SectorFrom(m, ds[m].lo + g, x + g);
    SectorFrom(m', ds[m'].lo, y);
    ReachesBlocks(ds, m, g);
    ReachesBlocks(ds, m', 0);
  }

  lemma ReachesBlocks(ds: seq<Span>, m: int, g: int)
    requires IsLayout(ds) && 0 <= m < |ds| && 0 <= g < ds[m].Len()
    ensures Used(BlocksOf(ds), m, ds[m].lo + g)
  {
    assert Within(ds, m, ds[m].lo + g);
  }

  lemma Ahead(x: int, y: int)
    ensures (x + (y - x) % NSECTOR) % NSECTOR == y % NSECTOR
  {
    var q, g := (y - x) / NSECTOR, (y - x) % NSECTOR;
    assert y - x == NSECTOR * q + g;
    Turns(x + g - y, -q);
    SameSector(x + g, y);
  }

  /** Drives used in spans: no two blocks share a sector if and only if no drive reaches the start of another. */
  lemma ApartIffSpans(ds: seq<Span>)
    requires IsLayout(ds)
    ensures Apart(BlocksOf(ds)) <==> SpansApart(ds)
  {
    var z := BlocksOf(ds);
    if SpansApart(ds) {
      forall dev, blkno, dev', blkno' | Used(z, dev, blkno) && Used(z, dev', blkno')
          && Sector(dev, blkno) == Sector(dev', blkno')
        ensures dev == dev' && blkno == blkno'
      {
        if blkno - ds[dev].lo >= blkno' - ds[dev'].lo {
          ClashAhead(ds, dev, blkno, dev', blkno');
        } else {
          ClashAhead(ds, dev', blkno', dev, blkno);
        }
      }
    }
    if Apart(z) {
      forall m, m' | 0 <= m < |ds| && 0 <= m' < |ds| && m != m' && ds[m].Len() > 0 && ds[m'].Len() > 0
        ensures ds[m].Len() <= Gap(ds, m, m')
      {
        if ds[m].Len() > Gap(ds, m, m') {
          ReachesStart(ds, m, m');
        }
      }
    }
  }

  /** Two drives used in all that the driver admits of them overlap: their spans add up to more than a full turn. */
  lemma TwoDrivesClash(ds: seq<Span>, m: int, m': int)
    requires IsLayout(ds) && 0 <= m < |ds| && 0 <= m' < |ds| && m != m' && Limit(m) > 0 && Limit(m') > 0
    requires ds[m] == Span(-32768, Limit(m)) && ds[m'] == Span(-32768, Limit(m'))
    ensures !Apart(BlocksOf(ds))
  {
    ApartIffSpans(ds);
    GapIs(ds, m, m');
    GapIs(ds, m', m);
    Round((ds[m'].lo + NRKBLK * m') - (ds[m].lo + NRKBLK * m));
  }

  lemma Round(k: int)
    ensures k % NSECTOR + -k % NSECTOR <= NSECTOR
  {
    var q := k / NSECTOR;
    assert k == NSECTOR * q + k % NSECTOR;
    SameSector(-k, NSECTOR - k % NSECTOR);
    Turns(-k - (NSECTOR - k % NSECTOR), -q - 1);
  }

  /** All blocks from 0 on that the driver admits, on minors 0 to n-1. */
  function FromZero(n: nat): (ds: seq<Span>)
    requires n <= 256
    ensures IsLayout(ds) && |ds| == n && forall m :: 0 <= m < n ==> ds[m] == Span(0, Limit(m))
  {
    seq(n, m => Span(0, Limit(m)))
  }

  /** Block numbers from 0 on: all that is admitted on minors 0 to 9 lies apart, and so do the first NRKBLK blocks of
      minors 0 to 12. */
  lemma ApartDrives()
    ensures Apart(BlocksOf(FromZero(10)))
    ensures IsLayout(seq(13, m => Span(0, NRKBLK))) && Apart(BlocksOf(seq(13, m => Span(0, NRKBLK))))
  {
    var ds, ds' := FromZero(10), seq(13, m => Span(0, NRKBLK));
    assert forall m :: 0 <= m < 9 ==> Limit(m) == NRKBLK;
    assert Limit(9) == 2 * NRKBLK;
    forall m, m' | 0 <= m < 10 && 0 <= m' < 10 && m != m'
      ensures ds[m].Len() <= Gap(ds, m, m')
    {
      GapBetween(ds, m, m');
    }
    ApartIffSpans(ds);
    forall m, m' | 0 <= m < 13 && 0 <= m' < 13 && m != m'
      ensures ds'[m].Len() <= Gap(ds', m, m')
    {
      GapBetween(ds', m, m');
    }
    LimitsGrow();
    ApartIffSpans(ds');
  }

  lemma LimitsGrow()
    ensures forall m :: 0 <= m < 13 ==> NRKBLK <= Limit(m)
  {
  }

  lemma GapBetween(ds: seq<Span>, m: int, m': int)
    requires 0 <= m < |ds| <= 13 && 0 <= m' < |ds| && m != m' && ds[m].lo == ds[m'].lo == 0
    ensures NRKBLK <= Gap(ds, m, m') && (m == 9 && m' < 9 ==> 2 * NRKBLK <= Gap(ds, m, m'))
  {
    GapIs(ds, m, m');
    OneTurn(NRKBLK * m' - NRKBLK * m);
  }

  lemma OneTurn(v: int)
    requires -NSECTOR < v < NSECTOR
    ensures v % NSECTOR == if v < 0 then v + NSECTOR else v
  {
    WithinTurn(if v < 0 then v + NSECTOR else v, v % NSECTOR);
  }

  /** Admitted blocks that share a sector: a drive runs into the next one, numbers wrap around to drive 0, and negative
      numbers reach back into the drive before. */
  lemma AdmittedClash()
    ensures Admits(9, NRKBLK) && Admits(10, 0) && Sector(9, NRKBLK) == Sector(10, 0)
    ensures Admits(11, 11944) && Admits(0, 0) && Sector(11, 11944) == Sector(0, 0)
    ensures Admits(1, -NRKBLK) && Sector(1, -NRKBLK) == Sector(0, 0)
  {
    assert Limit(9) == 9744 && Limit(10) == 14616 && Limit(11) == 19488 && Limit(0) == Limit(1) == 4872;
  }

  function Contents(f: Buf): seq<int>
    requires |f.mem| == AREA
  {
    f.mem[..WORDS]
  }

  function KeySector(f: Buf): (k: int)
    ensures 0 <= k < NSECTOR
  {
    Sector(f.dev, f.blkno)
  }

  /** wakeup: everyone asleep on the channel becomes runnable. */
  function Wakeup(w: map<int, Chan>, ch: Chan): map<int, Chan> {
    map p | p in w && w[p] != ch :: w[p]
  }

  function SetBuf(c: Pool, b: int, f: Buf): Pool
    requires 0 <= b < |c.buf|
  {
    c.(buf := c.buf[b := f])
  }

  function Notavail(c: Pool, b: int): Pool
    requires 0 <= b < |c.buf|
  {
    SetBuf(c, b, c.buf[b].(busy := true)).(avail := Without(c.avail, b))
  }

  function Brelse(c: Pool, b: int): Pool
    requires 0 <= b < |c.buf|
  {
    var w := if c.buf[b].wanted then Wakeup(c.wchan, OnBuf(b)) else c.wchan;
    var w' := if c.freeWanted then Wakeup(w, OnFree) else w;
    SetBuf(c, b, c.buf[b].(wanted := false, busy := false, async := false))
      .(avail := c.avail + [b], freeWanted := false, wchan := w')
  }

  /** rkstrategy: join the queue, start the device when it is idle. */
  function Strategy(c: Pool, b: int): Pool {
    c.(queue := c.queue + [b], active := if c.active == 0 then 1 else c.active)
  }

  function Iodone(c: Pool, b: int): Pool
    requires 0 <= b < |c.buf|
  {
    var f := c.buf[b].(done := true);
    if f.async then Brelse(SetBuf(c, b, f), b)
    else SetBuf(c, b, f.(wanted := false)).(wchan := Wakeup(c.wchan, OnBuf(b)))
  }

  /** The disk transfer of one block, in the direction the flags say. */
  function Transfer(c: Pool, b: int): Pool
    requires 0 <= b < |c.buf| && |c.buf[b].mem| == AREA && |c.disk| == NSECTOR
  {
    var f := c.buf[b];
    if f.read then SetBuf(c, b, f.(mem := c.disk[KeySector(f)] + f.mem[WORDS..]))
    else c.(disk := c.disk[KeySector(f) := Contents(f)])
  }

  ghost predicate Ready(c: Pool) {
    && |c.buf| == NBUF && |c.disk| == NSECTOR
    && (forall b :: IsBuf(b) ==> |c.buf[b].mem| == AREA)
    && (forall k :: 0 <= k < NSECTOR ==> |c.disk[k]| == WORDS)
  }

  /** The transfer at the head of the queue is over: off the queue, contents settled, iodone called. */
  function Completed(c: Pool): Pool
    requires Ready(c) && c.queue != [] && IsBuf(c.queue[0])
  {
    Iodone(Transfer(c, c.queue[0]).(active := 0, queue := c.queue[1..]), c.queue[0])
  }

  /** One disk interrupt: the transfer at the head of the queue completes. */
  function Rkintr(c: Pool): Pool
    requires Ready(c)
    requires c.active != 0 ==> c.queue != [] && IsBuf(c.queue[0])
  {
    if c.active == 0 then c else
    var d := Completed(c);
    if d.queue == [] then d else d.(active := 1)
  }

  /** bwrite up to and including the strategy call. */
  function StartWrite(c: Pool, b: int): Pool
    requires 0 <= b < |c.buf|
  {
    Strategy(SetBuf(c, b, c.buf[b].(read := false, done := false, delwri := false)), b)
  }

  function StartRead(c: Pool, b: int, async: bool): Pool
    requires 0 <= b < |c.buf|
  {
    Strategy(SetBuf(c, b, c.buf[b].(read := true, async := c.buf[b].async || async)), b)
  }

  function Bawrite(c: Pool, b: int): Pool
    requires 0 <= b < |c.buf|
  {
    StartWrite(SetBuf(c, b, c.buf[b].(async := true)), b)
  }

  function Bdwrite(c: Pool, b: int): Pool
    requires 0 <= b < |c.buf|
  {
    Brelse(SetBuf(c, b, c.buf[b].(delwri := true, done := true)), b)
  }

  predicate HasKey(f: Buf, dev: int, blkno: int) { f.blkno == blkno && f.dev == dev }

  /** incore: first buffer of the chain with this key. */
  function Incore(c: Pool, s: seq<int>, dev: int, blkno: int): (r: Option<int>)
    requires forall i :: 0 <= i < |s| ==> 0 <= s[i] < |c.buf|
    ensures r.Some? ==> r.value in s && HasKey(c.buf[r.value], dev, blkno)
    ensures r.None? ==> forall b :: b in s ==> !HasKey(c.buf[b], dev, blkno)
  {
    if s == [] then None
    else if HasKey(c.buf[s[0]], dev, blkno) then Some(s[0])
    else Incore(c, s[1..], dev, blkno)
  }

  /** A chain after buffer b has left it, or come to its front. */
  function Moved(s: seq<int>, b: int, here: bool): seq<int> {
    if here then [b] + Without(s, b) else Without(s, b)
  }

  /** Getblk takes the oldest clean buffer away from its old block. */
  function Reassign(c: Pool, b: int, dev: int, blkno: int): Pool
    requires 0 <= b < |c.buf|
  {
    var f := c.buf[b].(read := false, done := false, busy := true, wanted := false, async := false, delwri := false,
                       dev := dev, blkno := blkno);
    SetBuf(c, b, f).(chain := Moved(c.chain, b, dev >= 0), loose := Moved(c.loose, b, dev < 0))
  }

  datatype Outcome = Got(b: int) | Slept | Retry

  ghost predicate Sane(c: Pool) {
    && Ready(c)
    && (forall i :: 0 <= i < |c.avail| ==> IsBuf(c.avail[i]))
    && (forall i :: 0 <= i < |c.chain| ==> IsBuf(c.chain[i]))
  }

  /** getblk when the block is in no buffer: take the oldest available one, or write it out first. */
  function OldestPass(c: Pool, p: int, dev: int, blkno: int): (r: (Pool, Outcome))
    requires Sane(c)
    ensures r.1.Got? ==> IsBuf(r.1.b)
  {
    if c.avail == [] then
      (c.(freeWanted := true, wchan := c.wchan[p := OnFree]), Slept)
    else
      var b := c.avail[0];
      var t := Notavail(c, b);
      if t.buf[b].delwri then (Bawrite(t, b), Retry)
      else (Reassign(t, b, dev, blkno), Got(b))
  }

  /** One pass of getblk from `loop:` to its return, its sleep, or its `goto loop`. */
  function GetblkPass(c: Pool, p: int, dev: int, blkno: int): (r: (Pool, Outcome))
    requires Sane(c)
    ensures r.1.Got? ==> IsBuf(r.1.b)
  {
    var found := if dev < 0 then None else Incore(c, c.chain, dev, blkno);
    if found.Some? then
      var b := found.value;
      if c.buf[b].busy then
        (SetBuf(c, b, c.buf[b].(wanted := true)).(wchan := c.wchan[p := OnBuf(b)]), Slept)
      else (Notavail(c, b), Got(b))
    else OldestPass(c, p, dev, blkno)
  }

  predicate FlushMatch(c: Pool, b: int, dev: int)
    requires 0 <= b < |c.buf|
  {
    c.buf[b].delwri && (dev == NODEV || dev == c.buf[b].dev)
  }

  /** The first available buffer that bflush(dev) must write. */
  function FirstFlush(c: Pool, s: seq<int>, dev: int): (r: Option<int>)
    requires forall i :: 0 <= i < |s| ==> 0 <= s[i] < |c.buf|
    ensures r.Some? ==> r.value in s && FlushMatch(c, r.value, dev)
    ensures r.None? ==> forall b :: b in s ==> !FlushMatch(c, b, dev)
  {
    if s == [] then None
    else if FlushMatch(c, s[0], dev) then Some(s[0])
    else FirstFlush(c, s[1..], dev)
  }

  /** One round of bflush's outer loop; None when the scan finds nothing more to write. */
  function FlushPass(c: Pool, dev: int): (r: Option<Pool>)
    requires Sane(c)
    ensures r.None? ==> forall b :: b in c.avail ==> !FlushMatch(c, b, dev)
  {
    var f := FirstFlush(c, c.avail, dev);
    if f.None? then None else Some(Bawrite(Notavail(c, f.value), f.value))
  }

  /** The available buffers that bflush(dev) has yet to write. */
  ghost function Pending(c: Pool, dev: int): set<int>
    requires |c.buf| == NBUF
  {
    set b | IsBuf(b) && b in c.avail && FlushMatch(c, b, dev)
  }

  /** What bflush needs of the driver: it runs exactly when it has work, and never holds a delayed write. */
  ghost predicate Driving(c: Pool) {
    && Ready(c)
    && c.active == (if c.queue == [] then 0 else 1)
    && NoDup(c.queue)
    && (forall i :: 0 <= i < |c.queue| ==> IsBuf(c.queue[i]) && !c.buf[c.queue[i]].delwri)
  }

  /** An interrupt touches the head of the queue and nothing else. */
  lemma RkintrOthers(c: Pool)
    requires Driving(c) && c.active != 0
    ensures var b, d := c.queue[0], Rkintr(c);
            && d.queue == c.queue[1..] && d.active == (if d.queue == [] then 0 else 1)
            && |d.buf| == NBUF && |d.disk| == NSECTOR
            && (forall x :: IsBuf(x) && x != b ==> d.buf[x] == c.buf[x])
            && !d.buf[b].delwri && |d.buf[b].mem| == AREA
            && (d.avail == c.avail || d.avail == c.avail + [b])
            && (forall k :: 0 <= k < NSECTOR ==> |d.disk[k]| == WORDS)
  {
    var d := Completed(c);
    assert Rkintr(c) == if d.queue == [] then d else d.(active := 1);
  }

  lemma RkintrDriving(c: Pool, dev: int)
    requires Driving(c)
    ensures Driving(Rkintr(c)) && Pending(Rkintr(c), dev) <= Pending(c, dev)
  {
    if c.active != 0 {
      RkintrOthers(c);
    }
  }

  /** A round of bflush writes one pending buffer and adds none. */
  lemma FlushShrinks(c: Pool, b: int, dev: int)
    requires Driving(c) && Sane(c) && NoDup(c.avail) && b in Pending(c, dev) && b !in c.queue
    ensures var d := Bawrite(Notavail(c, b), b); Driving(d) && Pending(d, dev) == Pending(c, dev) - {b}
  {
    var d := Bawrite(Notavail(c, b), b);
    WithoutMembers(c.avail, b);
    assert forall x :: IsBuf(x) && x != b ==> d.buf[x] == c.buf[x];
    assert d.queue == c.queue + [b];
  }

  ghost function IntrTimes(c: Pool, n: nat): Pool {
    if n == 0 then c else Interrupted(IntrTimes(c, n - 1))
  }

  ghost function Interrupted(c: Pool): Pool { if Driving(c) then Rkintr(c) else c }

  /** A run of bflush(dev): before each round some number of disk interrupts. */
  ghost function Replay(c: Pool, rounds: seq<nat>, dev: int): Pool {
    if rounds == [] then c else
    FlushRound(IntrTimes(Replay(c, rounds[..|rounds|-1], dev), rounds[|rounds|-1]), dev)
  }

  lemma ReplayNext(c: Pool, rounds: seq<nat>, n: nat, dev: int)
    ensures Replay(c, rounds + [n], dev) == FlushRound(IntrTimes(Replay(c, rounds, dev), n), dev)
  {
    assert (rounds + [n])[..|rounds|] == rounds;
  }

  ghost function FlushRound(c: Pool, dev: int): Pool {
    if Sane(c) && FlushPass(c, dev).Some? then FlushPass(c, dev).value else c
  }

  /** An unassociated buffer over a cleared area. */
  function Blank(busy: bool): Buf {
    Buf(false, false, busy, false, false, false, NODEV, 0, seq(AREA, j => 0))
  }

  /** What binit leaves: every buffer available, unassociated, nothing queued. */
  function Initial(disk: seq<seq<int>>): Pool {
    Pool(seq(NBUF, i => Blank(false)), false,
         seq(NBUF, i => i), [], seq(NBUF, i => NBUF - 1 - i), [], 0, disk, map[])
  }
}
