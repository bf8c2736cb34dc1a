/** The block store that the file layer works on, as the cache keeps it for the blocks of one drive. */
module BlockStore {
  import opened Options
  import opened FreeList
  import opened Buffers
  import opened CacheMachine
  import opened CacheTheorems
  import opened CacheExact

  /** A block written, and with what. */
  datatype Write = Write(b: int, words: seq<int>)

  /** A store after one write: what Volume.Bdwrite does to the store of a volume. */
  function Stored(store: Store, w: Write): (r: Store)
    requires 0 <= w.b < |store|
  {
    store[w.b := w.words]
  }

  ghost predicate InStore(ws: seq<Write>, n: nat) { forall i :: 0 <= i < |ws| ==> 0 <= ws[i].b < n }

  ghost function AllStored(store: Store, ws: seq<Write>): (r: Store)
    requires InStore(ws, |store|)
    ensures |r| == |store|
  {
    if ws == [] then store else Stored(AllStored(store, ws[..|ws|-1]), ws[|ws|-1])
  }

  /** The write that an event makes to blocks 0 to n-1 of a drive, by bwrite, bawrite or bdwrite. */
  ghost function WriteOf(s: State, e: Event, dev: int, n: nat): Option<Write> {
    if !Happens(s, e) || Writes(e).None? || !(0 <= Writes(e).value < |s.pool.buf|) then None else
    var f := s.pool.buf[Writes(e).value];
    if |f.mem| == AREA && f.dev == dev && 0 <= f.blkno < n then Some(Write(f.blkno, Contents(f))) else None
  }

  /** All writes of a run, in order. */
  ghost function WritesOf(z: Zone, disk: seq<seq<int>>, es: seq<Event>, dev: int, n: nat): (ws: seq<Write>)
    ensures InStore(ws, n)
  {
    if es == [] then [] else
    var pre, e := es[..|es|-1], es[|es|-1];
    var ws, w := WritesOf(z, disk, pre, dev, n), WriteOf(After(z, disk, pre), e, dev, n);
    if w.Some? then ws + [w.value] else ws
  }

  /** Blocks 0 to n-1 of a drive, as the disk had them at boot. */
  function AtBoot(disk: seq<seq<int>>, dev: int, n: nat): (r: Store)
    requires GoodDisk(disk)
    ensures |r| == n
  {
    seq(n, b => disk[Sector(dev, b)])
  }

  lemma WriteOfIs(s: State, e: Event, dev: int, n: nat, b: int)
    requires 0 <= b < n
    ensures var w := WriteOf(s, e, dev, n);
            && (WritesTo(s, e, dev, b) <==> w.Some? && w.value.b == b)
            && (WritesTo(s, e, dev, b) ==> w.value.words == Contents(s.pool.buf[Writes(e).value]))
  {
  }

  lemma StoredLast(store: Store, ws: seq<Write>, w: Write)
    requires InStore(ws, |store|) && 0 <= w.b < |store|
    ensures InStore(ws + [w], |store|) && AllStored(store, ws + [w]) == Stored(AllStored(store, ws), w)
  {
    var r := ws + [w];
    assert r[..|r|-1] == ws && r[|r|-1] == w;
  }

  /** The writes of a run, applied in order to what the disk had at boot, give each block as last written. */
  lemma {:induction false} WritesGive(z: Zone, disk: seq<seq<int>>, es: seq<Event>, dev: int, n: nat, b: int)
    requires GoodDisk(disk) && 0 <= b < n
    ensures AllStored(AtBoot(disk, dev, n), WritesOf(z, disk, es, dev, n))[b] == LastWritten(z, disk, es, dev, b)
  {
    if es != [] {
      var pre, e := es[..|es|-1], es[|es|-1];
      WritesGive(z, disk, pre, dev, n, b);
      var w, ws := WriteOf(After(z, disk, pre), e, dev, n), WritesOf(z, disk, pre, dev, n);
      if w.Some? { StoredLast(AtBoot(disk, dev, n), ws, w.value); }
      WriteOfIs(After(z, disk, pre), e, dev, n, b);
    }
  }

  /** The cache is the block store of each of its clients.  Whatever else goes on, on this drive or on others: the
      contents it keeps for blocks 0 to n-1 of a drive are those of a plain store to which the writes of those blocks
      have been applied in order, and a bread or breada of one of them gives what that store then has. */
  lemma CacheIsStore(z: Zone, disk: seq<seq<int>>, es: seq<Event>, dev: int, n: nat)
    requires GoodDisk(disk) && IsZone(z) && Apart(z) && forall b :: 0 <= b < n ==> Used(z, dev, b)
    ensures |LastReleased(z, disk, es)| == NSECTOR
    ensures var store := AllStored(AtBoot(disk, dev, n), WritesOf(z, disk, es, dev, n));
            && (forall b :: 0 <= b < n ==> LastReleased(z, disk, es)[Sector(dev, b)] == store[b])
            && (forall p, x {:trigger Returning(After(z, disk, es), p, x)} :: Returning(After(z, disk, es), p, x) ==>
                  var s := After(z, disk, es);
                  s.tasks[p].dev == dev && 0 <= s.tasks[p].blkno < n ==>
                      Contents(s.pool.buf[x]) == store[s.tasks[p].blkno])
  {
    RunInv(z, disk, es);
    forall b | 0 <= b < n
      ensures LastReleased(z, disk, es)[Sector(dev, b)]
          == AllStored(AtBoot(disk, dev, n), WritesOf(z, disk, es, dev, n))[b]
    {
      SectorIsBlock(z, disk, es, dev, b);
      WritesGive(z, disk, es, dev, n, b);
    }
    forall p, x | Returning(After(z, disk, es), p, x)
      ensures var s := After(z, disk, es);
              s.tasks[p].dev == dev && 0 <= s.tasks[p].blkno < n ==>
                Contents(s.pool.buf[x]) == LastReleased(z, disk, es)[Sector(dev, s.tasks[p].blkno)]
    {
      ReadsSeeLastWrite(z, disk, es, p, x);
    }
  }
}
