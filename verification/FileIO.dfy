/** readi and writei: a user transfer, block by block through bmap. */
module FileIO {
  import Longs
  import opened FreeList
  import opened FileTree
  import opened BlockMap
  import opened FileBytes
  import opened FileHoles
  import opened Volume

  /** The count is compared as a signed word. */
  const MAXCOUNT := Longs.MAXINT

  /** The transfer part of the user structure: the offset in two words, the count, and memory from base on. */
  class User {
    var offset0: int
    var offset1: int
    var count: int
    var base: int
    var area: seq<int>

    ghost predicate Valid()
      reads this
    {
      0 <= offset0 && 0 <= offset1 < 65536 && 0 <= count && 0 <= base && base + count <= |area|
    }

    function Offset(): int
      reads this
    {
      65536 * offset0 + offset1
    }

    /** The bytes still to move. */
    ghost function Rest(): seq<int>
      requires Valid()
      reads this
    {
      area[base..base+count]
    }

    /** One position further. */
    method Advance()
      requires Valid() && count > 0
      modifies this`offset0, this`offset1, this`count, this`base
      ensures Valid() && Offset() == old(Offset()) + 1 && count == old(count) - 1 && base == old(base) + 1
    {
      count := count - 1;
      offset1 := (offset1 + 1) % 65536;
      if offset1 == 0 {
        offset0 := offset0 + 1;
      }
      base := base + 1;
    }

    /** passc: a byte goes to the user; -1 on the last one. */
    method Passc(c: int) returns (r: int)
      requires Valid() && count > 0
      modifies this
      ensures Valid() && Offset() == old(Offset()) + 1 && count == old(count) - 1 && base == old(base) + 1
      ensures area == old(area)[old(base) := c] && r == if count == 0 then -1 else 0
    {
      area := area[base := c];
      Advance();
      r := if count == 0 then -1 else 0;
    }

    /** cpass: the user's next byte, -1 when there is none. */
    method Cpass() returns (c: int)
      requires Valid() && (count > 0 ==> IsByte(area[base]))
      modifies this`offset0, this`offset1, this`count, this`base
      ensures Valid()
      ensures old(count) == 0 ==> c == -1 && count == 0 && base == old(base) && Offset() == old(Offset())
      ensures old(count) > 0 ==>
        c == area[old(base)] && Offset() == old(Offset()) + 1 && count == old(count) - 1 && base == old(base) + 1
    {
      if count == 0 {
        return -1;
      }
      c := area[base];
      Advance();
      c := c % 256;
    }
  }

  /** dpcmp of two sizes or offsets: for a chunk of a block the clipping does not show. */
  function Difference(x: int, y: int): (d: int)
    requires 0 <= x < Longs.HALF && 0 <= y < Longs.HALF
    ensures d < 0 <==> x < y
    ensures d <= 0 <==> x <= y
    ensures forall n {:trigger Min(n, d)} :: n <= BSIZE ==> Min(n, d) <= 0 || Min(n, d) == Min(n, x - y)
  {
    assert Longs.Value(Longs.Split(x)) == x && Longs.Value(Longs.Split(y)) == y;
    Longs.Dpcmp(Longs.Split(x), Longs.Split(y))
  }

  /** readi's test for the end of the file, for every offset that two words can hold: an offset more than half the range
      beyond the size is taken to lie before it. */
  lemma EndSeen(size: int, off: int)
    requires 0 <= size < FMAX && 0 <= off < Longs.LONG
    ensures Longs.Dpcmp(Longs.Split(size), Longs.Split(off)) <= 0 <==> size <= off <= size + Longs.HALF
  {
    assert Longs.Value(Longs.Split(size)) == size && Longs.Value(Longs.Split(off)) == off;
  }

  /** iomove towards the buffer. */
  method IomoveWrite(u: User, buf: seq<int>, o: int, n: int) returns (r: seq<int>)
    requires u.Valid() && 0 <= o && 0 <= n <= u.count && o + n <= 2 * |buf| && AllBytes(u.area[u.base..u.base+n])
    modifies u`offset0, u`offset1, u`count, u`base
    ensures u.Valid() && u.Offset() == old(u.Offset()) + n && u.count == old(u.count) - n && u.base == old(u.base) + n
    ensures u.Rest() == old(u.Rest())[n..]
    ensures |r| == |buf| && r == StoreBytes(buf, o, old(u.area[u.base..u.base+n]))
  {
    ghost var p := u.area[u.base..u.base+n];
    RestAfter(u.area, u.base, u.count, n);
    r := buf;
    var k := 0;
    while k < n
      invariant 0 <= k <= n && |r| == |buf| && u.Valid()
      invariant u.Offset() == old(u.Offset()) + k && u.count == old(u.count) - k && u.base == old(u.base) + k
      invariant StoreBytes(r, o + k, p[k..]) == StoreBytes(buf, o, p)
    {
      assert u.area[u.base] == p[k] && p[k..][1..] == p[k+1..];
      var t := u.Cpass();
      r := SetByte(r, o + k, t);
      k := k + 1;
    }
  }

  /** iomove towards the user: it stops early only when the count runs out. */
  method IomoveRead(u: User, buf: seq<int>, o: int, n: int)
    requires u.Valid() && 0 <= o && 0 < n <= u.count && o + n <= 2 * |buf|
    modifies u
    ensures u.Valid() && u.Offset() == old(u.Offset()) + n && u.count == old(u.count) - n && u.base == old(u.base) + n
    ensures u.area == Overlay(old(u.area), old(u.base), LoadBytes(buf, o, n))
  {
    var k := 0;
    while k < n
      invariant 0 <= k <= n && u.Valid() && |u.area| == |old(u.area)|
      invariant u.Offset() == old(u.Offset()) + k && u.count == old(u.count) - k && u.base == old(u.base) + k
      invariant u.area == Overlay(old(u.area), old(u.base), LoadBytes(buf, o, k))
    {
      ghost var a, p := u.area, LoadBytes(buf, o, k);
      var r := u.Passc(ByteAt(buf, o + k));
      OverlayNext(old(u.area), old(u.base), p, LoadBytes(buf, o, k + 1));
      k := k + 1;
      if r < 0 {
        assert k == n;
        return;
      }
    }
  }

  /** p copied over a from position b. */
  ghost function Overlay(a: seq<int>, b: int, p: seq<int>): (r: seq<int>)
    requires 0 <= b && b + |p| <= |a|
    ensures |r| == |a|
  {
    a[..b] + p + a[b+|p|..]
  }

  lemma OverlayNext(a: seq<int>, b: int, p: seq<int>, q: seq<int>)
    requires 0 <= b && b + |q| <= |a| && |q| == |p| + 1 && q[..|p|] == p
    ensures Overlay(a, b, q) == Overlay(a, b, p)[b + |p| := q[|p|]]
  {
  }

  /* ---------------------------------------------------------------- writei */

  /** One turn of writei's loop, after bmap: the buffer is read or just taken, filled, and written back. */
  method FillBlock(v: Volume, u: User, ip: int, bn: int, on: int, n: int, ghost p: Piece)
    requires v.Valid() && u.Valid() && 0 <= ip < |v.ino| && GoodPiece(p) && on == p.on && n == |p.bytes| <= u.count
    requires p.bytes == u.area[u.base..u.base+n] && 0 < bn < v.fsize && bn !in v.st
    modifies v`store, u`offset0, u`offset1, u`count, u`base
    ensures v.Valid() && u.Valid() && v.store == old(v.store)[bn := StoreBytes(old(v.store)[bn], on, p.bytes)]
    ensures u.Offset() == old(u.Offset()) + n && u.count == old(u.count) - n && u.Rest() == old(u.Rest())[n..]
  {
    var buf := v.store[bn];
    if n == 512 {
      assert |Zeros()| == WORDS;
      buf :| |buf| == WORDS;  // getblk: whatever the buffer last held
      StoreWhole(v.store[bn], buf, 0, p.bytes);
    }
    buf := IomoveWrite(u, buf, on, n);
    v.Bdwrite(bn, buf);
  }

  /** Logical block bn of the file, found or added, takes the user's next n bytes. */
  method WritePiece(v: Volume, u: User, ip: int, bn: int, on: int, n: int, ghost p: Piece)
    requires v.Valid() && u.Valid() && 0 <= ip < |v.ino| && Good(v.Abs(), v.ino[ip]) && n == |p.bytes| <= u.count
    requires GoodPiece(p) && bn == p.bn && on == p.on && Need(v.Abs(), v.ino[ip], p.bn) <= |v.st|
    requires p.bytes == u.area[u.base..u.base+n]
    modifies v`nfree, v`free, v`st, v`store, v`ino, u`offset0, u`offset1, u`count, u`base
    ensures v.Valid() && |v.ino| == old(|v.ino|) && v.ino == old(v.ino)[ip := v.ino[ip]]
    ensures u.Valid() && u.Offset() == old(u.Offset()) + n && u.count == old(u.count) - n
        && u.Rest() == old(u.Rest())[n..]
    ensures (v.Abs(), v.ino[ip]) == WriteChunk(old(v.Abs()), old(v.ino[ip]), p)
  {
    MapKeepsBytes(v.Abs(), v.ino[ip], bn);
    var b := v.Bmap(ip, bn);
    DataNotFree(v.Abs(), v.ino[ip], p.bn);
    FillBlock(v, u, ip, b, on, n, p);
  }

  /** One turn of writei's loop. */
  method WriteBlock(v: Volume, u: User, ip: int, ghost p: Piece)
    requires v.Valid() && u.Valid() && 0 <= ip < |v.ino| && Good(v.Abs(), v.ino[ip]) && u.count > 0
    requires 0 <= v.size[ip] < FMAX && p == FirstPiece(u.Offset(), u.Rest()) && GoodPiece(p)
        && Need(v.Abs(), v.ino[ip], p.bn) <= |v.st|
    modifies v`nfree, v`free, v`st, v`store, v`ino, v`size, u`offset0, u`offset1, u`count, u`base
    ensures v.Valid() && |v.ino| == old(|v.ino|) && v.ino == old(v.ino)[ip := v.ino[ip]]
    ensures u.Valid() && u.Offset() == old(u.Offset()) + |p.bytes|
    ensures |p.bytes| <= old(u.count) && u.count == old(u.count) - |p.bytes| && u.Rest() == old(u.Rest())[|p.bytes|..]
    ensures (v.Abs(), v.ino[ip]) == WriteChunk(old(v.Abs()), old(v.ino[ip]), p)
    ensures v.size == old(v.size)[ip := Grown(old(v.size[ip]), u.Offset())]
  {
    var bn, on, n := Locate(u);
    assert n == |p.bytes| && p.bytes == u.area[u.base..u.base+n];
    WritePiece(v, u, ip, bn, on, n, p);
    GrowTo(v, ip, u.Offset());
  }

  /** Block, place in the block, and how many bytes of it are wanted. */
  method Locate(u: User) returns (bn: int, on: int, n: nat)
    requires u.Valid()
    ensures bn == u.Offset() / BSIZE && on == u.Offset() % BSIZE && n == Chunk(u.Offset(), u.count)
  {
    bn := u.Offset() / 512;
    on := u.offset1 % 512;
    n := if 512 - on < u.count then 512 - on else u.count;
    SameRemainder(u.offset0, u.offset1);
  }

  lemma RestAfter(a: seq<int>, b: nat, c: nat, n: nat)
    requires b + c <= |a| && n <= c
    ensures a[b..b+c][n..] == a[b+n..b+n+(c-n)]
  {
  }

  method GrowTo(v: Volume, ip: int, end: int)
    requires v.Valid() && 0 <= ip < |v.ino| && 0 <= v.size[ip] < Longs.HALF && 0 <= end < Longs.HALF
    modifies v`size
    ensures v.Valid() && v.size == old(v.size)[ip := Grown(old(v.size[ip]), end)]
  {
    if Difference(v.size[ip], end) < 0 {
      v.size := v.size[ip := end];
    }
  }

  /** The size after a write that ended at end. */
  function Grown(size: int, end: int): int { if size < end then end else size }

  lemma SameRemainder(hi: int, lo: int)
    ensures (65536 * hi + lo) % 512 == lo % 512
  {
  }

  lemma DataNotFree(f: Fs, n: Ino, bn: int)
    requires Good(f, n) && IsBn(bn) && Lookup(n, f.store, bn) != 0
    ensures Lookup(n, f.store, bn) !in f.st && 0 < Lookup(n, f.store, bn) < |f.store|
  {
    DataCounted(f, n, bn);
    NotFree(f, n, Lookup(n, f.store, bn));
  }

  /** writei, when the blocks it needs can be had: the file's bytes from the offset on are the user's, and the size
      grows to the end of the write if it was less. */
  method Writei(v: Volume, u: User, ip: int)
    requires v.Valid() && u.Valid() && 0 <= ip < |v.ino| && Good(v.Abs(), v.ino[ip]) && 0 <= v.size[ip] < FMAX
    requires u.count <= MAXCOUNT && u.Offset() + u.count < FMAX && AllBytes(u.Rest())
        && Fits(v.Abs(), v.ino[ip], u.Offset(), u.Rest())
    modifies v`nfree, v`free, v`st, v`store, v`ino, v`size, u`offset0, u`offset1, u`count, u`base
    ensures v.Valid() && |v.ino| == old(|v.ino|) && v.ino == old(v.ino)[ip := v.ino[ip]]
    ensures WriteDid(old(v.Abs()), old(v.ino[ip]), v.Abs(), v.ino[ip], old(u.Offset()), old(u.Rest()))
    ensures u.Valid() && u.count == 0 && u.Offset() == old(u.Offset()) + old(u.count)
    ensures v.size == old(v.size)[ip := if old(u.count) == 0 then old(v.size[ip])
        else Grown(old(v.size[ip]), u.Offset())]
  {
    ghost var f, n := v.Abs(), v.ino[ip];
    ghost var pl :| IsPlan(pl, f, n) && pl.off == u.Offset() && pl.data == u.Rest();
    WriteLoop(v, u, ip, pl);
    PlanWrote(pl, f, n, |pl.ps|);
    assert pl.data[..|pl.data|] == pl.data;
  }

  method WriteLoop(v: Volume, u: User, ip: int, ghost pl: Plan)
    requires v.Valid() && u.Valid() && 0 <= ip < |v.ino| && 0 <= v.size[ip] < FMAX && u.Offset() + u.count < FMAX
        && IsPlan(pl, v.Abs(), v.ino[ip])
    requires pl.off == u.Offset() && pl.data == u.Rest()
    modifies v`nfree, v`free, v`st, v`store, v`ino, v`size, u`offset0, u`offset1, u`count, u`base
    ensures v.Valid() && |v.ino| == old(|v.ino|) && v.ino == old(v.ino)[ip := pl.ns[|pl.ps|]]
        && v.Abs() == pl.fs[|pl.ps|]
    ensures u.Valid() && u.count == 0 && u.Offset() == old(u.Offset()) + old(u.count)
    ensures v.size == old(v.size)[ip := if old(u.count) == 0 then old(v.size[ip])
        else Grown(old(v.size[ip]), u.Offset())]
  {
    ghost var i := 0;
    while u.count != 0
      invariant 0 <= i <= |pl.ps| && v.Valid() && Stands(u, pl, i) && (i == 0 || old(u.count) > 0)
      invariant |v.ino| == old(|v.ino|) && v.ino == old(v.ino)[ip := pl.ns[i]] && v.Abs() == pl.fs[i]
      invariant v.size == old(v.size)[ip := if i == 0 then old(v.size[ip]) else Grown(old(v.size[ip]), u.Offset())]
      decreases u.count
    {
      WriteTurn(v, u, ip, pl, i);
      i := i + 1;
    }
    PlanEnd(pl, i);
  }

  /** Turn i of the plan is one turn of the loop. */
  method WriteTurn(v: Volume, u: User, ip: int, ghost pl: Plan, ghost i: nat)
    requires v.Valid() && 0 <= ip < |v.ino| && 0 <= v.size[ip] < FMAX && |pl.fs| > 0 && |pl.ns| > 0
        && IsPlan(pl, pl.fs[0], pl.ns[0])
    requires i <= |pl.ps| && Stands(u, pl, i) && u.count > 0 && v.ino[ip] == pl.ns[i] && v.Abs() == pl.fs[i]
    modifies v`nfree, v`free, v`st, v`store, v`ino, v`size, u`offset0, u`offset1, u`count, u`base
    ensures i < |pl.ps| && Stands(u, pl, i + 1) && u.count < old(u.count)
        && u.Offset() + u.count == old(u.Offset()) + old(u.count)
    ensures v.Valid() && |v.ino| == old(|v.ino|) && v.ino == old(v.ino)[ip := pl.ns[i+1]] && v.Abs() == pl.fs[i+1]
    ensures v.size == old(v.size)[ip := Grown(old(v.size[ip]), u.Offset())]
  {
    ghost var p := TurnPiece(u, pl, i);
    WriteBlock(v, u, ip, p);
  }

  /** The user is where the plan says after i blocks. */
  ghost predicate Stands(u: User, pl: Plan, i: int)
    reads u
  {
    && u.Valid() && 0 <= i < |pl.at| && 0 <= pl.at[i] <= |pl.data|
    && u.Offset() == pl.off + pl.at[i] && u.Rest() == pl.data[pl.at[i]..]
  }

  lemma TurnPiece(u: User, pl: Plan, i: int) returns (p: Piece)
    requires |pl.fs| > 0 && |pl.ns| > 0 && IsPlan(pl, pl.fs[0], pl.ns[0]) && 0 <= i <= |pl.ps| && Stands(u, pl, i)
        && u.count > 0
    ensures i < |pl.ps| && p == pl.ps[i] && Turn(pl.fs[i], pl.ns[i], p, pl.fs[i+1], pl.ns[i+1])
    ensures 0 <= u.Offset() && p == FirstPiece(u.Offset(), u.Rest())
    ensures 0 <= pl.at[i+1] <= |pl.data| && pl.at[i+1] == pl.at[i] + |p.bytes| && |p.bytes| > 0
    ensures |p.bytes| <= |u.Rest()| && u.Rest()[|p.bytes|..] == pl.data[pl.at[i+1]..]
  {
    p := PlanTurn(pl, i);
  }

  /* ---------------------------------------------------------------- readi */

  lemma OverlayMore(a: seq<int>, b: int, p: seq<int>, q: seq<int>)
    requires 0 <= b && b + |p| + |q| <= |a|
    ensures Overlay(Overlay(a, b, p), b + |p|, q) == Overlay(a, b, p + q)
  {
  }

  /** What is in the block that bmap finds or adds is what the file has there. */
  lemma ChunkGot(f: Fs, i: Ino, off: int, n: nat)
    requires Good(f, i) && 0 <= off < FMAX && off % BSIZE + n <= BSIZE && Need(f, i, off / BSIZE) <= |f.st|
    ensures var (f', i', b) := Bmap(f, i, off / BSIZE);
            0 <= b < |f'.store| && Got(f, i, f', i', off, LoadBytes(f'.store[b], off % BSIZE, n))
  {
    MapKeepsBytes(f, i, off / BSIZE);
    var (f', i', b) := Bmap(f, i, off / BSIZE);
    ChunkBytes(f', i', off, n);
    forall k | 0 <= k < n
      ensures LoadBytes(f'.store[b], off % BSIZE, n)[k] == FileByte(i, f.store, off + k)
    {
      assert FileByte(i', f'.store, off + k) == FileByte(i, f.store, off + k);
    }
  }

  /** One turn of readi's loop, once it is known that n bytes of this block are wanted and there. */
  method ReadPiece(v: Volume, u: User, ip: int, bn: int, on: int, n: int) returns (ghost got: seq<int>)
    requires v.Valid() && u.Valid() && 0 <= ip < |v.ino| && Good(v.Abs(), v.ino[ip]) && 0 < n <= u.count
    requires 0 <= u.Offset() < FMAX && bn == u.Offset() / BSIZE && on == u.Offset() % BSIZE && on + n <= BSIZE
    requires Need(v.Abs(), v.ino[ip], bn) <= |v.st|
    modifies v`nfree, v`free, v`st, v`store, v`ino, u
    ensures v.Valid() && |v.ino| == old(|v.ino|) && v.ino == old(v.ino)[ip := v.ino[ip]]
    ensures Maps(old(v.Abs()), old(v.ino[ip]), bn, v.Abs(), v.ino[ip])
    ensures |got| == n && Got(old(v.Abs()), old(v.ino[ip]), v.Abs(), v.ino[ip], old(u.Offset()), got)
    ensures u.Valid() && u.Offset() == old(u.Offset()) + n && u.count == old(u.count) - n && u.base == old(u.base) + n
    ensures u.area == Overlay(old(u.area), old(u.base), got)
  {
    ghost var f, i := v.Abs(), v.ino[ip];
    MapKeepsBytes(f, i, bn);
    var b := v.Bmap(ip, bn);
    ChunkGot(f, i, u.Offset(), n);
    got := LoadBytes(v.store[b], on, n);
    IomoveRead(u, v.store[b], on, n);
  }

  /** readi, when the blocks it fills holes with can be had: the user gets the file's bytes from the offset on, as many
      as asked for or as there are.  Inode, free list and blocks stay as they are if and only if no hole was met. */
  method Readi(v: Volume, u: User, ip: int) returns (ghost got: seq<int>)
    requires v.Valid() && u.Valid() && 0 <= ip < |v.ino| && Good(v.Abs(), v.ino[ip]) && 0 <= v.size[ip] < FMAX
    requires u.count <= MAXCOUNT && u.Offset() < Longs.HALF
    requires ReadFits(v.Abs(), v.ino[ip], u.Offset(), Within(v.size[ip], u.Offset(), u.count))
    modifies v`nfree, v`free, v`st, v`store, v`ino, u
    ensures v.Valid() && |v.ino| == old(|v.ino|) && v.ino == old(v.ino)[ip := v.ino[ip]]
    ensures ReadDid(old(v.Abs()), old(v.ino[ip]), v.Abs(), v.ino[ip], v.size[ip], old(u.Offset()), old(u.count), got)
    ensures u.Valid() && u.Offset() == old(u.Offset()) + |got| && u.count == old(u.count) - |got|
        && u.base == old(u.base) + |got|
    ensures u.area == Overlay(old(u.area), old(u.base), got)
    ensures v.Abs() == old(v.Abs()) && v.ino == old(v.ino) <==>
      AllMapped(old(v.ino[ip]), old(v.store), old(u.Offset()) / BSIZE, Spanned(old(u.Offset()), |got|))
  {
    ghost var f, n, off, len := v.Abs(), v.ino[ip], u.Offset(), Within(v.size[ip], u.Offset(), u.count);
    ghost var t: Trace :| IsTrace(t, f, n, off / BSIZE, Spanned(off, len));
    got := ReadLoop(v, u, ip, t, len);
    StillIffNoHole(t, f, n, off / BSIZE, Spanned(off, len));
  }

  method ReadLoop(v: Volume, u: User, ip: int, ghost t: Trace, ghost len: nat) returns (ghost got: seq<int>)
    requires v.Valid() && u.Valid() && 0 <= ip < |v.ino| && 0 <= v.size[ip] < FMAX && u.Offset() < Longs.HALF
    requires len == Within(v.size[ip], u.Offset(), u.count)
    requires Good(v.Abs(), v.ino[ip]) && IsTrace(t, v.Abs(), v.ino[ip], u.Offset() / BSIZE, Spanned(u.Offset(), len))
    modifies v`nfree, v`free, v`st, v`store, v`ino, u
    ensures v.Valid() && |v.ino| == old(|v.ino|) && v.ino == old(v.ino)[ip := v.ino[ip]]
    ensures |got| == len && Got(old(v.Abs()), old(v.ino[ip]), v.Abs(), v.ino[ip], old(u.Offset()), got)
    ensures StateAt(t, Spanned(old(u.Offset()), len), v.Abs(), v.ino[ip])
    ensures u.Valid() && u.Offset() == old(u.Offset()) + |got| && u.count == old(u.count) - |got|
        && u.base == old(u.base) + |got|
    ensures u.area == Overlay(old(u.area), old(u.base), got)
  {
    ghost var f0, n0, off, count, area, base := v.Abs(), v.ino[ip], u.Offset(), u.count, u.area, u.base;
    got := [];
    while u.count != 0
      invariant v.Valid() && |v.ino| == old(|v.ino|) && v.ino == old(v.ino)[ip := v.ino[ip]]
      invariant Reading(t, f0, n0, v.Abs(), v.ino[ip], off, len, got) && Handed(u, off, count, area, base, got)
      decreases u.count
    {
      if Difference(v.size[ip], u.Offset()) <= 0 {
        return;
      }
      WithinLeft(v.size[ip], off, count, |got|);
      ghost var more := ReadTurn(v, u, ip, t, f0, n0, off, len, got);
      OverlayMore(area, base, got, more);
      got := got + more;
    }
  }

  /** One block of a read under way. */
  method ReadTurn(v: Volume, u: User, ip: int, ghost t: Trace, ghost f0: Fs, ghost n0: Ino, ghost off: int,
                  ghost len: nat, ghost got: seq<int>)
    returns (ghost more: seq<int>)
    requires v.Valid() && 0 <= ip < |v.ino| && u.Valid() && 0 < u.count && u.Offset() == off + |got|
        && u.Offset() < v.size[ip] < FMAX
    requires IsTrace(t, f0, n0, off / BSIZE, Spanned(off, len)) && Reading(t, f0, n0, v.Abs(), v.ino[ip], off, len, got)
    requires |got| < len && Within(v.size[ip], u.Offset(), u.count) == len - |got|
    modifies v`nfree, v`free, v`st, v`store, v`ino, u
    ensures v.Valid() && |v.ino| == old(|v.ino|) && v.ino == old(v.ino)[ip := v.ino[ip]]
    ensures 0 < |more| <= old(u.count) && Reading(t, f0, n0, v.Abs(), v.ino[ip], off, len, got + more)
    ensures u.Valid() && u.Offset() == old(u.Offset()) + |more| && u.count == old(u.count) - |more|
    ensures u.base == old(u.base) + |more| && u.area == Overlay(old(u.area), old(u.base), more)
  {
    ghost var f, n, pos, left := v.Abs(), v.ino[ip], u.Offset(), Within(v.size[ip], u.Offset(), u.count);
    ReadingNeed(t, f0, n0, f, n, off, len, got, pos);
    more := ReadBlock(v, u, ip);
    ghost var f', n', k := v.Abs(), v.ino[ip], |got| + |more|;
    ReachedNext(t, f0, n0, off, len, |got|, pos, left, k, f, n, f', n');
    ReadingNext(t, f0, n0, f, n, off, len, got, pos, left, f', n', more, k);
  }

  /** The user has had `got`, in its place, and nothing else of the user's memory has changed. */
  ghost predicate Handed(u: User, off: int, count: int, area: seq<int>, base: int, got: seq<int>)
    reads u
  {
    && u.Valid() && u.Offset() == off + |got| && u.count == count - |got| && u.base == base + |got|
    && 0 <= base && base + |got| <= |area| && u.area == Overlay(area, base, got)
  }

  lemma ClipLosesNothing(size: int, off: int, count: nat, n: int)
    requires 0 <= off < size < FMAX && 0 < count && n == Min(Chunk(off, count), Difference(size, off))
    ensures n == Chunk(off, Within(size, off, count)) && 0 < n <= count && off % BSIZE + n <= BSIZE
  {
  }

  /** One turn of readi's loop, before the end of the file. */
  method ReadBlock(v: Volume, u: User, ip: int) returns (ghost got: seq<int>)
    requires v.Valid() && u.Valid() && 0 <= ip < |v.ino| && Good(v.Abs(), v.ino[ip]) && 0 < u.count
    requires 0 <= u.Offset() < v.size[ip] < FMAX && Need(v.Abs(), v.ino[ip], u.Offset() / BSIZE) <= |v.st|
    modifies v`nfree, v`free, v`st, v`store, v`ino, u
    ensures v.Valid() && |v.ino| == old(|v.ino|) && v.ino == old(v.ino)[ip := v.ino[ip]]
    ensures Maps(old(v.Abs()), old(v.ino[ip]), old(u.Offset()) / BSIZE, v.Abs(), v.ino[ip])
    ensures |got| == Chunk(old(u.Offset()), Within(v.size[ip], old(u.Offset()), old(u.count)))
    ensures Got(old(v.Abs()), old(v.ino[ip]), v.Abs(), v.ino[ip], old(u.Offset()), got)
    ensures |got| <= old(u.count) && u.Valid() && u.Offset() == old(u.Offset()) + |got|
        && u.count == old(u.count) - |got|
    ensures u.base == old(u.base) + |got| && u.area == Overlay(old(u.area), old(u.base), got)
  {
    var bn, on, n := Locate(u);
    var dn := Difference(v.size[ip], u.Offset());
    n := if n < dn then n else dn;
    ClipLosesNothing(v.size[ip], u.Offset(), u.count, n);
    got := ReadPiece(v, u, ip, bn, on, n);
  }

  lemma WithinLeft(size: int, off: int, count: nat, k: nat)
    requires k < count && off + k < size
    ensures k < Within(size, off, count) && Within(size, off + k, count - k) == Within(size, off, count) - k
  {
  }

  /** A read under way: `got` of the len bytes to come, with the state the trace gives for the next block. */
  ghost predicate Reading(t: Trace, f0: Fs, n0: Ino, f: Fs, n: Ino, off: int, len: nat, got: seq<int>) {
    && 0 <= off && |got| <= len && (len > 0 ==> off + len < FMAX)
    && Got(f0, n0, f, n, off, got) && Reached(t, off, len, |got|, f, n)
  }

  /** Which of the blocks spanned position k is in; past the end, how many there are. */
  function Index(off: int, len: nat, k: int): int {
    if k == len then Spanned(off, len) else (off + k) / BSIZE - off / BSIZE
  }

  ghost predicate StateAt(t: Trace, i: int, f: Fs, n: Ino) {
    0 <= i < |t.fs| && i < |t.ns| && t.fs[i] == f && t.ns[i] == n
  }

  /** After k of the len bytes: the state is the one the trace gives for the block of position k. */
  ghost predicate Reached(t: Trace, off: int, len: nat, k: int, f: Fs, n: Ino) { StateAt(t, Index(off, len, k), f, n) }

  lemma ReadingNeed(t: Trace, f0: Fs, n0: Ino, f: Fs, n: Ino, off: int, len: nat, got: seq<int>, pos: int)
    requires IsTrace(t, f0, n0, off / BSIZE, Spanned(off, len))
    requires Reading(t, f0, n0, f, n, off, len, got) && |got| < len && pos == off + |got|
    ensures Need(f, n, pos / BSIZE) <= |f.st|
  {
    BlockNumber(off, len, |got|);
    MapsAt(t, f0, n0, off / BSIZE, Spanned(off, len), pos / BSIZE - off / BSIZE, f, n);
  }

  lemma MapsAt(t: Trace, f0: Fs, n0: Ino, bn: int, m: nat, i: int, f: Fs, n: Ino)
    requires IsTrace(t, f0, n0, bn, m) && 0 <= i < m && StateAt(t, i, f, n)
    ensures Need(f, n, bn + i) <= |f.st|
  {
    assert Maps(t.fs[i], t.ns[i], bn + i, t.fs[i+1], t.ns[i+1]);
  }

  lemma ReadingNext(t: Trace, f0: Fs, n0: Ino, f: Fs, n: Ino, off: int, len: nat, got: seq<int>,
                    pos: int, left: nat, f': Fs, n': Ino, more: seq<int>, k: nat)
    requires Reading(t, f0, n0, f, n, off, len, got) && left > 0 && pos == off + |got| && left == len - |got|
    requires Got(f, n, f', n', pos, more) && |more| == Chunk(pos, left) && k == |got + more|
        && Reached(t, off, len, k, f', n')
    ensures Reading(t, f0, n0, f', n', off, len, got + more)
  {
    GotTrans(f0, n0, f, n, f', n', off, pos, got, more);
  }

  lemma ReachedNext(t: Trace, f0: Fs, n0: Ino, off: int, len: nat, k: nat, pos: int, left: nat, k': nat,
                    f: Fs, n: Ino, f': Fs, n': Ino)
    requires 0 <= off && IsTrace(t, f0, n0, off / BSIZE, Spanned(off, len)) && k < len && Reached(t, off, len, k, f, n)
    requires pos == off + k && left == len - k && k' == k + Chunk(pos, left) && Maps(f, n, pos / BSIZE, f', n')
    ensures Reached(t, off, len, k', f', n')
  {
    var i := NextIndex(off, len, k, pos, left, k');
    TraceNext(t, f0, n0, off / BSIZE, Spanned(off, len), i, pos / BSIZE, f, n, f', n');
  }

  lemma NextIndex(off: int, len: nat, k: nat, pos: int, left: nat, k': nat) returns (i: int)
    requires 0 <= off && k < len && pos == off + k && left == len - k && k' == k + Chunk(pos, left)
    ensures i == Index(off, len, k) && Index(off, len, k') == i + 1 && 0 <= i < Spanned(off, len)
        && off / BSIZE + i == pos / BSIZE
  {
    BlockNumber(off, len, k);
    NextBlock(off, len, k);
    i := Index(off, len, k);
  }

  lemma TraceNext(t: Trace, f0: Fs, n0: Ino, bn: int, m: nat, i: int, b: int, f: Fs, n: Ino, f': Fs, n': Ino)
    requires IsTrace(t, f0, n0, bn, m) && 0 <= i < m && StateAt(t, i, f, n) && b == bn + i && Maps(f, n, b, f', n')
    ensures StateAt(t, i + 1, f', n')
  {
    assert Maps(t.fs[i], t.ns[i], bn + i, t.fs[i+1], t.ns[i+1]);
  }

  /** A chunk ends with its block, or with the transfer. */
  lemma NextBlock(off: int, len: nat, k: nat)
    requires 0 <= off && k < len
    ensures Index(off, len, k + Chunk(off + k, len - k)) == Index(off, len, k) + 1
  {
    var c := Chunk(off + k, len - k);
    if k + c < len {
      assert off + (k + c) == BSIZE * ((off + k) / BSIZE + 1);
    } else {
      LastBlock(off, len, k);
    }
  }

  lemma LastBlock(off: int, len: nat, k: nat)
    requires 0 <= off && k < len && (off + k) % BSIZE + (len - k) <= BSIZE
    ensures (off + k) / BSIZE - off / BSIZE + 1 == Spanned(off, len)
  {
    assert (off + len - 1) / BSIZE == (off + k) / BSIZE;
    assert off % BSIZE + len - 1 == (off + len - 1) - BSIZE * (off / BSIZE);
  }
}
