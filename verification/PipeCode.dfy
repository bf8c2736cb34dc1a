/** readp, writep, plock and prele as they run, one stretch between two sleeps at a time. */
module PipeCode {
  import opened PipeMachine
  import Longs

  predicate SleepsOn(c: Channel, pc: Pc) {
    match c
    case Lock => pc.WantR? || pc.WantW?
    case Data => pc.Dry?
    case Room => pc.Full?
  }

  class PipeInode {
    var raw: seq<int>
    var size: int
    var offset: int
    var lock: bool
    var want: bool
    var iread: bool
    var iwrite: bool
    var ps: seq<Pc>
    ghost var owner: Owner
    ghost var accepted: seq<int>
    ghost var delivered: seq<int>

    ghost function Abs(): Pipe
      reads this
    {
      Pipe(raw, size, offset, lock, want, iread, iwrite, ps, owner, accepted, delivered)
    }

    constructor (raw: seq<int>, n: nat)
      ensures Abs() == Initial(raw, n)
    {
      this.raw, size, offset, lock, want, iread, iwrite := raw, 0, 0, false, false, false, false;
      ps := seq(n, _ => Idle);
      owner, accepted, delivered := Nobody, [], [];
    }

    /** wakeup: everyone asleep on the channel becomes runnable. */
    method WakeAll(c: Channel)
      modifies this`ps
      ensures ps == Wakeup(c, old(ps))
    {
      var i := 0;
      while i < |ps|
        invariant 0 <= i <= |ps| == |old(ps)|
        invariant forall k :: 0 <= k < |ps| ==> ps[k] == if k < i then Woken(c, old(ps)[k]) else old(ps)[k]
      {
        if SleepsOn(c, ps[i]) {
          ps := ps[i := if ps[i].WantR? || ps[i].Dry? then TryR(ps[i].n) else TryW(ps[i].rest)];
        }
        i := i + 1;
      }
    }

    method Release()
      modifies this
      ensures Abs() == Prele(old(Abs()))
    {
      lock := false;
      owner := Nobody;
      if want {
        want := false;
        WakeAll(Lock);
      }
    }

    /** plock: true when the lock was free and is now p's; otherwise the want bit is set and the caller sleeps. */
    method Plock(ghost p: nat) returns (got: bool)
      modifies this`lock, this`want, this`owner
      ensures got == !old(lock) && lock
      ensures if got then want == old(want) && owner == Proc(p) else want && owner == old(owner)
    {
      if lock {
        want := true;
        return false;
      }
      lock := true;
      owner := Proc(p);
      return true;
    }

    /** readp up to its next sleep, or into readi. */
    method ReadPass(p: nat, n: nat, signalled: bool)
      requires p < |ps| && ps[p] == TryR(n) && (!lock ==> owner == Nobody)
      modifies this
      ensures Abs() == ReadTurn(old(Abs()), p, n, signalled)
    {
      var got := Plock(p);
      if !got {
        ps := ps[p := if signalled then Idle else WantR(n)];
        return;
      }
      if offset == size {
        if offset != 0 {
          offset := 0;
          size := 0;
          if iwrite {
            iwrite := false;
            WakeAll(Room);
          }
        }
        Release();
        iread := true;
        ps := ps[p := if signalled then Idle else Dry(n)];
        return;
      }
      ps := ps[p := Reading(n)];
    }

    /** The end of readp: readi has moved the bytes and advanced the offset. */
    method ReadFinish(p: nat, n: nat) returns (got: seq<int>)
      requires p < |ps| && ps[p] == Reading(n) && n <= Longs.MAXINT && 0 <= offset <= size <= |raw|
      modifies this
      ensures Abs() == ReadEnd(old(Abs()), p, n) && got == Chunk(old(Abs()), n)
    {
      got := raw[offset..if offset + n < size then offset + n else size];
      offset := offset + |got|;
      delivered := delivered + got;
      Release();
      ps := ps[p := Idle];
    }

    /** writep up to its next sleep, or into writei. */
    method WritePass(p: nat, rest: seq<int>, signalled: bool)
      requires p < |ps| && ps[p] == TryW(rest) && (!lock ==> owner == Nobody) && 0 <= size <= PIPSIZ
      requires |rest| <= Longs.MAXINT
      modifies this
      ensures Abs() == WriteTurn(old(Abs()), p, rest, signalled)
    {
      var got := Plock(p);
      if !got {
        ps := ps[p := if signalled then Idle else WantW(rest)];
        return;
      }
      if |rest| == 0 {
        Release();
        ps := ps[p := Idle];
        return;
      }
      if size == PIPSIZ {
        iwrite := true;
        Release();
        ps := ps[p := if signalled then Idle else Full(rest)];
        return;
      }
      Longs.MinOfCount(|rest|, PIPSIZ - size);
      var c := Longs.Min(Longs.Int(|rest|), PIPSIZ - size);
      ps := ps[p := Writing(rest[..c], rest[c..])];
    }

    /** After writei. */
    method WriteFinish(p: nat, rest: seq<int>)
      requires p < |ps| && ps[p] == Writing([], rest)
      modifies this
      ensures Abs() == WriteEnd(old(Abs()), p, rest)
    {
      Release();
      if iread {
        iread := false;
        WakeAll(Data);
      }
      ps := ps[p := TryW(rest)];
    }

    /** closef of a descriptor that is still open elsewhere. */
    method CloseDuplicate()
      modifies this
      ensures Step(old(Abs()), CloseDup, Abs())
    {
      iread := false;
      iwrite := false;
      WakeAll(Room);
      WakeAll(Data);
    }
  }
}
