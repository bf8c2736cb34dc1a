/** sslep, the time-of-day part of clock, and stime as they run. */
module AlarmCode {
  import opened Longs
  import opened Alarm

  class Kernel {
    var time: Two
    var tout: Two
    var ps: seq<Pc>

    ghost function Abs(): State
      reads this
    {
      State(time, tout, ps)
    }

    method WakeAll()
      modifies this`ps
      ensures ps == Wakeup(old(ps))
    {
      var i := 0;
      while i < |ps|
        invariant 0 <= i <= |ps| == |old(ps)|
        invariant forall k :: 0 <= k < |ps| ==> ps[k] == if k < i then Woken(old(ps)[k]) else old(ps)[k]
      {
        if ps[i].Asleep? {
          ps := ps[i := Checking(ps[i].d)];
        }
        i := i + 1;
      }
    }

    /** sslep: the deadline is fixed once. */
    method Sslep(p: nat, n: int)
      requires p < |ps| && ps[p].Idle? && IsTwo(time) && IsTwo(tout) && 0 <= n < WORD
      modifies this`ps
      ensures Step(old(Abs()), Call(p, n), Abs())
    {
      var d := Dpadd(time, n);
      ps := ps[p := Checking(d)];
    }

    /** One turn of its loop. */
    method Turn(p: nat, d: Two, signalled: bool)
      requires p < |ps| && ps[p] == Checking(d) && IsTwo(d) && IsTwo(time) && IsTwo(tout)
      modifies this`tout, this`ps
      ensures Step(old(Abs()), Check(p, signalled), Abs())
    {
      if Dpcmp(d, time) > 0 {
        if Dpcmp(tout, time) <= 0 || Dpcmp(tout, d) > 0 {
          tout := d;
        }
        ps := ps[p := if signalled then Idle else Asleep(d)];
      } else {
        ps := ps[p := Idle];
      }
    }

    /** A second has passed. */
    method Clock()
      requires IsTwo(time) && IsTwo(tout)
      modifies this`time, this`ps
      ensures Step(old(Abs()), Second, Abs())
    {
      var lo := (time.lo + 1) % WORD;
      time := time.(lo := lo);
      if lo == 0 {
        time := time.(hi := (time.hi + 1) % WORD);
      }
      if time.lo == tout.lo && time.hi == tout.hi {
        WakeAll();
      }
    }

    method SetTime(t: Two)
      requires IsTwo(t) && IsTwo(time) && IsTwo(tout)
      modifies this`time, this`ps
      ensures Step(old(Abs()), Stime(t), Abs())
    {
      time := t;
      WakeAll();
    }
  }
}
