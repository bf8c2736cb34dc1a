/** sleep(2): any number of sleepers share one alarm variable, while time runs on, wraps around, or is set. */
module Alarm {
  import opened Longs

  /* ---------------------------------------------------------------- the machine */

  /** Checking: in the loop of sslep, awake.  Asleep: on tout. */
  datatype Pc = Idle | Checking(d: Two) | Asleep(d: Two)

  datatype State = State(time: Two, tout: Two, ps: seq<Pc>)

  datatype Event = Call(p: nat, n: int) | Check(p: nat, signalled: bool) | Second | Stime(t: Two) | Signal(p: nat)

  function Woken(pc: Pc): Pc { if pc.Asleep? then Checking(pc.d) else pc }

  function Wakeup(ps: seq<Pc>): (r: seq<Pc>)
    ensures |r| == |ps| && forall i :: 0 <= i < |ps| ==> r[i] == Woken(ps[i])
  {
    seq(|ps|, i requires 0 <= i < |ps| => Woken(ps[i]))
  }

  /** One turn of sslep's loop: done, or the alarm is brought forward if need be and the process sleeps. */
  function CheckTurn(s: State, p: nat, d: Two, signalled: bool): State
    requires p < |s.ps| && IsTwo(s.time) && IsTwo(s.tout) && IsTwo(d)
  {
    if Dpcmp(d, s.time) <= 0 then s.(ps := s.ps[p := Idle]) else
    s.(tout := if Dpcmp(s.tout, s.time) <= 0 || Dpcmp(s.tout, d) > 0 then d else s.tout,
       ps := s.ps[p := if signalled then Idle else Asleep(d)])
  }

  function SecondTurn(s: State): State
    requires IsTwo(s.time)
  {
    var t := Next(s.time);
    if t == s.tout then State(t, s.tout, Wakeup(s.ps)) else s.(time := t)
  }

  ghost predicate Step(s: State, e: Event, s': State) {
    && IsTwo(s.time) && IsTwo(s.tout)
    && match e
       case Call(p, n) => p < |s.ps| && s.ps[p].Idle? && 0 <= n < WORD
           && s' == s.(ps := s.ps[p := Checking(Dpadd(s.time, n))])
       case Check(p, signalled) =>
         p < |s.ps| && s.ps[p].Checking? && IsTwo(s.ps[p].d) && s' == CheckTurn(s, p, s.ps[p].d, signalled)
       case Second => s' == SecondTurn(s)
       case Stime(t) => IsTwo(t) && s' == s.(time := t, ps := Wakeup(s.ps))
       case Signal(p) => p < |s.ps| && s.ps[p].Asleep? && s' == s.(ps := s.ps[p := Idle])
  }

  /** The alarm is set, ahead of the time, and goes off no later than d. */
  ghost predicate Covered(s: State, d: Two) {
    0 < Ahead(Value(s.tout), Value(s.time)) <= Ahead(Value(d), Value(s.time)) < HALF
  }

  ghost predicate Inv(s: State) {
    && IsTwo(s.time) && IsTwo(s.tout)
    && (forall p :: 0 <= p < |s.ps| && s.ps[p].Checking? ==> IsTwo(s.ps[p].d))
    && (forall p :: 0 <= p < |s.ps| && s.ps[p].Asleep? ==> IsTwo(s.ps[p].d) && Covered(s, s.ps[p].d))
  }

  /** Equal values are equal words. */
  lemma SameValue(x: Two, y: Two)
    requires IsTwo(x) && IsTwo(y) && Value(x) == Value(y)
    ensures x == y
  {
  }

  lemma CheckInv(s: State, p: nat, signalled: bool)
    requires Inv(s) && p < |s.ps| && s.ps[p].Checking?
    ensures Inv(CheckTurn(s, p, s.ps[p].d, signalled))
  {
    var d := s.ps[p].d;
    var s' := CheckTurn(s, p, d, signalled);
    forall q | 0 <= q < |s'.ps| && s'.ps[q].Asleep?
      ensures Covered(s', s'.ps[q].d)
    {
      assert q != p ==> Covered(s, s.ps[q].d);
    }
  }

  lemma SecondInv(s: State)
    requires Inv(s)
    ensures Inv(SecondTurn(s))
  {
    var s' := SecondTurn(s);
    forall q | 0 <= q < |s'.ps| && s'.ps[q].Asleep?
      ensures Covered(s', s'.ps[q].d)
    {
      assert Covered(s, s.ps[q].d);
      if Ahead(Value(s.tout), Value(s.time)) == 1 { SameValue(s'.time, s.tout); }
    }
  }

  lemma StepInv(s: State, e: Event, s': State)
    requires Inv(s) && Step(s, e, s')
    ensures Inv(s')
  {
    match e {
      case Check(p, signalled) => CheckInv(s, p, signalled);
      case Second => SecondInv(s);
      case _ =>
    }
  }

  ghost predicate IsRun(ss: seq<State>, es: seq<Event>) {
    && |ss| == |es| + 1 && IsTwo(ss[0].time) && IsTwo(ss[0].tout)
         && (forall p :: 0 <= p < |ss[0].ps| ==> ss[0].ps[p].Idle?)
    && forall i :: 0 <= i < |es| ==> Step(ss[i], es[i], ss[i+1])
  }

  lemma {:induction false} RunInv(ss: seq<State>, es: seq<Event>, i: nat)
    requires IsRun(ss, es) && i <= |es|
    ensures Inv(ss[i])
  {
    if i > 0 {
      RunInv(ss, es, i - 1);
      StepInv(ss[i-1], es[i-1], ss[i]);
    }
  }

  /** In every reachable state whoever is asleep has time < tout <= deadline, so nobody sleeps past its deadline,
      whatever the number of sleepers, whenever the clock wraps, and however the time is set. */
  lemma NobodyOversleeps(ss: seq<State>, es: seq<Event>, i: nat, p: nat)
    requires IsRun(ss, es) && i <= |es| && p < |ss[i].ps| && ss[i].ps[p].Asleep?
    ensures IsTwo(ss[i].ps[p].d) && Covered(ss[i], ss[i].ps[p].d)
    ensures IsTwo(ss[i].time) && Dpcmp(ss[i].ps[p].d, ss[i].time) > 0
  {
    RunInv(ss, es, i);
  }

  /** The second in which the deadline arrives wakes the sleeper, and its next look at the clock ends the call. */
  lemma WokenAtDeadline(ss: seq<State>, es: seq<Event>, i: nat, p: nat)
    requires IsRun(ss, es) && i < |es| && es[i] == Second && p < |ss[i].ps| && ss[i].ps[p].Asleep?
    requires Value(ss[i+1].time) == Value(ss[i].ps[p].d)
    ensures |ss[i+1].ps| == |ss[i].ps| && ss[i+1].ps[p] == Checking(ss[i].ps[p].d)
    ensures IsTwo(ss[i+1].time) && IsTwo(ss[i+1].tout) && IsTwo(ss[i].ps[p].d)
    ensures CheckTurn(ss[i+1], p, ss[i].ps[p].d, false).ps[p] == Idle
  {
    RunInv(ss, es, i);
    RunInv(ss, es, i + 1);
    assert ss[i+1].ps[p].Asleep? ==> Covered(ss[i+1], ss[i+1].ps[p].d);
  }
}
