/** A call of sleep(2) from its beginning to its end: it lasts as long as was asked, unless a signal ends it or the time
    is set. */
module AlarmCalls {
  import opened Longs
  import opened Alarm

  /** Event c begins a call of process p that is still going on in state i. */
  ghost predicate Sleeping(ss: seq<State>, es: seq<Event>, c: nat, i: nat, p: nat, n: int) {
    && IsRun(ss, es) && c < i <= |es| && es[c] == Call(p, n)
    && forall j {:trigger ss[j]} :: c < j <= i ==> p < |ss[j].ps| && !ss[j].ps[p].Idle?
  }

  /** The deadline: n seconds after the call. */
  predicate IsDeadline(d: Two, s: State, n: int) { IsTwo(d) && IsTwo(s.time) && Ahead(Value(d), Value(s.time)) == n }

  predicate InCall(pc: Pc, d: Two) { pc == Checking(d) || pc == Asleep(d) }

  predicate IsAhead(d: Two, s: State) { 0 < Ahead(Value(d), Value(s.time)) < HALF }

  /** The deadline is fixed by the call, and does not move. */
  lemma {:induction false} DeadlineKept(ss: seq<State>, es: seq<Event>, c: nat, i: nat, p: nat, n: int) returns (d: Two)
    requires Sleeping(ss, es, c, i, p, n)
    ensures IsDeadline(d, ss[c], n) && InCall(ss[i].ps[p], d)
    decreases i
  {
    assert Step(ss[i-1], es[i-1], ss[i]);
    if i == c + 1 {
      d := ss[i].ps[p].d;
    } else {
      d := DeadlineKept(ss, es, c, i - 1, p, n);
      CallGoesOn(ss[i-1], es[i-1], ss[i], p, d);
    }
  }

  lemma CallGoesOn(s: State, e: Event, s': State, p: nat, d: Two)
    requires Step(s, e, s') && p < |s.ps| && p < |s'.ps| && InCall(s.ps[p], d) && !s'.ps[p].Idle?
    ensures InCall(s'.ps[p], d)
  {
  }

  /** A call ends only by a signal, or by a look at the clock that finds the deadline no longer ahead. */
  lemma EndsInTime(ss: seq<State>, es: seq<Event>, c: nat, i: nat, p: nat, n: int) returns (d: Two)
    requires Sleeping(ss, es, c, i, p, n) && i < |es| && p < |ss[i+1].ps| && ss[i+1].ps[p].Idle?
    ensures IsDeadline(d, ss[c], n)
    ensures es[i] == Signal(p) || es[i] == Check(p, true) || (es[i] == Check(p, false) && !IsAhead(d, ss[i]))
  {
    d := DeadlineKept(ss, es, c, i, p, n);
    assert Step(ss[i], es[i], ss[i+1]);
  }

  /** A look at the clock that finds the deadline ahead puts the process to sleep. */
  lemma SleepsOn(ss: seq<State>, es: seq<Event>, c: nat, i: nat, p: nat, n: int) returns (d: Two)
    requires Sleeping(ss, es, c, i, p, n) && i < |es| && es[i] == Check(p, false)
    ensures IsDeadline(d, ss[c], n) && p < |ss[i+1].ps|
    ensures if IsAhead(d, ss[i]) then ss[i+1].ps[p] == Asleep(d) else ss[i+1].ps[p] == Idle
  {
    d := DeadlineKept(ss, es, c, i, p, n);
    assert Step(ss[i], es[i], ss[i+1]);
    assert IsTwo(ss[i].ps[p].d);
  }

  /* ---------------------------------------------------------------- how long */

  /** Seconds that pass from event c up to event i. */
  function Seconds(es: seq<Event>, c: nat, i: nat): (k: nat)
    requires c <= i <= |es|
    ensures k <= i - c
  {
    if i == c then 0 else Seconds(es, c, i - 1) + if es[i-1] == Second then 1 else 0
  }

  /** The time is not set from event c up to event i. */
  predicate NotSet(es: seq<Event>, c: nat, i: nat)
    requires c <= i <= |es|
  {
    forall j :: c <= j < i ==> !es[j].Stime?
  }

  lemma {:induction false} TimeRuns(ss: seq<State>, es: seq<Event>, c: nat, i: nat)
    requires IsRun(ss, es) && c <= i <= |es| && NotSet(es, c, i) && Seconds(es, c, i) < LONG
    ensures IsTwo(ss[c].time) && IsTwo(ss[i].time) && Ahead(Value(ss[i].time), Value(ss[c].time)) == Seconds(es, c, i)
    decreases i
  {
    RunInv(ss, es, c);
    RunInv(ss, es, i);
    if i > c {
      TimeRuns(ss, es, c, i - 1);
      assert Step(ss[i-1], es[i-1], ss[i]);
    }
  }

  /** While fewer than n seconds have passed the deadline is ahead; after that it is not. */
  lemma AheadUntil(ss: seq<State>, es: seq<Event>, c: nat, i: nat, d: Two, n: int)
    requires IsRun(ss, es) && c <= i <= |es| && NotSet(es, c, i) && Seconds(es, c, i) < HALF && 0 <= n < WORD
    requires IsDeadline(d, ss[c], n)
    ensures IsAhead(d, ss[i]) <==> Seconds(es, c, i) < n
  {
    TimeRuns(ss, es, c, i);
  }

  /** With the time only running on, a call for n seconds that no signal ends lasts n seconds at least. */
  lemma LastsLongEnough(ss: seq<State>, es: seq<Event>, c: nat, i: nat, p: nat, n: int)
    requires Sleeping(ss, es, c, i, p, n) && i < |es| && p < |ss[i+1].ps| && ss[i+1].ps[p].Idle?
    requires es[i] != Signal(p) && es[i] != Check(p, true) && NotSet(es, c, i) && Seconds(es, c, i) < HALF
    ensures n <= Seconds(es, c, i)
  {
    var d := EndsInTime(ss, es, c, i, p, n);
    assert Step(ss[c], es[c], ss[c+1]);
    AheadUntil(ss, es, c, i, d, n);
  }

  /** And no longer than it must: once n seconds have passed the process is awake, and its next look ends the call. */
  lemma AwakeWhenOver(ss: seq<State>, es: seq<Event>, c: nat, i: nat, p: nat, n: int)
    requires Sleeping(ss, es, c, i, p, n) && NotSet(es, c, i) && n <= Seconds(es, c, i) < HALF
    ensures ss[i].ps[p].Checking?
    ensures i < |es| && es[i] == Check(p, false) ==> p < |ss[i+1].ps| && ss[i+1].ps[p] == Idle
  {
    var d := DeadlineKept(ss, es, c, i, p, n);
    assert Step(ss[c], es[c], ss[c+1]);
    AheadUntil(ss, es, c, i, d, n);
    RunInv(ss, es, i);
    if i < |es| && es[i] == Check(p, false) { d := SleepsOn(ss, es, c, i, p, n); AheadUntil(ss, es, c, i, d, n); }
  }
}
