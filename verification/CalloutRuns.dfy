/** The table code makes the runs that CalloutQueue is about: every call of timeout and every clock tick, with whatever
    the fired routines ask for, is a sequence of its events. */
module CalloutRuns {
  import opened CalloutQueue
  import opened CalloutTable

  /** s is the table t with request numbers replaced by the calls they stand for. */
  ghost predicate Same(t: seq<Slot<nat>>, calls: seq<Call>, s: seq<Slot<Call>>) {
    |s| == |t| && forall k :: 0 <= k < |t| ==> t[k].what < |calls| && s[k] == Slot(t[k].time, calls[t[k].what])
  }

  lemma {:induction false} InsertSame(t: seq<Slot<nat>>, calls: seq<Call>, s: seq<Slot<Call>>, tim: int, c: Call)
    requires Same(t, calls, s)
    ensures Same(Insert(t, tim, |calls|), calls + [c], Insert(s, tim, c))
    decreases |t|
  {
    if t != [] && t[0].time <= tim {
      InsertSame(t[1..], calls, s[1..], tim - t[0].time, c);
    }
  }

  lemma {:induction false} DecrementSame(t: seq<Slot<nat>>, calls: seq<Call>, s: seq<Slot<Call>>)
    requires Same(t, calls, s)
    ensures Same(Decrement(t), calls, Decrement(s))
    decreases |t|
  {
    if t != [] && t[0].time <= 0 {
      DecrementSame(t[1..], calls, s[1..]);
    }
  }

  /** The events es lead from q to q'. */
  ghost predicate Reaches(q: Queue, es: seq<Event>, q': Queue)
    decreases |es|
  {
    if es == [] then q' == q else exists m: Queue :: Step(q, es[0], m) && Reaches(m, es[1..], q')
  }

  lemma {:induction false} ReachesOn(a: Queue, es: seq<Event>, b: Queue, fs: seq<Event>, c: Queue)
    requires Reaches(a, es, b) && Reaches(b, fs, c)
    ensures Reaches(a, es + fs, c)
    decreases |es|
  {
    if es == [] {
      assert es + fs == fs;
    } else {
      var m: Queue :| Step(a, es[0], m) && Reaches(m, es[1..], b);
      ReachesOn(m, es[1..], b, fs, c);
      assert (es + fs)[0] == es[0] && (es + fs)[1..] == es[1..] + fs;
    }
  }

  lemma OneStep(a: Queue, e: Event, b: Queue)
    requires Step(a, e, b)
    ensures Reaches(a, [e], b)
  {
    assert Reaches(b, [e][1..], b);
  }

  /** Queue q is what the table s stands for. */
  ghost predicate Shows(q: Queue, calls: seq<Call>, s: seq<Slot<Call>>) {
    |calls| == |q.reqs| && Same(q.table, calls, s)
  }

  ghost predicate Waits(rs: seq<Request>) { forall k :: 0 <= k < |rs| ==> rs[k].tim >= 0 }

  /** A call of timeout is one event. */
  lemma TimeoutIsEvent(q: Queue, calls: seq<Call>, s: seq<Slot<Call>>, r: Request) returns (q': Queue)
    requires Shows(q, calls, s) && r.tim >= 0
    ensures Step(q, Event.Timeout(r.tim), q') && Shows(q', calls + [r.call], Insert(s, r.tim, r.call))
  {
    InsertSame(q.table, calls, s, r.tim, r.call);
    q' := q.(table := Insert(q.table, r.tim, |q.reqs|), reqs := q.reqs + [Req(q.now, r.tim, q.scanning)]);
  }

  lemma {:induction false} RoutineRuns(q: Queue, calls: seq<Call>, s: seq<Slot<Call>>, rs: seq<Request>)
    returns (q': Queue, calls': seq<Call>, es: seq<Event>)
    requires Shows(q, calls, s) && Waits(rs)
    ensures Reaches(q, es, q') && Shows(q', calls', AddAll(s, rs)) && calls <= calls'
    ensures q'.scanning == q.scanning && q'.i == q.i && q'.fired == q.fired && q'.now == q.now
    decreases |rs|
  {
    if rs == [] {
      q', calls', es := q, calls, [];
    } else {
      var m := TimeoutIsEvent(q, calls, s, rs[0]);
      OneStep(q, Event.Timeout(rs[0].tim), m);
      var fs;
      q', calls', fs := RoutineRuns(m, calls + [rs[0].call], Insert(s, rs[0].tim, rs[0].call), rs[1..]);
      es := [Event.Timeout(rs[0].tim)] + fs;
      ReachesOn(q, [Event.Timeout(rs[0].tim)], m, fs, q');
    }
  }

  /** From firing number n on, q has fired the calls w. */
  ghost predicate FiredSince(q: Queue, calls: seq<Call>, n: nat, w: seq<Call>) {
    && |q.fired| == n + |w|
    && forall j :: n <= j < |q.fired| ==> q.fired[j].req < |calls| && calls[q.fired[j].req] == w[j - n]
  }

  ghost predicate ScriptWaits(script: seq<seq<Request>>) { forall k :: 0 <= k < |script| ==> Waits(script[k]) }

  /** The scan of the table is a sequence of firings and requests. */
  lemma {:induction false} ScanRuns(q: Queue, calls: seq<Call>, s: seq<Slot<Call>>, script: seq<seq<Request>>)
    returns (q': Queue, calls': seq<Call>, es: seq<Event>)
    requires Shows(q, calls, s) && q.scanning && q.i <= |s| && ScriptWaits(script)
    ensures Reaches(q, es, q') && calls <= calls' && q'.scanning && q'.now == q.now && q.fired <= q'.fired
    ensures var r := ScanFrom(s, q.i, script);
            Shows(q', calls', r.0) && q'.i == r.1 && FiredSince(q', calls', |q.fired|, r.2)
    decreases |script|, |s| - q.i
  {
    if q.i == |s| || s[q.i].time > 0 {
      q', calls', es := q, calls, [];
    } else {
      var m := q.(i := q.i + 1, fired := q.fired + [Firing(q.table[q.i].what, q.now)]);
      var u, c, fs := m, calls, [];
      if script != [] { u, c, fs := RoutineRuns(m, calls, s, script[0]); }
      var gs;
      var rest := if script == [] then [] else script[1..];
      q', calls', gs := ScanRuns(u, c, if script == [] then s else AddAll(s, script[0]), rest);
      es := FireThen(q, m, fs, u, gs, q');
      var r := ScanFrom(AfterRoutine(s, script), q.i + 1, rest);
      FirstFired(q, m, q', calls, calls', s[q.i].what, r.2);
      assert ScanFrom(s, q.i, script) == (r.0, r.1, [s[q.i].what] + r.2);
    }
  }

  function AfterRoutine(s: seq<Slot<Call>>, script: seq<seq<Request>>): (r: seq<Slot<Call>>)
    ensures |r| >= |s|
  {
    if script == [] then s else AddAll(s, script[0])
  }

  lemma FireThen(q: Queue, m: Queue, fs: seq<Event>, u: Queue, gs: seq<Event>, q': Queue) returns (es: seq<Event>)
    requires Step(q, Fire, m) && Reaches(m, fs, u) && Reaches(u, gs, q')
    ensures Reaches(q, es, q')
  {
    OneStep(q, Fire, m);
    ReachesOn(m, fs, u, gs, q');
    ReachesOn(q, [Fire], m, fs + gs, q');
    es := [Fire] + (fs + gs);
  }

  lemma FirstFired(q: Queue, m: Queue, q': Queue, calls: seq<Call>, calls': seq<Call>, w: Call, ws: seq<Call>)
    requires |m.fired| == |q.fired| + 1 && m.fired[|q.fired|].req < |calls| && calls[m.fired[|q.fired|].req] == w
    requires m.fired <= q'.fired && calls <= calls' && FiredSince(q', calls', |m.fired|, ws)
    ensures FiredSince(q', calls', |q.fired|, [w] + ws)
  {
    var n := |q.fired|;
    assert q'.fired[n] == m.fired[n];
    forall j | n <= j < |q'.fired|
      ensures q'.fired[j].req < |calls'| && calls'[q'.fired[j].req] == ([w] + ws)[j - n]
    {
    }
  }

  /** CalloutTable.Table.Clock is one tick of the machine: the same table, the same calls fired in the same order. */
  lemma ClockIsRun(q: Queue, calls: seq<Call>, s: seq<Slot<Call>>, script: seq<seq<Request>>)
    returns (q': Queue, calls': seq<Call>, es: seq<Event>)
    requires Shows(q, calls, s) && !q.scanning && ScriptWaits(script)
    ensures Reaches(q, es, q') && calls <= calls' && !q'.scanning && q'.now == q.now + 1 && q.fired <= q'.fired
    ensures var r := ScanFrom(Decrement(s), 0, script);
            Shows(q', calls', r.0[r.1..]) && FiredSince(q', calls', |q.fired|, r.2)
  {
    var m := q.(now := q.now + 1, table := Decrement(q.table), scanning := true, i := 0);
    OneStep(q, TickBegin, m);
    DecrementSame(q.table, calls, s);
    var u, fs;
    u, calls', fs := ScanRuns(m, calls, Decrement(s), script);
    ScanStops(Decrement(s), 0, script);
    q' := u.(table := u.table[u.i..], scanning := false, i := 0);
    OneStep(u, TickEnd, q');
    ReachesOn(q, [TickBegin], m, fs, u);
    ReachesOn(q, [TickBegin] + fs, u, [TickEnd], q');
    es := [TickBegin] + fs + [TickEnd];
  }

  lemma {:induction false} ScanStops(s: seq<Slot<Call>>, i: nat, script: seq<seq<Request>>)
    requires i <= |s|
    ensures var r := ScanFrom(s, i, script); r.1 < |r.0| ==> r.0[r.1].time > 0
    decreases |script|, |s| - i
  {
    if i < |s| && s[i].time <= 0 {
      if script == [] { ScanStops(s, i + 1, []); } else { ScanStops(AddAll(s, script[0]), i + 1, script[1..]); }
    }
  }

  /** So what CalloutQueue proves of its runs holds of whatever the table code reaches. */
  lemma {:induction false} ReachesIsRun(es: seq<Event>, q: Queue) returns (qs: seq<Queue>)
    requires Reaches(Initial(), es, q)
    ensures IsRun(qs, es) && qs[|es|] == q
  {
    qs := States(Initial(), es, q);
  }

  lemma {:induction false} States(p: Queue, es: seq<Event>, q: Queue) returns (qs: seq<Queue>)
    requires Reaches(p, es, q)
    ensures |qs| == |es| + 1 && qs[0] == p && qs[|es|] == q && forall n :: 0 <= n < |es| ==> Step(qs[n], es[n], qs[n+1])
    decreases |es|
  {
    if es == [] {
      qs := [p];
    } else {
      var m: Queue :| Step(p, es[0], m) && Reaches(m, es[1..], q);
      var rs := States(m, es[1..], q);
      qs := [p] + rs;
      forall n | 0 <= n < |es|
        ensures Step(qs[n], es[n], qs[n+1])
      {
        assert n > 0 ==> Step(rs[n-1], es[1..][n-1], rs[n]);
      }
    }
  }
}
