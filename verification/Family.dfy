/** Parents and children: whose child a new process is, who may wait for it, and what no step changes of a process. */
module Family {
  import opened Options
  import opened ResourceMap
  import opened Ownership

  predicate Alive(p: Proc) { p.stat != SNULL && p.stat != SZOMB }

  /* ---------------------------------------------------------------- fork */

  /** After a fork the child is ready to run, in core of its own, with the number chosen for it, of the parent's size,
      and the parent's child; no other process has changed, and core is the poorer by the child's region only. */
  lemma Forked(b: Bounds, addr0: int, size0: int, es: seq<Event>, i: int, c: int, pid: int)
    requires GoodBounds(b) && 0 < size0
    requires var s := After(b, addr0, size0, es); |s.proc| == NPROC && Enabled(s, Fork(i, c, pid))
    ensures var s, t := After(b, addr0, size0, es), After(b, addr0, size0, es + [Fork(i, c, pid)]);
            && |t.proc| == NPROC && t.sched == s.sched && t.swap == s.swap
            && (forall j :: 0 <= j < NPROC && j != c ==> t.proc[j] == s.proc[j])
            && var p := t.proc[c];
               && p.stat == SRUN && p.load && !p.lock && p.call == NoCall
               && p.pid == pid && p.ppid == s.proc[i].pid && p.size == s.proc[i].size
               && (forall u :: p.addr <= u < p.addr + p.size ==> Has(s.core, u))
               && (forall u :: Has(t.core, u) <==> Has(s.core, u) && !(p.addr <= u < p.addr + p.size))
  {
    var s := After(b, addr0, size0, es);
    NothingLostOrShared(b, addr0, size0, es);
    AfterMore(b, addr0, size0, es, Fork(i, c, pid));
    assert ProcOk(s, i);
    AllocCorrect(s.core, s.proc[i].size);
  }

  lemma AfterMore(b: Bounds, addr0: int, size0: int, es: seq<Event>, e: Event)
    requires GoodBounds(b) && 0 < size0
    ensures var s := After(b, addr0, size0, es);
            && Inv(s, b) && Shape(s)
            && After(b, addr0, size0, es + [e]) == if Enabled(s, e) then Step(s, e) else s
  {
    NothingLostOrShared(b, addr0, size0, es);
    assert (es + [e])[..|es|] == es;
  }

  /* ---------------------------------------------------------------- parent and child */

  /** Slot c holds process pid, a child of the live process number q in slot i. */
  ghost predicate IsChild(s: State, c: int, pid: int, i: int, q: int) {
    && |s.proc| == NPROC && IsProc(c) && 0 <= i < NPROC && i != c
    && 0 < pid == s.proc[c].pid && s.proc[c].ppid == q == s.proc[i].pid && Alive(s.proc[i])
  }

  /** Slot c holds process pid, which process 1 has taken over. */
  ghost predicate IsOrphan(s: State, c: int, pid: int) {
    |s.proc| == NPROC && IsProc(c) && 0 < pid == s.proc[c].pid && s.proc[c].ppid == 1
  }

  lemma ChildExits(s: State, b: Bounds, c: int, pid: int, i: int, q: int)
    requires Inv(s, b) && Shape(s) && Enabled(s, ExitEnd(c)) && IsChild(s, c, pid, i, q)
    ensures IsChild(Step(s, ExitEnd(c)), c, pid, i, q)
  {
    assert s.proc[i].pid == s.proc[c].ppid;
    assert ProcOk(s, i) && ProcOk(s, c);
  }

  lemma OtherExits(s: State, b: Bounds, k: int, c: int, pid: int, i: int, q: int)
    requires Inv(s, b) && Shape(s) && Enabled(s, ExitEnd(k)) && IsChild(s, c, pid, i, q) && k != c && k != i
    ensures IsChild(Step(s, ExitEnd(k)), c, pid, i, q)
  {
    assert ProcOk(s, i) && ProcOk(s, k);
  }

  lemma ParentExits(s: State, b: Bounds, c: int, pid: int, i: int, q: int)
    requires Inv(s, b) && Shape(s) && Enabled(s, ExitEnd(i)) && IsChild(s, c, pid, i, q)
    ensures IsOrphan(Step(s, ExitEnd(i)), c, pid)
  {
  }

  /** Every step but the parent's exit leaves the child its parent. */
  lemma ChildStep(s: State, b: Bounds, e: Event, c: int, pid: int, i: int, q: int)
    requires Inv(s, b) && Shape(s) && Enabled(s, e) && IsChild(s, c, pid, i, q) && Step(s, e).proc[c].pid == pid
    ensures if e == ExitEnd(i) then IsOrphan(Step(s, e), c, pid) else IsChild(Step(s, e), c, pid, i, q)
  {
    match e {
      case ExitEnd(k) =>
        if k == i { ParentExits(s, b, c, pid, i, q); }
        else if k == c { ChildExits(s, b, c, pid, i, q); }
        else { OtherExits(s, b, k, c, pid, i, q); }
      case _ => PlainStep(s, b, e, c, pid, i, q);
    }
  }

  lemma PlainStep(s: State, b: Bounds, e: Event, c: int, pid: int, i: int, q: int)
    requires Inv(s, b) && Shape(s) && Enabled(s, e) && IsChild(s, c, pid, i, q) && Step(s, e).proc[c].pid == pid
    requires !e.ExitEnd?
    ensures IsChild(Step(s, e), c, pid, i, q)
  {
    assert ProcOk(s, c) && ProcOk(s, i);
    match e {
      case WaitEnd(k) => assert ProcOk(s, k);
      case InEnd => assert ProcOk(s, s.sched.p);
      case OutEnd => assert ProcOk(s, s.sched.p);
      case _ =>
    }
  }

  lemma OrphanStep(s: State, b: Bounds, e: Event, c: int, pid: int)
    requires Inv(s, b) && Shape(s) && Enabled(s, e) && IsOrphan(s, c, pid) && Step(s, e).proc[c].pid == pid
    ensures IsOrphan(Step(s, e), c, pid)
  {
    assert ProcOk(s, c);
    match e {
      case WaitEnd(k) => assert ProcOk(s, k);
      case _ =>
    }
  }

  ghost predicate Leaves(s: State, e: Event, i: int) { e == ExitEnd(i) && |s.proc| == NPROC && Enabled(s, e) }

  /** A child of q, or, once q is gone, of process 1. */
  ghost predicate IsOf(s: State, gone: bool, c: int, pid: int, i: int, q: int) {
    if gone then IsOrphan(s, c, pid) else IsChild(s, c, pid, i, q)
  }

  /** What a step from s to t does to the child. */
  ghost predicate Keeps(s: State, e: Event, t: State, c: int, pid: int, i: int, q: int) {
    && (IsOf(s, true, c, pid, i, q) ==> IsOf(t, true, c, pid, i, q))
    && (IsOf(s, false, c, pid, i, q) ==> IsOf(t, Leaves(s, e, i), c, pid, i, q))
  }

  /** The state after k of the later events. */
  ghost function Later(b: Bounds, addr0: int, size0: int, es: seq<Event>, more: seq<Event>): nat -> State {
    (k: nat) => After(b, addr0, size0, es + if k <= |more| then more[..k] else more)
  }

  /** The process in slot i exits among the first k events. */
  ghost predicate Exits(st: nat -> State, more: seq<Event>, i: int, k: nat) {
    k <= |more| && exists j :: 0 <= j < k && Leaves(st(j), more[j], i)
  }

  lemma {:induction false} ParentOverTime(st: nat -> State, more: seq<Event>, c: int, pid: int, i: int, q: int, k: nat)
    requires IsOf(st(0), false, c, pid, i, q) && k <= |more|
    requires forall j :: 0 <= j < |more| ==> Keeps(st(j), more[j], st(j + 1), c, pid, i, q)
    ensures IsOf(st(k), Exits(st, more, i, k), c, pid, i, q)
  {
    if k > 0 {
      ParentOverTime(st, more, c, pid, i, q, k - 1);
      ExitsMore(st, more, i, k);
      assert Keeps(st(k - 1), more[k-1], st(k), c, pid, i, q);
    }
  }

  lemma ExitsMore(st: nat -> State, more: seq<Event>, i: int, k: nat)
    requires 0 < k <= |more|
    ensures Exits(st, more, i, k) <==> Exits(st, more, i, k - 1) || Leaves(st(k - 1), more[k-1], i)
  {
  }

  /** Nobody has reaped the child: its slot keeps its number all along. */
  ghost predicate NotReaped(st: nat -> State, more: seq<Event>, c: int, pid: int) {
    forall k :: 0 <= k <= |more| ==> var s := st(k); |s.proc| == NPROC && IsProc(c) && s.proc[c].pid == pid
  }

  /** As long as a child has not been reaped, its parent is the process that forked it, until that exits, and process 1
      from then on. */
  lemma KeepsParent(b: Bounds, addr0: int, size0: int, es: seq<Event>, more: seq<Event>,
                    c: int, pid: int, i: int, q: int, k: nat)
    requires GoodBounds(b) && 0 < size0 && IsChild(After(b, addr0, size0, es), c, pid, i, q) && k <= |more|
    requires NotReaped(Later(b, addr0, size0, es, more), more, c, pid)
    ensures var st := Later(b, addr0, size0, es, more);
            IsOf(st(k), Exits(st, more, i, k), c, pid, i, q)
  {
    var st := Later(b, addr0, size0, es, more);
    assert es + more[..0] == es;
    forall j | 0 <= j < |more|
      ensures Keeps(st(j), more[j], st(j + 1), c, pid, i, q)
    {
      var s := st(j + 1);
      assert |s.proc| == NPROC;
      assert (es + more[..j]) + [more[j]] == es + more[..j+1];
      KeepsStep(b, addr0, size0, es + more[..j], more[j], es + more[..j+1], c, pid, i, q);
    }
    ParentOverTime(st, more, c, pid, i, q, k);
  }

  lemma KeepsStep(b: Bounds, addr0: int, size0: int, es: seq<Event>, e: Event, all: seq<Event>,
                  c: int, pid: int, i: int, q: int)
    requires GoodBounds(b) && 0 < size0 && all == es + [e]
    requires var t := After(b, addr0, size0, all); |t.proc| == NPROC && IsProc(c) && t.proc[c].pid == pid
    ensures Keeps(After(b, addr0, size0, es), e, After(b, addr0, size0, all), c, pid, i, q)
  {
    AfterMore(b, addr0, size0, es, e);
    var s := After(b, addr0, size0, es);
    if Enabled(s, e) {
      if IsOrphan(s, c, pid) { OrphanStep(s, b, e, c, pid); }
      if IsChild(s, c, pid, i, q) { ChildStep(s, b, e, c, pid, i, q); }
    }
  }

  /* ---------------------------------------------------------------- who reaps it */

  /** A child that has exited can be reaped by the wait of the process that forked it, or, if that exited first, by the
      wait of process 1. */
  lemma CanBeReaped(b: Bounds, addr0: int, size0: int, es: seq<Event>, more: seq<Event>, i: int, c: int, pid: int,
                    k: int)
    requires GoodBounds(b) && 0 < size0
    requires var s := After(b, addr0, size0, es); |s.proc| == NPROC && Enabled(s, Fork(i, c, pid)) && i != c
    requires var st := Later(b, addr0, size0, es + [Fork(i, c, pid)], more);
             && NotReaped(st, more, c, pid)
             && var t := st(|more|);
                && |t.proc| == NPROC && t.proc[c].stat == SZOMB && Running(t, k) && t.proc[k].call.NoCall?
                && if Exits(st, more, i, |more|) then t.proc[k].pid == 1 else k == i
    ensures Enabled(Later(b, addr0, size0, es + [Fork(i, c, pid)], more)(|more|), WaitBegin(k, c))
  {
    var s := After(b, addr0, size0, es);
    Forked(b, addr0, size0, es, i, c, pid);
    KeepsParent(b, addr0, size0, es + [Fork(i, c, pid)], more, c, pid, i, s.proc[i].pid, |more|);
  }

  /* ---------------------------------------------------------------- what a step leaves alone */

  /** The step makes a process in slot j. */
  predicate Makes(e: Event, j: int) { e.Fork? && e.child == j }

  /** The step clears slot j. */
  predicate Reaps(s: State, e: Event, j: int)
    requires |s.proc| == NPROC
  {
    e.WaitEnd? && 0 <= e.i < NPROC && s.proc[e.i].call.Reaping? && s.proc[e.i].call.z == j
  }

  /** Numbers and sizes last as long as the process; its state, residence, call and address change by the steps they
      belong to and by no other. */
  lemma LeftAlone(s: State, b: Bounds, e: Event, j: int)
    requires Inv(s, b) && Shape(s) && Enabled(s, e) && 0 <= j < NPROC && !Makes(e, j) && !Reaps(s, e, j)
    ensures var p, q := s.proc[j], Step(s, e).proc[j];
            && q.pid == p.pid && q.size == p.size
            && q.stat == (if e == ExitEnd(j) then SZOMB else if e.Sleep? && e.i == j then e.stat
                          else if e == Wakeup(j) then SRUN else p.stat)
            && q.load == (if e == OutBegin(j) then false else if e == InEnd && s.sched.p == j then true else p.load)
            && q.lock == (if e == OutBegin(j) then true else if e == OutEnd && s.sched.p == j then false else p.lock)
            && (q.addr == p.addr || e == ExitEnd(j) || ((e == InEnd || e == OutEnd) && s.sched.p == j))
  {
    match e {
      case InEnd => assert ProcOk(s, s.sched.p);
      case OutEnd => assert ProcOk(s, s.sched.p);
      case WaitEnd(i) => assert ProcOk(s, i);
      case _ =>
    }
  }

  /** The swapper deals with one process at a time, from the beginning of a transfer to its end. */
  lemma SwapperGoesOn(s: State, b: Bounds, e: Event)
    requires Inv(s, b) && Shape(s) && Enabled(s, e)
    ensures var t := Step(s, e);
            if e.InBegin? then s.sched == Idle && t.sched.SwapIn? && t.sched.p == e.i && Has(s.core, t.sched.a)
            else if e.OutBegin? then s.sched == Idle && t.sched.SwapOut? && t.sched.p == e.i && Has(s.swap, t.sched.a)
            else if e == InEnd || e == OutEnd then t.sched == Idle && t.proc[s.sched.p].addr == s.sched.a
            else t.sched == s.sched
  {
    match e {
      case InBegin(i) =>
        assert ProcOk(s, i);
        AllocCorrect(s.core, s.proc[i].size);
      case OutBegin(i) =>
        assert ProcOk(s, i);
        AllocCorrect(s.swap, BLOCKS * s.proc[i].size);
      case _ =>
    }
  }

  /** Where a process is in a call: exit and wait each begin and end once, and nobody else's step moves it. */
  lemma CallsGoOn(s: State, b: Bounds, e: Event, j: int)
    requires Inv(s, b) && Shape(s) && Enabled(s, e) && 0 <= j < NPROC && !Makes(e, j) && !Reaps(s, e, j)
    ensures var p, q := s.proc[j].call, Step(s, e).proc[j].call;
            if e == ExitBegin(j) then q.Exiting? && Has(s.swap, q.a)
            else if e.WaitBegin? && e.i == j then q == Reaping(e.z, s.proc[e.z].addr)
            else if e == ExitEnd(j) || e == WaitEnd(j) then q == NoCall
            else q == p
  {
    match e {
      case ExitBegin(i) => AllocCorrect(s.swap, 1);
      case WaitEnd(i) => assert ProcOk(s, i);
      case _ =>
    }
  }

  /** The end of wait: the slot is free again, for newproc to find. */
  lemma Reaped(s: State, b: Bounds, i: int)
    requires Inv(s, b) && Shape(s) && Enabled(s, WaitEnd(i))
    ensures var z := s.proc[i].call.z;
            && IsProc(z) && s.proc[z].stat == SZOMB && s.proc[z].ppid == s.proc[i].pid
            && var q := Step(s, WaitEnd(i)).proc[z];
               q.stat == SNULL && q.pid == 0 && q.ppid == 0 && !q.load && !q.lock
  {
    assert ProcOk(s, i);
  }
}
