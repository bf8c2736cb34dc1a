/** Who owns core and swap.  Regions pass between the free maps, process images, zombies and the swapper's hands;
    a step is what a process or the swapper does between two sleeps. */
module Ownership {
  import opened Options
  import opened ResourceMap

  const NPROC := 50
  const BLOCKS := 8        // disk blocks in a page: PAGESIZ/512

  datatype Stat = SNULL | SSLEEP | SWAIT | SRUN | SZOMB | SSTOP

  /** Where a process is in a call that sleeps half way. */
  datatype Call = NoCall | Exiting(a: int) | Reaping(z: int, f: int)

  datatype Proc = Proc(stat: Stat, load: bool, lock: bool, pid: int, ppid: int, addr: int, size: int, call: Call)

  /** What the swapper (process 0) is in the middle of. */
  datatype Sched = Idle | SwapIn(p: int, a: int) | SwapOut(p: int, a: int)

  datatype State = State(proc: seq<Proc>, sched: Sched, core: seq<Seg>, swap: seq<Seg>)

  datatype Event =
    | Fork(i: int, child: int, pid: int)
    | ExitBegin(i: int)
    | ExitEnd(i: int)
    | WaitBegin(i: int, z: int)
    | WaitEnd(i: int)
    | Sleep(i: int, stat: Stat)
    | Wakeup(i: int)
    | InBegin(i: int)
    | InEnd
    | OutBegin(i: int)
    | OutEnd

  predicate IsProc(i: int) { 0 < i < NPROC }

  /** The image is in core: resident, or on its way out and not yet released. */
  predicate InCore(p: Proc) { p.stat != SNULL && p.stat != SZOMB && (p.load || p.lock) }

  predicate SwappedOut(p: Proc) { p.stat != SNULL && p.stat != SZOMB && !p.load && !p.lock }

  /* ---------------------------------------------------------------- claims */

  /** Who may hold a region: a process image (or the status block a zombie leaves), the swapper, a process on its way
      out. */
  datatype Holder = Image(i: int) | Swapper | Leaver(i: int)

  function CoreClaim(s: State, h: Holder): Option<Seg>
    requires |s.proc| == NPROC
  {
    match h
    case Image(i) => if IsProc(i) && InCore(s.proc[i]) then Some(Seg(s.proc[i].addr, s.proc[i].size)) else None
    case Swapper => if s.sched.SwapIn? && IsProc(s.sched.p) then Some(Seg(s.sched.a, s.proc[s.sched.p].size)) else None
    case Leaver(_) => None
  }

  function SwapClaim(s: State, h: Holder): Option<Seg>
    requires |s.proc| == NPROC
  {
    match h
    case Image(i) =>
      if !IsProc(i) then None
      else if s.proc[i].stat == SZOMB then Some(Seg(s.proc[i].addr, 1))
      else if SwappedOut(s.proc[i]) then Some(Seg(s.proc[i].addr, BLOCKS * s.proc[i].size))
      else None
    case Swapper => if s.sched.SwapOut? && IsProc(s.sched.p) then Some(Seg(s.sched.a, BLOCKS * s.proc[s.sched.p].size))
        else None
    case Leaver(i) => if IsProc(i) && s.proc[i].call.Exiting? then Some(Seg(s.proc[i].call.a, 1)) else None
  }

  predicate Covers(g: Option<Seg>, u: int) { g.Some? && In(g.value, u) }

  ghost predicate Claimed(claim: Holder -> Option<Seg>, u: int) { exists h :: Covers(claim(h), u) }

  /** The free map and the claims are pairwise disjoint and make up exactly [lo, hi). */
  ghost predicate Split(free: seq<Seg>, claim: Holder -> Option<Seg>, lo: int, hi: int) {
    && 0 < lo && WF(free)
    && (forall h :: claim(h).Some? ==> 0 < claim(h).value.size && 0 < claim(h).value.addr)
    && (forall h, u :: Covers(claim(h), u) ==> !Has(free, u))
    && (forall h, k, u :: Covers(claim(h), u) && Covers(claim(k), u) ==> h == k)
    && (forall u :: lo <= u < hi <==> Has(free, u) || Claimed(claim, u))
  }

  /** A region comes out of the free map into the hands of h. */
  lemma SplitTake(free: seq<Seg>, c: Holder -> Option<Seg>, d: Holder -> Option<Seg>, h: Holder, size: int, lo: int,
                  hi: int)
    requires Split(free, c, lo, hi) && 0 < size && Alloc(free, size).1 != 0
    requires c(h).None? && d(h) == Some(Seg(Alloc(free, size).1, size)) && forall k :: k != h ==> d(k) == c(k)
    ensures Split(Alloc(free, size).0, d, lo, hi)
  {
    var (t, a) := Alloc(free, size);
    AllocCorrect(free, size);
    assert Has(free, a);
    forall k, u | Covers(d(k), u)
      ensures !Has(t, u) && (k != h ==> !(a <= u < a + size))
    {
      assert k != h ==> Covers(c(k), u);
    }
    forall j, k, u | Covers(d(j), u) && Covers(d(k), u)
      ensures j == k
    {
      assert j != h ==> Covers(c(j), u) && !Has(free, u);
      assert k != h ==> Covers(c(k), u) && !Has(free, u);
    }
    forall u
      ensures lo <= u < hi <==> Has(t, u) || Claimed(d, u)
    {
      if Claimed(c, u) {
        var k :| Covers(c(k), u);
        assert Covers(d(k), u);
      }
      if a <= u < a + size {
        assert Covers(d(h), u);
      }
    }
  }

  /** The region held by h goes back to the free map. */
  lemma SplitGive(free: seq<Seg>, c: Holder -> Option<Seg>, d: Holder -> Option<Seg>, h: Holder, lo: int, hi: int)
    requires Split(free, c, lo, hi) && c(h).Some?
    requires d(h).None? && forall k :: k != h ==> d(k) == c(k)
    ensures Disjoint(free, c(h).value.addr, c(h).value.size)
    ensures Split(Insert(free, c(h).value.addr, c(h).value.size), d, lo, hi)
  {
    var g := c(h).value;
    forall u | g.addr <= u < g.addr + g.size
      ensures !Has(free, u)
    {
      assert Covers(c(h), u);
    }
    InsertCorrect(free, g.addr, g.size);
    var t := Insert(free, g.addr, g.size);
    forall k, u | Covers(d(k), u)
      ensures !Has(t, u)
    {
      assert Covers(c(k), u) && k != h;
    }
    forall u
      ensures lo <= u < hi <==> Has(t, u) || Claimed(d, u)
    {
      assert In(g, u) <==> Covers(c(h), u);
      if Claimed(c, u) {
        var k :| Covers(c(k), u);
        assert k != h ==> Covers(d(k), u);
      }
      if Claimed(d, u) {
        var k :| Covers(d(k), u);
        assert Covers(c(k), u);
      }
    }
  }

  /** A region changes hands: what x held, y now holds. */
  lemma SplitMove(free: seq<Seg>, c: Holder -> Option<Seg>, d: Holder -> Option<Seg>, x: Holder, y: Holder, lo: int,
                  hi: int)
    requires Split(free, c, lo, hi) && c(x).Some? && c(y).None? && x != y
    requires d(y) == c(x) && d(x).None? && forall k :: k != x && k != y ==> d(k) == c(k)
    ensures Split(free, d, lo, hi)
  {
    forall u
      ensures Claimed(d, u) <==> Claimed(c, u)
    {
      if Claimed(c, u) {
        var k :| Covers(c(k), u);
        assert Covers(d(if k == x then y else k), u);
      }
      if Claimed(d, u) {
        var k :| Covers(d(k), u);
        assert Covers(c(if k == y then x else k), u);
      }
    }
    forall h, k, u | Covers(d(h), u) && Covers(d(k), u)
      ensures h == k
    {
      assert Covers(c(if h == y then x else h), u) && Covers(c(if k == y then x else k), u);
    }
    forall h, u | Covers(d(h), u)
      ensures !Has(free, u)
    {
      assert Covers(c(if h == y then x else h), u);
    }
  }

  lemma SplitSame(free: seq<Seg>, c: Holder -> Option<Seg>, d: Holder -> Option<Seg>, lo: int, hi: int)
    requires Split(free, c, lo, hi) && forall h :: d(h) == c(h)
    ensures Split(free, d, lo, hi)
  {
    forall u
      ensures Claimed(d, u) <==> Claimed(c, u)
    {
      if Claimed(c, u) { var k :| Covers(c(k), u); assert Covers(d(k), u); }
      if Claimed(d, u) { var k :| Covers(d(k), u); assert Covers(c(k), u); }
    }
    assert forall h, u :: Covers(d(h), u) ==> Covers(c(h), u);
  }

  /* ---------------------------------------------------------------- steps */

  /** A process executes only when it is runnable and resident (swtch, ken/slp.c:293). */
  predicate Running(s: State, i: int)
    requires |s.proc| == NPROC
  {
    IsProc(i) && s.proc[i].stat == SRUN && s.proc[i].load
  }

  predicate Enabled(s: State, e: Event)
    requires |s.proc| == NPROC
  {
    match e
    case Fork(i, c, pid) =>
      && (Running(s, i) || (i == 0 && s.proc[0].stat == SRUN && s.proc[0].load))
      && s.proc[i].call.NoCall? && IsProc(c) && s.proc[c].stat == SNULL
      && pid > 0 && (forall j :: 0 <= j < NPROC ==> s.proc[j].pid != pid)
      && Alloc(s.core, s.proc[i].size).1 != 0
    case ExitBegin(i) => Running(s, i) && s.proc[i].call.NoCall? && Alloc(s.swap, 1).1 != 0
    case ExitEnd(i) => Running(s, i) && s.proc[i].call.Exiting?
    case WaitBegin(i, z) =>
      && Running(s, i) && s.proc[i].call.NoCall? && IsProc(z)
      && s.proc[z].ppid == s.proc[i].pid && s.proc[z].stat == SZOMB
    case WaitEnd(i) => Running(s, i) && s.proc[i].call.Reaping?
    case Sleep(i, stat) => Running(s, i) && (stat == SSLEEP || stat == SWAIT || stat == SSTOP)
    case Wakeup(i) => IsProc(i) && (s.proc[i].stat == SSLEEP || s.proc[i].stat == SWAIT || s.proc[i].stat == SSTOP)
    case InBegin(i) =>
      && s.sched.Idle? && IsProc(i) && s.proc[i].stat == SRUN && !s.proc[i].load
      && Alloc(s.core, s.proc[i].size).1 != 0
    case InEnd => s.sched.SwapIn?
    case OutBegin(i) =>
      && s.sched.Idle? && IsProc(i) && s.proc[i].load && !s.proc[i].lock
      && (s.proc[i].stat == SWAIT || s.proc[i].stat == SSTOP || s.proc[i].stat == SRUN || s.proc[i].stat == SSLEEP)
      && Alloc(s.swap, BLOCKS * s.proc[i].size).1 != 0
    case OutEnd => s.sched.SwapOut?
  }

  function Set(s: State, i: int, p: Proc): State
    requires |s.proc| == NPROC && 0 <= i < NPROC
  {
    s.(proc := s.proc[i := p])
  }

  /** exit's last loop: orphans go to process 1. */
  function Adopt(procs: seq<Proc>, pid: int): (r: seq<Proc>)
    ensures |r| == |procs|
    ensures forall j :: 0 <= j < |procs| ==> r[j] == if procs[j].ppid == pid then procs[j].(ppid := 1) else procs[j]
  {
    seq(|procs|, j requires 0 <= j < |procs| => if procs[j].ppid == pid then procs[j].(ppid := 1) else procs[j])
  }

  /** exit: the parent named in p_ppid, or process 1 when there is none. */
  function Heir(procs: seq<Proc>, i: int): int
    requires 0 <= i < |procs|
  {
    if exists j :: 0 <= j < |procs| && procs[j].pid == procs[i].ppid then procs[i].ppid else 1
  }

  ghost predicate Shape(s: State) {
    && |s.proc| == NPROC
    && (s.sched.SwapIn? ==> IsProc(s.sched.p)) && (s.sched.SwapOut? ==> IsProc(s.sched.p))
    && (forall i :: IsProc(i) && s.proc[i].call.Reaping? ==> IsProc(s.proc[i].call.z))
  }

  function Step(s: State, e: Event): State
    requires Shape(s) && Enabled(s, e)
  {
    match e
    case Fork(i, c, pid) =>
      var (t, a) := Alloc(s.core, s.proc[i].size);
      Set(s, c, Proc(SRUN, true, false, pid, s.proc[i].pid, a, s.proc[i].size, NoCall)).(core := t)
    case ExitBegin(i) =>
      var (t, a) := Alloc(s.swap, 1);
      Set(s, i, s.proc[i].(call := Exiting(a))).(swap := t)
    case ExitEnd(i) =>
      var p := s.proc[i];
      var t := Set(s, i, p.(addr := p.call.a, stat := SZOMB, call := NoCall, ppid := Heir(s.proc, i)));
      t.(core := Insert(s.core, p.addr, p.size), proc := Adopt(t.proc, p.pid))
    case WaitBegin(i, z) => Set(s, i, s.proc[i].(call := Reaping(z, s.proc[z].addr)))
    case WaitEnd(i) =>
      var z, f := s.proc[i].call.z, s.proc[i].call.f;
      var t := Set(s, i, s.proc[i].(call := NoCall));
      Set(t, z, t.proc[z].(stat := SNULL, pid := 0, ppid := 0, load := false, lock := false))
        .(swap := Insert(s.swap, f, 1))
    case Sleep(i, stat) => Set(s, i, s.proc[i].(stat := stat))
    case Wakeup(i) => Set(s, i, s.proc[i].(stat := SRUN))
    case InBegin(i) =>
      var (t, a) := Alloc(s.core, s.proc[i].size);
      s.(sched := SwapIn(i, a), core := t)
    case InEnd =>
      var i, a := s.sched.p, s.sched.a;
      Set(s, i, s.proc[i].(addr := a, load := true))
        .(sched := Idle, swap := Insert(s.swap, s.proc[i].addr, BLOCKS * s.proc[i].size))
    case OutBegin(i) =>
      var (t, a) := Alloc(s.swap, BLOCKS * s.proc[i].size);
      Set(s, i, s.proc[i].(load := false, lock := true)).(sched := SwapOut(i, a), swap := t)
    case OutEnd =>
      var i, a := s.sched.p, s.sched.a;
      Set(s, i, s.proc[i].(addr := a, load := false, lock := false))
        .(sched := Idle, core := Insert(s.core, s.proc[i].addr, s.proc[i].size))
  }

  /* ---------------------------------------------------------------- the invariant */

  ghost predicate ProcOk(s: State, i: int)
    requires |s.proc| == NPROC && 0 <= i < NPROC
  {
    var p := s.proc[i];
    && (p.stat != SNULL ==> 0 < p.size)
    && (i > 0 && p.stat != SNULL ==> 0 < p.pid)
    && (p.stat == SNULL || i == 0 ==> p.pid == 0)
    && (p.stat == SNULL || p.stat == SZOMB ==> p.call.NoCall?)
    && (p.lock ==> s.sched.SwapOut? && s.sched.p == i && !p.load)
    && (p.call.Reaping? ==>
          IsProc(p.call.z) && s.proc[p.call.z].stat == SZOMB && s.proc[p.call.z].addr == p.call.f
              && s.proc[p.call.z].ppid == p.pid)
  }

  ghost predicate Sane(s: State) {
    && |s.proc| == NPROC
    && (forall i :: 0 <= i < NPROC ==> ProcOk(s, i))
    && (forall i, j :: IsProc(i) && IsProc(j) && s.proc[i].pid == s.proc[j].pid && s.proc[i].pid > 0 ==> i == j)
    && (s.sched.SwapIn? ==> IsProc(s.sched.p) && SwappedOut(s.proc[s.sched.p]) && s.proc[s.sched.p].stat == SRUN)
    && (s.sched.SwapOut? ==> IsProc(s.sched.p) && s.proc[s.sched.p].lock
                             && s.proc[s.sched.p].stat != SNULL && s.proc[s.sched.p].stat != SZOMB)
  }

  datatype Bounds = Bounds(clo: int, chi: int, slo: int, shi: int)

  ghost predicate CoreSplit(s: State, b: Bounds)
    requires |s.proc| == NPROC
  {
    Split(s.core, h => CoreClaim(s, h), b.clo, b.chi)
  }

  ghost predicate SwapSplit(s: State, b: Bounds)
    requires |s.proc| == NPROC
  {
    Split(s.swap, h => SwapClaim(s, h), b.slo, b.shi)
  }

  ghost predicate Inv(s: State, b: Bounds) { Sane(s) && CoreSplit(s, b) && SwapSplit(s, b) }

  /* ---------------------------------------------------------------- every step keeps it */

  lemma ForkKeeps(s: State, b: Bounds, i: int, c: int, pid: int)
    requires Inv(s, b) && Shape(s) && Enabled(s, Fork(i, c, pid))
    ensures Inv(Step(s, Fork(i, c, pid)), b)
  {
    var t := Step(s, Fork(i, c, pid));
    assert ProcOk(s, i) && ProcOk(s, c);
    forall j | 0 <= j < NPROC
      ensures ProcOk(t, j)
    {
      assert ProcOk(s, j);
    }
    SplitTake(s.core, h => CoreClaim(s, h), h => CoreClaim(t, h), Image(c), s.proc[i].size, b.clo, b.chi);
    SplitSame(s.swap, h => SwapClaim(s, h), h => SwapClaim(t, h), b.slo, b.shi);
  }

  lemma ExitBeginKeeps(s: State, b: Bounds, i: int)
    requires Inv(s, b) && Shape(s) && Enabled(s, ExitBegin(i))
    ensures Inv(Step(s, ExitBegin(i)), b)
  {
    var t := Step(s, ExitBegin(i));
    forall j | 0 <= j < NPROC
      ensures ProcOk(t, j)
    {
      assert ProcOk(s, j);
    }
    SplitTake(s.swap, h => SwapClaim(s, h), h => SwapClaim(t, h), Leaver(i), 1, b.slo, b.shi);
    SplitSame(s.core, h => CoreClaim(s, h), h => CoreClaim(t, h), b.clo, b.chi);
  }

  /** Nobody is waiting on a child of a process that is itself running exit. */
  lemma ExitProcs(s: State, i: int)
    requires Sane(s) && Shape(s) && Enabled(s, ExitEnd(i))
    ensures Sane(Step(s, ExitEnd(i)))
  {
    var t := Step(s, ExitEnd(i));
    assert ProcOk(s, i);
    forall j | 0 <= j < NPROC
      ensures ProcOk(t, j)
    {
      assert ProcOk(s, j);
      if s.proc[j].call.Reaping? {
        assert s.proc[s.proc[j].call.z].stat == SZOMB && s.proc[j].call.z != i;
        assert j != i && s.proc[j].pid != s.proc[i].pid;
      }
    }
  }

  lemma ExitEndKeeps(s: State, b: Bounds, i: int)
    requires Inv(s, b) && Shape(s) && Enabled(s, ExitEnd(i))
    ensures Inv(Step(s, ExitEnd(i)), b)
  {
    var t := Step(s, ExitEnd(i));
    ExitProcs(s, i);
    assert ProcOk(s, i);
    SplitGive(s.core, h => CoreClaim(s, h), h => CoreClaim(t, h), Image(i), b.clo, b.chi);
    SplitMove(s.swap, h => SwapClaim(s, h), h => SwapClaim(t, h), Leaver(i), Image(i), b.slo, b.shi);
  }

  lemma WaitBeginKeeps(s: State, b: Bounds, i: int, z: int)
    requires Inv(s, b) && Shape(s) && Enabled(s, WaitBegin(i, z))
    ensures Inv(Step(s, WaitBegin(i, z)), b)
  {
    var t := Step(s, WaitBegin(i, z));
    forall j | 0 <= j < NPROC
      ensures ProcOk(t, j)
    {
      assert ProcOk(s, j);
    }
    SplitSame(s.core, h => CoreClaim(s, h), h => CoreClaim(t, h), b.clo, b.chi);
    SplitSame(s.swap, h => SwapClaim(s, h), h => SwapClaim(t, h), b.slo, b.shi);
  }

  /** A zombie is reaped by one process only, so its status block is freed once. */
  lemma WaitProcs(s: State, i: int)
    requires Sane(s) && Shape(s) && Enabled(s, WaitEnd(i))
    ensures Sane(Step(s, WaitEnd(i)))
  {
    var t := Step(s, WaitEnd(i));
    assert ProcOk(s, i) && ProcOk(s, s.proc[i].call.z);
    forall j | 0 <= j < NPROC
      ensures ProcOk(t, j)
    {
      assert ProcOk(s, j);
      assert j != i && s.proc[j].call.Reaping? ==>
        s.proc[j].pid != s.proc[i].pid && s.proc[j].call.z != s.proc[i].call.z;
    }
  }

  lemma WaitEndKeeps(s: State, b: Bounds, i: int)
    requires Inv(s, b) && Shape(s) && Enabled(s, WaitEnd(i))
    ensures Inv(Step(s, WaitEnd(i)), b)
  {
    var t, z := Step(s, WaitEnd(i)), s.proc[i].call.z;
    WaitProcs(s, i);
    assert ProcOk(s, i) && ProcOk(s, z);
    SplitGive(s.swap, h => SwapClaim(s, h), h => SwapClaim(t, h), Image(z), b.slo, b.shi);
    SplitSame(s.core, h => CoreClaim(s, h), h => CoreClaim(t, h), b.clo, b.chi);
  }

  lemma StatKeeps(s: State, b: Bounds, i: int, stat: Stat)
    requires Inv(s, b) && Shape(s) && IsProc(i)
    requires s.proc[i].stat != SNULL && s.proc[i].stat != SZOMB && stat != SNULL && stat != SZOMB
    requires stat == SRUN || s.proc[i].load
    ensures Inv(Set(s, i, s.proc[i].(stat := stat)), b)
  {
    var t := Set(s, i, s.proc[i].(stat := stat));
    forall j | 0 <= j < NPROC
      ensures ProcOk(t, j)
    {
      assert ProcOk(s, j);
    }
    SplitSame(s.core, h => CoreClaim(s, h), h => CoreClaim(t, h), b.clo, b.chi);
    SplitSame(s.swap, h => SwapClaim(s, h), h => SwapClaim(t, h), b.slo, b.shi);
  }

  lemma InBeginKeeps(s: State, b: Bounds, i: int)
    requires Inv(s, b) && Shape(s) && Enabled(s, InBegin(i))
    ensures Inv(Step(s, InBegin(i)), b)
  {
    var t := Step(s, InBegin(i));
    assert ProcOk(s, i);
    forall j | 0 <= j < NPROC
      ensures ProcOk(t, j)
    {
      assert ProcOk(s, j);
    }
    SplitTake(s.core, h => CoreClaim(s, h), h => CoreClaim(t, h), Swapper, s.proc[i].size, b.clo, b.chi);
    SplitSame(s.swap, h => SwapClaim(s, h), h => SwapClaim(t, h), b.slo, b.shi);
  }

  lemma InEndKeeps(s: State, b: Bounds)
    requires Inv(s, b) && Shape(s) && Enabled(s, InEnd)
    ensures Inv(Step(s, InEnd), b)
  {
    var t, i := Step(s, InEnd), s.sched.p;
    forall j | 0 <= j < NPROC
      ensures ProcOk(t, j)
    {
      assert ProcOk(s, j);
    }
    assert ProcOk(s, i);
    SplitMove(s.core, h => CoreClaim(s, h), h => CoreClaim(t, h), Swapper, Image(i), b.clo, b.chi);
    SplitGive(s.swap, h => SwapClaim(s, h), h => SwapClaim(t, h), Image(i), b.slo, b.shi);
  }

  lemma OutBeginKeeps(s: State, b: Bounds, i: int)
    requires Inv(s, b) && Shape(s) && Enabled(s, OutBegin(i))
    ensures Inv(Step(s, OutBegin(i)), b)
  {
    var t := Step(s, OutBegin(i));
    assert ProcOk(s, i);
    forall j | 0 <= j < NPROC
      ensures ProcOk(t, j)
    {
      assert ProcOk(s, j);
    }
    SplitTake(s.swap, h => SwapClaim(s, h), h => SwapClaim(t, h), Swapper, BLOCKS * s.proc[i].size, b.slo, b.shi);
    SplitSame(s.core, h => CoreClaim(s, h), h => CoreClaim(t, h), b.clo, b.chi);
  }

  lemma OutEndKeeps(s: State, b: Bounds)
    requires Inv(s, b) && Shape(s) && Enabled(s, OutEnd)
    ensures Inv(Step(s, OutEnd), b)
  {
    var t, i := Step(s, OutEnd), s.sched.p;
    forall j | 0 <= j < NPROC
      ensures ProcOk(t, j)
    {
      assert ProcOk(s, j);
    }
    assert ProcOk(s, i);
    SplitGive(s.core, h => CoreClaim(s, h), h => CoreClaim(t, h), Image(i), b.clo, b.chi);
    SplitMove(s.swap, h => SwapClaim(s, h), h => SwapClaim(t, h), Swapper, Image(i), b.slo, b.shi);
  }

  lemma StepKeeps(s: State, b: Bounds, e: Event)
    requires Inv(s, b) && Shape(s) && Enabled(s, e)
    ensures Inv(Step(s, e), b)
  {
    match e
    case Fork(i, c, pid) => ForkKeeps(s, b, i, c, pid);
    case ExitBegin(i) => ExitBeginKeeps(s, b, i);
    case ExitEnd(i) => ExitEndKeeps(s, b, i);
    case WaitBegin(i, z) => WaitBeginKeeps(s, b, i, z);
    case WaitEnd(i) => WaitEndKeeps(s, b, i);
    case Sleep(i, stat) => StatKeeps(s, b, i, stat);
    case Wakeup(i) => StatKeeps(s, b, i, SRUN);
    case InBegin(i) => InBeginKeeps(s, b, i);
    case InEnd => InEndKeeps(s, b);
    case OutBegin(i) => OutBeginKeeps(s, b, i);
    case OutEnd => OutEndKeeps(s, b);
  }

  /* ---------------------------------------------------------------- runs */

  /** main: the whole of core and swap is free, only process 0 exists. */
  function Boot(b: Bounds, addr0: int, size0: int): State {
    State(seq(NPROC, i => if i == 0 then Proc(SRUN, true, false, 0, 0, addr0, size0, NoCall)
                          else Proc(SNULL, false, false, 0, 0, 0, 0, NoCall)),
          Idle, [Seg(b.clo, b.chi - b.clo)], [Seg(b.slo, b.shi - b.slo)])
  }

  predicate GoodBounds(b: Bounds) { 0 < b.clo < b.chi && 0 < b.slo < b.shi }

  lemma BootInv(b: Bounds, addr0: int, size0: int)
    requires GoodBounds(b) && 0 < size0
    ensures Inv(Boot(b, addr0, size0), b)
  {
    var s := Boot(b, addr0, size0);
    var c, w := h => CoreClaim(s, h), h => SwapClaim(s, h);
    assert forall u :: !Claimed(c, u) && !Claimed(w, u);
    assert s.core[0].End() == b.chi && s.swap[0].End() == b.shi;
  }

  lemma InvShape(s: State, b: Bounds)
    requires Inv(s, b)
    ensures Shape(s)
  {
    assert forall i :: IsProc(i) ==> ProcOk(s, i);
  }

  ghost function After(b: Bounds, addr0: int, size0: int, es: seq<Event>): State {
    if es == [] then Boot(b, addr0, size0) else
    var s, e := After(b, addr0, size0, es[..|es|-1]), es[|es|-1];
    if Shape(s) && Enabled(s, e) then Step(s, e) else s
  }

  /** In every reachable state the free maps, the process images, the zombies' blocks and the regions in transit are
      pairwise disjoint, and together they are exactly the core and swap the system booted with. */
  lemma {:induction false} NothingLostOrShared(b: Bounds, addr0: int, size0: int, es: seq<Event>)
    requires GoodBounds(b) && 0 < size0
    ensures var s := After(b, addr0, size0, es); Inv(s, b) && Shape(s)
  {
    if es == [] {
      BootInv(b, addr0, size0);
    } else {
      NothingLostOrShared(b, addr0, size0, es[..|es|-1]);
      var s, e := After(b, addr0, size0, es[..|es|-1]), es[|es|-1];
      if Enabled(s, e) {
        StepKeeps(s, b, e);
      }
    }
    InvShape(After(b, addr0, size0, es), b);
  }

  /** What a step hands to mfree: a region of core, a region of swap. */
  function FreesCore(s: State, e: Event): Option<Seg>
    requires Shape(s) && Enabled(s, e)
  {
    match e
    case ExitEnd(i) => Some(Seg(s.proc[i].addr, s.proc[i].size))
    case OutEnd => Some(Seg(s.proc[s.sched.p].addr, s.proc[s.sched.p].size))
    case _ => None
  }

  function FreesSwap(s: State, e: Event): Option<Seg>
    requires Shape(s) && Enabled(s, e)
  {
    match e
    case WaitEnd(i) => Some(Seg(s.proc[i].call.f, 1))
    case InEnd => Some(Seg(s.proc[s.sched.p].addr, BLOCKS * s.proc[s.sched.p].size))
    case _ => None
  }

  /** No mfree ever frees what is already free or was never handed out. */
  lemma FreesOnlyOwned(b: Bounds, addr0: int, size0: int, es: seq<Event>, e: Event)
    requires GoodBounds(b) && 0 < size0
    ensures var s := After(b, addr0, size0, es);
            && Shape(s)
            && (Enabled(s, e) && FreesCore(s, e).Some? ==> OwnedWhole(s.core, FreesCore(s, e).value, b.clo, b.chi))
            && (Enabled(s, e) && FreesSwap(s, e).Some? ==> OwnedWhole(s.swap, FreesSwap(s, e).value, b.slo, b.shi))
  {
    var s := After(b, addr0, size0, es);
    NothingLostOrShared(b, addr0, size0, es);
    if Enabled(s, e) {
      match e
      case ExitEnd(i) =>
        assert ProcOk(s, i);
        ClaimOwned(s.core, h => CoreClaim(s, h), Image(i), b.clo, b.chi);
      case OutEnd =>
        assert ProcOk(s, s.sched.p);
        ClaimOwned(s.core, h => CoreClaim(s, h), Image(s.sched.p), b.clo, b.chi);
      case WaitEnd(i) =>
        assert ProcOk(s, i);
        ClaimOwned(s.swap, h => SwapClaim(s, h), Image(s.proc[i].call.z), b.slo, b.shi);
      case InEnd =>
        assert ProcOk(s, s.sched.p);
        ClaimOwned(s.swap, h => SwapClaim(s, h), Image(s.sched.p), b.slo, b.shi);
      case _ =>
    }
  }

  /** Non-empty, inside the managed range, and no unit of it free. */
  ghost predicate OwnedWhole(free: seq<Seg>, g: Seg, lo: int, hi: int) {
    0 < g.size && forall u :: In(g, u) ==> lo <= u < hi && !Has(free, u)
  }

  lemma ClaimOwned(free: seq<Seg>, c: Holder -> Option<Seg>, h: Holder, lo: int, hi: int)
    requires Split(free, c, lo, hi) && c(h).Some?
    ensures OwnedWhole(free, c(h).value, lo, hi)
  {
    forall u | In(c(h).value, u)
      ensures lo <= u < hi && !Has(free, u)
    {
      assert Covers(c(h), u);
      assert Claimed(c, u);
    }
  }

  /** The process a step is executed by; none for the swapper and for wakeups. */
  function Actor(e: Event): Option<int> {
    match e
    case Fork(i, _, _) => Some(i)
    case ExitBegin(i) => Some(i)
    case ExitEnd(i) => Some(i)
    case WaitBegin(i, _) => Some(i)
    case WaitEnd(i) => Some(i)
    case Sleep(i, _) => Some(i)
    case _ => None
  }

  /** When the process that has just run gives up the processor, resume saves its u area only if it is no zombie, and
      then into core that is still its own. */
  lemma SavuIntoOwnCore(b: Bounds, addr0: int, size0: int, es: seq<Event>, e: Event)
    requires GoodBounds(b) && 0 < size0
    requires Actor(e).Some? && IsProc(Actor(e).value)
    ensures var s := After(b, addr0, size0, es);
            && Shape(s)
            && (Enabled(s, e) ==>
                  var t, i := Step(s, e), Actor(e).value;
                  |t.proc| == NPROC && (t.proc[i].stat == SZOMB ||
                    (t.proc[i].load && OwnedWhole(t.core, Seg(t.proc[i].addr, t.proc[i].size), b.clo, b.chi))))
  {
    var s := After(b, addr0, size0, es);
    NothingLostOrShared(b, addr0, size0, es);
    if Enabled(s, e) {
      var t, i := Step(s, e), Actor(e).value;
      StepKeeps(s, b, e);
      assert ProcOk(s, i);
      assert e.WaitEnd? ==> s.proc[i].call.z != i;
      assert t.proc[i].stat == SZOMB || (t.proc[i].load && InCore(t.proc[i]));
      if t.proc[i].stat != SZOMB {
        ClaimOwned(t.core, h => CoreClaim(t, h), Image(i), b.clo, b.chi);
      }
    }
  }
}
