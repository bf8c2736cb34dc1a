/** Room in the core and swap maps: one segment more than there are regions held. */
module SwapRoom {
  import opened Options
  import opened ResourceMap
  import opened Ownership

  /** The holder of the first unit after free segment i. */
  lemma Plug(free: seq<Seg>, c: Holder -> Option<Seg>, lo: int, hi: int, i: nat) returns (h: Holder)
    requires Split(free, c, lo, hi) && i < |free| - 1
    ensures Covers(c(h), free[i].End())
  {
    GapAfter(free, i);
    assert Claimed(c, free[i].End());
    h :| Covers(c(h), free[i].End());
  }

  lemma PlugsDiffer(free: seq<Seg>, c: Holder -> Option<Seg>, lo: int, hi: int, i: nat, j: nat, h: Holder)
    requires Split(free, c, lo, hi) && i < j < |free| - 1 && Covers(c(h), free[i].End())
    ensures !Covers(c(h), free[j].End())
  {
    assert free[i].End() < free[j].addr < free[j].End();
    assert Has(free, free[j].addr);
    assert !Covers(c(h), free[j].addr);
  }

  lemma {:induction false} Plugs(free: seq<Seg>, c: Holder -> Option<Seg>, lo: int, hi: int,
                                 n: nat) returns (who: seq<Holder>)
    requires Split(free, c, lo, hi) && n < |free|
    ensures |who| == n && forall i :: 0 <= i < n ==> Covers(c(who[i]), free[i].End())
  {
    if n == 0 {
      who := [];
    } else {
      who := Plugs(free, c, lo, hi, n - 1);
      var h := Plug(free, c, lo, hi, n - 1);
      who := who + [h];
    }
  }

  /** A map has at most one segment more than there are holders. */
  lemma FewSegments(free: seq<Seg>, c: Holder -> Option<Seg>, lo: int, hi: int, holders: set<Holder>)
    requires Split(free, c, lo, hi) && forall h :: c(h).Some? ==> h in holders
    ensures |free| <= |holders| + 1
  {
    if free != [] {
      var who := Plugs(free, c, lo, hi, |free| - 1);
      forall i, j | 0 <= i < j < |who|
        ensures who[i] != who[j]
      {
        PlugsDiffer(free, c, lo, hi, i, j, who[i]);
      }
      DistinctInSet(who, holders);
    }
  }

  /** Who holds core, and who holds swap. */
  ghost function CoreHolders(s: State): set<Holder>
    requires |s.proc| == NPROC
  {
    (set i | 0 < i < NPROC && InCore(s.proc[i]) :: Image(i)) + (if s.sched.SwapIn? then {Swapper} else {})
  }

  ghost function SwapHolders(s: State): set<Holder>
    requires |s.proc| == NPROC
  {
    (set i | 0 < i < NPROC && (s.proc[i].stat == SZOMB || SwappedOut(s.proc[i])) :: Image(i))
    + (set i | 0 < i < NPROC && s.proc[i].call.Exiting? :: Leaver(i)) + (if s.sched.SwapOut? then {Swapper} else {})
  }

  /** In every reachable state. */
  lemma MapsStaySmall(b: Bounds, addr0: int, size0: int, es: seq<Event>)
    requires GoodBounds(b) && 0 < size0
    ensures var s := After(b, addr0, size0, es);
            && |s.proc| == NPROC
            && |s.core| <= |CoreHolders(s)| + 1 && |s.swap| <= |SwapHolders(s)| + 1
  {
    NothingLostOrShared(b, addr0, size0, es);
    HoldersBound(After(b, addr0, size0, es), b);
  }

  lemma HoldersBound(s: State, b: Bounds)
    requires Inv(s, b)
    ensures |s.core| <= |CoreHolders(s)| + 1 && |s.swap| <= |SwapHolders(s)| + 1
  {
    CoreHeldBy(s);
    SwapHeldBy(s);
    FewSegments(s.core, h => CoreClaim(s, h), b.clo, b.chi, CoreHolders(s));
    FewSegments(s.swap, h => SwapClaim(s, h), b.slo, b.shi, SwapHolders(s));
  }

  lemma CoreHeldBy(s: State)
    requires |s.proc| == NPROC
    ensures forall h :: CoreClaim(s, h).Some? ==> h in CoreHolders(s)
  {
  }

  lemma SwapHeldBy(s: State)
    requires |s.proc| == NPROC
    ensures forall h :: SwapClaim(s, h).Some? ==> h in SwapHolders(s)
  {
  }

  /** So a table with two entries more than the regions that will be held after a step has room for its segments. */
  lemma RoomForStep(s: State, b: Bounds, e: Event)
    requires Inv(s, b) && Shape(s) && Enabled(s, e)
    ensures |Step(s, e).proc| == NPROC
    ensures |Step(s, e).core| <= |CoreHolders(Step(s, e))| + 1 && |Step(s, e).swap| <= |SwapHolders(Step(s, e))| + 1
  {
    StepKeeps(s, b, e);
    HoldersBound(Step(s, e), b);
  }

  /* ---------------------------------------------------------------- the core map never overruns */

  /** The core map has fewer segments than there are processes. */
  predicate CoreFits(s: State) { |s.core| < NPROC }

  /** The process a region is held for; p is the one that the swapper is dealing with. */
  function Whose(h: Holder, p: int): int {
    match h
    case Image(i) => i
    case Leaver(i) => i
    case Swapper => p
  }

  /** No two regions are held for one process, and none for a process outside ps. */
  ghost predicate OneEach(hs: set<Holder>, p: int, ps: set<int>) {
    && (forall h :: h in hs ==> Whose(h, p) in ps)
    && (forall h, k :: h in hs && k in hs && Whose(h, p) == Whose(k, p) ==> h == k)
  }

  lemma {:induction false} NoMoreThan(hs: set<Holder>, p: int, ps: set<int>)
    requires OneEach(hs, p, ps)
    ensures |hs| <= |ps|
    decreases hs
  {
    if h :| h in hs {
      NoMoreThan(hs - {h}, p, ps - {Whose(h, p)});
    } else {
      assert hs == {};
    }
  }

  lemma {:induction false} FewNumbers(of: set<int>, n: nat)
    requires forall i :: i in of ==> 0 < i <= n
    ensures |of| <= n
  {
    if n == 0 {
      assert forall i :: i !in of;
      assert of == {};
    } else {
      FewNumbers(of - {n}, n - 1);
    }
  }

  function Others(i: int): set<int> { set j | 0 < j < NPROC && IsProc(j) && j != i }

  lemma OthersCount(i: int)
    requires IsProc(i)
    ensures |Others(i)| <= NPROC - 2
  {
    FewNumbers(Others(i) + {i}, NPROC - 1);
    assert |Others(i) + {i}| == |Others(i)| + 1;
  }

  function Busy(s: State): int { if s.sched.Idle? then -1 else s.sched.p }

  /** With one process out of core altogether there are at most NPROC-2 regions, and so at most NPROC-1 segments: the
      swapper's region is for a process that has no other in core. */
  lemma OneOut(s: State, b: Bounds, i: int)
    requires Inv(s, b) && IsProc(i) && !InCore(s.proc[i]) && !(s.sched.SwapIn? && s.sched.p == i)
    ensures CoreFits(s)
  {
    NoMoreThan(CoreHolders(s), Busy(s), Others(i));
    OthersCount(i);
    HoldersBound(s, b);
  }

  /** malloc never adds a segment. */
  lemma AllocNoMore(free: seq<Seg>, size: int)
    ensures |Alloc(free, size).0| <= |free|
  {
  }

  /** A release leaves the process it was for without core; everything else adds no segment. */
  lemma CoreStep(s: State, b: Bounds, e: Event)
    requires Inv(s, b) && Shape(s) && Enabled(s, e) && CoreFits(s)
    ensures CoreFits(Step(s, e))
  {
    StepKeeps(s, b, e);
    match e {
      case Fork(i, c, pid) => AllocNoMore(s.core, s.proc[i].size);
      case InBegin(i) => AllocNoMore(s.core, s.proc[i].size);
      case ExitEnd(i) => OneOut(Step(s, e), b, i);
      case OutEnd => OneOut(Step(s, e), b, s.sched.p);
      case _ =>
    }
  }

  /** In every reachable state: a table of NPROC entries always has room for the segments and the terminator. */
  lemma {:induction false} CoreAlwaysFits(b: Bounds, addr0: int, size0: int, es: seq<Event>)
    requires GoodBounds(b) && 0 < size0
    ensures CoreFits(After(b, addr0, size0, es))
  {
    if es != [] {
      var pre, e := es[..|es|-1], es[|es|-1];
      CoreAlwaysFits(b, addr0, size0, pre);
      NothingLostOrShared(b, addr0, size0, pre);
      var s := After(b, addr0, size0, pre);
      if Enabled(s, e) { CoreStep(s, b, e); }
    }
  }

  /* ---------------------------------------------------------------- the swap map */

  /** Nobody on the way out of exit is on swap as well, or on the way there. */
  ghost predicate ExitsLoaded(s: State)
    requires |s.proc| == NPROC
  {
    forall i :: IsProc(i) && s.proc[i].call.Exiting? ==> s.proc[i].load
  }

  predicate SwapFits(s: State) { |s.swap| < NPROC }

  /** Then each process has one region of swap at most. */
  lemma OneOffSwap(s: State, b: Bounds, i: int)
    requires Inv(s, b) && ExitsLoaded(s) && IsProc(i) && !(s.sched.SwapOut? && s.sched.p == i)
    requires s.proc[i].stat != SZOMB && !SwappedOut(s.proc[i]) && !s.proc[i].call.Exiting?
    ensures SwapFits(s)
  {
    SwapOneEach(s, i);
    NoMoreThan(SwapHolders(s), Busy(s), Others(i));
    OthersCount(i);
    HoldersBound(s, b);
  }

  lemma SwapOneEach(s: State, i: int)
    requires Sane(s) && ExitsLoaded(s) && IsProc(i) && !(s.sched.SwapOut? && s.sched.p == i)
    requires s.proc[i].stat != SZOMB && !SwappedOut(s.proc[i]) && !s.proc[i].call.Exiting?
    ensures OneEach(SwapHolders(s), Busy(s), Others(i))
  {
    forall h | h in SwapHolders(s)
      ensures IsProc(Whose(h, Busy(s))) && Whose(h, Busy(s)) != i && h == SwapHolderOf(s, Whose(h, Busy(s)))
    {
      assert ProcOk(s, Whose(h, Busy(s)));
    }
  }

  /** In whose name a process holds swap. */
  function SwapHolderOf(s: State, i: int): Holder
    requires |s.proc| == NPROC && IsProc(i)
  {
    if s.proc[i].call.Exiting? then Leaver(i) else if s.sched.SwapOut? && s.sched.p == i then Swapper else Image(i)
  }

  lemma SwapStep(s: State, b: Bounds, e: Event)
    requires Inv(s, b) && Shape(s) && Enabled(s, e) && SwapFits(s) && ExitsLoaded(s) && ExitsLoaded(Step(s, e))
    ensures SwapFits(Step(s, e))
  {
    match e {
      case ExitBegin(i) => AllocNoMore(s.swap, 1);
      case OutBegin(i) => AllocNoMore(s.swap, BLOCKS * s.proc[i].size);
      case WaitEnd(i) => WaitEndFits(s, b, i);
      case InEnd => InEndFits(s, b);
      case _ =>
    }
  }

  lemma WaitEndFits(s: State, b: Bounds, i: int)
    requires Inv(s, b) && Shape(s) && Enabled(s, WaitEnd(i)) && ExitsLoaded(Step(s, WaitEnd(i)))
    ensures SwapFits(Step(s, WaitEnd(i)))
  {
    StepKeeps(s, b, WaitEnd(i));
    assert ProcOk(s, i);
    assert ProcOk(s, s.proc[i].call.z);
    OneOffSwap(Step(s, WaitEnd(i)), b, s.proc[i].call.z);
  }

  lemma InEndFits(s: State, b: Bounds)
    requires Inv(s, b) && Shape(s) && Enabled(s, InEnd) && ExitsLoaded(s) && ExitsLoaded(Step(s, InEnd))
    ensures SwapFits(Step(s, InEnd))
  {
    StepKeeps(s, b, InEnd);
    assert ProcOk(s, s.sched.p);
    OneOffSwap(Step(s, InEnd), b, s.sched.p);
  }

  /** Along every run in which no process in the middle of exit is swapped out. */
  lemma {:induction false} SwapFitsWhile(b: Bounds, addr0: int, size0: int, es: seq<Event>)
    requires GoodBounds(b) && 0 < size0
    requires forall j :: 0 <= j <= |es| ==>
      |After(b, addr0, size0, es[..j]).proc| == NPROC && ExitsLoaded(After(b, addr0, size0, es[..j]))
    ensures SwapFits(After(b, addr0, size0, es))
  {
    if es != [] {
      var pre, e := es[..|es|-1], es[|es|-1];
      assert forall j :: 0 <= j <= |pre| ==> pre[..j] == es[..j];
      SwapFitsWhile(b, addr0, size0, pre);
      NothingLostOrShared(b, addr0, size0, pre);
      var s := After(b, addr0, size0, pre);
      assert es[..|es|] == es;
      if Enabled(s, e) { SwapStep(s, b, e); }
    }
  }
}
