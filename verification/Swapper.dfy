/** The swapper, newproc, exit and wait over the real map tables. */
module Swapper {
  import opened Options
  import opened ResourceMap
  import opened MapTable
  import opened Ownership
  import opened SwapRoom

  /** Segments inside a range that fits an unsigned int do not overflow one. */
  lemma SplitSmall(free: seq<Seg>, c: Holder -> Option<Seg>, lo: int, hi: int)
    requires Split(free, c, lo, hi) && hi < UINT
    ensures Small(free)
  {
    forall i | 0 <= i < |free|
      ensures free[i].End() < UINT
    {
      assert Has(free, free[i].End() - 1);
    }
  }

  lemma InvSmall(s: State, b: Bounds)
    requires Inv(s, b) && b.chi < UINT && b.shi < UINT
    ensures WF(s.core) && WF(s.swap) && Small(s.core) && Small(s.swap)
  {
    SplitSmall(s.core, h => CoreClaim(s, h), b.clo, b.chi);
    SplitSmall(s.swap, h => SwapClaim(s, h), b.slo, b.shi);
  }

  lemma OutBegun(s: State, b: Bounds, i: int, a: int)
    requires Inv(s, b) && Shape(s) && CoreFits(s) && Enabled(s, Ownership.OutBegin(i))
    requires a == Alloc(s.swap, BLOCKS * s.proc[i].size).1
    ensures var t := State(s.proc[i := s.proc[i].(load := false, lock := true)], SwapOut(i, a), s.core,
                           Alloc(s.swap, BLOCKS * s.proc[i].size).0);
            t == Step(s, Ownership.OutBegin(i)) && Inv(t, b) && Shape(t) && CoreFits(t)
  {
    StepKeeps(s, b, Ownership.OutBegin(i));
    CoreStep(s, b, Ownership.OutBegin(i));
    InvShape(Step(s, Ownership.OutBegin(i)), b);
  }

  class Kernel {
    const coremap: array<Seg>
    const swapmap: array<Seg>
    var proc: seq<Proc>
    var sched: Sched
    ghost const range: Bounds
    ghost var core: seq<Seg>
    ghost var swap: seq<Seg>

    ghost function Abs(): State
      reads this
    {
      State(proc, sched, core, swap)
    }

    ghost predicate Valid()
      reads this, coremap, swapmap
    {
      && coremap != swapmap && range.chi < UINT && range.shi < UINT
      && Holds(coremap[..], core) && Holds(swapmap[..], swap)
      && Inv(Abs(), range) && Shape(Abs()) && CoreFits(Abs()) && NPROC <= coremap.Length
    }

    method TakeCore(size: int) returns (a: int)
      requires Valid() && 0 < size < UINT
      modifies coremap, this`core
      ensures a == Alloc(old(core), size).1 && core == (if a == 0 then old(core) else Alloc(old(core), size).0)
      ensures Holds(coremap[..], core)
    {
      InvSmall(Abs(), range);
      a := Malloc(coremap, size, core);
      core := Alloc(core, size).0;
    }

    method TakeSwap(size: int) returns (a: int)
      requires Valid() && 0 < size < UINT
      modifies swapmap, this`swap
      ensures a == Alloc(old(swap), size).1 && swap == (if a == 0 then old(swap) else Alloc(old(swap), size).0)
      ensures Holds(swapmap[..], swap)
    {
      InvSmall(Abs(), range);
      a := Malloc(swapmap, size, swap);
      swap := Alloc(swap, size).0;
    }

    method GiveCore(size: int, a: int)
      requires Holds(coremap[..], core) && WF(core) && Small(core) && 0 < size && 0 < a && a + size < UINT
      requires |Insert(core, a, size)| < coremap.Length
      modifies coremap, this`core
      ensures core == Insert(old(core), a, size) && Holds(coremap[..], core)
    {
      Mfree(coremap, size, a, core);
      core := Insert(core, a, size);
    }

    method GiveSwap(size: int, a: int)
      requires Holds(swapmap[..], swap) && WF(swap) && Small(swap) && 0 < size && 0 < a && a + size < UINT
      requires |Insert(swap, a, size)| < swapmap.Length
      modifies swapmap, this`swap
      ensures swap == Insert(old(swap), a, size) && Holds(swapmap[..], swap)
    {
      Mfree(swapmap, size, a, swap);
      swap := Insert(swap, a, size);
    }

    /** sched, label found1, and xswap up to its swap: choose swap space, mark the victim locked and not loaded. */
    method OutBegin(i: int) returns (ok: bool)
      requires Valid() && sched.Idle? && IsProc(i) && BLOCKS * proc[i].size < UINT
      requires proc[i].load && !proc[i].lock && proc[i].stat != SNULL && proc[i].stat != SZOMB
      modifies this, swapmap
      ensures Valid()
      ensures if ok then Enabled(old(Abs()), Ownership.OutBegin(i)) && Abs() == Step(old(Abs()), Ownership.OutBegin(i))
              else Abs() == old(Abs()) && Alloc(swap, BLOCKS * proc[i].size).1 == 0
    {
      ghost var s := Abs();
      assert ProcOk(s, i);
      var a := TakeSwap(BLOCKS * proc[i].size);
      if a == 0 {
        return false;
      }
      OutBegun(s, range, i, a);
      proc := proc[i := proc[i].(load := false, lock := true)];
      sched := SwapOut(i, a);
      return true;
    }

    /** The rest of xswap: the image is on disk, its core is freed. */
    method OutEnd()
      requires Valid() && sched.SwapOut?
      modifies this, coremap
      ensures Valid() && Abs() == Step(old(Abs()), Ownership.OutEnd)
    {
      ghost var s := Abs();
      var i, a := sched.p, sched.a;
      assert ProcOk(s, i);
      InvSmall(s, range);
      ClaimInRange(s.core, h => CoreClaim(s, h), Image(i), range.clo, range.chi);
      StepKeeps(s, range, Ownership.OutEnd);
      CoreStep(s, range, Ownership.OutEnd);
      GiveCore(proc[i].size, proc[i].addr);
      proc := proc[i := proc[i].(addr := a, load := false, lock := false)];
      sched := Idle;
      assert Abs() == Step(s, Ownership.OutEnd);
      InvShape(Abs(), range);
    }

    /** sched, after it has chosen whom to bring in: find core. */
    method InBegin(i: int) returns (ok: bool)
      requires Valid() && sched.Idle? && IsProc(i) && proc[i].size < UINT
      requires proc[i].stat == SRUN && !proc[i].load
      modifies this, coremap
      ensures Valid()
      ensures if ok then Enabled(old(Abs()), Ownership.InBegin(i)) && Abs() == Step(old(Abs()), Ownership.InBegin(i))
              else Abs() == old(Abs()) && Alloc(core, proc[i].size).1 == 0
    {
      ghost var s := Abs();
      assert ProcOk(s, i);
      var a := TakeCore(proc[i].size);
      if a == 0 {
        return false;
      }
      StepKeeps(s, range, Ownership.InBegin(i));
      CoreStep(s, range, Ownership.InBegin(i));
      sched := SwapIn(i, a);
      assert Abs() == Step(s, Ownership.InBegin(i));
      InvShape(Abs(), range);
      return true;
    }

    /** sched, label found2, after the swap: the swap space is freed and the image is resident. */
    method InEnd()
      requires Valid() && sched.SwapIn?
      requires |Insert(swap, proc[sched.p].addr, BLOCKS * proc[sched.p].size)| < swapmap.Length
      modifies this, swapmap
      ensures Valid() && Abs() == Step(old(Abs()), Ownership.InEnd)
    {
      ghost var s := Abs();
      var i, a := sched.p, sched.a;
      assert ProcOk(s, i);
      InvSmall(s, range);
      ClaimInRange(s.swap, h => SwapClaim(s, h), Image(i), range.slo, range.shi);
      StepKeeps(s, range, Ownership.InEnd);
      CoreStep(s, range, Ownership.InEnd);
      GiveSwap(BLOCKS * proc[i].size, proc[i].addr);
      proc := proc[i := proc[i].(addr := a, load := true)];
      sched := Idle;
      assert Abs() == Step(s, Ownership.InEnd);
      InvShape(Abs(), range);
    }

    /** exit up to the sleep in bwrite: one block of swap for the status. */
    method ExitBegin(i: int) returns (ok: bool)
      requires Valid() && Running(Abs(), i) && proc[i].call.NoCall?
      modifies this, swapmap
      ensures Valid()
      ensures if ok then Enabled(old(Abs()), Ownership.ExitBegin(i))
          && Abs() == Step(old(Abs()), Ownership.ExitBegin(i))
              else Abs() == old(Abs()) && Alloc(swap, 1).1 == 0
    {
      ghost var s := Abs();
      var a := TakeSwap(1);
      if a == 0 {
        return false;
      }
      StepKeeps(s, range, Ownership.ExitBegin(i));
      CoreStep(s, range, Ownership.ExitBegin(i));
      proc := proc[i := proc[i].(call := Exiting(a))];
      assert Abs() == Step(s, Ownership.ExitBegin(i));
      InvShape(Abs(), range);
      return true;
    }

    /** exit from there on: core is freed, the process is a zombie, its children are process 1's. */
    method ExitEnd(i: int)
      requires Valid() && Running(Abs(), i) && proc[i].call.Exiting?
      modifies this, coremap
      ensures Valid() && Abs() == Step(old(Abs()), Ownership.ExitEnd(i))
    {
      ghost var s := Abs();
      assert ProcOk(s, i);
      InvSmall(s, range);
      ClaimInRange(s.core, h => CoreClaim(s, h), Image(i), range.clo, range.chi);
      StepKeeps(s, range, Ownership.ExitEnd(i));
      CoreStep(s, range, Ownership.ExitEnd(i));
      GiveCore(proc[i].size, proc[i].addr);
      var heir := FindParent(i);
      proc := proc[i := proc[i].(addr := proc[i].call.a, stat := SZOMB, call := NoCall, ppid := heir)];
      AdoptOrphans(proc[i].pid);
      assert Abs() == Step(s, Ownership.ExitEnd(i));
      InvShape(Abs(), range);
    }

    /** exit's search for the parent; process 1 stands in when there is none. */
    method FindParent(i: int) returns (pid: int)
      requires 0 <= i < |proc|
      ensures pid == Heir(proc, i)
    {
      for j := 0 to |proc|
        invariant forall k :: 0 <= k < j ==> proc[k].pid != proc[i].ppid
      {
        if proc[j].pid == proc[i].ppid {
          return proc[i].ppid;
        }
      }
      return 1;
    }

    method AdoptOrphans(pid: int)
      modifies this`proc
      ensures proc == Adopt(old(proc), pid)
    {
      var n := |proc|;
      for j := 0 to n
        invariant |proc| == n == |old(proc)|
        invariant forall k :: 0 <= k < j ==> proc[k] == Adopt(old(proc), pid)[k]
        invariant forall k :: j <= k < n ==> proc[k] == old(proc)[k]
      {
        if proc[j].ppid == pid {
          proc := proc[j := proc[j].(ppid := 1)];
        }
      }
    }

    /** wait up to the sleep in bread: the first zombie child, if there is one. */
    method WaitBegin(i: int) returns (z: int)
      requires Valid() && Running(Abs(), i) && proc[i].call.NoCall?
      modifies this`proc
      ensures Valid()
      ensures if z >= 0 then Enabled(old(Abs()), Ownership.WaitBegin(i, z))
          && Abs() == Step(old(Abs()), Ownership.WaitBegin(i, z))
              else Abs() == old(Abs())
      ensures forall j :: IsProc(j) && (z < 0 || j < z) && old(proc[j].ppid) == old(proc[i].pid) ==>
          old(proc[j].stat) != SZOMB
    {
      ghost var s := Abs();
      z := FindZombie(proc[i].pid);
      if z >= 0 {
        StepKeeps(s, range, Ownership.WaitBegin(i, z));
        CoreStep(s, range, Ownership.WaitBegin(i, z));
        proc := proc[i := proc[i].(call := Reaping(z, proc[z].addr))];
        assert Abs() == Step(s, Ownership.WaitBegin(i, z));
        InvShape(Abs(), range);
      }
    }

    method FindZombie(pid: int) returns (z: int)
      requires |proc| == NPROC
      ensures z == -1 || (IsProc(z) && proc[z].ppid == pid && proc[z].stat == SZOMB)
      ensures forall j :: IsProc(j) && (z == -1 || j < z) && proc[j].ppid == pid ==> proc[j].stat != SZOMB
    {
      for j := 1 to NPROC
        invariant forall k :: 0 < k < j && proc[k].ppid == pid ==> proc[k].stat != SZOMB
      {
        if proc[j].ppid == pid && proc[j].stat == SZOMB {
          return j;
        }
      }
      return -1;
    }

    /** wait from there on: the status block is freed and the slot is empty. */
    method WaitEnd(i: int)
      requires Valid() && Running(Abs(), i) && proc[i].call.Reaping?
      requires |Insert(swap, proc[i].call.f, 1)| < swapmap.Length
      modifies this, swapmap
      ensures Valid() && Abs() == Step(old(Abs()), Ownership.WaitEnd(i))
    {
      ghost var s := Abs();
      var z, f := proc[i].call.z, proc[i].call.f;
      assert ProcOk(s, i);
      InvSmall(s, range);
      ClaimInRange(s.swap, h => SwapClaim(s, h), Image(z), range.slo, range.shi);
      StepKeeps(s, range, Ownership.WaitEnd(i));
      CoreStep(s, range, Ownership.WaitEnd(i));
      GiveSwap(1, f);
      proc := proc[i := proc[i].(call := NoCall)];
      proc := proc[z := proc[z].(stat := SNULL, pid := 0, ppid := 0, load := false, lock := false)];
      assert Abs() == Step(s, Ownership.WaitEnd(i));
      InvShape(Abs(), range);
    }

    /** newproc when there is core for the copy; the caller has checked that slot c is free. */
    method Newproc(i: int, c: int, pid: int) returns (ok: bool)
      requires Valid() && Running(Abs(), i) && proc[i].call.NoCall? && proc[i].size < UINT
      requires IsProc(c) && proc[c].stat == SNULL && pid > 0 && forall j :: 0 <= j < NPROC ==> proc[j].pid != pid
      modifies this, coremap
      ensures Valid()
      ensures if ok then Enabled(old(Abs()), Fork(i, c, pid)) && Abs() == Step(old(Abs()), Fork(i, c, pid))
              else Abs() == old(Abs()) && Alloc(core, proc[i].size).1 == 0
    {
      ghost var s := Abs();
      assert ProcOk(s, i);
      var a := TakeCore(proc[i].size);
      if a == 0 {
        return false;
      }
      StepKeeps(s, range, Fork(i, c, pid));
      CoreStep(s, range, Fork(i, c, pid));
      proc := proc[c := Proc(SRUN, true, false, pid, proc[i].pid, a, proc[i].size, NoCall)];
      assert Abs() == Step(s, Fork(i, c, pid));
      InvShape(Abs(), range);
      return true;
    }
  }

  /** When the swap map has room for what InEnd and WaitEnd give back: always, in a table of NPROC entries, as long as
      no process in the middle of exit is swapped out; otherwise in a table with two entries more than there are regions
      of swap held afterwards. */
  lemma RoomOnSwap(k: Kernel, e: Event)
    requires k.Valid() && Enabled(k.Abs(), e) && (e == InEnd || e.WaitEnd?)
    ensures |Step(k.Abs(), e).proc| == NPROC
    ensures var t := Step(k.Abs(), e);
            var room := |t.swap| < k.swapmap.Length;
            && (|SwapHolders(t)| + 2 <= k.swapmap.Length ==> room)
            && (SwapFits(k.Abs()) && ExitsLoaded(k.Abs()) && ExitsLoaded(t) && NPROC <= k.swapmap.Length ==> room)
    ensures e == InEnd ==> Step(k.Abs(), e).swap == Insert(k.swap, k.proc[k.sched.p].addr,
        BLOCKS * k.proc[k.sched.p].size)
    ensures e.WaitEnd? ==> Step(k.Abs(), e).swap == Insert(k.swap, k.proc[e.i].call.f, 1)
  {
    RoomForStep(k.Abs(), k.range, e);
    if SwapFits(k.Abs()) && ExitsLoaded(k.Abs()) && ExitsLoaded(Step(k.Abs(), e)) { SwapStep(k.Abs(), k.range, e); }
  }

  /** A claimed region ends inside the managed range. */
  lemma ClaimInRange(free: seq<Seg>, c: Holder -> Option<Seg>, h: Holder, lo: int, hi: int)
    requires Split(free, c, lo, hi) && c(h).Some?
    ensures 0 < c(h).value.addr && 0 < c(h).value.size && c(h).value.End() <= hi
  {
    ClaimOwned(free, c, h, lo, hi);
    assert In(c(h).value, c(h).value.End() - 1);
  }
}
