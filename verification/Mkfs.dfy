/** mkfs as it runs: the interleave table, the initial free list, and the blocks of a file. */
module Mkfs {
  import opened Counting
  import opened FreeList
  import opened FileTree
  import opened FileGrow
  import opened BlockMap
  import opened MkfsRuns

  /* ---------------------------------------------------------------- the interleave table */

  /** Each of 0..n-1 once. */
  ghost predicate Permutation(adr: seq<int>, n: int) {
    |adr| == n && forall x :: Count(adr, x) == if 0 <= x < n then 1 else 0
  }

  lemma {:induction false} ZeroSomewhere(flg: seq<nat>) returns (k: nat)
    requires Sum(flg) < |flg|
    ensures k < |flg| && flg[k] == 0
  {
    var n := |flg| - 1;
    if flg[n] == 0 { k := n; } else { k := ZeroSomewhere(flg[..n]); }
  }

  lemma {:induction false} AllOnes(flg: seq<nat>, k: nat)
    requires Sum(flg) == |flg| && (forall i :: 0 <= i < |flg| ==> flg[i] <= 1) && k < |flg|
    ensures flg[k] == 1
  {
    var n := |flg| - 1;
    AtMost(flg[..n]);
    if k < n { AllOnes(flg[..n], k); }
  }

  lemma {:induction false} AtMost(flg: seq<nat>)
    requires forall i :: 0 <= i < |flg| ==> flg[i] <= 1
    ensures Sum(flg) <= |flg|
  {
    if flg != [] { AtMost(flg[..|flg|-1]); }
  }

  lemma {:induction false} SumZeros(flg: seq<nat>)
    requires forall i :: 0 <= i < |flg| ==> flg[i] == 0
    ensures Sum(flg) == 0
  {
    if flg != [] { SumZeros(flg[..|flg|-1]); }
  }

  lemma WrapAround(k: nat, n: nat)
    requires k < n
    ensures (k + 1) % n == if k + 1 == n then 0 else k + 1
  {
    if k + 1 == n { assert n % n == 0; } else { SmallMod(k + 1, n); }
  }

  lemma SmallMod(x: nat, n: nat)
    requires x < n
    ensures x % n == x
  {
  }

  /** How far slot x is from i, going up and round. */
  function Ahead(n: int, i: int, x: int): int { if x >= i then x - i else x - i + n }

  /** The first slot not yet taken, going round from i. */
  method NextFree(flg: array<nat>, i: nat) returns (k: nat)
    requires i < flg.Length && Sum(flg[..]) < flg.Length
    ensures k < flg.Length && flg[k] == 0
    ensures forall x :: 0 <= x < flg.Length && Ahead(flg.Length, i, x) < Ahead(flg.Length, i, k) ==> flg[x] != 0
  {
    var n := flg.Length;
    ghost var goal := ZeroSomewhere(flg[..]);
    k := i;
    while flg[k] != 0
      invariant 0 <= k < n && Ahead(n, i, k) <= Ahead(n, i, goal)
      invariant forall x :: 0 <= x < n && Ahead(n, i, x) < Ahead(n, i, k) ==> flg[x] != 0
      decreases n - Ahead(n, i, k)
    {
      assert k != goal;
      WrapAround(k, n);
      k := (k + 1) % n;
    }
  }

  /** flg counts what is in the table so far. */
  ghost predicate Flags(flg: seq<nat>, adr: seq<int>) {
    && (forall i :: 0 <= i < |flg| ==> flg[i] <= 1 && Count(adr, i) == flg[i])
    && (forall x :: !(0 <= x < |flg|) ==> Count(adr, x) == 0)
    && Sum(flg) == |adr|
  }

  lemma FlagsNext(flg: seq<nat>, adr: seq<int>, k: nat)
    requires Flags(flg, adr) && k < |flg| && flg[k] == 0
    ensures Flags(flg[k := 1], adr + [k])
  {
    SumUpdate(flg, flg[k := 1], k);
    forall x
      ensures Count(adr + [k], x) == Count(adr, x) + One(x, k)
    {
      CountAppend(adr, [k], x);
      CountOne(k, x);
    }
  }

  lemma FlagsFull(flg: seq<nat>, adr: seq<int>)
    requires Flags(flg, adr) && |adr| == |flg|
    ensures Permutation(adr, |flg|)
  {
    forall i | 0 <= i < |flg| ensures flg[i] == 1 { AllOnes(flg, i); }
  }

  function Advance(i: nat, m: nat, n: int): (k: nat)
    requires 0 < n
    ensures k < n
  {
    (i + m) % n
  }

  /* ---------------------------------------------------------------- the order of the table */

  /** Slot k is the first not yet in the table, going round from i. */
  ghost predicate FirstFree(n: int, i: int, used: seq<int>, k: int) {
    && 0 <= k < n && k !in used
    && forall x :: 0 <= x < n && Ahead(n, i, x) < Ahead(n, i, k) ==> x in used
  }

  /** The table for n slots and step m: it begins with slot 0, and after each entry comes the first slot not yet taken,
      going round from m slots further on. */
  ghost predicate IsTable(adr: seq<int>, n: int, m: nat) {
    && 0 < n == |adr| && adr[0] == 0
    && forall j :: 0 <= j < n - 1 ==> 0 <= adr[j] && FirstFree(n, (adr[j] + m) % n, adr[..j+1], adr[j+1])
  }

  /** There is one such table only. */
  lemma {:induction false} OneTable(a: seq<int>, b: seq<int>, n: int, m: nat, j: nat)
    requires IsTable(a, n, m) && IsTable(b, n, m) && j <= n
    ensures a[..j] == b[..j]
  {
    if j > 1 {
      OneTable(a, b, n, m, j - 1);
      assert a[j-2] == a[..j-1][j-2] && b[j-2] == b[..j-1][j-2];
      assert FirstFree(n, (a[j-2] + m) % n, a[..j-1], a[j-1]);
      assert FirstFree(n, (b[j-2] + m) % n, b[..j-1], b[j-1]);
      OneFirst(n, (a[j-2] + m) % n, a[..j-1], a[j-1], b[j-1]);
      assert a[..j] == a[..j-1] + [a[j-1]] && b[..j] == b[..j-1] + [b[j-1]];
    } else if j == 1 {
      assert a[..1] == [a[0]] && b[..1] == [b[0]];
    }
  }

  lemma OneFirst(n: int, i: int, used: seq<int>, k: int, k': int)
    requires 0 <= i < n && FirstFree(n, i, used, k) && FirstFree(n, i, used, k')
    ensures k == k'
  {
  }

  /** As far as entry j-1. */
  ghost predicate TableSoFar(adr: seq<int>, n: int, m: nat) {
    && 0 < n && (adr != [] ==> adr[0] == 0)
    && forall j :: 0 <= j < |adr| - 1 ==> 0 <= adr[j] && FirstFree(n, (adr[j] + m) % n, adr[..j+1], adr[j+1])
  }

  /** The flags say which slots are in the table. */
  lemma FlagsMean(flg: seq<nat>, adr: seq<int>, x: int)
    requires Flags(flg, adr) && 0 <= x < |flg|
    ensures flg[x] == 0 <==> x !in adr
  {
    CountIn(adr, x);
  }

  lemma TableNext(adr: seq<int>, n: int, m: nat, flg: seq<nat>, i: int, k: int)
    requires TableSoFar(adr, n, m) && Flags(flg, adr) && |flg| == n && 0 <= k < n && flg[k] == 0 && Goes(adr, n, m, i)
    requires forall x :: 0 <= x < n && Ahead(n, i, x) < Ahead(n, i, k) ==> flg[x] != 0
    ensures TableSoFar(adr + [k], n, m)
  {
    FlagsMean(flg, adr, k);
    forall x | 0 <= x < n && Ahead(n, i, x) < Ahead(n, i, k)
      ensures x in adr
    {
      FlagsMean(flg, adr, x);
    }
    if adr == [] {
      assert Ahead(n, 0, 0) < Ahead(n, 0, k) ==> 0 in adr;
    } else {
      var a := adr + [k];
      forall j | 0 <= j < |a| - 1
        ensures 0 <= a[j] && FirstFree(n, (a[j] + m) % n, a[..j+1], a[j+1])
      {
        assert a[..j+1] == adr[..j+1];
        if j == |adr| - 1 { assert adr[..j+1] == adr; }
      }
    }
  }

  /** Slot i becomes entry j of the table. */
  method Enter(flg: array<nat>, adr: array<int>, j: nat, i: nat)
    requires j < adr.Length && i < flg.Length && flg[i] == 0 && Flags(flg[..], adr[..j])
    modifies flg, adr
    ensures Flags(flg[..], adr[..j+1]) && adr[..j+1] == old(adr[..j]) + [i]
  {
    ghost var a, f := adr[..j], flg[..];
    FlagsNext(f, a, i);
    adr[j] := i;
    flg[i] := 1;
    assert adr[..j+1] == a + [i] && flg[..] == f[i := 1];
  }

  /** Where the search for the next slot starts. */
  ghost predicate Goes(adr: seq<int>, n: int, m: nat, i: int) {
    && 0 <= i < n
    && if adr == [] then i == 0 else 0 <= adr[|adr|-1] && i == (adr[|adr|-1] + m) % n
  }

  lemma GoesOn(adr: seq<int>, n: int, m: nat, k: nat)
    requires k < n
    ensures Goes(adr + [k], n, m, Advance(k, m, n))
  {
  }

  /** One turn of the loop: the first slot not yet taken from i on becomes entry j. */
  method NextEntry(flg: array<nat>, adr: array<int>, j: nat, i: nat, n: int, m: nat) returns (k: nat)
    requires flg.Length == adr.Length == n && j < n && Flags(flg[..], adr[..j])
    requires TableSoFar(adr[..j], n, m) && Goes(adr[..j], n, m, i)
    modifies flg, adr
    ensures k < n && Flags(flg[..], adr[..j+1]) && TableSoFar(adr[..j+1], n, m)
    ensures adr[..j+1] == old(adr[..j]) + [k]
  {
    SomeFree(flg[..], adr[..j]);
    k := NextFree(flg, i);
    TableNext(adr[..j], n, m, flg[..], i, k);
    Enter(flg, adr, j, k);
  }

  lemma SomeFree(flg: seq<nat>, adr: seq<int>)
    requires Flags(flg, adr) && |adr| < |flg|
    ensures Sum(flg) < |flg|
  {
  }

  /** The table adr: whatever the step, every slot is visited once, each m slots after the last if that one is free. */
  method Interleave(n: int, m: nat) returns (adr: array<int>)
    requires n > 0
    ensures fresh(adr) && Permutation(adr[..], n) && IsTable(adr[..], n, m)
  {
    var flg := new nat[n](_ => 0);
    adr := new int[n];
    SumZeros(flg[..]);
    FillTable(flg, adr, n, m);
    TableDone(adr[..], n, m);
  }

  lemma TableDone(adr: seq<int>, n: int, m: nat)
    requires TableSoFar(adr, n, m) && |adr| == n
    ensures IsTable(adr, n, m)
  {
  }

  /** The loop that fills it. */
  method FillTable(flg: array<nat>, adr: array<int>, n: int, m: nat)
    requires 0 < n == flg.Length == adr.Length && Sum(flg[..]) == 0 && forall i :: 0 <= i < n ==> flg[i] == 0
    modifies flg, adr
    ensures Permutation(adr[..], n) && TableSoFar(adr[..], n, m)
  {
    var i: nat, j := 0, 0;
    while j < n
      invariant 0 <= j <= n
      invariant Flags(flg[..], adr[..j]) && TableSoFar(adr[..j], n, m) && Goes(adr[..j], n, m, i)
    {
      ghost var before := adr[..j];
      i := NextEntry(flg, adr, j, i, n, m);
      GoesOn(before, n, m, i);
      j := j + 1;
      i := Advance(i, m, n);
    }
    assert adr[..n] == adr[..];
    FlagsFull(flg[..], adr[..]);
  }

  /* ---------------------------------------------------------------- the order of the free list */

  /** Blocks i down to low. */
  function Down(i: int, low: int): seq<int>
    decreases i - low
  {
    if i < low then [] else [i] + Down(i - 1, low)
  }

  lemma {:induction false} DownMore(i: int, k: int)
    requires k <= i + 1
    ensures Down(i, k - 1) == Down(i, k) + [k - 1]
    decreases i - k
  {
    if k == i + 1 {
      assert Down(i, k - 1) == [i] + Down(i - 1, k - 1);
    } else {
      DownMore(i - 1, k);
      assert Down(i, k - 1) == [i] + (Down(i - 1, k) + [k - 1]);
    }
  }

  /** One round: the blocks that lie as far below i as the table says, in its order. */
  function Band(i: int, adr: seq<int>): (s: seq<int>)
    ensures |s| == |adr| && forall j :: 0 <= j < |adr| ==> s[j] == i - adr[j]
  {
    seq(|adr|, j requires 0 <= j < |adr| => i - adr[j])
  }

  lemma BandNext(st: seq<int>, i: int, adr: seq<int>, j: nat)
    requires j < |adr|
    ensures st + Band(i, adr)[..j+1] == st + Band(i, adr)[..j] + [i - adr[j]]
  {
  }

  /** Rounds from i down as long as there are n blocks above low, and then what is left. */
  function Rounds(i: int, low: int, adr: seq<int>): seq<int>
    decreases i - low
  {
    if adr != [] && i >= low + |adr| then Band(i, adr) + Rounds(i - |adr|, low, adr) else Down(i, low)
  }

  lemma RoundsNext(st: seq<int>, i: int, low: int, adr: seq<int>)
    requires adr != [] && i >= low + |adr|
    ensures (st + Band(i, adr)) + Rounds(i - |adr|, low, adr) == st + Rounds(i, low, adr)
  {
    assert (st + Band(i, adr)) + Rounds(i - |adr|, low, adr) == st + (Band(i, adr) + Rounds(i - |adr|, low, adr));
  }

  /** Where the rounds begin: at the first block from the top, if any, whose number is one less than a multiple of n. */
  ghost predicate IsTop(i: int, high: int, low: int, n: int)
    requires 0 < n
  {
    AboveTop(i, high, low, n) && (i < low || Ends(i, n))
  }

  /** Block k is the last of n whole ones. */
  predicate Ends(k: int, n: int)
    requires 0 < n
  {
    (k + 1) % n == 0
  }

  ghost predicate AboveTop(i: int, high: int, low: int, n: int)
    requires 0 < n
  {
    i <= high && forall k :: i < k <= high ==> low <= k && !Ends(k, n)
  }

  /** The order in which bflist frees the blocks of the data area. */
  ghost predicate InOrder(st: seq<int>, high: int, low: int, n: int, m: nat)
    requires 0 < n
  {
    exists adr, i :: IsTable(adr, n, m) && IsTop(i, high, low, n) && st == Down(high, i + 1) + Rounds(i, low, adr)
  }

  lemma ItsOrder(st: seq<int>, high: int, low: int, n: int, m: nat, adr: seq<int>, i: int)
    requires 0 < n && IsTable(adr, n, m) && IsTop(i, high, low, n) && st == [] + Down(high, i + 1) + Rounds(i, low, adr)
    ensures InOrder(st, high, low, n, m)
  {
    assert [] + Down(high, i + 1) == Down(high, i + 1);
  }

  /* ---------------------------------------------------------------- the image being made */

  class Maker {
    const isize: int
    const fsize: int
    var nfree: int
    var free: seq<int>
    var store: Store
    var buf: seq<int>
    ghost var st: seq<int>

    ghost predicate Valid()
      reads this
    {
      && 0 <= isize && |store| == fsize && GoodStore(store) && |buf| == WORDS
      && Rep(st, nfree, free, store)
    }

    ghost function Abs(): Fs
      reads this
    {
      Fs(st, store)
    }

    constructor (isize: int, fsize: int, image: Store)
      requires 0 <= isize && 0 < fsize == |image| && GoodStore(image)
      ensures this.isize == isize && this.fsize == fsize && store == image && nfree == 0 && |free| == NICFREE
          && |buf| == WORDS
    {
      this.isize, this.fsize := isize, fsize;
      nfree, free, store, buf, st := 0, seq(NICFREE, _ => 0), image, seq(WORDS, _ => 0), [];
    }

    /** bfree of a block: it joins the chain, and takes the full batch with it when there is one. */
    method Bfree(bno: int)
      requires Valid() && nfree > 0 && 0 < bno < fsize && Count(st, bno) == 0
      modifies this
      ensures Valid() && nfree > 0 && st == old(st) + [bno]
      ensures forall b :: 0 <= b < fsize && b != bno ==> store[b] == old(store)[b]
    {
      CountIn(st, bno);
      if nfree >= NICFREE {
        RepPushSpill(st, nfree, free, store, bno, buf[NICFREE+1..]);
        buf := [nfree] + free + buf[NICFREE+1..];
        store := store[bno := buf];
        nfree := 0;
      } else {
        RepPushInCore(st, nfree, free, store, bno);
      }
      free := free[nfree := bno];
      nfree := nfree + 1;
      st := st + [bno];
    }

    /** bfree(0): the bottom of the chain. */
    method BfreeZero()
      requires 0 <= isize && 0 < fsize == |store| && GoodStore(store) && nfree == 0 && |free| == NICFREE
          && |buf| == WORDS
      modifies this
      ensures Valid() && nfree > 0 && st == [] && store == old(store)
    {
      free := free[nfree := 0];
      nfree := nfree + 1;
      st := [];
    }

    /** The blocks above i and from low on are on the list, once each, and no others. */
    ghost predicate FreedAbove(i: int, low: int)
      reads this
    {
      forall x :: Count(st, x) == if i < x < fsize && low <= x then 1 else 0
    }

    method FreeOne(i: int, ghost low: int)
      requires Valid() && nfree > 0 && FreedAbove(i, low) && 0 < low <= i < fsize
      modifies this
      ensures Valid() && nfree > 0 && FreedAbove(i - 1, low) && st == old(st) + [i]
    {
      assert Count(st, i) == 0;
      Bfree(i);
      forall x
        ensures Count(st, x) == if i - 1 < x < fsize && low <= x then 1 else 0
      {
        CountAppend(old(st), [i], x);
        CountOne(i, x);
      }
    }

    /** One round of the interleave: the n blocks ending at i, in the order of the table. */
    method FreeRound(i: int, n: int, adr: array<int>, ghost low: int)
      requires Valid() && nfree > 0 && FreedAbove(i, low) && 0 < n && 0 < low && low + n <= i < fsize
          && Permutation(adr[..], n)
      modifies this
      ensures Valid() && nfree > 0 && FreedAbove(i - n, low) && st == old(st) + Band(i, adr[..])
    {
      ghost var st0, a := st, adr[..];
      var j := 0;
      assert multiset(a[..0]) == multiset{};
      assert forall y :: Count(a[..0], y) == 0;
      assert PartWay(st0, a, 0, i);
      while j < n
        invariant 0 <= j <= n == adr.Length && a == adr[..] && Valid() && nfree > 0 && PartWay(st0, a, j, i)
      {
        FreeEntry(i, adr[j], st0, a, j, low);
        j := j + 1;
      }
      assert Band(i, a)[..n] == Band(i, a);
      RoundOver(st0, st, a, n, i, low, fsize);
    }

    /** The first j entries of the table have been dealt with. */
    ghost predicate PartWay(st0: seq<int>, a: seq<int>, j: int, i: int)
      reads this
    {
      && 0 <= j <= |a| && st == st0 + Band(i, a)[..j]
      && forall x :: Count(st, x) == Count(st0, x) + Count(a[..j], i - x)
    }

    method FreeEntry(i: int, x: int, ghost st0: seq<int>, ghost a: seq<int>, ghost j: int, ghost low: int)
      requires Valid() && nfree > 0 && PartWay(st0, a, j, i) && j < |a| && x == a[j] && Permutation(a, |a|)
      requires 0 < low && low + |a| <= i < fsize && (forall y :: y <= i ==> Count(st0, y) == 0)
      modifies this
      ensures Valid() && nfree > 0 && PartWay(st0, a, j + 1, i)
    {
      BandNext(st0, i, a, j);
      RoundNext(a, |a|, j);
      var b := i - x;
      assert i - b == x;
      assert Count(st, b) == Count(st0, b) + Count(a[..j], i - b);
      ghost var was := st;
      Bfree(b);
      forall y
        ensures Count(st, y) == Count(st0, y) + Count(a[..j+1], i - y)
      {
        RoundCount(was, a, j, i, y);
        assert Count(was, y) == Count(st0, y) + Count(a[..j], i - y);
      }
    }

    /** bflist: every block of the data area ends up on the chain exactly once, whatever the interleave. */
    method Bflist(f_n: int, f_m: nat)
      requires 0 <= isize && 0 < fsize == |store| && GoodStore(store) && nfree == 0 && |free| == NICFREE
          && |buf| == WORDS && 0 < f_n
      modifies this
      ensures Valid() && nfree > 0 && FreedAbove(isize + 1, isize + 2)
      ensures InOrder(st, fsize - 1, isize + 2, if f_n > 100 then 100 else f_n, f_m)
    {
      var n := if f_n > 100 then 100 else f_n;
      var adr := Interleave(n, f_m);
      var high, low := fsize - 1, isize + 2;
      ghost var a := adr[..];
      BfreeZero();
      assert FreedAbove(high, low);
      var i := FreeTail(high, n, low);
      FreeRounds(i, n, adr, low);
      ItsOrder(st, high, low, n, f_m, a, i);
    }

    /** The rounds, and the blocks left over below them. */
    method FreeRounds(top: int, n: int, adr: array<int>, low: int)
      requires Valid() && nfree > 0 && FreedAbove(top, low) && 0 < n && 0 < low == isize + 2 && top < fsize
          && Permutation(adr[..], n)
      modifies this
      ensures Valid() && nfree > 0 && FreedAbove(low - 1, low) && st == old(st) + Rounds(top, low, adr[..])
    {
      ghost var all, a := st + Rounds(top, low, adr[..]), adr[..];
      var i := top;
      while i >= low + n
        invariant RoundsSoFar(i, low, a, all) && i < fsize && a == adr[..]
      {
        NextRound(i, n, adr, low, all);
        i := i - n;
      }
      FreeLast(i, low);
    }

    /** What is on the list and what the rounds from i down will add make up the whole. */
    ghost predicate RoundsSoFar(i: int, low: int, adr: seq<int>, all: seq<int>)
      reads this
    {
      Valid() && nfree > 0 && FreedAbove(i, low) && st + Rounds(i, low, adr) == all
    }

    method NextRound(i: int, n: int, adr: array<int>, ghost low: int, ghost all: seq<int>)
      requires RoundsSoFar(i, low, adr[..], all) && 0 < n && 0 < low && low + n <= i < fsize && Permutation(adr[..], n)
      modifies this
      ensures RoundsSoFar(i - n, low, adr[..], all)
    {
      RoundsNext(st, i, low, adr[..]);
      FreeRound(i, n, adr, low);
    }

    method FreeLast(from: int, low: int)
      requires Valid() && nfree > 0 && FreedAbove(from, low) && 0 < low == isize + 2 && from < fsize
      modifies this
      ensures Valid() && nfree > 0 && FreedAbove(low - 1, low) && st == old(st) + Down(from, low)
    {
      ghost var all := st + Down(from, low);
      var i := from;
      while i >= low
        invariant RestSoFar(i, low, all) && i < fsize
      {
        NextDown(i, low, all);
        i := i - 1;
      }
    }

    /** What is on the list and the blocks from i down to low make up the whole. */
    ghost predicate RestSoFar(i: int, low: int, all: seq<int>)
      reads this
    {
      Valid() && nfree > 0 && FreedAbove(i, low) && st + Down(i, low) == all
    }

    method NextDown(i: int, ghost low: int, ghost all: seq<int>)
      requires RestSoFar(i, low, all) && 0 < low <= i < fsize
      modifies this
      ensures RestSoFar(i - 1, low, all)
    {
      ghost var was := st;
      FreeOne(i, low);
      assert (was + [i]) + Down(i - 1, low) == was + ([i] + Down(i - 1, low));
    }

    /** The blocks from high down to above i have been freed, none of them the last of n whole ones. */
    ghost predicate TailSoFar(i: int, high: int, low: int, n: int, st0: seq<int>)
      requires 0 < n
      reads this
    {
      && Valid() && nfree > 0 && FreedAbove(i, low) && high < fsize && AboveTop(i, high, low, n)
      && st == st0 + Down(high, i + 1)
    }

    method FreeDown(i: int, high: int, low: int, n: int, ghost st0: seq<int>)
      requires 0 < n && TailSoFar(i, high, low, n, st0) && 0 < low <= i && !Ends(i, n)
      modifies this
      ensures TailSoFar(i - 1, high, low, n, st0)
    {
      DownMore(high, i + 1);
      FreeOne(i, low);
      assert st0 + Down(high, i) == st0 + Down(high, i + 1) + [i];
    }

    /** The blocks above the last whole round. */
    method FreeTail(high: int, n: int, low: int) returns (i: int)
      requires Valid() && nfree > 0 && FreedAbove(high, low) && 0 < low && high < fsize && 0 < n
      modifies this
      ensures TailSoFar(i, high, low, n, old(st)) && IsTop(i, high, low, n)
    {
      i := high;
      while (i + 1) % n != 0
        invariant TailSoFar(i, high, low, n, old(st))
        decreases i - low + 1
      {
        if i < low {
          break;
        }
        FreeDown(i, high, low, n, old(st));
        i := i - 1;
      }
    }

    /** alloc, while blocks remain: mkfs gives up otherwise. */
    method Alloc() returns (bno: int)
      requires Valid() && st != []
      modifies this
      ensures Valid()
      ensures store == old(store) && bno == old(st)[|old(st)|-1] && st == old(st)[..|old(st)|-1]
    {
      RepTop(st, nfree, free, store);
      nfree := nfree - 1;
      bno := free[nfree];
      if nfree > 0 {
        RepPopInCore(st, nfree + 1, free, store);
        RepCleared(st[..|st|-1], nfree, free, store);
        free := free[nfree := 0];
      } else {
        RepPopReload(st, 1, free, store);
        free := free[nfree := 0];
        buf := store[bno];
        nfree := buf[0];
        free := buf[1..NICFREE+1];
      }
      st := st[..|st|-1];
    }

    /** newblk: the data goes to a new block, which is entered in ib. */
    method Newblk(words: seq<int>, ghost d: Draft) returns (bno: int, ghost d': Draft)
      requires Valid() && CanTake(Abs()) && Top(Abs()) !in st[..|st|-1] && |words| == WORDS
      modifies this
      ensures Valid()
      ensures (Abs(), d') == AddBlock(old(Abs()), d, words) && d'.ib == d.ib + [bno]
    {
      bno := Alloc();
      RepFrame(st, nfree, free, store, store[bno := words]);
      store := store[bno := words];
      d' := Draft(d.ib + [bno], d.data + [words]);
    }

    /** The end of cfile: the addresses of a file whose blocks are in ib. */
    method LayOutFile(ib: array<int>, ibc: int) returns (ino: Ino)
      requires Valid() && ib.Length == WORDS && 0 <= ibc <= MAXIB && (forall i :: ibc <= i < WORDS ==> ib[i] == 0)
      requires ibc > 8 ==> CanTake(Abs()) && Top(Abs()) !in st[..|st|-1]
      modifies this
      ensures Valid()
      ensures (Abs(), ino) == LayOut(old(Abs()), ib[..ibc])
    {
      var addr := [0, 0, 0, 0, 0, 0, 0, 0];
      if ibc > 8 {
        assert ib[..] == Padded(ib[..ibc], WORDS);
        var dbc := Alloc();
        RepFrame(st, nfree, free, store, store[dbc := ib[..]]);
        store := store[dbc := ib[..]];
        assert addr[0 := dbc] == Converted(dbc).addr;
        return Ino(addr[0 := dbc], true);
      }
      var i := 0;
      while i < ibc
        invariant 0 <= i <= ibc && |addr| == NADDR
        invariant forall k :: 0 <= k < NADDR ==> addr[k] == if k < i then ib[k] else 0
      {
        addr := addr[i := ib[i]];
        i := i + 1;
      }
      assert addr == Padded(ib[..ibc], NADDR);
      return Ino(addr, false);
    }
  }

  /** Entries above the top do not matter. */
  lemma RepCleared(st: seq<int>, n: int, f: seq<int>, store: Store)
    requires Rep(st, n, f, store) && 0 < n < NICFREE
    ensures Rep(st, n, f[n := 0], store)
  {
    assert f[n := 0][1..n] == f[1..n] && f[n := 0][..n] == f[..n];
  }

  /** A whole round is a whole band of blocks. */
  lemma RoundOver(st0: seq<int>, st: seq<int>, a: seq<int>, n: int, i: int, low: int, high: int)
    requires Permutation(a, n) && low + n <= i < high
    requires forall x :: Count(st0, x) == if i < x < high && low <= x then 1 else 0
    requires forall x :: Count(st, x) == Count(st0, x) + Count(a[..n], i - x)
    ensures forall x :: Count(st, x) == if i - n < x < high && low <= x then 1 else 0
  {
    assert a[..n] == a;
  }

  lemma RoundCount(st: seq<int>, adr: seq<int>, j: nat, i: int, x: int)
    requires j < |adr|
    ensures Count(st + [i - adr[j]], x) - Count(st, x) == Count(adr[..j+1], i - x) - Count(adr[..j], i - x)
  {
    CountAppend(st, [i - adr[j]], x);
    CountOne(i - adr[j], x);
    assert adr[..j+1] == adr[..j] + [adr[j]];
    CountAppend(adr[..j], [adr[j]], i - x);
    CountOne(adr[j], i - x);
  }

  /** The next table entry is in range and new. */
  lemma RoundNext(adr: seq<int>, n: int, j: nat)
    requires Permutation(adr, n) && j < n
    ensures 0 <= adr[j] < n && Count(adr[..j], adr[j]) == 0
  {
    var x := adr[j];
    assert adr == adr[..j] + adr[j..] && adr[j..][0] == x;
    CountAppend(adr[..j], adr[j..], x);
    CountIn(adr[j..], x);
    assert Count(adr, x) <= 1;
    CountIn(adr, x);
  }
}
