/** The core and swap maps: free segments in a table sorted by address and ended by a zero size. */
module ResourceMap {

  datatype Seg = Seg(addr: int, size: int) {
    function End(): int { addr + size }
  }

  /** Unit u is free. */
  ghost predicate Has(s: seq<Seg>, u: int) {
    exists i :: 0 <= i < |s| && s[i].addr <= u < s[i].End()
  }

  /** Sorted, disjoint and fully coalesced: between two segments there is always a gap. */
  ghost predicate WF(s: seq<Seg>) {
    && (forall i :: 0 <= i < |s| ==> 0 < s[i].addr && 0 < s[i].size)
    && (forall i, j :: 0 <= i < j < |s| ==> s[i].End() < s[j].addr)
  }

  /** Unit u is free without the help of segment i. */
  ghost predicate HasBut(s: seq<Seg>, i: int, u: int) {
    exists j :: 0 <= j < |s| && j != i && s[j].addr <= u < s[j].End()
  }

  predicate In(g: Seg, u: int) { g.addr <= u < g.End() }

  lemma HasSplit(s: seq<Seg>, i: nat, u: int)
    requires i < |s|
    ensures Has(s, u) <==> HasBut(s, i, u) || In(s[i], u)
  {
  }

  lemma ReplaceUnits(s: seq<Seg>, i: nat, g: Seg, u: int)
    requires i < |s|
    ensures Has(s[i := g], u) <==> HasBut(s, i, u) || In(g, u)
  {
    var t := s[i := g];
    if HasBut(s, i, u) {
      var j :| 0 <= j < |s| && j != i && s[j].addr <= u < s[j].End();
      assert t[j] == s[j];
    }
    if In(g, u) {
      assert t[i] == g;
    }
  }

  lemma RemoveUnits(s: seq<Seg>, i: nat, u: int)
    requires i < |s|
    ensures Has(Remove(s, i), u) <==> HasBut(s, i, u)
  {
    var t := Remove(s, i);
    if HasBut(s, i, u) {
      var j :| 0 <= j < |s| && j != i && s[j].addr <= u < s[j].End();
      assert t[if j < i then j else j - 1] == s[j];
    }
    if Has(t, u) {
      var j :| 0 <= j < |t| && t[j].addr <= u < t[j].End();
      assert s[if j < i then j else j + 1] == t[j];
    }
  }

  function Splice(s: seq<Seg>, i: nat, g: Seg): seq<Seg>
    requires i <= |s|
  {
    s[..i] + [g] + s[i..]
  }

  lemma SpliceUnits(s: seq<Seg>, i: nat, g: Seg, u: int)
    requires i <= |s|
    ensures Has(Splice(s, i, g), u) <==> Has(s, u) || In(g, u)
  {
    var t := Splice(s, i, g);
    assert t[i] == g;
    assert Remove(t, i) == s;
    RemoveUnits(t, i, u);
    HasSplit(t, i, u);
  }

  lemma RemoveWF(s: seq<Seg>, i: nat)
    requires WF(s) && i < |s|
    ensures WF(Remove(s, i))
  {
    var t := Remove(s, i);
    forall x, y | 0 <= x < y < |t|
      ensures t[x].End() < t[y].addr
    {
      assert t[x] == s[if x < i then x else x + 1] && t[y] == s[if y < i then y else y + 1];
    }
  }

  /** A segment may be exchanged for any other that keeps its distance from the neighbours. */
  lemma ReplaceWF(s: seq<Seg>, i: nat, g: Seg)
    requires WF(s) && i < |s| && 0 < g.addr && 0 < g.size
    requires forall j :: 0 <= j < i ==> s[j].End() < g.addr
    requires forall j :: i < j < |s| ==> g.End() < s[j].addr
    ensures WF(s[i := g])
  {
  }

  lemma SpliceWF(s: seq<Seg>, i: nat, g: Seg)
    requires WF(s) && i <= |s| && 0 < g.addr && 0 < g.size
    requires forall j :: 0 <= j < i ==> s[j].End() < g.addr
    requires forall j :: i <= j < |s| ==> g.End() < s[j].addr
    ensures WF(Splice(s, i, g))
  {
    var t := Splice(s, i, g);
    assert forall x :: 0 <= x < |t| && x != i ==> t[x] == s[if x < i then x else x - 1];
  }

  /* ---------------------------------------------------------------- allocation */

  /** The first segment that is large enough, or |s|. */
  function FirstFit(s: seq<Seg>, size: int): (i: nat)
    ensures i <= |s|
    ensures i < |s| ==> s[i].size >= size
    ensures forall j :: 0 <= j < i ==> s[j].size < size
  {
    if s == [] then 0 else if s[0].size >= size then 0 else 1 + FirstFit(s[1..], size)
  }

  function Remove(s: seq<Seg>, i: nat): seq<Seg>
    requires i < |s|
  {
    s[..i] + s[i+1..]
  }

  /** The table after taking size units off the front of segment i. */
  function Cut(s: seq<Seg>, i: nat, size: int): seq<Seg>
    requires i < |s|
  {
    if s[i].size == size then Remove(s, i) else s[i := Seg(s[i].addr + size, s[i].size - size)]
  }

  /** malloc: the new table and the address, 0 when nothing fits. */
  function Alloc(s: seq<Seg>, size: int): (seq<Seg>, int) {
    var i := FirstFit(s, size);
    if i == |s| then (s, 0) else (Cut(s, i, size), s[i].addr)
  }

  lemma CutWF(s: seq<Seg>, i: nat, size: int)
    requires WF(s) && i < |s| && 0 <= size <= s[i].size
    ensures WF(Cut(s, i, size))
  {
    if s[i].size == size {
      RemoveWF(s, i);
    } else {
      ReplaceWF(s, i, Seg(s[i].addr + size, s[i].size - size));
    }
  }

  lemma Apart(s: seq<Seg>, i: nat, u: int)
    requires WF(s) && i < |s| && In(s[i], u)
    ensures !HasBut(s, i, u)
  {
    assert forall j :: 0 <= j < i ==> s[j].End() < s[i].addr;
    assert forall j :: i < j < |s| ==> s[i].End() < s[j].addr;
  }

  /** Exactly the units taken leave the map. */
  lemma CutUnits(s: seq<Seg>, i: nat, size: int, u: int)
    requires WF(s) && i < |s| && 0 <= size <= s[i].size
    ensures Has(Cut(s, i, size), u) <==> Has(s, u) && !(s[i].addr <= u < s[i].addr + size)
  {
    HasSplit(s, i, u);
    if In(s[i], u) { Apart(s, i, u); }
    if s[i].size == size {
      RemoveUnits(s, i, u);
    } else {
      ReplaceUnits(s, i, Seg(s[i].addr + size, s[i].size - size), u);
    }
  }

  /** malloc keeps the table in order, takes the first segment that fits, fails only when none does,
      and removes exactly the units it returns. */
  lemma AllocCorrect(s: seq<Seg>, size: int)
    requires WF(s) && 0 <= size
    ensures var (t, a) := Alloc(s, size);
            && WF(t)
            && (a == 0 <==> forall i :: 0 <= i < |s| ==> s[i].size < size)
            && (a != 0 ==> (forall u :: a <= u < a + size ==> Has(s, u))
                           && (forall b :: IsFit(s, b, size) ==> a <= b))
            && (forall u :: Has(t, u) <==> Has(s, u) && !(a != 0 && a <= u < a + size))
  {
    var i := FirstFit(s, size);
    if i < |s| {
      CutWF(s, i, size);
      forall u
        ensures Has(Cut(s, i, size), u) <==> Has(s, u) && !(s[i].addr <= u < s[i].addr + size)
      {
        CutUnits(s, i, size, u);
      }
    }
  }

  /** Some segment starting at b is large enough. */
  ghost predicate IsFit(s: seq<Seg>, b: int, size: int) {
    exists i :: 0 <= i < |s| && s[i].addr == b && s[i].size >= size
  }

  /* ---------------------------------------------------------------- release */

  /** How many segments start at or below a: where a belongs. */
  function Place(s: seq<Seg>, a: int): (i: nat)
    ensures i <= |s|
    ensures forall j :: 0 <= j < i ==> s[j].addr <= a
    ensures i < |s| ==> a < s[i].addr
  {
    if s == [] then 0 else if s[0].addr <= a then 1 + Place(s[1..], a) else 0
  }

  predicate JoinsLeft(s: seq<Seg>, i: nat, a: int)
    requires i <= |s|
  {
    0 < i && s[i-1].End() == a
  }

  predicate JoinsRight(s: seq<Seg>, i: nat, a: int, size: int)
    requires i <= |s|
  {
    i < |s| && a + size == s[i].addr
  }

  /** mfree: merge with either neighbour, both, or none. */
  function InsertAt(s: seq<Seg>, i: nat, a: int, size: int): seq<Seg>
    requires i <= |s|
  {
    if JoinsLeft(s, i, a) then
      if JoinsRight(s, i, a, size) then Remove(s, i)[i-1 := Seg(s[i-1].addr, s[i-1].size + size + s[i].size)]
      else s[i-1 := Seg(s[i-1].addr, s[i-1].size + size)]
    else if JoinsRight(s, i, a, size) then s[i := Seg(s[i].addr - size, s[i].size + size)]
    else if size == 0 then s
    else Splice(s, i, Seg(a, size))
  }

  function Insert(s: seq<Seg>, a: int, size: int): seq<Seg> { InsertAt(s, Place(s, a), a, size) }

  ghost predicate Disjoint(s: seq<Seg>, a: int, size: int) {
    forall u :: a <= u < a + size ==> !Has(s, u)
  }

  /** The units [a, a+size) fit between segments i-1 and i. */
  ghost predicate Fits(s: seq<Seg>, i: nat, a: int, size: int) {
    && WF(s) && i <= |s| && 0 < a && 0 < size
    && (forall j :: 0 <= j < i ==> s[j].End() <= a)
    && (forall j :: i <= j < |s| ==> a + size <= s[j].addr)
  }

  lemma PlaceFits(s: seq<Seg>, a: int, size: int)
    requires WF(s) && 0 < a && 0 < size && Disjoint(s, a, size)
    ensures Fits(s, Place(s, a), a, size)
  {
    var i := Place(s, a);
    forall j | 0 <= j < i
      ensures s[j].End() <= a
    {
      assert s[j].addr <= a;
      assert !Has(s, a);
    }
    forall j | i <= j < |s|
      ensures a + size <= s[j].addr
    {
      assert a < s[j].addr;
      assert Has(s, s[j].addr);
    }
  }

  lemma InsertAtWF(s: seq<Seg>, i: nat, a: int, size: int)
    requires Fits(s, i, a, size)
    ensures WF(InsertAt(s, i, a, size))
  {
    if JoinsLeft(s, i, a) && JoinsRight(s, i, a, size) {
      BridgeWF(s, i, size);
    } else if JoinsLeft(s, i, a) {
      assert forall j :: i < j < |s| ==> s[i].End() < s[j].addr;
      ReplaceWF(s, i - 1, Seg(s[i-1].addr, s[i-1].size + size));
    } else if JoinsRight(s, i, a, size) {
      assert forall j :: 0 <= j < i - 1 ==> s[j].End() < s[i-1].addr;
      ReplaceWF(s, i, Seg(s[i].addr - size, s[i].size + size));
    } else {
      assert forall j :: i < j < |s| ==> s[i].End() < s[j].addr;
      assert forall j :: 0 <= j < i - 1 ==> s[j].End() < s[i-1].addr;
      SpliceWF(s, i, Seg(a, size));
    }
  }

  lemma InsertAtUnits(s: seq<Seg>, i: nat, a: int, size: int, u: int)
    requires Fits(s, i, a, size)
    ensures Has(InsertAt(s, i, a, size), u) <==> Has(s, u) || a <= u < a + size
  {
    if JoinsLeft(s, i, a) && JoinsRight(s, i, a, size) {
      BridgeUnits(s, i, size, u);
    } else if JoinsLeft(s, i, a) {
      HasSplit(s, i - 1, u);
      ReplaceUnits(s, i - 1, Seg(s[i-1].addr, s[i-1].size + size), u);
    } else if JoinsRight(s, i, a, size) {
      HasSplit(s, i, u);
      ReplaceUnits(s, i, Seg(s[i].addr - size, s[i].size + size), u);
    } else {
      SpliceUnits(s, i, Seg(a, size), u);
    }
  }

  /** mfree keeps the table in order and adds exactly the units given back. */
  lemma InsertCorrect(s: seq<Seg>, a: int, size: int)
    requires WF(s) && 0 < a && 0 < size && Disjoint(s, a, size)
    ensures WF(Insert(s, a, size))
    ensures forall u :: Has(Insert(s, a, size), u) <==> Has(s, u) || a <= u < a + size
  {
    PlaceFits(s, a, size);
    InsertAtWF(s, Place(s, a), a, size);
    forall u
      ensures Has(Insert(s, a, size), u) <==> Has(s, u) || a <= u < a + size
    {
      InsertAtUnits(s, Place(s, a), a, size, u);
    }
  }

  lemma BridgeWF(s: seq<Seg>, i: nat, size: int)
    requires WF(s) && 0 < i < |s| && 0 < size && s[i-1].End() + size == s[i].addr
    ensures WF(Remove(s, i)[i-1 := Seg(s[i-1].addr, s[i-1].size + size + s[i].size)])
  {
    var r, g := Remove(s, i), Seg(s[i-1].addr, s[i-1].size + size + s[i].size);
    RemoveWF(s, i);
    forall j | i - 1 < j < |r|
      ensures g.End() < r[j].addr
    {
      assert r[j] == s[j+1];
    }
    ReplaceWF(r, i - 1, g);
  }

  /** Filling the gap between two segments makes one of them. */
  lemma BridgeUnits(s: seq<Seg>, i: nat, size: int, u: int)
    requires 0 < i < |s| && 0 < size && s[i-1].End() + size == s[i].addr && 0 < s[i-1].size && 0 < s[i].size
    ensures Has(Remove(s, i)[i-1 := Seg(s[i-1].addr, s[i-1].size + size + s[i].size)], u)
            <==> Has(s, u) || s[i-1].End() <= u < s[i].addr
  {
    var g := Seg(s[i-1].addr, s[i-1].size + size + s[i].size);
    HasSplit(s, i, u);
    RemoveUnits(s, i, u);
    var r := Remove(s, i);
    HasSplit(r, i - 1, u);
    ReplaceUnits(r, i - 1, g, u);
  }

  /* ---------------------------------------------------------------- one table per set of units */

  lemma HasFirst(s: seq<Seg>)
    requires WF(s) && s != []
    ensures Has(s, s[0].addr) && !Has(s, s[0].End())
    ensures forall u :: u < s[0].addr ==> !Has(s, u)
  {
    forall u | u < s[0].addr || u == s[0].End()
      ensures !Has(s, u)
    {
      assert forall i :: 0 < i < |s| ==> s[0].End() < s[i].addr;
    }
  }

  lemma HasRest(s: seq<Seg>, u: int)
    requires WF(s) && s != []
    ensures Has(s[1..], u) <==> Has(s, u) && u > s[0].End()
  {
    if Has(s, u) && u > s[0].End() {
      var i :| 0 <= i < |s| && s[i].addr <= u < s[i].End();
      assert s[1..][i-1] == s[i];
    }
    if Has(s[1..], u) {
      var i :| 0 <= i < |s[1..]| && s[1..][i].addr <= u < s[1..][i].End();
      assert s[1..][i] == s[i+1];
    }
  }

  /** A well-formed table is determined by the units it holds, so the order of frees never shows. */
  lemma {:induction false} Canonical(s: seq<Seg>, t: seq<Seg>)
    requires WF(s) && WF(t) && SameUnits(s, t)
    ensures s == t
  {
    if s == [] || t == [] {
      NoneLeft(s, t);
    } else {
      SameFirst(s, t);
      RestWF(s);
      RestWF(t);
      forall u
        ensures Has(s[1..], u) <==> Has(t[1..], u)
      {
        HasRest(s, u);
        HasRest(t, u);
      }
      Canonical(s[1..], t[1..]);
      assert s == [s[0]] + s[1..] && t == [t[0]] + t[1..];
    }
  }

  ghost predicate SameUnits(s: seq<Seg>, t: seq<Seg>) {
    forall u :: Has(s, u) <==> Has(t, u)
  }

  lemma RestWF(s: seq<Seg>)
    requires WF(s) && s != []
    ensures WF(s[1..])
  {
    assert Remove(s, 0) == s[1..];
    RemoveWF(s, 0);
  }

  lemma NoneLeft(s: seq<Seg>, t: seq<Seg>)
    requires WF(s) && WF(t) && SameUnits(s, t) && (s == [] || t == [])
    ensures s == t
  {
    if s != [] { HasFirst(s); }
    if t != [] { HasFirst(t); }
  }

  lemma SameFirst(s: seq<Seg>, t: seq<Seg>)
    requires WF(s) && WF(t) && s != [] && t != [] && SameUnits(s, t)
    ensures s[0] == t[0]
  {
    HasFirst(s);
    HasFirst(t);
    assert s[0].addr == t[0].addr;
    var e, f := s[0].End(), t[0].End();
    assert forall u :: In(t[0], u) ==> Has(t, u);
    assert forall u :: In(s[0], u) ==> Has(s, u);
    assert !In(t[0], e) && !In(s[0], f);
  }

  /** Giving back what malloc took restores the table exactly. */
  lemma FreeUndoesAlloc(s: seq<Seg>, size: int)
    requires WF(s) && 0 < size && Alloc(s, size).1 != 0
    ensures var (t, a) := Alloc(s, size); Insert(t, a, size) == s
  {
    var (t, a) := Alloc(s, size);
    AllocCorrect(s, size);
    assert s[FirstFit(s, size)].addr == a;
    InsertCorrect(t, a, size);
    assert SameUnits(Insert(t, a, size), s);
    Canonical(Insert(t, a, size), s);
  }

  /** Distinct members of a set are no more than the set has. */
  lemma {:induction false} DistinctInSet<T>(who: seq<T>, all: set<T>)
    requires (forall i :: 0 <= i < |who| ==> who[i] in all) && forall i, j :: 0 <= i < j < |who| ==> who[i] != who[j]
    ensures |who| <= |all|
  {
    if who != [] {
      var n := |who| - 1;
      DistinctInSet(who[..n], all - {who[n]});
    }
  }

  /** The unit after a segment that is not the last is not free. */
  lemma GapAfter(s: seq<Seg>, i: nat)
    requires WF(s) && i < |s| - 1
    ensures !Has(s, s[i].End()) && Has(s, s[i].addr) && Has(s, s[i+1].addr) && s[i].addr < s[i].End() < s[i+1].addr
  {
    assert forall j :: 0 <= j < i ==> s[j].End() < s[i].addr;
    assert forall j :: i + 1 < j < |s| ==> s[i+1].End() < s[j].addr;
  }
}
