/** malloc and mfree as they run: pointer loops over an array of (size, address) entries. */
module MapTable {
  import opened ResourceMap

  const UINT := 0x10000

  /** The table holds the segments s, and every entry after them has size zero. */
  ghost predicate Holds(t: seq<Seg>, s: seq<Seg>) {
    && |s| < |t|
    && t[..|s|] == s
    && (forall i :: |s| <= i < |t| ==> t[i].size == 0)
  }

  /** Every address and end fits an unsigned int, so the arithmetic below cannot wrap. */
  ghost predicate Small(s: seq<Seg>) {
    forall i :: 0 <= i < |s| ==> s[i].End() < UINT
  }

  lemma FirstFitIs(s: seq<Seg>, size: int, i: nat)
    requires i < |s| && s[i].size >= size && forall j :: 0 <= j < i ==> s[j].size < size
    ensures FirstFit(s, size) == i
  {
  }

  lemma PlaceIs(s: seq<Seg>, a: int, i: nat)
    requires i <= |s| && (forall j :: 0 <= j < i ==> s[j].addr <= a) && (i < |s| ==> a < s[i].addr)
    ensures Place(s, a) == i
  {
  }

  /** Close the gap left by entry k: everything after it, terminator included, moves down one. */
  method CloseUp(mp: array<Seg>, k: nat, ghost s: seq<Seg>)
    requires k < |s| < mp.Length && (forall i :: 0 <= i < |s| && i != k ==> mp[i] == s[i])
    requires WF(s) && mp[k].size == 0 && forall i :: |s| <= i < mp.Length ==> mp[i].size == 0
    modifies mp
    ensures Holds(mp[..], Remove(s, k))
  {
    var bp := k;
    while true
      invariant k <= bp < |s|
      invariant forall i :: 0 <= i < bp ==> mp[i] == s[if i < k then i else i + 1]
      invariant forall i :: bp < i < |s| ==> mp[i] == s[i]
      invariant forall i :: |s| <= i < mp.Length ==> mp[i].size == 0
      decreases |s| - bp
    {
      bp := bp + 1;
      mp[bp-1] := mp[bp-1].(addr := mp[bp].addr);
      mp[bp-1] := mp[bp-1].(size := mp[bp].size);
      if mp[bp-1].size == 0 {
        break;
      }
    }
    assert mp[..|s|-1] == Remove(s, k);
  }

  /** First fit; 0 when nothing fits. */
  method Malloc(mp: array<Seg>, size: int, ghost s: seq<Seg>) returns (a: int)
    requires Holds(mp[..], s) && WF(s) && Small(s) && 0 <= size < UINT
    modifies mp
    ensures Holds(mp[..], Alloc(s, size).0) && a == Alloc(s, size).1
  {
    var bp := 0;
    assert forall i :: 0 <= i < |s| ==> mp[..][i] == s[i];
    while mp[bp].size != 0
      invariant 0 <= bp <= |s| && forall j :: 0 <= j < bp ==> s[j].size < size
      invariant mp[..] == old(mp[..])
      decreases |s| - bp
    {
      assert mp[..][bp] == s[bp];
      if mp[bp].size >= size {
        FirstFitIs(s, size, bp);
        a := mp[bp].addr;
        Take(mp, bp, size, s);
        return;
      }
      bp := bp + 1;
    }
    return 0;
  }

  /** malloc has found its segment: shorten it, or drop it when nothing is left. */
  method Take(mp: array<Seg>, bp: nat, size: int, ghost s: seq<Seg>)
    requires Holds(mp[..], s) && WF(s) && bp < |s| && 0 <= size <= s[bp].size
    modifies mp
    ensures Holds(mp[..], Cut(s, bp, size))
  {
    assert forall i :: 0 <= i < |s| ==> mp[..][i] == s[i];
    mp[bp] := Seg(mp[bp].addr + size, mp[bp].size - size);
    if mp[bp].size == 0 {
      CloseUp(mp, bp, s);
    } else {
      assert mp[..|s|] == Cut(s, bp, size);
    }
  }

  /** mfree's merge with both neighbours: entry bp disappears into entry bp-1. */
  method Merge(mp: array<Seg>, bp: nat, size: int, ghost s: seq<Seg>)
    requires Holds(mp[..], s) && WF(s) && 0 < bp < |s|
    modifies mp
    ensures Holds(mp[..], Remove(s, bp)[bp-1 := Seg(s[bp-1].addr, s[bp-1].size + size + s[bp].size)])
  {
    ghost var g := Seg(s[bp-1].addr, s[bp-1].size + size + s[bp].size);
    assert mp[..|s|] == s;
    mp[bp-1] := Seg(mp[bp-1].addr, mp[bp-1].size + size);
    mp[bp-1] := Seg(mp[bp-1].addr, mp[bp-1].size + mp[bp].size);
    assert mp[..|s|] == s[bp-1 := g];
    MoveDown(mp, bp, s[bp-1 := g]);
    assert Remove(s[bp-1 := g], bp) == Remove(s, bp)[bp-1 := g];
  }

  /** The loop of the merge: the entries from bp on, terminator included, are written over by those after them. */
  method MoveDown(mp: array<Seg>, bp: nat, ghost s: seq<Seg>)
    requires Holds(mp[..], s) && bp < |s| && forall i :: bp <= i < |s| ==> s[i].size > 0
    modifies mp
    ensures Holds(mp[..], Remove(s, bp))
  {
    assert forall i :: 0 <= i < |s| ==> mp[..][i] == s[i];
    var b := bp;
    while mp[b].size != 0
      invariant bp <= b <= |s|
      invariant forall i :: 0 <= i < b && i + 1 < |s| ==> mp[i] == s[if i < bp then i else i + 1]
      invariant forall i :: b <= i < |s| ==> mp[i] == s[i]
      invariant forall i :: |s| <= i < mp.Length ==> mp[i].size == 0
      invariant b == |s| ==> mp[b-1].size == 0
      decreases |s| - b
    {
      b := b + 1;
      mp[b-1] := Seg(mp[b].addr, mp[b].size);
    }
    assert mp[..|s|-1] == Remove(s, bp);
  }

  /** mfree's insertion: carry each entry one place up until a zero size has been carried.
      The entry after the old terminator must already have size zero. */
  method OpenUp(mp: array<Seg>, k: nat, size: int, a: int, ghost s: seq<Seg>)
    requires Holds(mp[..], s) && WF(s) && k <= |s| && |s| + 1 < mp.Length && 0 < size
    modifies mp
    ensures Holds(mp[..], Splice(s, k, Seg(a, size)))
  {
    assert forall i :: 0 <= i < |s| ==> mp[..][i] == s[i];
    ghost var r := Splice(s, k, Seg(a, size));
    var bp, carry := k, Seg(a, size);
    while true
      invariant k <= bp <= |s| && carry == r[bp]
      invariant forall i :: 0 <= i < bp ==> mp[i] == r[i]
      invariant forall i :: bp <= i < |s| ==> mp[i] == s[i]
      invariant forall i :: |s| <= i < mp.Length ==> mp[i].size == 0
      decreases |s| - bp
    {
      var t := mp[bp];
      mp[bp] := carry;
      carry := t;
      bp := bp + 1;
      if carry.size == 0 {
        break;
      }
    }
    assert mp[..|s|+1] == r;
  }

  /** Give units back.  The table must have room for the result and its terminator. */
  method Mfree(mp: array<Seg>, size: int, a: int, ghost s: seq<Seg>)
    requires Holds(mp[..], s) && WF(s) && Small(s) && 0 <= size && 0 < a && a + size < UINT
    requires |Insert(s, a, size)| < mp.Length
    modifies mp
    ensures Holds(mp[..], Insert(s, a, size))
  {
    var bp := 0;
    assert forall i :: 0 <= i < |s| ==> mp[..][i] == s[i];
    while mp[bp].addr <= a && mp[bp].size != 0
      invariant 0 <= bp <= |s| && forall j :: 0 <= j < bp ==> s[j].addr <= a
      decreases |s| - bp
    {
      bp := bp + 1;
    }
    PlaceIs(s, a, bp);
    FreeAt(mp, bp, size, a, s);
  }

  /** mfree once the place has been found. */
  method FreeAt(mp: array<Seg>, bp: nat, size: int, a: int, ghost s: seq<Seg>)
    requires Holds(mp[..], s) && WF(s) && bp <= |s| && 0 <= size && |InsertAt(s, bp, a, size)| < mp.Length
    modifies mp
    ensures Holds(mp[..], InsertAt(s, bp, a, size))
  {
    assert forall i :: 0 <= i < |s| ==> mp[..][i] == s[i];
    if bp > 0 && mp[bp-1].addr + mp[bp-1].size == a {
      if a + size == mp[bp].addr {
        JoinBoth(mp, bp, size, s);
      } else {
        Lengthen(mp, bp - 1, Seg(mp[bp-1].addr, mp[bp-1].size + size), s);
      }
    } else if a + size == mp[bp].addr && mp[bp].size != 0 {
      Lengthen(mp, bp, Seg(mp[bp].addr - size, mp[bp].size + size), s);
    } else if size != 0 {
      OpenUp(mp, bp, size, a, s);
    }
  }

  method Lengthen(mp: array<Seg>, k: nat, g: Seg, ghost s: seq<Seg>)
    requires Holds(mp[..], s) && k < |s|
    modifies mp
    ensures Holds(mp[..], s[k := g])
  {
    mp[k] := g;
  }

  /** The address after the freed units matches entry bp.  If that entry is the terminator its address is stale,
      but its size is zero and nothing more happens. */
  method JoinBoth(mp: array<Seg>, bp: nat, size: int, ghost s: seq<Seg>)
    requires Holds(mp[..], s) && WF(s) && 0 < bp <= |s|
    modifies mp
    ensures bp < |s| ==> Holds(mp[..], Remove(s, bp)[bp-1 := Seg(s[bp-1].addr, s[bp-1].size + size + s[bp].size)])
    ensures bp == |s| ==> Holds(mp[..], s[bp-1 := Seg(s[bp-1].addr, s[bp-1].size + size)])
  {
    assert forall i :: 0 <= i < |s| ==> mp[..][i] == s[i];
    if mp[bp].size != 0 {
      Merge(mp, bp, size, s);
    } else {
      Lengthen(mp, bp - 1, Seg(mp[bp-1].addr, mp[bp-1].size + size), s);
    }
  }
}
