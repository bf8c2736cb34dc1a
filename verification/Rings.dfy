/** Circular doubly linked lists kept as two arrays of node numbers, the way the
    kernel threads its buffer headers: one head node, forward and backward links. */
module Rings {

  ghost predicate NoDup(s: seq<int>) {
    forall i, j :: 0 <= i < j < |s| ==> s[i] != s[j]
  }

  function Without(s: seq<int>, x: int): seq<int> {
    if s == [] then [] else if s[0] == x then Without(s[1..], x) else [s[0]] + Without(s[1..], x)
  }

  lemma {:induction false} WithoutMembers(s: seq<int>, x: int)
    ensures forall y :: y in Without(s, x) <==> y in s && y != x
  {
    if s != [] {
      WithoutMembers(s[1..], x);
      assert forall y :: y in s <==> y == s[0] || y in s[1..];
    }
  }

  lemma {:induction false} WithoutAt(s: seq<int>, k: nat)
    requires k < |s| && NoDup(s)
    ensures Without(s, s[k]) == s[..k] + s[k+1..]
  {
    if k == 0 {
      WithoutAbsent(s[1..], s[0]);
    } else {
      assert s[1..][k-1] == s[k] && s[0] != s[k];
      WithoutAt(s[1..], k - 1);
      assert s[1..][..k-1] == s[1..k] && s[1..][k..] == s[k+1..];
      assert [s[0]] + (s[1..k] + s[k+1..]) == s[..k] + s[k+1..];
    }
  }

  lemma {:induction false} WithoutAbsent(s: seq<int>, x: int)
    requires x !in s
    ensures Without(s, x) == s
  {
    if s != [] {
      assert s[0] != x && x !in s[1..];
      WithoutAbsent(s[1..], x);
    }
  }

  lemma {:induction false} WithoutNoDup(s: seq<int>, x: int)
    requires NoDup(s)
    ensures NoDup(Without(s, x))
  {
    if x in s {
      var k :| 0 <= k < |s| && s[k] == x;
      WithoutAt(s, k);
    } else {
      WithoutAbsent(s, x);
    }
  }

  /** The nodes met when walking forward from the head until the head comes back. */
  function Lap(h: int, s: seq<int>): seq<int> { [h] + s + [h] }

  /** `s` is the list headed by `h`: following `next` from `h` meets exactly `s`, and `prev` undoes `next`. */
  ghost predicate Ring(next: seq<int>, prev: seq<int>, h: int, s: seq<int>) {
    && |next| == |prev|
    && 0 <= h < |next|
    && h !in s
    && NoDup(s)
    && (forall i :: 0 <= i < |s| ==> 0 <= s[i] < |next|)
    && (forall i :: 0 <= i <= |s| ==> next[Lap(h, s)[i]] == Lap(h, s)[i+1])
    && (forall i :: 0 <= i <= |s| ==> prev[Lap(h, s)[i+1]] == Lap(h, s)[i])
  }

  /** Links of nodes outside the ring do not matter to it. */
  lemma RingFrame(next: seq<int>, prev: seq<int>, next': seq<int>, prev': seq<int>, h: int, s: seq<int>)
    requires Ring(next, prev, h, s)
    requires |next'| == |prev'| == |next|
    requires forall x :: 0 <= x < |next| && (x == h || x in s) ==> next'[x] == next[x] && prev'[x] == prev[x]
    ensures Ring(next', prev', h, s)
  {
    var r := Lap(h, s);
    forall i | 0 <= i <= |s|
      ensures next'[r[i]] == r[i+1] && prev'[r[i+1]] == r[i]
    {
      assert r[i] == h || r[i] in s;
      assert r[i+1] == h || r[i+1] in s;
    }
  }

  /** Only the two ends of a lap coincide. */
  lemma LapDistinct(h: int, s: seq<int>, i: nat, j: nat)
    requires NoDup(s) && h !in s
    requires i < j <= |s| + 1 && !(i == 0 && j == |s| + 1)
    ensures Lap(h, s)[i] != Lap(h, s)[j]
  {
    if i > 0 {
      assert Lap(h, s)[i] == s[i-1];
    }
    if j <= |s| {
      assert Lap(h, s)[j] == s[j-1];
    }
  }

  /** The two neighbours of the k-th member. */
  lemma Neighbours(next: seq<int>, prev: seq<int>, h: int, s: seq<int>, k: nat)
    requires Ring(next, prev, h, s) && k < |s|
    ensures prev[s[k]] == Lap(h, s)[k] && next[s[k]] == Lap(h, s)[k+2]
    ensures prev[s[k]] == h || prev[s[k]] in s
    ensures next[s[k]] == h || next[s[k]] in s
  {
    var r := Lap(h, s);
    assert r[k+1] == s[k];
    assert next[r[k+1]] == r[k+2] && prev[r[k+1]] == r[k];
    assert k > 0 ==> r[k] == s[k-1];
    assert k + 1 < |s| ==> r[k+2] == s[k+1];
  }

  lemma RemoveAt(next: seq<int>, prev: seq<int>, h: int, s: seq<int>, k: nat, i: nat)
    requires Ring(next, prev, h, s) && k < |s| && i < |s|
    ensures var r, t := Lap(h, s), Lap(h, s[..k] + s[k+1..]);
            && next[r[k] := r[k+2]][t[i]] == t[i+1]
            && prev[r[k+2] := r[k]][t[i+1]] == t[i]
  {
    var r, t := Lap(h, s), Lap(h, s[..k] + s[k+1..]);
    if i < k {
      assert t[i] == r[i] && t[i+1] == r[i+1];
      LapDistinct(h, s, i, k);
      LapDistinct(h, s, i + 1, k + 2);
    } else if i == k {
      assert t[i] == r[k] && t[i+1] == r[k+2];
    } else {
      assert t[i] == r[i+1] && t[i+1] == r[i+2];
      LapDistinct(h, s, k, i + 1);
      LapDistinct(h, s, k + 2, i + 2);
    }
  }

  lemma SkipOne(s: seq<int>, k: nat)
    requires NoDup(s) && k < |s|
    ensures var t := s[..k] + s[k+1..]; NoDup(t) && (forall i :: 0 <= i < |t| ==> t[i] in s)
  {
  }

  lemma RingRemoveAt(next: seq<int>, prev: seq<int>, h: int, s: seq<int>, k: nat)
    requires Ring(next, prev, h, s) && k < |s|
    ensures var x := s[k];
            && (prev[x] == h || prev[x] in s) && (next[x] == h || next[x] in s)
            && Ring(next[prev[x] := next[x]], prev[next[x] := prev[x]], h, s[..k] + s[k+1..])
  {
    var x, t := s[k], s[..k] + s[k+1..];
    Neighbours(next, prev, h, s, k);
    SkipOne(s, k);
    forall i | 0 <= i <= |t|
      ensures next[prev[x] := next[x]][Lap(h, t)[i]] == Lap(h, t)[i+1]
      ensures prev[next[x] := prev[x]][Lap(h, t)[i+1]] == Lap(h, t)[i]
    {
      RemoveAt(next, prev, h, s, k, i);
    }
  }

  /** Unlinking a member: its neighbours are joined and nothing else moves. */
  lemma RingRemove(next: seq<int>, prev: seq<int>, h: int, s: seq<int>, x: int)
    requires Ring(next, prev, h, s) && x in s
    ensures (prev[x] == h || prev[x] in s) && (next[x] == h || next[x] in s)
    ensures Ring(next[prev[x] := next[x]], prev[next[x] := prev[x]], h, Without(s, x))
  {
    var k :| 0 <= k < |s| && s[k] == x;
    WithoutAt(s, k);
    RingRemoveAt(next, prev, h, s, k);
  }

  /** Linking a node in at the tail. */
  lemma RingPushBack(next: seq<int>, prev: seq<int>, h: int, s: seq<int>, x: int)
    requires Ring(next, prev, h, s) && x !in s && x != h && 0 <= x < |next|
    ensures 0 <= prev[h] < |next| && (prev[h] == h || prev[h] in s)
    ensures Ring(next[prev[h] := x][x := h], prev[x := prev[h]][h := x], h, s + [x])
  {
    var r, r' := Lap(h, s), Lap(h, s + [x]);
    assert prev[r[|s|+1]] == r[|s|];
    var t := r[|s|];
    assert |s| > 0 ==> t == s[|s|-1];
    var next', prev' := next[t := x][x := h], prev[x := t][h := x];
    forall i | 0 <= i <= |s| + 1
      ensures next'[r'[i]] == r'[i+1] && prev'[r'[i+1]] == r'[i]
    {
      if i < |s| {
        assert r'[i] == r[i] && r'[i+1] == r[i+1] && r[i] != t && r[i] != x && r[i+1] != h && r[i+1] != x;
      }
    }
  }

  /** Linking a node in at the front. */
  lemma RingPushFront(next: seq<int>, prev: seq<int>, h: int, s: seq<int>, x: int)
    requires Ring(next, prev, h, s) && x !in s && x != h && 0 <= x < |next|
    ensures 0 <= next[h] < |next| && (next[h] == h || next[h] in s)
    ensures Ring(next[x := next[h]][h := x], prev[x := h][next[h] := x], h, [x] + s)
  {
    var r, r' := Lap(h, s), Lap(h, [x] + s);
    assert next[r[0]] == r[1];
    var t := r[1];
    assert |s| > 0 ==> t == s[0];
    var next', prev' := next[x := t][h := x], prev[x := h][t := x];
    forall i | 0 <= i <= |s| + 1
      ensures next'[r'[i]] == r'[i+1] && prev'[r'[i+1]] == r'[i]
    {
      if i >= 2 {
        assert r'[i] == r[i-1] && r'[i+1] == r[i];
        assert r[i-1] != x && r[i-1] != h;
        assert r[i] != x && r[i] != t;
      }
    }
  }

  /** A null-terminated singly linked queue running through `next`. */
  ghost predicate Links(next: seq<int>, head: int, s: seq<int>) {
    && NoDup(s)
    && (forall i :: 0 <= i < |s| ==> 0 <= s[i] < |next|)
    && head == (if s == [] then -1 else s[0])
    && (forall i {:trigger next[s[i]]} :: 0 <= i < |s| ==> next[s[i]] == Follower(s, i))
  }

  /** What comes after the i-th element, -1 standing for the null pointer. */
  function Follower(s: seq<int>, i: int): int
    requires 0 <= i < |s|
  {
    if i + 1 < |s| then s[i+1] else -1
  }

  lemma LinksFrame(next: seq<int>, next': seq<int>, head: int, s: seq<int>)
    requires Links(next, head, s) && |next'| == |next|
    requires forall x :: 0 <= x < |next| && x in s ==> next'[x] == next[x]
    ensures Links(next', head, s)
  {
    assert forall i :: 0 <= i < |s| ==> s[i] in s;
  }

  lemma LinksPush(next: seq<int>, head: int, tail: int, s: seq<int>, x: int)
    requires Links(next, head, s) && x !in s && 0 <= x < |next|
    requires s != [] ==> tail == s[|s|-1]
    ensures var n := next[x := -1];
            if s == [] then Links(n, x, s + [x]) else Links(n[tail := x], head, s + [x])
  {
    assert forall i :: 0 <= i < |s| ==> s[i] in s;
  }

  lemma LinksPop(next: seq<int>, head: int, s: seq<int>)
    requires Links(next, head, s) && s != []
    ensures head == s[0] && Links(next, next[s[0]], s[1..]) && s[0] !in s[1..]
  {
    assert forall i :: 0 <= i < |s[1..]| ==> s[1..][i] == s[i+1] && Follower(s[1..], i) == Follower(s, i + 1);
    assert next[s[0]] == Follower(s, 0);
  }

  lemma LinksPushFront(next: seq<int>, head: int, s: seq<int>, x: int)
    requires Links(next, head, s) && x !in s && 0 <= x < |next|
    ensures Links(next[x := head], x, [x] + s)
  {
    var n, t := next[x := head], [x] + s;
    assert forall i :: 0 <= i < |s| ==> s[i] in s;
    forall i | 0 <= i < |t|
      ensures n[t[i]] == Follower(t, i)
    {
      if i > 0 { assert next[s[i-1]] == Follower(s, i - 1); }
    }
  }
}
