/** Who runs next, who is swapped, and which process number is given out: the searches of swtch, sched and newproc. */
module Scheduling {

  datatype Stat = Null | Sleep | Wait | Run | Idl | Zomb | Stop

  datatype Proc = Proc(stat: Stat, load: bool, sys: bool, lock: bool, pri: int, time: int, pid: int)

  type Table = seq<Proc>

  /* ---------------------------------------------------------------- swtch */

  predicate Ready(t: Table, i: int) { 0 <= i < |t| && t[i].stat.Run? && t[i].load }

  /** Ready, and none has a lower priority number. */
  ghost predicate Best(t: Table, i: int) { Ready(t, i) && forall j :: Ready(t, j) ==> t[i].pri <= t[j].pri }

  /** Steps from p to i, going up and round; p itself is furthest. */
  function Steps(n: int, p: int, i: int): int { if i > p then i - p else i - p + n }

  /** The choice swtch must make: a best process, and of those the first after p. */
  ghost predicate Chosen(t: Table, p: int, r: int) {
    Best(t, r) && forall i :: Best(t, i) ==> Steps(|t|, p, r) <= Steps(|t|, p, i)
  }

  /** Seen so far: everything at most k steps from p. */
  ghost predicate Seen(t: Table, p: int, k: int, r: int, n: int) {
    && (r == -1 ==> n == 128 && forall i :: Ready(t, i) ==> Steps(|t|, p, i) > k)
    && (r != -1 ==>
         && Ready(t, r) && n == t[r].pri && Steps(|t|, p, r) <= k
         && (forall i :: Ready(t, i) && Steps(|t|, p, i) <= k ==> n <= t[i].pri)
         && (forall i :: Ready(t, i) && Steps(|t|, p, i) < Steps(|t|, p, r) ==> n < t[i].pri))
  }

  /** The search loop of swtch: the process to run, or -1 when none can. */
  method Search(t: Table, p: int) returns (r: int)
    requires 0 <= p < |t| && forall i :: 0 <= i < |t| ==> t[i].pri < 128
    ensures r == -1 <==> forall i :: 0 <= i < |t| ==> !Ready(t, i)
    ensures r != -1 ==> Chosen(t, p, r)
  {
    var rp, n := p, 128;
    r := -1;
    var i := |t|;
    while i > 0
      invariant 0 <= i <= |t| && 0 <= rp < |t|
      invariant rp == if p + (|t| - i) < |t| then p + (|t| - i) else p + (|t| - i) - |t|
      invariant Seen(t, p, |t| - i, r, n)
    {
      rp := rp + 1;
      if rp >= |t| {
        rp := 0;
      }
      assert Steps(|t|, p, rp) == |t| - i + 1;
      assert forall j :: 0 <= j < |t| && Steps(|t|, p, j) == |t| - i + 1 ==> j == rp;
      if t[rp].stat.Run? && t[rp].load && t[rp].pri < n {
        r, n := rp, t[rp].pri;
      }
      i := i - 1;
    }
    assert forall j :: Ready(t, j) ==> Steps(|t|, p, j) <= |t|;
  }

  /* ---------------------------------------------------------------- rotation */

  /** s lists the best processes in table order. */
  ghost predicate BestList(t: Table, s: seq<int>) {
    && (forall i, j :: 0 <= i < j < |s| ==> s[i] < s[j])
    && (forall i :: 0 <= i < |s| ==> Best(t, s[i]))
    && (forall i :: Best(t, i) ==> exists k :: 0 <= k < |s| && s[k] == i)
  }

  /** The index after j, going round. */
  function After(j: int, k: int): int { if j + 1 == k then 0 else j + 1 }

  lemma InList(t: Table, s: seq<int>, p: int, r: int) returns (k: int)
    requires BestList(t, s) && Chosen(t, p, r)
    ensures 0 <= k < |s| && s[k] == r
  {
    k :| 0 <= k < |s| && s[k] == r;
  }

  /** From one best process the search goes to the next. */
  lemma NextInList(t: Table, s: seq<int>, j: int, r: int)
    requires BestList(t, s) && 0 <= j < |s| && Chosen(t, s[j], r)
    ensures r == s[After(j, |s|)]
  {
    var m := After(j, |s|);
    var k := InList(t, s, s[j], r);
    assert Best(t, s[m]) && Best(t, s[j]);
    assert Steps(|t|, s[j], s[k]) <= Steps(|t|, s[j], s[m]);
  }

  /** Index reached after going round from j in t steps, fewer than a whole turn. */
  function Round(j: int, t: int, k: int): int { if j + t < k then j + t else j + t - k }

  /** CPU rotation: as long as the best processes are the same, successive searches take them in cyclic order, so |s|
      searches in a row choose each exactly once, whatever else changes in the table meanwhile. */
  lemma {:induction false} Rotation(ts: seq<Table>, picks: seq<int>, s: seq<int>, n: nat) returns (j: int)
    requires |picks| == |ts| + 1 && 0 < n <= |s| && n <= |ts|
    requires forall i :: 0 <= i < |ts| ==> BestList(ts[i], s) && Chosen(ts[i], picks[i], picks[i+1])
    ensures 0 <= j < |s| && forall i :: 0 <= i < n ==> picks[i+1] == s[Round(j, i, |s|)]
    decreases n
  {
    if n == 1 {
      j := InList(ts[0], s, picks[0], picks[1]);
    } else {
      j := Rotation(ts, picks, s, n - 1);
      var k := Round(j, n - 2, |s|);
      assert picks[n-1] == s[k];
      NextInList(ts[n-1], s, k, picks[n]);
    }
  }

  lemma EachOnce(ts: seq<Table>, picks: seq<int>, s: seq<int>)
    requires |picks| == |ts| + 1 == |s| + 1 && s != []
    requires forall i :: 0 <= i < |ts| ==> BestList(ts[i], s) && Chosen(ts[i], picks[i], picks[i+1])
    ensures forall m :: 0 <= m < |s| ==> s[m] in picks[1..]
    ensures forall a, b :: 0 < a < b < |picks| ==> picks[a] != picks[b]
  {
    var k := |s|;
    var j := Rotation(ts, picks, s, k);
    forall m | 0 <= m < k
      ensures s[m] in picks[1..]
    {
      var i := if m >= j then m - j else m - j + k;
      assert Round(j, i, k) == m && picks[i+1] == s[m];
      assert picks[1..][i] == s[m];
    }
    assert BestList(ts[0], s);
    forall a, b | 0 < a < b < |picks|
      ensures picks[a] != picks[b]
    {
      var x, y := Round(j, a - 1, k), Round(j, b - 1, k);
      assert picks[(a-1)+1] == s[x] && picks[(b-1)+1] == s[y];
      assert x < y ==> s[x] < s[y];
      assert y < x ==> s[y] < s[x];
    }
  }

  /* ---------------------------------------------------------------- sched */

  /** Ready but swapped out. */
  predicate Waiting(p: Proc) { p.stat.Run? && !p.load }

  /** In core and free to be swapped out. */
  predicate Movable(p: Proc) { p.load && !p.sys && !p.lock }

  predicate Easy(p: Proc) { Movable(p) && (p.stat.Wait? || p.stat.Stop?) }

  predicate Busy(p: Proc) { Movable(p) && (p.stat.Run? || p.stat.Sleep?) }

  datatype Kind = ToSwapIn | ToSwapOut

  predicate Eligible(k: Kind, p: Proc) { if k == ToSwapIn then Waiting(p) else Busy(p) }

  /** The first of those eligible that have been in place longest. */
  ghost predicate IsLongest(t: Table, k: Kind, r: int) {
    && 0 <= r < |t| && Eligible(k, t[r])
    && (forall i :: 0 <= i < |t| && Eligible(k, t[i]) ==> t[i].time <= t[r].time)
    && (forall i :: 0 <= i < r && Eligible(k, t[i]) ==> t[i].time < t[r].time)
  }

  /** The loops that look for the longest time in place; -1 and time -1 if nobody is eligible. */
  method Longest(t: Table, k: Kind) returns (r: int, n: int)
    requires forall i :: 0 <= i < |t| ==> t[i].time >= 0
    ensures r == -1 <==> forall i :: 0 <= i < |t| ==> !Eligible(k, t[i])
    ensures r == -1 ==> n == -1
    ensures r != -1 ==> IsLongest(t, k, r) && n == t[r].time
  {
    r, n := -1, -1;
    for i := 0 to |t|
      invariant r == -1 <==> forall j :: 0 <= j < i ==> !Eligible(k, t[j])
      invariant r == -1 ==> n == -1
      invariant r != -1 ==> 0 <= r < i && Eligible(k, t[r]) && n == t[r].time
      invariant forall j :: 0 <= j < i && Eligible(k, t[j]) ==> t[j].time <= n && (j < r ==> t[j].time < n)
    {
      if Eligible(k, t[i]) && t[i].time > n {
        r, n := i, t[i].time;
      }
    }
  }

  method FindEasy(t: Table) returns (r: int)
    ensures r == -1 ==> forall i :: 0 <= i < |t| ==> !Easy(t[i])
    ensures r != -1 ==> 0 <= r < |t| && Easy(t[r]) && forall i :: 0 <= i < r ==> !Easy(t[i])
  {
    for i := 0 to |t|
      invariant forall j :: 0 <= j < i ==> !Easy(t[j])
    {
      if Easy(t[i]) {
        return i;
      }
    }
    return -1;
  }

  datatype Choice = Nobody | BringIn(p: int) | PushOut(p: int) | NoRoom

  /** The choice of sched, when p is to come in and there is no core for it: an easy victim; else, if p has waited long
      enough, the longest in core if that too has been there long enough; else nobody. */
  ghost predicate MakesRoom(t: Table, p: int, c: Choice) {
    && IsLongest(t, ToSwapIn, p)
    && match c
       case PushOut(q) =>
         if exists i :: 0 <= i < |t| && Easy(t[i])
         then 0 <= q < |t| && Easy(t[q]) && forall i :: 0 <= i < q ==> !Easy(t[i])
         else t[p].time >= 3 && IsLongest(t, ToSwapOut, q) && t[q].time >= 2
       case NoRoom =>
         && (forall i :: 0 <= i < |t| ==> !Easy(t[i]))
         && (t[p].time < 3 || forall i :: 0 <= i < |t| && Busy(t[i]) ==> t[i].time < 2)
       case _ => false
  }

  /** One pass of sched up to its next action; p is the process to come in, -1 if none.  `room`: malloc found core for
      it. */
  method Decide(t: Table, room: int -> bool) returns (c: Choice, p: int)
    requires forall i :: 0 <= i < |t| ==> t[i].time >= 0
    ensures c.Nobody? <==> forall i :: 0 <= i < |t| ==> !Waiting(t[i])
    ensures !c.Nobody? ==> IsLongest(t, ToSwapIn, p) && if room(p) then c == BringIn(p) else MakesRoom(t, p, c)
  {
    var n;
    p, n := Longest(t, ToSwapIn);
    if p == -1 {
      return Nobody, p;
    }
    if room(p) {
      return BringIn(p), p;
    }
    var q := FindEasy(t);
    if q != -1 {
      return PushOut(q), p;
    }
    if n < 3 {
      return NoRoom, p;
    }
    q, n := Longest(t, ToSwapOut);
    if n < 2 {
      return NoRoom, p;
    }
    return PushOut(q), p;
  }

  /* ---------------------------------------------------------------- process numbers */

  const MAXPID := 32767

  /** The next number to try: past the largest word it starts again. */
  function Following(pid: int): int { if pid == MAXPID then 1 else pid + 1 }

  /** Fewer than m numbers leave one of 1..m unused. */
  lemma {:induction false} Unused(pids: seq<int>, m: nat) returns (v: int)
    requires |pids| < m
    ensures 1 <= v <= m && v !in pids
    decreases m
  {
    if m in pids {
      var k :| 0 <= k < |pids| && pids[k] == m;
      var rest := pids[..k] + pids[k+1..];
      v := Unused(rest, m - 1);
      forall i | 0 <= i < |pids|
        ensures pids[i] != v
      {
        assert i < k ==> rest[i] == pids[i];
        assert i > k ==> rest[i-1] == pids[i];
      }
    } else {
      v := m;
    }
  }

  function Pids(t: Table): (s: seq<int>)
    ensures |s| == |t| && forall i :: 0 <= i < |t| ==> s[i] == t[i].pid
  {
    seq(|t|, i requires 0 <= i < |t| => t[i].pid)
  }

  /** How far the number `to` comes after `from`, going from the largest number to 1. */
  function Gap(from: int, to: int): int { if to > from then to - from else to - from + MAXPID }

  predicate IsPid(v: int) { 1 <= v <= MAXPID }

  ghost predicate InUse(t: Table, v: int) { exists i :: 0 <= i < |t| && t[i].pid == v }

  /** One scan for number pid: whether it is taken; on the way the first free slot is noted. */
  method Scan(t: Table, pid: int, p: int) returns (taken: bool, p': int)
    requires p == -1 || FreeSlot(t, p)
    ensures taken <==> InUse(t, pid)
    ensures p' == -1 || FreeSlot(t, p')
    ensures !taken && p' == -1 ==> forall i :: 0 <= i < |t| ==> !t[i].stat.Null?
  {
    p' := p;
    for i := 0 to |t|
      invariant p' == -1 || FreeSlot(t, p')
      invariant p' == -1 ==> forall j :: 0 <= j < i ==> !t[j].stat.Null?
      invariant forall j :: 0 <= j < i ==> t[j].pid != pid
    {
      if t[i].stat.Null? && p' == -1 {
        p' := i;
      }
      if t[i].pid == pid {
        return true, p';
      }
    }
    taken := false;
  }

  /** The first free slot. */
  ghost predicate FreeSlot(t: Table, p: int) {
    0 <= p < |t| && t[p].stat.Null? && forall i :: 0 <= i < p ==> !t[i].stat.Null?
  }

  /** newproc's number and slot: the first number after mpid that no entry has, found whenever the table is smaller than
      the range of numbers, and the first free slot, or -1 (a panic) when there is none. */
  method NewPid(t: Table, mpid: int) returns (pid: int, p: int)
    requires 0 <= mpid <= MAXPID && |t| < MAXPID
    ensures IsPid(pid) && !InUse(t, pid)
    ensures forall v :: IsPid(v) && Gap(mpid, v) < Gap(mpid, pid) ==> InUse(t, v)
    ensures if exists i :: 0 <= i < |t| && t[i].stat.Null? then FreeSlot(t, p) else p == -1
  {
    ghost var goal := Unused(Pids(t), MAXPID);
    pid := Following(mpid);
    var taken;
    taken, p := Scan(t, pid, -1);
    while taken
      invariant IsPid(pid) && (p == -1 || FreeSlot(t, p)) && (taken <==> InUse(t, pid))
      invariant forall v :: IsPid(v) && Gap(mpid, v) < Gap(mpid, pid) ==> InUse(t, v)
      invariant !taken && p == -1 ==> forall i :: 0 <= i < |t| ==> !t[i].stat.Null?
      decreases if taken then Gap(pid, goal) else 0
    {
      assert pid != goal && !InUse(t, goal) by { assert forall i :: 0 <= i < |t| ==> Pids(t)[i] == t[i].pid; }
      assert Gap(mpid, pid) <= Gap(mpid, goal);
      pid := Following(pid);
      taken, p := Scan(t, pid, p);
    }
  }
}
