/** timeout and the callout part of clock, on the table itself. */
module CalloutTable {
  import opened CalloutQueue

  /** A routine of 0 ends the table; what lies beyond is left over. */
  datatype Entry = Entry(time: int, func: int, arg: int)

  datatype Call = Call(func: int, arg: int)

  datatype Request = Request(call: Call, tim: int)

  function AsSlot(e: Entry): Slot<Call> { Slot(e.time, Call(e.func, e.arg)) }

  function Slots(a: seq<Entry>): (s: seq<Slot<Call>>)
    ensures |s| == |a| && forall k :: 0 <= k < |a| ==> s[k] == AsSlot(a[k])
  {
    seq(|a|, k requires 0 <= k < |a| => AsSlot(a[k]))
  }

  /* ---------------------------------------------------------------- a scan in which routines may call timeout */

  function AddAll(s: seq<Slot<Call>>, rs: seq<Request>): (r: seq<Slot<Call>>)
    ensures |r| == |s| + |rs|
    decreases |rs|
  {
    if rs == [] then s else AddAll(Insert(s, rs[0].tim, rs[0].call), rs[1..])
  }

  /** Fire from entry i on; script[k] is what the k-th routine fired asks for.  The table, where the scan stopped, and
      what was fired. */
  function ScanFrom(s: seq<Slot<Call>>, i: nat, script: seq<seq<Request>>): (r: (seq<Slot<Call>>, nat, seq<Call>))
    requires i <= |s|
    ensures i <= r.1 <= |r.0| && |r.2| == r.1 - i
    decreases |script|, |s| - i
  {
    if i == |s| || s[i].time > 0 then (s, i, []) else
    var r := if script == [] then ScanFrom(s, i + 1, []) else ScanFrom(AddAll(s, script[0]), i + 1, script[1..]);
    (r.0, r.1, [s[i].what] + r.2)
  }

  function Asked(script: seq<seq<Request>>): nat { if script == [] then 0 else |script[0]| + Asked(script[1..]) }

  ghost predicate Callable(rs: seq<Request>) { forall k :: 0 <= k < |rs| ==> rs[k].call.func != 0 }

  class Table {
    const callout: array<Entry>
    ghost var n: nat

    /** n entries, then the terminator. */
    ghost predicate Valid()
      reads this, callout
    {
      && n < callout.Length && callout[n].func == 0
      && forall k :: 0 <= k < n ==> callout[k].func != 0
    }

    ghost function Abs(): (s: seq<Slot<Call>>)
      requires n <= callout.Length
      reads this, callout
    {
      Slots(callout[..n])
    }

    constructor (size: nat)
      requires size > 0
      ensures Valid() && Abs() == [] && callout.Length == size && fresh(callout)
    {
      callout := new Entry[size](_ => Entry(0, 0, 0));
      n := 0;
    }

    /** The last loop of timeout: everything from p1 on, terminator included, moves up one place. */
    method MoveUp(p1: nat, last: nat)
      requires p1 <= last && last + 1 < callout.Length
      modifies callout
      ensures forall k :: 0 <= k < callout.Length ==> callout[k] == if p1 < k <= last + 1 then old(callout[k-1])
          else old(callout[k])
    {
      var p2 := last;
      while p2 >= p1
        invariant p1 - 1 <= p2 <= last
        invariant forall k :: 0 <= k < callout.Length ==>
            callout[k] == if p2 + 1 < k <= last + 1 then old(callout[k-1]) else old(callout[k])
      {
        callout[p2 + 1] := callout[p2];
        p2 := p2 - 1;
      }
    }

    /** The first loop of timeout: past everything due no later. */
    method Walk(tim: int, ghost w: Call) returns (p1: nat, t: int)
      requires Valid()
      ensures p1 <= n && (p1 < n ==> callout[p1].time > t)
      ensures Insert(Abs(), tim, w) == Abs()[..p1] + Insert(Abs()[p1..], t, w)
    {
      p1, t := 0, tim;
      ghost var s := Abs();
      ghost var r := FromStart(s, tim, w);
      while callout[p1].func != 0 && callout[p1].time <= t
        invariant p1 <= n && From(s, p1, t, w, r)
        decreases n - p1
      {
        assert s[p1].time == callout[p1].time;
        StepIn(s, p1, t, w, r);
        t := t - callout[p1].time;
        p1 := p1 + 1;
      }
    }

    /** timeout: the routine joins the table, and no other entry's time changes (CalloutQueue.OthersKept). */
    method Timeout(func: int, arg: int, tim: int)
      requires Valid() && func != 0 && n + 1 < callout.Length
      modifies this`n, callout
      ensures Valid() && n == old(n) + 1 && Abs() == Insert(old(Abs()), tim, Call(func, arg))
    {
      var p1, t := Walk(tim, Call(func, arg));
      InsertHere(Abs()[p1..], t, Call(func, arg));
      Put(p1, t, func, arg);
    }

    /** The rest of timeout: the entry goes in at p1. */
    method Put(p1: nat, t: int, func: int, arg: int)
      requires Valid() && func != 0 && n + 1 < callout.Length && p1 <= n
      modifies this`n, callout
      ensures Valid() && n == old(n) + 1
      ensures Abs() == old(Abs())[..p1] + Shifted(old(Abs())[p1..], t, Call(func, arg))
    {
      ghost var s := Abs();
      callout[p1] := callout[p1].(time := callout[p1].time - t);
      var p2 := p1;
      while callout[p2].func != 0
        invariant p1 <= p2 <= n
        decreases n - p2
      {
        p2 := p2 + 1;
      }
      MoveUp(p1, p2);
      callout[p1] := Entry(t, func, arg);
      n := n + 1;
      Assembled(callout[..n], s, p1, t, Call(func, arg));
    }

    /** What a fired routine does: some calls of timeout. */
    method Run(rs: seq<Request>)
      requires Valid() && Callable(rs) && n + |rs| < callout.Length
      modifies this`n, callout
      ensures Valid() && n == old(n) + |rs| && Abs() == AddAll(old(Abs()), rs)
    {
      var k := 0;
      while k < |rs|
        invariant 0 <= k <= |rs| && Valid() && n == old(n) + k
        invariant AddAll(Abs(), rs[k..]) == AddAll(old(Abs()), rs)
      {
        assert rs[k..][1..] == rs[k+1..];
        Timeout(rs[k].call.func, rs[k].call.arg, rs[k].tim);
        k := k + 1;
      }
    }

    /** The first part of clock: one tick off the first entry that has any time left. */
    method Tick()
      requires Valid()
      modifies callout
      ensures Valid() && Abs() == Decrement(old(Abs()))
    {
      if callout[0].func == 0 {
        return;
      }
      ghost var s := Abs();
      var p2: nat := 0;
      while callout[p2].time <= 0 && callout[p2].func != 0
        invariant p2 <= n && Valid() && Abs() == s && Decrement(s) == s[..p2] + Decrement(s[p2..])
        decreases n - p2
      {
        StepOver(s, p2);
        p2 := p2 + 1;
      }
      callout[p2] := callout[p2].(time := callout[p2].time - 1);
      Ticked(callout[..n], s, p2);
    }

    /** The end of a scan: the entries from p1 on move down to the front. */
    method MoveDown(p1: nat)
      requires Valid() && p1 <= n
      modifies this`n, callout
      ensures Valid() && Abs() == old(Abs())[p1..]
    {
      ghost var s := Abs();
      var i := 0;
      while callout[p1 + i].func != 0
        invariant 0 <= i && p1 + i <= n && n == old(n)
        invariant forall k :: 0 <= k < callout.Length ==>
            callout[k] == if k < i then old(callout[p1 + k]) else old(callout[k])
        decreases n - i
      {
        callout[i] := callout[p1 + i];
        i := i + 1;
      }
      callout[i] := callout[i].(func := 0);
      n := i;
      Dropped(callout[..n], s, p1);
    }

    /** clock's callouts: decrement, fire what is due while the fired routines may add to the table, close up. */
    method Clock(script: seq<seq<Request>>) returns (fired: seq<Call>)
      requires Valid() && n + Asked(script) < callout.Length && (forall k :: 0 <= k < |script| ==> Callable(script[k]))
      modifies this`n, callout
      ensures Valid()
      ensures var r := ScanFrom(Decrement(old(Abs())), 0, script);
              Abs() == r.0[r.1..] && fired == r.2
    {
      Tick();
      var p1;
      fired, p1 := Scan(script);
      MoveDown(p1);
    }

    /** The scan. */
    method Scan(script: seq<seq<Request>>) returns (fired: seq<Call>, p1: nat)
      requires Valid() && n + Asked(script) < callout.Length && (forall k :: 0 <= k < |script| ==> Callable(script[k]))
      modifies this`n, callout
      ensures Valid() && p1 <= n
      ensures ScanFrom(old(Abs()), 0, script) == (Abs(), p1, fired)
    {
      fired, p1 := [], 0;
      var rest := script;
      ghost var all := ScanFrom(Abs(), 0, script);
      assert [] + all.2 == all.2;
      while callout[p1].func != 0 && callout[p1].time <= 0
        invariant Valid() && p1 <= n && n + Asked(rest) < callout.Length
        invariant forall k :: 0 <= k < |rest| ==> Callable(rest[k])
        invariant Leads(all, Abs(), p1, rest, fired)
        decreases |rest|, n - p1
      {
        fired, rest := FireOne(p1, rest, fired, all);
        p1 := p1 + 1;
      }
      assert fired + [] == fired;
    }

    /** One turn of the scan. */
    method FireOne(p1: nat, rest: seq<seq<Request>>, fired: seq<Call>, ghost all: (seq<Slot<Call>>, nat, seq<Call>))
      returns (fired': seq<Call>, rest': seq<seq<Request>>)
      requires Valid() && p1 < n && callout[p1].time <= 0 && n + Asked(rest) < callout.Length
      requires (forall k :: 0 <= k < |rest| ==> Callable(rest[k])) && Leads(all, Abs(), p1, rest, fired)
      modifies this`n, callout
      ensures Valid() && p1 < n && n + Asked(rest') < callout.Length && rest' == (if rest == [] then [] else rest[1..])
      ensures rest == [] ==> n == old(n)
      ensures Leads(all, Abs(), p1 + 1, rest', fired')
    {
      ScanNext(Abs(), p1, rest, fired);
      fired', rest' := fired + [Call(callout[p1].func, callout[p1].arg)], rest;
      if |rest| > 0 {
        Run(rest[0]);
        rest' := rest[1..];
      }
    }
  }

  /** From here the scan ends as it must. */
  ghost predicate Leads(all: (seq<Slot<Call>>, nat, seq<Call>), s: seq<Slot<Call>>, i: nat, script: seq<seq<Request>>,
                        fired: seq<Call>) {
    i <= |s| && var r := ScanFrom(s, i, script); all == (r.0, r.1, fired + r.2)
  }

  /** One entry fired: what its routine asks for is in the table before the scan goes on. */
  lemma ScanNext(s: seq<Slot<Call>>, i: nat, script: seq<seq<Request>>, fired: seq<Call>)
    requires i < |s| && s[i].time <= 0
    ensures var r, q := ScanFrom(s, i, script),
                        if script == [] then ScanFrom(s, i + 1, [])
                            else ScanFrom(AddAll(s, script[0]), i + 1, script[1..]);
            r.0 == q.0 && r.1 == q.1 && fired + r.2 == (fired + [s[i].what]) + q.2
  {
  }

  /** r is s with w put in, t ticks behind place p. */
  ghost predicate From(s: seq<Slot<Call>>, p: nat, t: int, w: Call, r: seq<Slot<Call>>) {
    p <= |s| && r == s[..p] + Insert(s[p..], t, w)
  }

  lemma FromStart(s: seq<Slot<Call>>, tim: int, w: Call) returns (r: seq<Slot<Call>>)
    ensures r == Insert(s, tim, w) && From(s, 0, tim, w, r)
  {
    r := Insert(s, tim, w);
    assert s[0..] == s && s[..0] == [];
  }

  /** One more entry is passed. */
  lemma StepIn(s: seq<Slot<Call>>, p: nat, t: int, w: Call, r: seq<Slot<Call>>)
    requires p < |s| && s[p].time <= t && From(s, p, t, w, r)
    ensures From(s, p + 1, t - s[p].time, w, r)
  {
    assert s[p..][1..] == s[p+1..];
    assert s[..p+1] == s[..p] + [s[p]];
  }

  /** A new entry in front; the next one's time counts from it. */
  function Shifted(s: seq<Slot<Call>>, t: int, w: Call): seq<Slot<Call>> {
    if s == [] then [Slot(t, w)] else [Slot(t, w), s[0].(time := s[0].time - t)] + s[1..]
  }

  lemma InsertHere(s: seq<Slot<Call>>, t: int, w: Call)
    requires s == [] || s[0].time > t
    ensures Insert(s, t, w) == Shifted(s, t, w)
  {
  }

  /** What the table holds once the new entry is in. */
  lemma Assembled(a: seq<Entry>, s: seq<Slot<Call>>, p: nat, t: int, w: Call)
    requires p <= |s| && |a| == |s| + 1 && a[p] == Entry(t, w.func, w.arg)
    requires forall k :: 0 <= k < p ==> AsSlot(a[k]) == s[k]
    requires p < |s| ==> AsSlot(a[p+1]) == s[p].(time := s[p].time - t)
    requires forall k :: p + 1 < k <= |s| ==> AsSlot(a[k]) == s[k-1]
    ensures Slots(a) == s[..p] + Shifted(s[p..], t, w)
  {
    if p < |s| { assert s[p..][1..] == s[p+1..]; }
  }

  lemma Dropped(a: seq<Entry>, s: seq<Slot<Call>>, p: nat)
    requires |a| + p == |s| && forall k :: 0 <= k < |a| ==> AsSlot(a[k]) == s[p + k]
    ensures Slots(a) == s[p..]
  {
  }

  lemma StepOver(s: seq<Slot<Call>>, p: nat)
    requires p < |s| && s[p].time <= 0
    ensures s[..p] + Decrement(s[p..]) == s[..p+1] + Decrement(s[p+1..])
  {
    assert s[p..][1..] == s[p+1..];
    assert s[..p+1] == s[..p] + [s[p]];
  }

  lemma Ticked(a: seq<Entry>, s: seq<Slot<Call>>, p: nat)
    requires p <= |s| == |a| && (p < |s| ==> s[p].time > 0 && AsSlot(a[p]) == s[p].(time := s[p].time - 1))
    requires forall k :: 0 <= k < |s| && k != p ==> AsSlot(a[k]) == s[k]
    ensures Slots(a) == s[..p] + Decrement(s[p..])
  {
    if p < |s| { assert s[p..][1..] == s[p+1..]; }
  }
}
