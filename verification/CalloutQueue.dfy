/** Callouts: a list of delta times stands for a list of absolute deadlines, over any run of timeout calls and clock
    ticks, with fired routines calling timeout in the middle of a scan. */
module CalloutQueue {

  /** A table entry: ticks after the entry before it, and what to call. */
  datatype Slot<T> = Slot(time: int, what: T)

  /** Ticks from now to entry k. */
  function Cum<T>(s: seq<Slot<T>>, k: nat): int
    requires k < |s|
  {
    s[0].time + if k == 0 then 0 else Cum(s[1..], k - 1)
  }

  ghost predicate Deltas<T>(s: seq<Slot<T>>) { forall k :: 0 <= k < |s| ==> s[k].time >= 0 }

  lemma {:induction false} CumUp<T>(s: seq<Slot<T>>, j: nat, k: nat)
    requires Deltas(s) && j <= k < |s|
    ensures 0 <= Cum(s, j) <= Cum(s, k)
  {
    if j > 0 { CumUp(s[1..], j - 1, k - 1); } else if k > 0 { CumUp(s[1..], 0, k - 1); }
  }

  /* ---------------------------------------------------------------- timeout */

  function Insert<T>(s: seq<Slot<T>>, t: int, w: T): (r: seq<Slot<T>>)
    ensures |r| == |s| + 1
  {
    if s != [] && s[0].time <= t then [s[0]] + Insert(s[1..], t - s[0].time, w)
    else if s == [] then [Slot(t, w)]
    else [Slot(t, w), s[0].(time := s[0].time - t)] + s[1..]
  }

  /** Where the new entry goes: behind everything due at or before its time. */
  function Place<T>(s: seq<Slot<T>>, t: int): (m: nat)
    ensures m <= |s|
  {
    if s != [] && s[0].time <= t then 1 + Place(s[1..], t - s[0].time) else 0
  }

  /** Entry m of r is the new one: due after t. */
  ghost predicate IsNew<T>(r: seq<Slot<T>>, m: nat, t: int, w: T) {
    m < |r| && r[m].what == w && Cum(r, m) == t && Deltas(r)
  }

  /** The new entry is due after exactly t ticks. */
  lemma {:induction false} InsertedAt<T>(s: seq<Slot<T>>, t: nat, w: T)
    requires Deltas(s)
    ensures IsNew(Insert(s, t, w), Place(s, t), t, w)
    decreases |s|
  {
    if s != [] && s[0].time <= t {
      var q, m := Insert(s[1..], t - s[0].time, w), Place(s[1..], t - s[0].time);
      InsertedAt(s[1..], t - s[0].time, w);
      NewBehind(s[0], q, m, t - s[0].time, w);
      assert Insert(s, t, w) == [s[0]] + q && Place(s, t) == m + 1;
    } else {
      InsertedFront(s, t, w);
    }
  }

  lemma NewBehind<T>(e: Slot<T>, q: seq<Slot<T>>, m: nat, t: int, w: T)
    requires IsNew(q, m, t, w) && e.time >= 0
    ensures IsNew([e] + q, m + 1, e.time + t, w)
  {
    assert ([e] + q)[1..] == q;
  }

  lemma InsertedFront<T>(s: seq<Slot<T>>, t: nat, w: T)
    requires Deltas(s) && (s != [] ==> s[0].time > t)
    ensures IsNew(Insert(s, t, w), Place(s, t), t, w)
  {
    assert s != [] ==> forall k :: 1 < k <= |s| ==> Insert(s, t, w)[k] == s[k-1];
  }

  /** What is in front of the new entry is untouched. */
  lemma {:induction false} FrontKept<T>(s: seq<Slot<T>>, t: int, w: T, k: nat)
    requires k < Place(s, t)
    ensures k < |s| && Insert(s, t, w)[k] == s[k]
    decreases |s|
  {
    if k > 0 { FrontKept(s[1..], t - s[0].time, w, k - 1); }
  }

  /** Where entry k is once a new one has gone in at m. */
  function Shift(k: nat, m: nat): nat { if k < m then k else k + 1 }

  /** Entry k of s is entry j of r, and due at the same time. */
  ghost predicate Kept<T>(s: seq<Slot<T>>, k: nat, r: seq<Slot<T>>, j: nat) {
    k < |s| && j < |r| && r[j].what == s[k].what && Cum(r, j) == Cum(s, k)
  }

  /** Nobody else's time changes: entries before the new one are due no later than it, entries behind it later. */
  lemma {:induction false} OthersKept<T>(s: seq<Slot<T>>, t: nat, w: T, k: nat)
    requires Deltas(s) && k < |s|
    ensures Kept(s, k, Insert(s, t, w), Shift(k, Place(s, t))) && (k < Place(s, t) <==> Cum(s, k) <= t)
    decreases |s|
  {
    if s[0].time > t {
      CumUp(s, 0, k);
      Stretch(s, t, w, k);
    } else {
      var t1, q, m := t - s[0].time, Insert(s[1..], t - s[0].time, w), Place(s[1..], t - s[0].time);
      assert Insert(s, t, w) == [s[0]] + q && Place(s, t) == m + 1;
      if k > 0 {
        OthersKept(s[1..], t1, w, k - 1);
        Behind(s[0], s[1..], k - 1, q, Shift(k - 1, m));
        assert s == [s[0]] + s[1..];
      }
    }
  }

  /** An entry put in front adds its time to all behind it. */
  lemma Behind<T>(e: Slot<T>, s: seq<Slot<T>>, k: nat, r: seq<Slot<T>>, j: nat)
    requires Kept(s, k, r, j)
    ensures Kept([e] + s, k + 1, [e] + r, j + 1) && Cum([e] + s, k + 1) == e.time + Cum(s, k)
  {
    assert ([e] + s)[1..] == s && ([e] + r)[1..] == r;
  }

  /** In front of everything: the old head gives up t of its time. */
  lemma Stretch<T>(s: seq<Slot<T>>, t: nat, w: T, k: nat)
    requires k < |s| && s[0].time > t
    ensures var r := Insert(s, t, w); r[k+1].what == s[k].what && Cum(r, k + 1) == Cum(s, k)
  {
    var r := Insert(s, t, w);
    assert r[1..][1..] == s[1..];
    assert r[1..][0] == s[0].(time := s[0].time - t);
  }

  /* ---------------------------------------------------------------- a tick */

  /** The first time that is not already zero goes down by one. */
  function Decrement<T>(s: seq<Slot<T>>): (r: seq<Slot<T>>)
    ensures |r| == |s|
  {
    if s == [] then []
    else if s[0].time <= 0 then [s[0]] + Decrement(s[1..])
    else [s[0].(time := s[0].time - 1)] + s[1..]
  }

  /** So everything comes one tick nearer, except what is due already. */
  lemma {:induction false} Nearer<T>(s: seq<Slot<T>>, k: nat)
    requires Deltas(s) && k < |s|
    ensures var r := Decrement(s);
            r[k].time >= 0 && r[k].what == s[k].what && Cum(r, k) == if Cum(s, k) == 0 then 0 else Cum(s, k) - 1
    decreases |s|
  {
    var r := Decrement(s);
    CumUp(s, 0, k);
    if s[0].time <= 0 {
      assert r[1..] == Decrement(s[1..]);
      if k > 0 { Nearer(s[1..], k - 1); }
    } else {
      assert r[1..] == s[1..];
    }
  }

  /** Entries already fired have no time left, so they may stay in front until the scan is over. */
  lemma {:induction false} FiredPrefix<T>(s: seq<Slot<T>>, i: nat, k: nat)
    requires i + k < |s| && forall j :: 0 <= j < i ==> s[j].time == 0
    ensures Cum(s[i..], k) == Cum(s, i + k)
    decreases i
  {
    if i > 0 {
      FiredPrefix(s[1..], i - 1, k);
      assert s[1..][i-1..] == s[i..];
    } else {
      assert s[0..] == s;
    }
  }

  /* ---------------------------------------------------------------- runs */

  /** A call of timeout: the tick it was made at, the time it asked for, and whether a routine made it during a scan. */
  datatype Req = Req(at: int, tim: int, inScan: bool)

  datatype Firing = Firing(req: nat, tick: int)

  /** Requests are numbered as they come; table entries say which request they are.  During a scan the first i entries
      have been fired. */
  datatype Queue = Queue(now: int, table: seq<Slot<nat>>, scanning: bool, i: nat, reqs: seq<Req>, fired: seq<Firing>)

  datatype Event = Timeout(tim: nat) | TickBegin | Fire | TickEnd

  function Initial(): Queue { Queue(0, [], false, 0, [], []) }

  ghost predicate Step(q: Queue, e: Event, q': Queue) {
    match e
    case Timeout(tim) => q' == q.(table := Insert(q.table, tim, |q.reqs|),
        reqs := q.reqs + [Req(q.now, tim, q.scanning)])
    case TickBegin => !q.scanning && q' == q.(now := q.now + 1, table := Decrement(q.table), scanning := true, i := 0)
    case Fire =>
      && q.scanning && q.i < |q.table| && q.table[q.i].time <= 0
      && q' == q.(i := q.i + 1, fired := q.fired + [Firing(q.table[q.i].what, q.now)])
    case TickEnd =>
      && q.scanning && q.i <= |q.table| && (q.i < |q.table| ==> q.table[q.i].time > 0)
      && q' == q.(table := q.table[q.i..], scanning := false, i := 0)
  }

  function Deadline(q: Queue, k: nat): int
    requires k < |q.reqs|
  {
    q.reqs[k].at + q.reqs[k].tim
  }

  /** Request j comes before request k. */
  ghost predicate Before(q: Queue, j: nat, k: nat) {
    j < |q.reqs| && k < |q.reqs| && (Deadline(q, j) < Deadline(q, k) || (Deadline(q, j) == Deadline(q, k) && j < k))
  }

  /** The tick at which a request fires: its deadline, except that one asking for no delay outside a scan has to wait
      for the next. */
  function FiringTick(q: Queue, k: nat): int
    requires k < |q.reqs|
  {
    Deadline(q, k) + if q.reqs[k].tim == 0 && !q.reqs[k].inScan then 1 else 0
  }

  /** Entry k of the table is due at its firing tick. */
  ghost predicate OnTime(q: Queue, k: nat) {
    && k < |q.table| && q.table[k].what < |q.reqs|
    && var r, c := q.table[k].what, Cum(q.table, k);
       if c > 0 then FiringTick(q, r) == q.now + c && q.reqs[r].tim > 0
       else if q.scanning then FiringTick(q, r) == q.now
       else FiringTick(q, r) == q.now + 1 && q.reqs[r].tim == 0
  }

  ghost predicate FiredOnTime(q: Queue, f: Firing) {
    f.req < |q.reqs| && Deadline(q, f.req) <= q.now && f.tick == FiringTick(q, f.req) <= q.now
  }

  /** A request has been fired or is in the table. */
  ghost predicate WasFired(q: Queue, r: nat) { exists k :: 0 <= k < |q.fired| && q.fired[k].req == r }
  ghost predicate IsPending(q: Queue, r: nat) { exists k :: q.i <= k < |q.table| && q.table[k].what == r }

  ghost predicate Times(q: Queue) {
    && q.i <= |q.table| && Deltas(q.table) && (!q.scanning ==> q.i == 0)
    && (forall k :: 0 <= k < |q.reqs| ==> q.reqs[k].at <= q.now && q.reqs[k].tim >= 0)
    && (forall k :: 0 <= k < q.i ==> q.table[k].time == 0)
    && (forall k :: q.i <= k < |q.table| ==> OnTime(q, k))
    && (forall k :: 0 <= k < |q.fired| ==> FiredOnTime(q, q.fired[k]))
  }

  /** Fired first, then the table: in the order of deadlines, and of requests where those are equal. */
  ghost predicate InOrder(q: Queue) {
    && (forall j, k :: 0 <= j < k < |q.fired| ==> Before(q, q.fired[j].req, q.fired[k].req))
    && (forall j, k :: 0 <= j < |q.fired| && q.i <= k < |q.table| ==> Before(q, q.fired[j].req, q.table[k].what))
    && (forall j, k :: q.i <= j < k < |q.table| ==> Before(q, q.table[j].what, q.table[k].what))
  }

  ghost predicate Complete(q: Queue) { forall r :: 0 <= r < |q.reqs| ==> WasFired(q, r) || IsPending(q, r) }

  ghost predicate Inv(q: Queue) { Times(q) && InOrder(q) && Complete(q) }

  lemma Old(q: Queue, q': Queue, r: nat)
    requires r < |q.reqs| && q.reqs <= q'.reqs
    ensures Deadline(q', r) == Deadline(q, r) && q'.reqs[r] == q.reqs[r]
  {
  }

  /** The entry being fired, and all those before it, have no time left. */
  lemma NoTimeLeft(q: Queue, k: nat)
    requires Times(q) && k < |q.table| && k <= q.i
    ensures Cum(q.table, k) == q.table[k].time
  {
    FiredPrefix(q.table, k, 0);
  }

  /* ---------------------------------------------------------------- timeout */

  /** Where the table entry at k' of the new table was. */
  function Was(m: nat, k': nat): nat
    requires k' != m
  {
    if k' < m then k' else k' - 1
  }

  lemma PlaceAfterFired(q: Queue, tim: nat)
    requires Times(q)
    ensures q.i <= Place(q.table, tim)
  {
    if Place(q.table, tim) < q.i {
      var k := Place(q.table, tim);
      NoTimeLeft(q, k);
      OthersKept(q.table, tim, 0, k);
    }
  }

  lemma TimeoutEntry(q: Queue, tim: nat, q': Queue, k: nat)
    requires Times(q) && Step(q, Timeout(tim), q') && q.i <= k < |q'.table|
    ensures OnTime(q', k) && q.i <= Place(q.table, tim)
    ensures var m := Place(q.table, tim);
            if k == m then q'.table[k].what == |q.reqs|
            else
              var j := Was(m, k);
              && q.i <= j < |q.table| && q'.table[k].what == q.table[j].what && OnTime(q, j)
              && (k < m <==> Deadline(q, q.table[j].what) <= q.now + tim)
  {
    var m := Place(q.table, tim);
    PlaceAfterFired(q, tim);
    if k == m {
      InsertedAt(q.table, tim, |q.reqs|);
    } else {
      var j := Was(m, k);
      assert OnTime(q, j);
      OthersKept(q.table, tim, |q.reqs|, j);
      CumUp(q.table, j, j);
      Old(q, q', q.table[j].what);
    }
  }

  lemma TimeoutTimes(q: Queue, tim: nat, q': Queue)
    requires Times(q) && Step(q, Timeout(tim), q')
    ensures Times(q')
  {
    InsertedAt(q.table, tim, |q.reqs|);
    PlaceAfterFired(q, tim);
    forall k | q'.i <= k < |q'.table|
      ensures OnTime(q', k)
    {
      TimeoutEntry(q, tim, q', k);
    }
    forall k | 0 <= k < |q'.fired|
      ensures FiredOnTime(q', q'.fired[k])
    {
      assert FiredOnTime(q, q.fired[k]);
    }
    forall k | 0 <= k < q.i
      ensures q'.table[k].time == 0
    {
      FrontKept(q.table, tim, |q.reqs|, k);
    }
  }

  lemma BeforeKept(q: Queue, q': Queue, j: nat, k: nat)
    requires Before(q, j, k) && q.reqs <= q'.reqs
    ensures Before(q', j, k)
  {
    Old(q, q', j);
    Old(q, q', k);
  }

  lemma TimeoutOrder(q: Queue, tim: nat, q': Queue)
    requires Times(q) && InOrder(q) && Step(q, Timeout(tim), q')
    ensures InOrder(q')
  {
    forall j, k | 0 <= j < k < |q'.fired|
      ensures Before(q', q'.fired[j].req, q'.fired[k].req)
    {
      BeforeKept(q, q', q.fired[j].req, q.fired[k].req);
    }
    forall j, k | 0 <= j < |q'.fired| && q'.i <= k < |q'.table|
      ensures Before(q', q'.fired[j].req, q'.table[k].what)
    {
      TimeoutEntry(q, tim, q', k);
      assert FiredOnTime(q, q.fired[j]);
      if k != Place(q.table, tim) { BeforeKept(q, q', q.fired[j].req, q.table[Was(Place(q.table, tim), k)].what); }
    }
    forall j, k | q'.i <= j < k < |q'.table|
      ensures Before(q', q'.table[j].what, q'.table[k].what)
    {
      TimeoutPair(q, tim, q', j, k);
    }
  }

  lemma TimeoutPair(q: Queue, tim: nat, q': Queue, j: nat, k: nat)
    requires Times(q) && InOrder(q) && Step(q, Timeout(tim), q') && q.i <= j < k < |q'.table|
    ensures Before(q', q'.table[j].what, q'.table[k].what)
  {
    var m := Place(q.table, tim);
    TimeoutEntry(q, tim, q', j);
    TimeoutEntry(q, tim, q', k);
    if j != m && k != m {
      BeforeKept(q, q', q.table[Was(m, j)].what, q.table[Was(m, k)].what);
    } else if k == m {
      assert OnTime(q, j);
      Old(q, q', q.table[j].what);
    } else {
      assert OnTime(q, k - 1);
      Old(q, q', q.table[k-1].what);
    }
  }

  lemma TimeoutComplete(q: Queue, tim: nat, q': Queue)
    requires Inv(q) && Step(q, Timeout(tim), q')
    ensures Complete(q')
  {
    var m := Place(q.table, tim);
    PlaceAfterFired(q, tim);
    InsertedAt(q.table, tim, |q.reqs|);
    forall r | 0 <= r < |q'.reqs|
      ensures WasFired(q', r) || IsPending(q', r)
    {
      if r == |q.reqs| {
        assert q'.table[m].what == r;
      } else if WasFired(q, r) {
        var k :| 0 <= k < |q.fired| && q.fired[k].req == r;
        assert q'.fired[k].req == r;
      } else {
        var k :| q.i <= k < |q.table| && q.table[k].what == r;
        OthersKept(q.table, tim, |q.reqs|, k);
        assert q'.table[if k < m then k else k + 1].what == r;
      }
    }
  }

  /* ---------------------------------------------------------------- ticks */

  lemma TickBeginInv(q: Queue, q': Queue)
    requires Inv(q) && Step(q, TickBegin, q')
    ensures Inv(q')
  {
    forall k | 0 <= k < |q.table|
      ensures q'.table[k].time >= 0 && q'.table[k].what == q.table[k].what && OnTime(q', k)
    {
      Nearer(q.table, k);
      assert OnTime(q, k);
      CumUp(q.table, k, k);
    }
    forall k | 0 <= k < |q.fired| ensures FiredOnTime(q', q'.fired[k]) { assert FiredOnTime(q, q.fired[k]); }
    assert InOrder(q') by { TickOrder(q, q'); }
    forall r | 0 <= r < |q'.reqs|
      ensures WasFired(q', r) || IsPending(q', r)
    {
      if WasFired(q, r) {
        var k :| 0 <= k < |q.fired| && q.fired[k].req == r;
        assert q'.fired[k].req == r;
      } else {
        var k :| q.i <= k < |q.table| && q.table[k].what == r;
        assert q'.table[k].what == r;
      }
    }
  }

  lemma TickOrder(q: Queue, q': Queue)
    requires InOrder(q) && q.i == 0 == q'.i && |q'.table| == |q.table| && q'.reqs == q.reqs && q'.fired == q.fired
    requires forall k :: 0 <= k < |q.table| ==> q'.table[k].what == q.table[k].what
    ensures InOrder(q')
  {
    forall j, k | 0 <= j < |q.fired| && 0 <= k < |q.table|
      ensures Before(q', q'.fired[j].req, q'.table[k].what)
    {
      assert Before(q, q.fired[j].req, q.table[k].what);
    }
    forall j, k | 0 <= j < k < |q.table|
      ensures Before(q', q'.table[j].what, q'.table[k].what)
    {
      assert Before(q, q.table[j].what, q.table[k].what);
    }
    forall j, k | 0 <= j < k < |q.fired|
      ensures Before(q', q'.fired[j].req, q'.fired[k].req)
    {
      assert Before(q, q.fired[j].req, q.fired[k].req);
    }
  }

  lemma FireTimes(q: Queue, q': Queue)
    requires Times(q) && Step(q, Fire, q')
    ensures Times(q')
  {
    NoTimeLeft(q, q.i);
    assert OnTime(q, q.i);
    forall k | q'.i <= k < |q'.table| ensures OnTime(q', k) { assert OnTime(q, k); }
    forall k | 0 <= k < |q'.fired|
      ensures FiredOnTime(q', q'.fired[k])
    {
      if k < |q.fired| { assert FiredOnTime(q, q.fired[k]); }
    }
  }

  lemma FireOrder(q: Queue, q': Queue)
    requires InOrder(q) && Step(q, Fire, q')
    ensures InOrder(q')
  {
    forall j, k | 0 <= j < k < |q'.fired|
      ensures Before(q', q'.fired[j].req, q'.fired[k].req)
    {
      assert if k < |q.fired| then Before(q, q.fired[j].req, q.fired[k].req)
          else Before(q, q.fired[j].req, q.table[q.i].what);
    }
    forall j, k | 0 <= j < |q'.fired| && q'.i <= k < |q'.table|
      ensures Before(q', q'.fired[j].req, q'.table[k].what)
    {
      assert if j < |q.fired| then Before(q, q.fired[j].req, q.table[k].what)
          else Before(q, q.table[q.i].what, q.table[k].what);
    }
    forall j, k | q'.i <= j < k < |q'.table|
      ensures Before(q', q'.table[j].what, q'.table[k].what)
    {
      assert Before(q, q.table[j].what, q.table[k].what);
    }
  }

  lemma FireComplete(q: Queue, q': Queue)
    requires Complete(q) && Step(q, Fire, q')
    ensures Complete(q')
  {
    forall r | 0 <= r < |q'.reqs|
      ensures WasFired(q', r) || IsPending(q', r)
    {
      if WasFired(q, r) {
        var k :| 0 <= k < |q.fired| && q.fired[k].req == r;
        assert q'.fired[k].req == r;
      } else {
        var k :| q.i <= k < |q.table| && q.table[k].what == r;
        assert if k == q.i then q'.fired[|q.fired|].req == r else q'.i <= k && q'.table[k].what == r;
      }
    }
  }

  lemma TickEndTimes(q: Queue, q': Queue)
    requires Times(q) && Step(q, TickEnd, q')
    ensures Times(q')
  {
    forall k | 0 <= k < |q'.table|
      ensures OnTime(q', k) && q'.table[k].time >= 0
    {
      FiredPrefix(q.table, q.i, k);
      assert OnTime(q, q.i + k);
      NoTimeLeft(q, q.i);
      CumUp(q.table, q.i, q.i + k);
    }
    forall k | 0 <= k < |q'.fired| ensures FiredOnTime(q', q'.fired[k]) { assert FiredOnTime(q, q.fired[k]); }
  }

  lemma TickEndOrder(q: Queue, q': Queue)
    requires InOrder(q) && Step(q, TickEnd, q')
    ensures InOrder(q')
  {
    forall j, k | 0 <= j < |q'.fired| && 0 <= k < |q'.table|
      ensures Before(q', q'.fired[j].req, q'.table[k].what)
    {
      assert Before(q, q.fired[j].req, q.table[q.i + k].what);
    }
    forall j, k | 0 <= j < k < |q'.table|
      ensures Before(q', q'.table[j].what, q'.table[k].what)
    {
      assert Before(q, q.table[q.i + j].what, q.table[q.i + k].what);
    }
    forall j, k | 0 <= j < k < |q'.fired|
      ensures Before(q', q'.fired[j].req, q'.fired[k].req)
    {
      assert Before(q, q.fired[j].req, q.fired[k].req);
    }
  }

  lemma TickEndComplete(q: Queue, q': Queue)
    requires Complete(q) && Step(q, TickEnd, q')
    ensures Complete(q')
  {
    forall r | 0 <= r < |q'.reqs|
      ensures WasFired(q', r) || IsPending(q', r)
    {
      if WasFired(q, r) {
        var k :| 0 <= k < |q.fired| && q.fired[k].req == r;
        assert q'.fired[k].req == r;
      } else {
        var k :| q.i <= k < |q.table| && q.table[k].what == r;
        assert q'.table[k - q.i].what == r;
      }
    }
  }

  lemma StepInv(q: Queue, e: Event, q': Queue)
    requires Inv(q) && Step(q, e, q')
    ensures Inv(q')
  {
    match e {
      case Timeout(tim) =>
        TimeoutTimes(q, tim, q');
        TimeoutOrder(q, tim, q');
        TimeoutComplete(q, tim, q');
      case TickBegin => TickBeginInv(q, q');
      case Fire =>
        FireTimes(q, q');
        FireOrder(q, q');
        FireComplete(q, q');
      case TickEnd =>
        TickEndTimes(q, q');
        TickEndOrder(q, q');
        TickEndComplete(q, q');
    }
  }

  ghost predicate IsRun(qs: seq<Queue>, es: seq<Event>) {
    |qs| == |es| + 1 && qs[0] == Initial() && forall n :: 0 <= n < |es| ==> Step(qs[n], es[n], qs[n+1])
  }

  lemma {:induction false} RunInv(qs: seq<Queue>, es: seq<Event>, n: nat)
    requires IsRun(qs, es) && n <= |es|
    ensures Inv(qs[n])
  {
    if n > 0 {
      RunInv(qs, es, n - 1);
      StepInv(qs[n-1], es[n-1], qs[n]);
    }
  }

  /* ---------------------------------------------------------------- what it means */

  /** Between scans a request has been fired if and only if its firing tick has come, and is in the table otherwise; and
      whenever it fires it fires at that tick: its own deadline if it asked for a delay or was asked during a scan, one
      tick later if it asked for no delay outside one. */
  lemma ExactlyOnTime(qs: seq<Queue>, es: seq<Event>, n: nat, r: nat)
    requires IsRun(qs, es) && n <= |es| && r < |qs[n].reqs|
    ensures WasFired(qs[n], r) || IsPending(qs[n], r)
    ensures forall k :: 0 <= k < |qs[n].fired| && qs[n].fired[k].req == r ==>
              qs[n].fired[k].tick == FiringTick(qs[n], r)
    ensures !qs[n].scanning ==> (WasFired(qs[n], r) <==> FiringTick(qs[n], r) <= qs[n].now)
    ensures !qs[n].scanning ==> (IsPending(qs[n], r) <==> FiringTick(qs[n], r) > qs[n].now)
  {
    RunInv(qs, es, n);
    var q := qs[n];
    forall k | 0 <= k < |q.fired| && q.fired[k].req == r
      ensures q.fired[k].tick == FiringTick(q, r) <= q.now
    {
      assert FiredOnTime(q, q.fired[k]);
    }
    if IsPending(q, r) {
      var k :| q.i <= k < |q.table| && q.table[k].what == r;
      assert OnTime(q, k);
      CumUp(q.table, k, k);
    }
  }

  /** A request for no delay made outside a scan at tick 0 fires at tick 1. */
  lemma NoDelayOutside() returns (qs: seq<Queue>, es: seq<Event>)
    ensures IsRun(qs, es) && |es| == 3 && qs[3].reqs == [Req(0, 0, false)] && qs[3].fired == [Firing(0, 1)]
  {
    var q0, q1 := Initial(), Queue(0, [Slot(0, 0)], false, 0, [Req(0, 0, false)], []);
    var q2 := q1.(now := 1, scanning := true);
    qs, es := [q0, q1, q2, q2.(i := 1, fired := [Firing(0, 1)])], [Timeout(0), TickBegin, Fire];
  }

  /** One made during the scan of tick 1 fires at tick 1. */
  lemma NoDelayInside() returns (qs: seq<Queue>, es: seq<Event>)
    ensures IsRun(qs, es) && |es| == 5 && qs[5].reqs == [Req(0, 1, false), Req(1, 0, true)]
        && qs[5].fired == [Firing(0, 1), Firing(1, 1)]
  {
    var q0, q1 := Initial(), Queue(0, [Slot(1, 0)], false, 0, [Req(0, 1, false)], []);
    var q2 := q1.(now := 1, table := [Slot(0, 0)], scanning := true);
    var q3 := q2.(i := 1, fired := [Firing(0, 1)]);
    var q4 := q3.(table := [Slot(0, 0), Slot(0, 1)], reqs := [Req(0, 1, false), Req(1, 0, true)]);
    var s: seq<Slot<nat>> := [Slot(0, 0)];
    assert s[1..] == [] && Insert(s[1..], 0, 1) == [Slot(0, 1)];
    assert Insert(s, 0, 1) == [Slot(0, 0)] + [Slot(0, 1)];
    qs := [q0, q1, q2, q3, q4, q4.(i := 2, fired := [Firing(0, 1), Firing(1, 1)])];
    es := [Timeout(1), TickBegin, Fire, Timeout(0), Fire];
  }

  /** Firings come in the order of deadlines, and in the order of the requests where deadlines are equal; so nothing is
      fired twice, and nothing that has been fired is still in the table. */
  lemma FiredInOrder(qs: seq<Queue>, es: seq<Event>, n: nat, j: nat, k: nat)
    requires IsRun(qs, es) && n <= |es| && j < k < |qs[n].fired|
    ensures Before(qs[n], qs[n].fired[j].req, qs[n].fired[k].req) && qs[n].fired[j].req != qs[n].fired[k].req
    ensures !IsPending(qs[n], qs[n].fired[j].req)
  {
    RunInv(qs, es, n);
    var q := qs[n];
    assert Before(q, q.fired[j].req, q.fired[k].req);
    forall l | q.i <= l < |q.table|
      ensures q.table[l].what != q.fired[j].req
    {
      assert Before(q, q.fired[j].req, q.table[l].what);
    }
  }
}
