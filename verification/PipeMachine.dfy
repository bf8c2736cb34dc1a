/** A pipe: any number of readers and writers on one inode, with the lock, the two sleep channels, signals, duplicated
    descriptors being closed, and the periodic update.  Both ends stay open and writes succeed; a call asks for no more
    bytes than an int holds. */
module PipeMachine {
  import Longs

  const PIPSIZ := 4096

  /** Where a process is.  Try: about to lock.  Want: asleep for the lock.  Reading, Writing: inside readi or writei,
      with the lock.  Dry: asleep for data (channel ip+2).  Full: asleep for room (channel ip+1). */
  datatype Pc =
    | Idle
    | TryR(n: nat) | WantR(n: nat) | Reading(n: nat) | Dry(n: nat)
    | TryW(rest: seq<int>) | WantW(rest: seq<int>) | Writing(now: seq<int>, rest: seq<int>) | Full(rest: seq<int>)

  datatype Owner = Nobody | Update | Proc(p: nat)

  /** The inode (bytes of the file, size, lock and want bits, IREAD and IWRITE), the read offset, the processes, who has
      the lock, and all that was ever accepted and delivered. */
  datatype Pipe = Pipe(raw: seq<int>, size: int, offset: int, lock: bool, want: bool, iread: bool, iwrite: bool,
                       ps: seq<Pc>, owner: Owner, accepted: seq<int>, delivered: seq<int>)

  datatype Event =
    | CallRead(p: nat, n: nat) | CallWrite(p: nat, data: seq<int>)
    | TryRead(p: nat, signalled: bool) | ReadDone(p: nat)
    | TryWrite(p: nat, signalled: bool) | WritePart(p: nat, k: nat) | WriteDone(p: nat)
    | Signal(p: nat) | CloseDup | UpdateLock | UpdateUnlock

  function Initial(raw: seq<int>, n: nat): Pipe {
    Pipe(raw, 0, 0, false, false, false, false, seq(n, _ => Idle), Nobody, [], [])
  }

  /* ---------------------------------------------------------------- wakeup */

  datatype Channel = Lock | Data | Room

  function Woken(c: Channel, p: Pc): Pc {
    match p
    case WantR(n) => if c == Lock then TryR(n) else p
    case WantW(rest) => if c == Lock then TryW(rest) else p
    case Dry(n) => if c == Data then TryR(n) else p
    case Full(rest) => if c == Room then TryW(rest) else p
    case _ => p
  }

  function Wakeup(c: Channel, ps: seq<Pc>): (r: seq<Pc>)
    ensures |r| == |ps| && forall i :: 0 <= i < |ps| ==> r[i] == Woken(c, ps[i])
  {
    seq(|ps|, i requires 0 <= i < |ps| => Woken(c, ps[i]))
  }

  /* ---------------------------------------------------------------- the pieces of readp and writep */

  /** prele. */
  function Prele(s: Pipe): Pipe {
    if s.want then s.(lock := false, owner := Nobody, want := false, ps := Wakeup(Lock, s.ps))
    else s.(lock := false, owner := Nobody)
  }

  function At(s: Pipe, p: nat, pc: Pc): Pipe
    requires p < |s.ps|
  {
    s.(ps := s.ps[p := pc])
  }

  /** The head has caught up with the tail: both go back to 0, and writers waiting for room are woken. */
  function Rewound(s: Pipe): Pipe {
    if s.offset == 0 then s
    else if s.iwrite then s.(offset := 0, size := 0, iwrite := false, ps := Wakeup(Room, s.ps))
    else s.(offset := 0, size := 0)
  }

  /** readp from its loop label to its next sleep; a signal pending at the sleep abandons the call. */
  function ReadTurn(s: Pipe, p: nat, n: nat, signalled: bool): Pipe
    requires p < |s.ps|
  {
    if s.lock then At(s.(want := true), p, if signalled then Idle else WantR(n))
    else if s.offset != s.size then At(s.(lock := true, owner := Proc(p)), p, Reading(n))
    else At(Prele(Rewound(s)).(iread := true), p, if signalled then Idle else Dry(n))
  }

  /** What readi hands over. */
  function Chunk(s: Pipe, n: nat): seq<int>
    requires 0 <= s.offset <= s.size <= |s.raw|
  {
    s.raw[s.offset..if s.offset + n < s.size then s.offset + n else s.size]
  }

  function ReadEnd(s: Pipe, p: nat, n: nat): Pipe
    requires p < |s.ps| && 0 <= s.offset <= s.size <= |s.raw|
  {
    At(Prele(s.(offset := s.offset + |Chunk(s, n)|, delivered := s.delivered + Chunk(s, n))), p, Idle)
  }

  /** writep from its loop label to its next sleep. */
  function WriteTurn(s: Pipe, p: nat, rest: seq<int>, signalled: bool): Pipe
    requires p < |s.ps| && s.size <= PIPSIZ
  {
    if s.lock then At(s.(want := true), p, if signalled then Idle else WantW(rest))
    else if rest == [] then At(Prele(s), p, Idle)
    else if s.size == PIPSIZ then At(Prele(s.(iwrite := true)), p, if signalled then Idle else Full(rest))
    else
      var c := if |rest| < PIPSIZ - s.size then |rest| else PIPSIZ - s.size;
      At(s.(lock := true, owner := Proc(p)), p, Writing(rest[..c], rest[c..]))
  }

  /** The next k bytes reach the file, at its end. */
  function WriteBytes(s: Pipe, p: nat, now: seq<int>, rest: seq<int>, k: nat): Pipe
    requires p < |s.ps| && k <= |now| && 0 <= s.size && s.size + k <= |s.raw|
  {
    At(s.(raw := s.raw[..s.size] + now[..k] + s.raw[s.size+k..], size := s.size + k, accepted := s.accepted + now[..k]),
       p, Writing(now[k..], rest))
  }

  /** After writei: unlock, wake readers waiting for data, and go round again. */
  function WriteEnd(s: Pipe, p: nat, rest: seq<int>): Pipe
    requires p < |s.ps|
  {
    var u := Prele(s);
    At(if u.iread then u.(iread := false, ps := Wakeup(Data, u.ps)) else u, p, TryW(rest))
  }

  predicate Asleep(pc: Pc) { pc.WantR? || pc.WantW? || pc.Dry? || pc.Full? }

  ghost predicate Step(s: Pipe, e: Event, s': Pipe) {
    match e
    case CallRead(p, n) => p < |s.ps| && s.ps[p].Idle? && n <= Longs.MAXINT && s' == At(s, p, TryR(n))
    case CallWrite(p, data) => p < |s.ps| && s.ps[p].Idle? && |data| <= Longs.MAXINT && s' == At(s, p, TryW(data))
    case TryRead(p, signalled) => p < |s.ps| && s.ps[p].TryR? && s' == ReadTurn(s, p, s.ps[p].n, signalled)
    case ReadDone(p) =>
      p < |s.ps| && s.ps[p].Reading? && 0 <= s.offset <= s.size <= |s.raw| && s' == ReadEnd(s, p, s.ps[p].n)
    case TryWrite(p, signalled) =>
      p < |s.ps| && s.ps[p].TryW? && s.size <= PIPSIZ && s' == WriteTurn(s, p, s.ps[p].rest, signalled)
    case WritePart(p, k) =>
      && p < |s.ps| && s.ps[p].Writing? && 0 < k <= |s.ps[p].now| && 0 <= s.size && s.size + k <= |s.raw|
      && s' == WriteBytes(s, p, s.ps[p].now, s.ps[p].rest, k)
    case WriteDone(p) => p < |s.ps| && s.ps[p].Writing? && s.ps[p].now == [] && s' == WriteEnd(s, p, s.ps[p].rest)
    case Signal(p) => p < |s.ps| && Asleep(s.ps[p]) && s' == At(s, p, Idle)
    case CloseDup => s' == s.(iread := false, iwrite := false, ps := Wakeup(Data, Wakeup(Room, s.ps)))
    case UpdateLock => !s.lock && s' == s.(lock := true, owner := Update)
    case UpdateUnlock => s.owner.Update? && s' == Prele(s)
  }

  /* ---------------------------------------------------------------- invariant */

  predicate Holder(pc: Pc) { pc.Reading? || pc.Writing? }

  /** The lock bit is set while somebody is inside, and then exactly one is. */
  ghost predicate Exclusive(s: Pipe) {
    && (s.lock <==> !s.owner.Nobody?)
    && (s.owner.Proc? ==> s.owner.p < |s.ps|)
    && (forall p :: 0 <= p < |s.ps| ==> (Holder(s.ps[p]) <==> s.owner == Proc(p)))
  }

  /** Bytes accepted are those delivered and those still between offset and size. */
  ghost predicate Fifo(s: Pipe) {
    && 0 <= s.offset <= s.size <= PIPSIZ == |s.raw|
    && s.accepted == s.delivered + s.raw[s.offset..s.size]
  }

  ghost predicate WriterInside(s: Pipe) { s.owner.Proc? && s.owner.p < |s.ps| && s.ps[s.owner.p].Writing? }

  /** What a process in the middle of a call relies on: whoever sleeps has set the bit that gets it woken, a sleeper for
      the lock while the lock is held, a sleeper for data while there is none (or a writer is putting some in), a
      sleeper for room while there is none. */
  ghost predicate Local(s: Pipe, pc: Pc) {
    match pc
    case WantR(_) => s.lock && s.want
    case WantW(_) => s.lock && s.want
    case Reading(_) => s.offset < s.size
    case Writing(now, _) => s.size + |now| <= PIPSIZ
    case Dry(_) => s.iread && (s.size == 0 || WriterInside(s))
    case Full(_) => s.iwrite && s.size == PIPSIZ
    case _ => true
  }

  ghost predicate Inv(s: Pipe) {
    Fifo(s) && Exclusive(s) && forall p :: 0 <= p < |s.ps| ==> Local(s, s.ps[p])
  }

  lemma InitialInv(raw: seq<int>, n: nat)
    requires |raw| == PIPSIZ
    ensures Inv(Initial(raw, n))
  {
  }

  /* ---------------------------------------------------------------- preservation */

  /** The lock is taken: a process that wants it sets the want bit, and sleeps or gives up. */
  lemma BlockedInv(s: Pipe, p: nat, pc: Pc)
    requires Inv(s) && s.lock && p < |s.ps| && !Holder(s.ps[p]) && (pc.Idle? || pc.WantR? || pc.WantW?)
    ensures Inv(At(s.(want := true), p, pc))
  {
    var s' := At(s.(want := true), p, pc);
    forall q | 0 <= q < |s'.ps|
      ensures Local(s', s'.ps[q])
    {
      assert Local(s, s.ps[q]);
    }
  }

  /** The lock is free, and a process goes in. */
  lemma EntersInv(s: Pipe, p: nat, pc: Pc)
    requires Inv(s) && !s.lock && p < |s.ps| && !Holder(s.ps[p]) && Holder(pc) && Local(s, pc)
    ensures Inv(At(s.(lock := true, owner := Proc(p)), p, pc))
  {
    var s' := At(s.(lock := true, owner := Proc(p)), p, pc);
    forall q | 0 <= q < |s'.ps|
      ensures Local(s', s'.ps[q])
    {
      assert Local(s, s.ps[q]);
    }
  }

  /** While the lock is free nobody sleeps for it. */
  lemma NobodyWants(s: Pipe)
    requires Inv(s) && !s.lock
    ensures forall q :: 0 <= q < |s.ps| ==> !s.ps[q].WantR? && !s.ps[q].WantW?
    ensures Prele(s) == s.(want := false)
  {
    forall q | 0 <= q < |s.ps|
      ensures !s.ps[q].WantR? && !s.ps[q].WantW?
    {
      assert Local(s, s.ps[q]);
    }
    if s.want { assert Wakeup(Lock, s.ps) == s.ps; }
  }

  /** The lock is free, and a process passes through without staying in. */
  lemma PassesInv(s: Pipe, p: nat, pc: Pc)
    requires Inv(s) && !s.lock && p < |s.ps| && !Holder(s.ps[p]) && !Holder(pc) && !pc.WantR? && !pc.WantW?
        && Local(s, pc)
    ensures Inv(At(Prele(s), p, pc))
  {
    NobodyWants(s);
    var s' := At(Prele(s), p, pc);
    forall q | 0 <= q < |s'.ps|
      ensures Local(s', s'.ps[q])
    {
      assert Local(s, s.ps[q]);
    }
  }

  /** Announcing a sleeper harms nobody. */
  lemma BitsInv(s: Pipe, iread: bool, iwrite: bool)
    requires Inv(s) && (s.iread ==> iread) && (s.iwrite ==> iwrite)
    ensures Inv(s.(iread := iread, iwrite := iwrite))
  {
    var s' := s.(iread := iread, iwrite := iwrite);
    forall q | 0 <= q < |s'.ps|
      ensures Local(s', s'.ps[q])
    {
      assert Local(s, s.ps[q]);
    }
  }

  /** Head and tail go back to 0; whoever waits for room is woken. */
  lemma RewoundInv(s: Pipe)
    requires Inv(s) && !s.lock && s.offset == s.size
    ensures Inv(Rewound(s)) && Rewound(s).size == 0 && !Rewound(s).lock && |Rewound(s).ps| == |s.ps|
    ensures forall q :: 0 <= q < |s.ps| ==>
      (Holder(Rewound(s).ps[q]) <==> Holder(s.ps[q])) && (s.ps[q].TryR? ==> Rewound(s).ps[q] == s.ps[q])
  {
    var s' := Rewound(s);
    forall q | 0 <= q < |s'.ps|
      ensures Local(s', s'.ps[q])
    {
      assert Local(s, s.ps[q]);
    }
  }

  lemma ReadTurnInv(s: Pipe, p: nat, signalled: bool)
    requires Inv(s) && p < |s.ps| && s.ps[p].TryR?
    ensures Inv(ReadTurn(s, p, s.ps[p].n, signalled))
  {
    var n := s.ps[p].n;
    if s.lock {
      BlockedInv(s, p, if signalled then Idle else WantR(n));
    } else if s.offset != s.size {
      EntersInv(s, p, Reading(n));
    } else {
      RewoundInv(s);
      var t := Rewound(s);
      BitsInv(t, true, t.iwrite);
      PassesInv(t.(iread := true), p, if signalled then Idle else Dry(n));
      assert Prele(t.(iread := true)) == Prele(t).(iread := true);
    }
  }

  lemma ReadEndInv(s: Pipe, p: nat)
    requires Inv(s) && p < |s.ps| && s.ps[p].Reading?
    ensures Inv(ReadEnd(s, p, s.ps[p].n))
  {
    var s' := ReadEnd(s, p, s.ps[p].n);
    ReadEndFifo(s, p);
    assert s.owner == Proc(p) && Exclusive(s');
    forall q | 0 <= q < |s'.ps|
      ensures Local(s', s'.ps[q])
    {
      assert Local(s, s.ps[q]);
    }
  }

  lemma ReadEndFifo(s: Pipe, p: nat)
    requires Fifo(s) && p < |s.ps| && s.ps[p].Reading?
    ensures Fifo(ReadEnd(s, p, s.ps[p].n))
  {
    var c := Chunk(s, s.ps[p].n);
    assert s.raw[s.offset..s.size] == c + s.raw[s.offset+|c|..s.size];
    assert s.accepted == (s.delivered + c) + s.raw[s.offset+|c|..s.size];
  }

  lemma WriteTurnInv(s: Pipe, p: nat, signalled: bool)
    requires Inv(s) && p < |s.ps| && s.ps[p].TryW?
    ensures Inv(WriteTurn(s, p, s.ps[p].rest, signalled))
  {
    var rest := s.ps[p].rest;
    if s.lock {
      BlockedInv(s, p, if signalled then Idle else WantW(rest));
    } else if rest == [] {
      PassesInv(s, p, Idle);
    } else if s.size == PIPSIZ {
      BitsInv(s, s.iread, true);
      PassesInv(s.(iwrite := true), p, if signalled then Idle else Full(rest));
    } else {
      var c := if |rest| < PIPSIZ - s.size then |rest| else PIPSIZ - s.size;
      EntersInv(s, p, Writing(rest[..c], rest[c..]));
    }
  }

  lemma WriteBytesInv(s: Pipe, p: nat, k: nat)
    requires Inv(s) && p < |s.ps| && s.ps[p].Writing? && 0 < k <= |s.ps[p].now| && s.size + k <= |s.raw|
    ensures Inv(WriteBytes(s, p, s.ps[p].now, s.ps[p].rest, k))
  {
    var b := s.ps[p].now[..k];
    var s' := WriteBytes(s, p, s.ps[p].now, s.ps[p].rest, k);
    assert Local(s, s.ps[p]) && s.owner == Proc(p);
    assert s'.raw[s.offset..s'.size] == s.raw[s.offset..s.size] + b;
    assert Fifo(s') && Exclusive(s');
    forall q | 0 <= q < |s'.ps|
      ensures Local(s', s'.ps[q])
    {
      assert Local(s, s.ps[q]);
    }
  }

  lemma WriteEndInv(s: Pipe, p: nat)
    requires Inv(s) && p < |s.ps| && s.ps[p].Writing?
    ensures Inv(WriteEnd(s, p, s.ps[p].rest))
  {
    var s' := WriteEnd(s, p, s.ps[p].rest);
    assert s.owner == Proc(p) && Fifo(s') && Exclusive(s');
    forall q | 0 <= q < |s'.ps|
      ensures Local(s', s'.ps[q])
    {
      assert Local(s, s.ps[q]);
    }
  }

  lemma StepInv(s: Pipe, e: Event, s': Pipe)
    requires Inv(s) && Step(s, e, s')
    ensures Inv(s')
  {
    match e {
      case TryRead(p, signalled) => ReadTurnInv(s, p, signalled);
      case ReadDone(p) => ReadEndInv(s, p);
      case TryWrite(p, signalled) => WriteTurnInv(s, p, signalled);
      case WritePart(p, k) => WriteBytesInv(s, p, k);
      case WriteDone(p) => WriteEndInv(s, p);
      case _ => OtherInv(s, e, s');
    }
  }

  lemma OtherInv(s: Pipe, e: Event, s': Pipe)
    requires Inv(s) && Step(s, e, s')
    requires e.CallRead? || e.CallWrite? || e.Signal? || e.CloseDup? || e.UpdateLock? || e.UpdateUnlock?
    ensures Inv(s')
  {
    assert Exclusive(s');
    forall q | 0 <= q < |s'.ps|
      ensures Local(s', s'.ps[q])
    {
      assert Local(s, s.ps[q]);
    }
  }

  ghost predicate IsRun(ss: seq<Pipe>, es: seq<Event>) {
    |ss| == |es| + 1 && forall i :: 0 <= i < |es| ==> Step(ss[i], es[i], ss[i+1])
  }

  lemma {:induction false} RunInv(ss: seq<Pipe>, es: seq<Event>, i: nat)
    requires IsRun(ss, es) && Inv(ss[0]) && i <= |es|
    ensures Inv(ss[i])
  {
    if i > 0 {
      RunInv(ss, es, i - 1);
      StepInv(ss[i-1], es[i-1], ss[i]);
    }
  }

  /** The bytes that a call still asks for: an int, as readi and writep take them. */
  ghost predicate IsCounted(pc: Pc) {
    match pc
    case TryR(n) => n <= Longs.MAXINT
    case WantR(n) => n <= Longs.MAXINT
    case Reading(n) => n <= Longs.MAXINT
    case Dry(n) => n <= Longs.MAXINT
    case TryW(rest) => |rest| <= Longs.MAXINT
    case WantW(rest) => |rest| <= Longs.MAXINT
    case Writing(now, rest) => |now| + |rest| <= Longs.MAXINT
    case Full(rest) => |rest| <= Longs.MAXINT
    case Idle => true
  }

  ghost predicate AllCounted(ps: seq<Pc>) { forall p :: 0 <= p < |ps| ==> IsCounted(ps[p]) }

  lemma WakeupCounted(c: Channel, ps: seq<Pc>)
    requires AllCounted(ps)
    ensures AllCounted(Wakeup(c, ps))
  {
    forall p | 0 <= p < |ps|
      ensures IsCounted(Woken(c, ps[p]))
    {
      assert IsCounted(ps[p]);
    }
  }

  lemma PreleCounted(s: Pipe)
    requires AllCounted(s.ps)
    ensures AllCounted(Prele(s).ps) && |Prele(s).ps| == |s.ps|
  {
    WakeupCounted(Lock, s.ps);
  }

  lemma AtCounted(s: Pipe, p: nat, pc: Pc)
    requires AllCounted(s.ps) && p < |s.ps| && IsCounted(pc)
    ensures AllCounted(At(s, p, pc).ps)
  {
  }

  lemma ReadTurnCounted(s: Pipe, p: nat, n: nat, signalled: bool)
    requires AllCounted(s.ps) && p < |s.ps| && n <= Longs.MAXINT
    ensures AllCounted(ReadTurn(s, p, n, signalled).ps)
  {
    WakeupCounted(Room, s.ps);
    PreleCounted(Rewound(s));
    AtCounted(Prele(Rewound(s)), p, if signalled then Idle else Dry(n));
  }

  lemma WriteTurnCounted(s: Pipe, p: nat, rest: seq<int>, signalled: bool)
    requires AllCounted(s.ps) && p < |s.ps| && |rest| <= Longs.MAXINT && s.size <= PIPSIZ
    ensures AllCounted(WriteTurn(s, p, rest, signalled).ps)
  {
    PreleCounted(s);
    PreleCounted(s.(iwrite := true));
  }

  lemma ReadEndCounted(s: Pipe, p: nat, n: nat)
    requires AllCounted(s.ps) && p < |s.ps| && 0 <= s.offset <= s.size <= |s.raw|
    ensures AllCounted(ReadEnd(s, p, n).ps)
  {
    PreleCounted(s.(offset := s.offset + |Chunk(s, n)|, delivered := s.delivered + Chunk(s, n)));
  }

  lemma WriteEndCounted(s: Pipe, p: nat, rest: seq<int>)
    requires AllCounted(s.ps) && p < |s.ps| && |rest| <= Longs.MAXINT
    ensures AllCounted(WriteEnd(s, p, rest).ps)
  {
    PreleCounted(s);
    WakeupCounted(Data, Prele(s).ps);
  }

  lemma StepCounted(s: Pipe, e: Event, s': Pipe)
    requires AllCounted(s.ps) && Step(s, e, s')
    ensures AllCounted(s'.ps)
  {
    match e {
      case TryRead(p, signalled) => ReadTurnCounted(s, p, s.ps[p].n, signalled);
      case ReadDone(p) => ReadEndCounted(s, p, s.ps[p].n);
      case TryWrite(p, signalled) => WriteTurnCounted(s, p, s.ps[p].rest, signalled);
      case WritePart(p, k) => AtCounted(s, p, Writing(s.ps[p].now[k..], s.ps[p].rest));
      case WriteDone(p) => WriteEndCounted(s, p, s.ps[p].rest);
      case CloseDup =>
        WakeupCounted(Room, s.ps);
        WakeupCounted(Data, Wakeup(Room, s.ps));
      case UpdateUnlock => PreleCounted(s);
      case _ =>
    }
  }

  /** What PipeCode asks of a count holds at every moment of every run. */
  lemma {:induction false} RunCounted(ss: seq<Pipe>, es: seq<Event>, raw: seq<int>, n: nat, i: nat)
    requires IsRun(ss, es) && ss[0] == Initial(raw, n) && i <= |es|
    ensures AllCounted(ss[i].ps)
  {
    if i > 0 {
      RunCounted(ss, es, raw, n, i - 1);
      StepCounted(ss[i-1], es[i-1], ss[i]);
    }
  }

  /* ---------------------------------------------------------------- what it means */

  /** At every moment of every run: first in, first out, nothing lost or invented, and never more than PIPSIZ bytes. */
  lemma BytesInOrder(ss: seq<Pipe>, es: seq<Event>, raw: seq<int>, n: nat, i: nat)
    requires IsRun(ss, es) && ss[0] == Initial(raw, n) && |raw| == PIPSIZ && i <= |es|
    ensures var s := ss[i];
            && 0 <= s.offset <= s.size <= PIPSIZ == |s.raw|
            && s.accepted == s.delivered + s.raw[s.offset..s.size]
  {
    InitialInv(raw, n);
    RunInv(ss, es, i);
  }

  /** With the pipe unlocked, nobody sleeps for the lock, and readers and writers are not both asleep: a reader sleeps
      only on an empty pipe, a writer only on a full one. */
  lemma NeverBothAsleep(ss: seq<Pipe>, es: seq<Event>, raw: seq<int>, n: nat, i: nat, p: nat, q: nat)
    requires IsRun(ss, es) && ss[0] == Initial(raw, n) && |raw| == PIPSIZ && i <= |es|
    requires !ss[i].lock && p < |ss[i].ps| && q < |ss[i].ps|
    ensures !ss[i].ps[p].WantR? && !ss[i].ps[p].WantW?
    ensures ss[i].ps[p].Dry? ==> ss[i].offset == ss[i].size == 0
    ensures ss[i].ps[q].Full? ==> ss[i].size == PIPSIZ
    ensures !(ss[i].ps[p].Dry? && ss[i].ps[q].Full?)
  {
    InitialInv(raw, n);
    RunInv(ss, es, i);
    assert Local(ss[i], ss[i].ps[p]) && Local(ss[i], ss[i].ps[q]);
  }

  lemma DeliveredPrefix(s: Pipe)
    requires Fifo(s)
    ensures s.delivered <= s.accepted
  {
  }

  lemma StepsOnlyAppend(s: Pipe, e: Event, s': Pipe)
    requires Inv(s) && Step(s, e, s')
    ensures s.accepted <= s'.accepted && s.delivered <= s'.delivered
  {
    match e {
      case ReadDone(p) => assert s'.delivered == s.delivered + Chunk(s, s.ps[p].n) && s'.accepted == s.accepted;
      case WritePart(p, k) => assert s'.accepted == s.accepted + s.ps[p].now[..k] && s'.delivered == s.delivered;
      case _ => RecordsKept(s, e, s');
    }
  }

  lemma RecordsKept(s: Pipe, e: Event, s': Pipe)
    requires Step(s, e, s') && !e.ReadDone? && !e.WritePart?
    ensures s'.accepted == s.accepted && s'.delivered == s.delivered
  {
  }

  /** Both records only grow. */
  ghost predicate Grows(s: Pipe, s': Pipe) { s.accepted <= s'.accepted && s.delivered <= s'.delivered }

  lemma {:induction false} Growing(ss: seq<Pipe>, i: nat, j: nat)
    requires i <= j < |ss| && forall k :: 0 <= k < |ss| - 1 ==> Grows(ss[k], ss[k+1])
    ensures Grows(ss[i], ss[j])
    decreases j
  {
    if i < j {
      Growing(ss, i, j - 1);
      assert Grows(ss[j-1], ss[j]);
    }
  }

  /** Once accepted or delivered, always so: with BytesInOrder, every byte delivered is the byte accepted at its
      place. */
  lemma RecordsGrow(ss: seq<Pipe>, es: seq<Event>, raw: seq<int>, n: nat, i: nat, j: nat)
    requires IsRun(ss, es) && ss[0] == Initial(raw, n) && |raw| == PIPSIZ && i <= j <= |es|
    ensures Grows(ss[i], ss[j]) && ss[j].delivered <= ss[j].accepted
  {
    forall k | 0 <= k < |es|
      ensures Grows(ss[k], ss[k+1])
    {
      RecordsStep(ss, es, raw, n, k);
    }
    Growing(ss, i, j);
    RecordsAt(ss, es, raw, n, j);
  }

  lemma RecordsAt(ss: seq<Pipe>, es: seq<Event>, raw: seq<int>, n: nat, j: nat)
    requires IsRun(ss, es) && ss[0] == Initial(raw, n) && |raw| == PIPSIZ && j <= |es|
    ensures ss[j].delivered <= ss[j].accepted
  {
    InitialInv(raw, n);
    RunInv(ss, es, j);
    DeliveredPrefix(ss[j]);
  }

  lemma RecordsStep(ss: seq<Pipe>, es: seq<Event>, raw: seq<int>, n: nat, j: nat)
    requires IsRun(ss, es) && ss[0] == Initial(raw, n) && |raw| == PIPSIZ && j < |es|
    ensures Grows(ss[j], ss[j+1])
  {
    InitialInv(raw, n);
    RunInv(ss, es, j);
    StepsOnlyAppend(ss[j], es[j], ss[j+1]);
  }
}
