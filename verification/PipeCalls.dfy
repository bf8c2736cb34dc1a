/** One call of write or read on a pipe, from its beginning to its end: a writer's bytes go in as they were passed, in
    order and all of them, and a reader gets what there is at the head, as much as it asked for. */
module PipeCalls {
  import Longs
  import opened PipeMachine

  /** Event c begins a call of process p that is still going on in state i. */
  ghost predicate Calling(ss: seq<Pipe>, es: seq<Event>, c: nat, i: nat, p: nat) {
    && IsRun(ss, es) && c < i <= |es|
    && forall j {:trigger ss[j]} :: c < j <= i ==> p < |ss[j].ps| && !ss[j].ps[p].Idle?
  }

  /* ---------------------------------------------------------------- what others do to a call */

  /** The event is something that process p does, or a signal to it. */
  predicate IsBy(e: Event, p: nat) {
    match e
    case CallRead(q, _) => q == p
    case CallWrite(q, _) => q == p
    case TryRead(q, _) => q == p
    case ReadDone(q) => q == p
    case TryWrite(q, _) => q == p
    case WritePart(q, _) => q == p
    case WriteDone(q) => q == p
    case Signal(q) => q == p
    case _ => false
  }

  function Awake(pc: Pc): Pc {
    match pc
    case WantR(n) => TryR(n)
    case Dry(n) => TryR(n)
    case WantW(rest) => TryW(rest)
    case Full(rest) => TryW(rest)
    case _ => pc
  }

  /** As before, or woken. */
  predicate Like(pc: Pc, pc': Pc) { pc' == pc || pc' == Awake(pc) }

  lemma WakeupLike(c: Channel, ps: seq<Pc>, p: nat)
    requires p < |ps|
    ensures Like(ps[p], Wakeup(c, ps)[p])
  {
  }

  lemma PreleLike(s: Pipe, p: nat)
    requires p < |s.ps|
    ensures |Prele(s).ps| == |s.ps| && Like(s.ps[p], Prele(s).ps[p])
  {
    WakeupLike(Lock, s.ps, p);
  }

  lemma ReadTurnLike(s: Pipe, q: nat, n: nat, signalled: bool, p: nat)
    requires q < |s.ps| && p < |s.ps| && p != q
    ensures |ReadTurn(s, q, n, signalled).ps| == |s.ps| && Like(s.ps[p], ReadTurn(s, q, n, signalled).ps[p])
  {
    WakeupLike(Room, s.ps, p);
    PreleLike(Rewound(s), p);
  }

  lemma WriteTurnLike(s: Pipe, q: nat, rest: seq<int>, signalled: bool, p: nat)
    requires q < |s.ps| && p < |s.ps| && p != q && s.size <= PIPSIZ
    ensures |WriteTurn(s, q, rest, signalled).ps| == |s.ps| && Like(s.ps[p], WriteTurn(s, q, rest, signalled).ps[p])
  {
    PreleLike(s, p);
    PreleLike(s.(iwrite := true), p);
  }

  lemma WriteEndLike(s: Pipe, q: nat, rest: seq<int>, p: nat)
    requires q < |s.ps| && p < |s.ps| && p != q
    ensures |WriteEnd(s, q, rest).ps| == |s.ps| && Like(s.ps[p], WriteEnd(s, q, rest).ps[p])
  {
    PreleLike(s, p);
    WakeupLike(Data, Prele(s).ps, p);
  }

  /** What others do can only wake a process. */
  lemma OthersOnlyWake(s: Pipe, e: Event, s': Pipe, p: nat)
    requires Step(s, e, s') && !IsBy(e, p) && p < |s.ps|
    ensures |s'.ps| == |s.ps| && Like(s.ps[p], s'.ps[p])
  {
    match e {
      case TryRead(q, signalled) => ReadTurnLike(s, q, s.ps[q].n, signalled, p);
      case ReadDone(q) => PreleLike(s, p);
      case TryWrite(q, signalled) => WriteTurnLike(s, q, s.ps[q].rest, signalled, p);
      case WriteDone(q) => WriteEndLike(s, q, s.ps[q].rest, p);
      case CloseDup =>
        WakeupLike(Room, s.ps, p);
        WakeupLike(Data, Wakeup(Room, s.ps), p);
      case UpdateUnlock => PreleLike(s, p);
      case _ =>
    }
  }

  /* ---------------------------------------------------------------- writing */

  /** The bytes the pipe accepts in one event, if it is process p that writes. */
  ghost function Gained(s: Pipe, e: Event, s': Pipe, p: nat): seq<int> {
    if e.WritePart? && e.p == p && |s.accepted| <= |s'.accepted| then s'.accepted[|s.accepted|..] else []
  }

  /** All that the pipe accepts from process p from event c up to event i. */
  ghost function Sent(ss: seq<Pipe>, es: seq<Event>, c: nat, i: nat, p: nat): seq<int>
    requires c <= i <= |es| && |ss| == |es| + 1
  {
    if i == c then [] else Sent(ss, es, c, i - 1, p) + Gained(ss[i-1], es[i-1], ss[i], p)
  }

  predicate IsWriter(pc: Pc) { pc.TryW? || pc.WantW? || pc.Writing? || pc.Full? }

  /** What a writer still has to write. */
  function Left(pc: Pc): seq<int> {
    match pc
    case TryW(rest) => rest
    case WantW(rest) => rest
    case Full(rest) => rest
    case Writing(now, rest) => now + rest
    case _ => []
  }

  /** One event: what the pipe gains from the writer is the front of what it had left. */
  ghost predicate WriterMoves(s: Pipe, e: Event, s': Pipe, p: nat)
    requires p < |s.ps| && p < |s'.ps|
  {
    if s'.ps[p].Idle? then
      && Gained(s, e, s', p) == []
      && (e == Signal(p) || e == TryWrite(p, true) || Left(s.ps[p]) == [])
    else IsWriter(s'.ps[p]) && Left(s.ps[p]) == Gained(s, e, s', p) + Left(s'.ps[p])
  }

  /** Where a turn of writep leaves the writer. */
  lemma TurnEnds(s: Pipe, p: nat, rest: seq<int>, signalled: bool)
    requires p < |s.ps| && s.size <= PIPSIZ
    ensures var s' := WriteTurn(s, p, rest, signalled);
            && p < |s'.ps|
            && var pc := s'.ps[p];
               || (pc == Idle && (signalled || rest == []))
               || pc == WantW(rest) || pc == Full(rest)
               || (pc.Writing? && pc.now + pc.rest == rest)
  {
  }

  lemma WriterTries(s: Pipe, s': Pipe, p: nat, signalled: bool)
    requires Step(s, TryWrite(p, signalled), s')
    ensures p < |s'.ps| && WriterMoves(s, TryWrite(p, signalled), s', p)
  {
    var rest := s.ps[p].rest;
    TurnEnds(s, p, rest, signalled);
    assert Gained(s, TryWrite(p, signalled), s', p) == [];
    assert s'.ps[p].Idle? || Left(s'.ps[p]) == rest;
    assert [] + rest == rest;
  }

  lemma WriterWrites(s: Pipe, s': Pipe, p: nat, k: nat)
    requires Step(s, WritePart(p, k), s')
    ensures p < |s'.ps| && WriterMoves(s, WritePart(p, k), s', p)
    ensures s'.ps[p].Writing? && Gained(s, WritePart(p, k), s', p) + s'.ps[p].now == s.ps[p].now
    ensures s'.ps[p].rest == s.ps[p].rest && s'.accepted == s.accepted + Gained(s, WritePart(p, k), s', p)
  {
    var now := s.ps[p].now;
    assert s'.accepted[|s.accepted|..] == now[..k];
    assert now[..k] + now[k..] == now;
    assert now[..k] + (now[k..] + s.ps[p].rest) == now + s.ps[p].rest;
  }

  lemma WriterTurns(s: Pipe, s': Pipe, p: nat)
    requires Step(s, WriteDone(p), s')
    ensures p < |s'.ps| && WriterMoves(s, WriteDone(p), s', p)
  {
    PreleLike(s, p);
  }

  lemma WriterStep(s: Pipe, e: Event, s': Pipe, p: nat)
    requires Step(s, e, s') && p < |s.ps| && IsWriter(s.ps[p])
    ensures p < |s'.ps| && WriterMoves(s, e, s', p)
  {
    if !IsBy(e, p) {
      OthersOnlyWake(s, e, s', p);
    } else {
      match e {
        case TryWrite(_, signalled) => WriterTries(s, s', p, signalled);
        case WritePart(_, k) => WriterWrites(s, s', p, k);
        case WriteDone(_) => WriterTurns(s, s', p);
        case _ =>
      }
    }
  }

  /** What goes from the front of one sequence to the end of another leaves them together the same. */
  lemma Appends(a: seq<int>, b: seq<int>, c: seq<int>, a': seq<int>, c': seq<int>, all: seq<int>)
    requires a + c' == all && c' == b + c && a' == a + b
    ensures a' + c == all
  {
    assert (a + b) + c == a + (b + c);
  }

  /** In state j the writer had left what the pipe gains from it and what it has left after that. */
  ghost predicate Passes(ss: seq<Pipe>, es: seq<Event>, j: nat, p: nat) {
    && j < |es| && |ss| == |es| + 1 && p < |ss[j].ps| && p < |ss[j+1].ps|
    && Left(ss[j].ps[p]) == Gained(ss[j], es[j], ss[j+1], p) + Left(ss[j+1].ps[p])
  }

  lemma {:induction false} SentSoFar(ss: seq<Pipe>, es: seq<Event>, c: nat, i: nat, p: nat)
    requires c < i <= |es| && |ss| == |es| + 1 && p < |ss[c+1].ps| && p < |ss[i].ps|
    requires Sent(ss, es, c, c + 1, p) == [] && forall j :: c < j < i ==> Passes(ss, es, j, p)
    ensures Sent(ss, es, c, i, p) + Left(ss[i].ps[p]) == Left(ss[c+1].ps[p])
    decreases i
  {
    if i > c + 1 {
      assert Passes(ss, es, i - 1, p);
      SentSoFar(ss, es, c, i - 1, p);
      SentOne(ss, es, c, i, p, Left(ss[c+1].ps[p]));
    }
  }

  lemma SentOne(ss: seq<Pipe>, es: seq<Event>, c: nat, i: nat, p: nat, all: seq<int>)
    requires c < i <= |es| && |ss| == |es| + 1 && p < |ss[i].ps| && Passes(ss, es, i - 1, p)
    requires Sent(ss, es, c, i - 1, p) + Left(ss[i-1].ps[p]) == all
    ensures Sent(ss, es, c, i, p) + Left(ss[i].ps[p]) == all
  {
    SentNext(ss, es, c, i, p);
    Appends(Sent(ss, es, c, i - 1, p), Gained(ss[i-1], es[i-1], ss[i], p), Left(ss[i].ps[p]),
            Sent(ss, es, c, i, p), Left(ss[i-1].ps[p]), all);
  }

  lemma SentNext(ss: seq<Pipe>, es: seq<Event>, c: nat, i: nat, p: nat)
    requires c < i <= |es| && |ss| == |es| + 1
    ensures Sent(ss, es, c, i, p) == Sent(ss, es, c, i - 1, p) + Gained(ss[i-1], es[i-1], ss[i], p)
  {
  }

  lemma {:induction false} StaysWriter(ss: seq<Pipe>, es: seq<Event>, c: nat, i: nat, p: nat, data: seq<int>)
    requires Calling(ss, es, c, i, p) && es[c] == CallWrite(p, data)
    ensures IsWriter(ss[i].ps[p])
    decreases i
  {
    if i == c + 1 {
      WriteBegins(ss, es, c, p, data);
    } else {
      StaysWriter(ss, es, c, i - 1, p, data);
      WriterStepAt(ss, es, i - 1, p);
    }
  }

  /** At every moment of a write: what has gone in since the call, followed by what is left, is what the caller
      passed. */
  lemma WriterKeepsData(ss: seq<Pipe>, es: seq<Event>, c: nat, i: nat, p: nat, data: seq<int>)
    requires Calling(ss, es, c, i, p) && es[c] == CallWrite(p, data)
    ensures IsWriter(ss[i].ps[p]) && Sent(ss, es, c, i, p) + Left(ss[i].ps[p]) == data
  {
    forall j | c < j < i
      ensures Passes(ss, es, j, p)
    {
      PassesAt(ss, es, c, i, j, p, data);
    }
    StaysWriter(ss, es, c, i, p, data);
    WriteBegins(ss, es, c, p, data);
    SentSoFar(ss, es, c, i, p);
  }

  lemma PassesAt(ss: seq<Pipe>, es: seq<Event>, c: nat, i: nat, j: nat, p: nat, data: seq<int>)
    requires Calling(ss, es, c, i, p) && es[c] == CallWrite(p, data) && c < j < i
    ensures Passes(ss, es, j, p)
  {
    StaysWriter(ss, es, c, j, p, data);
    WriterStepAt(ss, es, j, p);
  }

  lemma WriteBegins(ss: seq<Pipe>, es: seq<Event>, c: nat, p: nat, data: seq<int>)
    requires IsRun(ss, es) && c < |es| && es[c] == CallWrite(p, data)
    ensures p < |ss[c+1].ps| && ss[c+1].ps[p] == TryW(data) && Sent(ss, es, c, c + 1, p) == []
  {
    assert Step(ss[c], es[c], ss[c+1]);
    assert Sent(ss, es, c, c, p) == [];
  }

  lemma WriterStepAt(ss: seq<Pipe>, es: seq<Event>, i: nat, p: nat)
    requires IsRun(ss, es) && i < |es| && p < |ss[i].ps| && IsWriter(ss[i].ps[p])
    ensures p < |ss[i+1].ps| && WriterMoves(ss[i], es[i], ss[i+1], p)
  {
    assert Step(ss[i], es[i], ss[i+1]);
    WriterStep(ss[i], es[i], ss[i+1], p);
  }

  /** A write that no signal ends has had all of its data accepted, in order; one that a signal ends, a first part. */
  lemma WriteEnds(ss: seq<Pipe>, es: seq<Event>, c: nat, i: nat, p: nat, data: seq<int>)
    requires Calling(ss, es, c, i, p) && es[c] == CallWrite(p, data)
    requires i < |es| && p < |ss[i+1].ps| && ss[i+1].ps[p].Idle?
    ensures Sent(ss, es, c, i + 1, p) <= data
    ensures es[i] != Signal(p) && es[i] != TryWrite(p, true) ==> Sent(ss, es, c, i + 1, p) == data
  {
    WriterKeepsData(ss, es, c, i, p, data);
    WriterStepAt(ss, es, i, p);
  }

  /* ---------------------------------------------------------------- no other bytes in between */

  /** A writer takes as much at a time as there is room for. */
  lemma PortionFills(s: Pipe, e: Event, s': Pipe, p: nat)
    requires Step(s, e, s') && p < |s.ps| && p < |s'.ps| && s.ps[p].TryW? && s'.ps[p].Writing?
    ensures s'.ps[p].now + s'.ps[p].rest == s.ps[p].rest
    ensures |s'.ps[p].now| == Longs.Min(|s.ps[p].rest|, PIPSIZ - s.size) && s'.accepted == s.accepted
  {
    if !IsBy(e, p) {
      OthersOnlyWake(s, e, s', p);
    } else if e.TryWrite? {
      PortionTaken(s, s', p, e.signalled);
    }
  }

  lemma PortionTaken(s: Pipe, s': Pipe, p: nat, signalled: bool)
    requires Step(s, TryWrite(p, signalled), s') && p < |s'.ps| && s'.ps[p].Writing?
    ensures s'.ps[p].now + s'.ps[p].rest == s.ps[p].rest
    ensures |s'.ps[p].now| == Longs.Min(|s.ps[p].rest|, PIPSIZ - s.size) && s'.accepted == s.accepted
  {
    TurnEnds(s, p, s.ps[p].rest, signalled);
  }

  /** While a process is in writei the pipe accepts bytes from no other. */
  lemma OnlyHolderWrites(s: Pipe, e: Event, s': Pipe, p: nat)
    requires Inv(s) && Step(s, e, s') && p < |s.ps| && s.ps[p].Writing? && p < |s'.ps| && s'.ps[p].Writing?
    ensures s'.accepted == s.accepted + Gained(s, e, s', p)
    ensures Gained(s, e, s', p) + s'.ps[p].now == s.ps[p].now
  {
    assert s.owner == Proc(p);
    if e.WritePart? {
      assert Holder(s.ps[e.p]);
      WriterWrites(s, s', p, e.k);
    } else {
      if e.ReadDone? { assert Holder(s.ps[e.p]); }
      RecordsKept(s, e, s');
      if !IsBy(e, p) { OthersOnlyWake(s, e, s', p); }
    }
  }

  /** In state j process p has begun a portion, and in states j to i it is at it. */
  ghost predicate Portion(ss: seq<Pipe>, es: seq<Event>, j: nat, i: nat, p: nat) {
    && IsRun(ss, es) && Inv(ss[0]) && j <= i <= |es|
    && forall k {:trigger ss[k]} :: j <= k <= i ==> p < |ss[k].ps| && ss[k].ps[p].Writing?
  }

  /** What the pipe has accepted, with what the writer is about to add. */
  function Coming(s: Pipe, p: nat): seq<int>
    requires p < |s.ps| && s.ps[p].Writing?
  {
    s.accepted + s.ps[p].now
  }

  lemma PortionStep(ss: seq<Pipe>, es: seq<Event>, i: nat, p: nat)
    requires IsRun(ss, es) && Inv(ss[0]) && i < |es|
    requires p < |ss[i].ps| && ss[i].ps[p].Writing? && p < |ss[i+1].ps| && ss[i+1].ps[p].Writing?
    ensures Coming(ss[i+1], p) == Coming(ss[i], p)
  {
    RunInv(ss, es, i);
    assert Step(ss[i], es[i], ss[i+1]);
    OnlyHolderWrites(ss[i], es[i], ss[i+1], p);
    Appends(ss[i].accepted, Gained(ss[i], es[i], ss[i+1], p), ss[i+1].ps[p].now,
            ss[i+1].accepted, ss[i].ps[p].now, Coming(ss[i], p));
  }

  ghost predicate SameComing(ss: seq<Pipe>, k: nat, p: nat) {
    && k + 1 < |ss| && p < |ss[k].ps| && p < |ss[k+1].ps| && ss[k].ps[p].Writing? && ss[k+1].ps[p].Writing?
    && Coming(ss[k+1], p) == Coming(ss[k], p)
  }

  lemma {:induction false} ComingStays(ss: seq<Pipe>, j: nat, i: nat, p: nat)
    requires j <= i < |ss| && p < |ss[j].ps| && ss[j].ps[p].Writing? && forall k :: j <= k < i ==> SameComing(ss, k, p)
    ensures p < |ss[i].ps| && ss[i].ps[p].Writing? && Coming(ss[i], p) == Coming(ss[j], p)
    decreases i
  {
    if i > j {
      ComingStays(ss, j, i - 1, p);
      assert SameComing(ss, i - 1, p);
    }
  }

  /** A portion goes in as one piece, whoever else is writing or reading. */
  lemma PortionWhole(ss: seq<Pipe>, es: seq<Event>, j: nat, i: nat, p: nat)
    requires Portion(ss, es, j, i, p)
    ensures Coming(ss[i], p) == Coming(ss[j], p)
  {
    forall k | j <= k < i
      ensures SameComing(ss, k, p)
    {
      PortionStep(ss, es, k, p);
    }
    ComingStays(ss, j, i, p);
  }

  /** So a write that fits when its turn comes is accepted in one piece. */
  lemma WriteInOnePiece(ss: seq<Pipe>, es: seq<Event>, j: nat, i: nat, p: nat, data: seq<int>)
    requires 0 < j && Portion(ss, es, j, i, p) && i < |es| && es[i] == WriteDone(p)
    requires p < |ss[j-1].ps| && ss[j-1].ps[p] == TryW(data) && |data| <= PIPSIZ - ss[j-1].size
    ensures ss[i].accepted == ss[j-1].accepted + data
  {
    assert Step(ss[j-1], es[j-1], ss[j]);
    PortionFills(ss[j-1], es[j-1], ss[j], p);
    PortionWhole(ss, es, j, i, p);
    assert Step(ss[i], es[i], ss[i+1]);
    assert data[..|data|] == data && ss[j].ps[p].now == data[..|ss[j].ps[p].now|];
  }

  /* ---------------------------------------------------------------- reading */

  predicate IsReader(pc: Pc, n: nat) { pc == TryR(n) || pc == WantR(n) || pc == Reading(n) || pc == Dry(n) }

  lemma ReaderTries(s: Pipe, s': Pipe, p: nat, signalled: bool)
    requires Step(s, TryRead(p, signalled), s')
    ensures p < |s'.ps| && (IsReader(s'.ps[p], s.ps[p].n) || (signalled && s'.ps[p].Idle?))
  {
    PreleLike(Rewound(s), p);
  }

  lemma ReaderStep(s: Pipe, e: Event, s': Pipe, p: nat, n: nat)
    requires Step(s, e, s') && p < |s.ps| && IsReader(s.ps[p], n)
    ensures p < |s'.ps| && (IsReader(s'.ps[p], n) || s'.ps[p].Idle?)
    ensures s'.ps[p].Idle? ==> e == ReadDone(p) || e == TryRead(p, true) || e == Signal(p)
  {
    if !IsBy(e, p) {
      OthersOnlyWake(s, e, s', p);
    } else if e.TryRead? {
      ReaderTries(s, s', p, e.signalled);
    } else if e.ReadDone? {
      PreleLike(s.(offset := s.offset + |Chunk(s, n)|, delivered := s.delivered + Chunk(s, n)), p);
    }
  }

  lemma {:induction false} ReaderKeepsCount(ss: seq<Pipe>, es: seq<Event>, c: nat, i: nat, p: nat, n: nat)
    requires Calling(ss, es, c, i, p) && es[c] == CallRead(p, n)
    ensures IsReader(ss[i].ps[p], n)
    decreases i
  {
    assert Step(ss[i-1], es[i-1], ss[i]);
    if i > c + 1 {
      ReaderKeepsCount(ss, es, c, i - 1, p, n);
      ReaderStep(ss[i-1], es[i-1], ss[i], p, n);
    }
  }

  /** A read that no signal ends has got the bytes at the head of the pipe, as many as it asked for or as there were,
      and there were some. */
  lemma ReadEnds(ss: seq<Pipe>, es: seq<Event>, c: nat, i: nat, p: nat, n: nat)
    requires Calling(ss, es, c, i, p) && es[c] == CallRead(p, n) && Inv(ss[0])
    requires i < |es| && p < |ss[i+1].ps| && ss[i+1].ps[p].Idle? && es[i] != Signal(p) && es[i] != TryRead(p, true)
    ensures var s, s' := ss[i], ss[i+1];
            var held := s.size - s.offset;
            && 0 < held == |s.accepted| - |s.delivered|
            && s'.delivered == s.accepted[..|s.delivered| + Longs.Min(n, held)]
            && s'.accepted == s.accepted
  {
    assert Step(ss[i], es[i], ss[i+1]);
    ReaderKeepsCount(ss, es, c, i, p, n);
    ReaderStep(ss[i], es[i], ss[i+1], p, n);
    RunInv(ss, es, i);
    var s, s' := ss[i], ss[i+1];
    assert Local(s, s.ps[p]);
    var k := Longs.Min(n, s.size - s.offset);
    assert s'.delivered == s.delivered + s.raw[s.offset..s.offset+k];
    assert s.raw[s.offset..s.size][..k] == s.raw[s.offset..s.offset+k];
    assert s.accepted[..|s.delivered|] == s.delivered;
  }

  /** Only the end of a read takes bytes out. */
  lemma OnlyReadsDeliver(s: Pipe, e: Event, s': Pipe)
    requires Step(s, e, s') && !e.ReadDone?
    ensures s'.delivered == s.delivered
  {
  }
}
