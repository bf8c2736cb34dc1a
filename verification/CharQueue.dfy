/** Character lists: byte queues in six-byte blocks drawn from one pool. */
module CharQueue {
  import opened Counting
  import opened Rings

  const INFO := 6

  /** Block b lies at addresses 8b to 8b+7: a link, then six characters.  Address 0 is the null pointer. */
  datatype Clist = Clist(cc: int, cf: int, cl: int)

  /** Where in its first block the queue begins. */
  function Skip(l: Clist, bs: seq<int>): int
    requires bs != []
  {
    l.cf - 8 * bs[0] - 2
  }

  /** The list head agrees with the blocks: it starts inside the first and ends inside the last. */
  ghost predicate QueueOk(l: Clist, bs: seq<int>) {
    if bs == [] then l == Clist(0, 0, 0) else
    && 0 <= Skip(l, bs) < INFO && l.cc > 0
    && var e := Skip(l, bs) + l.cc - 1;
       e / INFO == |bs| - 1 && l.cl == 8 * bs[|bs|-1] + 3 + e % INFO
  }

  /** Address of character j of the queue. */
  function Address(l: Clist, bs: seq<int>, j: int): int
    requires bs != [] && 0 <= (Skip(l, bs) + j) / INFO < |bs|
  {
    var o := Skip(l, bs) + j;
    8 * bs[o / INFO] + 2 + o % INFO
  }

  ghost predicate InMemory(mem: seq<int>, bs: seq<int>) {
    forall k :: 0 <= k < |bs| ==> 0 < bs[k] && 8 * bs[k] + 8 <= |mem|
  }

  function Contents(mem: seq<int>, l: Clist, bs: seq<int>): (s: seq<int>)
    requires QueueOk(l, bs) && InMemory(mem, bs)
    ensures |s| == l.cc
    ensures forall j :: 0 <= j < l.cc ==> s[j] == mem[Address(l, bs, j)]
  {
    if bs == [] then [] else seq(l.cc, j requires 0 <= j < l.cc => mem[Address(l, bs, j)])
  }

  /** A write inside a block that is not the queue's is not seen. */
  lemma ContentsApart(mem: seq<int>, l: Clist, bs: seq<int>, a: int, c: int)
    requires QueueOk(l, bs) && InMemory(mem, bs) && 0 <= a < |mem| && a / 8 !in bs
    ensures Contents(mem[a := c], l, bs) == Contents(mem, l, bs)
  {
    forall j | 0 <= j < l.cc
      ensures Address(l, bs, j) != a
    {
      var o := Skip(l, bs) + j;
      assert bs[o / INFO] in bs && Address(l, bs, j) / 8 == bs[o / INFO];
    }
  }

  /* ---------------------------------------------------------------- getc, on one queue */

  /** The list head after one character is taken, and the block that is left behind, -1 if none. */
  function Got(l: Clist, bs: seq<int>): (r: (Clist, seq<int>, int))
    requires QueueOk(l, bs) && bs != []
  {
    if l.cc == 1 then (Clist(0, 0, 0), [], bs[0])
    else if Skip(l, bs) == INFO - 1 && |bs| > 1 then (Clist(l.cc - 1, 8 * bs[1] + 2, l.cl), bs[1..], bs[0])
    else (Clist(l.cc - 1, l.cf + 1, l.cl), bs, -1)
  }

  /** The queue loses its first character, which is the one at cf. */
  lemma GotFirst(mem: seq<int>, l: Clist, bs: seq<int>)
    requires QueueOk(l, bs) && InMemory(mem, bs) && bs != []
    ensures var (l', bs', b) := Got(l, bs);
            && QueueOk(l', bs') && InMemory(mem, bs')
            && 0 <= l.cf < |mem| && Contents(mem, l, bs) == [mem[l.cf]] + Contents(mem, l', bs')
            && bs == (if b == -1 then bs' else [b] + bs')
  {
    GotIs(l, bs);
    var (l', bs', b) := Got(l, bs);
    assert Address(l, bs, 0) == l.cf;
    if l.cc > 1 {
      forall j | 0 <= j < l'.cc
        ensures Address(l', bs', j) == Address(l, bs, j + 1)
      {
        GotAddress(l, bs, j);
      }
    }
    OneLess(mem, l, bs, l', bs');
  }

  lemma GotAddress(l: Clist, bs: seq<int>, j: int)
    requires QueueOk(l, bs) && bs != [] && l.cc > 1 && QueueOk(Got(l, bs).0, Got(l, bs).1) && 0 <= j < l.cc - 1
    ensures Address(Got(l, bs).0, Got(l, bs).1, j) == Address(l, bs, j + 1)
  {
  }

  /** All that matters about the new list head is where its characters are. */
  lemma OneLess(mem: seq<int>, l: Clist, bs: seq<int>, l': Clist, bs': seq<int>)
    requires QueueOk(l, bs) && InMemory(mem, bs) && bs != [] && QueueOk(l', bs') && InMemory(mem, bs')
        && 0 <= l.cf < |mem|
    requires l'.cc == l.cc - 1 && Address(l, bs, 0) == l.cf
    requires forall j :: 0 <= j < l'.cc ==> Address(l', bs', j) == Address(l, bs, j + 1)
    ensures Contents(mem, l, bs) == [mem[l.cf]] + Contents(mem, l', bs')
  {
    var s, t := Contents(mem, l, bs), Contents(mem, l', bs');
    assert forall j :: 0 <= j < |t| ==> t[j] == s[j+1];
  }

  /** What getc can see of all this from the address cf. */
  lemma GotSeen(l: Clist, bs: seq<int>)
    requires QueueOk(l, bs)
    ensures l.cf == 0 ==> bs == [] || bs[0] <= 0
    ensures bs != [] ==> l.cf / 8 == bs[0] && ((l.cf + 1) % 8 == 0 <==> Skip(l, bs) == INFO - 1)
    ensures bs != [] && l.cc == 1 ==> bs == [bs[0]]
  {
  }

  /** Case by case, as getc tells the cases apart. */
  lemma GotIs(l: Clist, bs: seq<int>)
    requires QueueOk(l, bs) && bs != []
    ensures l.cf / 8 == bs[0] && QueueOk(Got(l, bs).0, Got(l, bs).1)
    ensures l.cc == 1 ==> bs == [bs[0]] + [] && Got(l, bs) == (Clist(0, 0, 0), [], bs[0])
    ensures l.cc > 1 && (l.cf + 1) % 8 == 0 ==>
      |bs| > 1 && bs == [bs[0]] + bs[1..] && Got(l, bs) == (Clist(l.cc - 1, 8 * bs[1] + 2, l.cl), bs[1..], bs[0])
    ensures l.cc > 1 && (l.cf + 1) % 8 != 0 ==> Got(l, bs) == (Clist(l.cc - 1, l.cf + 1, l.cl), bs, -1)
  {
    GotSeen(l, bs);
    if l.cc > 1 { GotShape(l, bs); }
  }

  lemma GotShape(l: Clist, bs: seq<int>)
    requires QueueOk(l, bs) && bs != [] && l.cc > 1
    ensures QueueOk(Got(l, bs).0, Got(l, bs).1)
    ensures Skip(l, bs) == INFO - 1 ==> |bs| > 1
  {
  }

  /* ---------------------------------------------------------------- putc, on one queue */

  /** Whether putc must take a block from the pool. */
  predicate Needs(l: Clist) { l.cl == 0 || l.cl % 8 == 0 }

  /** The list head and blocks after one character is added; b is the block taken, if one is needed. */
  function Put(l: Clist, bs: seq<int>, b: int): (r: (Clist, seq<int>))
    requires QueueOk(l, bs)
  {
    if bs == [] then (Clist(1, 8 * b + 2, 8 * b + 3), [b])
    else if Needs(l) then (Clist(l.cc + 1, l.cf, 8 * b + 3), bs + [b])
    else (Clist(l.cc + 1, l.cf, l.cl + 1), bs)
  }

  /** The queue gains the character at its end. */
  lemma PutLast(mem: seq<int>, l: Clist, bs: seq<int>, b: int, c: int)
    requires QueueOk(l, bs) && InMemory(mem, bs) && (Needs(l) ==> 0 < b && 8 * b + 8 <= |mem| && b !in bs) && NoDup(bs)
    ensures var (l', bs') := Put(l, bs, b);
            && QueueOk(l', bs') && InMemory(mem, bs') && 0 < l'.cl - 1 < |mem| && (l'.cl - 1) / 8 == bs'[|bs'|-1]
            && Contents(mem[l'.cl-1 := c], l', bs') == Contents(mem, l, bs) + [c]
  {
    PutShape(l, bs, b);
    PutMemory(mem, l, bs, b);
    PutContents(mem, l, bs, b, c);
  }

  lemma PutContents(mem: seq<int>, l: Clist, bs: seq<int>, b: int, c: int)
    requires QueueOk(l, bs) && InMemory(mem, bs)
    requires var (l', bs') := Put(l, bs, b);
             QueueOk(l', bs') && InMemory(mem, bs') && NoDup(bs') && 0 < l'.cl - 1 < |mem|
    ensures var (l', bs') := Put(l, bs, b); Contents(mem[l'.cl-1 := c], l', bs') == Contents(mem, l, bs) + [c]
  {
    var (l', bs') := Put(l, bs, b);
    LastAddress(l', bs');
    forall j | 0 <= j < l.cc
      ensures Address(l', bs', j) == Address(l, bs, j) != l'.cl - 1
    {
      SameAddress(l, bs, b, j);
      Earlier(l', bs', j);
    }
    OneMore(mem, l, bs, l', bs', c);
  }

  /** All that matters about the new list head is where its characters are. */
  lemma OneMore(mem: seq<int>, l: Clist, bs: seq<int>, l': Clist, bs': seq<int>, c: int)
    requires QueueOk(l, bs) && InMemory(mem, bs) && QueueOk(l', bs') && InMemory(mem, bs') && 0 < l'.cl - 1 < |mem|
    requires l'.cc == l.cc + 1 && Address(l', bs', l.cc) == l'.cl - 1
    requires forall j :: 0 <= j < l.cc ==> Address(l', bs', j) == Address(l, bs, j) != l'.cl - 1
    ensures Contents(mem[l'.cl-1 := c], l', bs') == Contents(mem, l, bs) + [c]
  {
    Snoc(Contents(mem, l, bs), c, Contents(mem[l'.cl-1 := c], l', bs'));
  }

  lemma LastAddress(l: Clist, bs: seq<int>)
    requires QueueOk(l, bs) && bs != []
    ensures Address(l, bs, l.cc - 1) == l.cl - 1
  {
  }

  lemma Snoc(s: seq<int>, c: int, t: seq<int>)
    requires |t| == |s| + 1 && t[|s|] == c && forall j :: 0 <= j < |s| ==> t[j] == s[j]
    ensures t == s + [c]
  {
  }

  lemma PutMemory(mem: seq<int>, l: Clist, bs: seq<int>, b: int)
    requires QueueOk(l, bs) && InMemory(mem, bs) && (Needs(l) ==> 0 < b && 8 * b + 8 <= |mem| && b !in bs) && NoDup(bs)
    ensures var (l', bs') := Put(l, bs, b); InMemory(mem, bs') && NoDup(bs') && 0 < l'.cl - 1 < |mem|
  {
  }

  /** What putc can see from the address cl. */
  lemma PutSeen(l: Clist, bs: seq<int>)
    requires QueueOk(l, bs) && forall k :: 0 <= k < |bs| ==> 0 < bs[k]
    ensures l.cl == 0 <==> bs == []
    ensures l.cl != 0 && l.cl % 8 == 0 ==> (l.cl - 8) / 8 == bs[|bs|-1]
  {
  }

  lemma PutShape(l: Clist, bs: seq<int>, b: int)
    requires QueueOk(l, bs) && (Needs(l) ==> 0 < b) && (forall k :: 0 <= k < |bs| ==> 0 < bs[k])
    ensures var (l', bs') := Put(l, bs, b); QueueOk(l', bs') && (l'.cl - 1) / 8 == bs'[|bs'|-1]
  {
  }

  lemma SameAddress(l: Clist, bs: seq<int>, b: int, j: int)
    requires QueueOk(l, bs) && 0 <= j < l.cc && QueueOk(Put(l, bs, b).0, Put(l, bs, b).1)
    ensures Address(Put(l, bs, b).0, Put(l, bs, b).1, j) == Address(l, bs, j)
  {
  }

  /** Different characters have different addresses. */
  lemma Earlier(l: Clist, bs: seq<int>, j: int)
    requires QueueOk(l, bs) && bs != [] && NoDup(bs) && 0 <= j < l.cc - 1
    ensures Address(l, bs, j) != l.cl - 1
  {
    var o, e := Skip(l, bs) + j, Skip(l, bs) + l.cc - 1;
    assert Address(l, bs, j) / 8 == bs[o / INFO] && (l.cl - 1) / 8 == bs[e / INFO];
    assert o / INFO < e / INFO ==> bs[o / INFO] != bs[e / INFO];
  }

  /* ---------------------------------------------------------------- the pool */

  function QueueCount(qs: seq<seq<int>>, b: int): nat {
    if qs == [] then 0 else QueueCount(qs[1..], b) + Count(qs[0], b)
  }

  lemma {:induction false} QueueUpdate(qs: seq<seq<int>>, i: nat, s: seq<int>, b: int)
    requires i < |qs|
    ensures QueueCount(qs[i := s], b) + Count(qs[i], b) == QueueCount(qs, b) + Count(s, b)
    decreases i
  {
    if i == 0 {
      assert qs[0 := s][1..] == qs[1..];
    } else {
      QueueUpdate(qs[1..], i - 1, s, b);
      assert qs[i := s][1..] == qs[1..][i-1 := s];
    }
  }

  lemma {:induction false} QueueTwo(qs: seq<seq<int>>, i: nat, j: nat, b: int)
    requires i < |qs| && j < |qs|
    ensures (if i == j then Count(qs[i], b) else Count(qs[i], b) + Count(qs[j], b)) <= QueueCount(qs, b)
    decreases |qs|
  {
    if i > 0 && j > 0 {
      QueueTwo(qs[1..], i - 1, j - 1, b);
    } else if i > 0 {
      QueueTwo(qs[1..], i - 1, i - 1, b);
    } else if j > 0 {
      QueueTwo(qs[1..], j - 1, j - 1, b);
    }
  }

  /** Every block from low to high is free or in one queue, once. */
  ghost predicate Partition(free: seq<int>, qs: seq<seq<int>>, low: int, high: int) {
    forall b :: Count(free, b) + QueueCount(qs, b) == if low <= b <= high then 1 else 0
  }

  lemma FreeApart(free: seq<int>, qs: seq<seq<int>>, low: int, high: int, b: int, i: nat)
    requires Partition(free, qs, low, high) && b in free && i < |qs|
    ensures b !in qs[i] && low <= b <= high
  {
    CountIn(free, b);
    CountIn(qs[i], b);
    QueueTwo(qs, i, i, b);
    assert Count(free, b) + QueueCount(qs, b) <= 1;
  }

  lemma QueuesApart(free: seq<int>, qs: seq<seq<int>>, low: int, high: int, b: int, i: nat, j: nat)
    requires Partition(free, qs, low, high) && i < |qs| && j < |qs| && b in qs[i]
    ensures b !in free && low <= b <= high && (i != j ==> b !in qs[j])
  {
    CountIn(free, b);
    CountIn(qs[i], b);
    CountIn(qs[j], b);
    QueueTwo(qs, i, j, b);
    QueueTwo(qs, i, i, b);
    assert Count(free, b) + QueueCount(qs, b) <= 1;
  }

  /** A block goes from the front of a queue to the pool. */
  lemma PartitionGive(free: seq<int>, qs: seq<seq<int>>, low: int, high: int, i: nat, b: int, rest: seq<int>)
    requires Partition(free, qs, low, high) && i < |qs| && qs[i] == [b] + rest
    ensures Partition([b] + free, qs[i := rest], low, high)
  {
    forall x
      ensures Count([b] + free, x) + QueueCount(qs[i := rest], x) == Count(free, x) + QueueCount(qs, x)
    {
      CountAppend([b], free, x);
      CountAppend([b], rest, x);
      QueueUpdate(qs, i, rest, x);
    }
  }

  /** A block goes from the pool to the end of a queue. */
  lemma PartitionTake(free: seq<int>, qs: seq<seq<int>>, low: int, high: int, i: nat)
    requires Partition(free, qs, low, high) && i < |qs| && free != []
    ensures Partition(free[1..], qs[i := qs[i] + [free[0]]], low, high)
  {
    var b := free[0];
    assert free == [b] + free[1..];
    forall x
      ensures Count(free[1..], x) + QueueCount(qs[i := qs[i] + [b]], x) == Count(free, x) + QueueCount(qs, x)
    {
      CountAppend([b], free[1..], x);
      CountAppend(qs[i], [b], x);
      QueueUpdate(qs, i, qs[i] + [b], x);
    }
  }

  /** A character stored in a block of queue i is not seen in queue j. */
  lemma StoreApart(mem: seq<int>, free: seq<int>, qs: seq<seq<int>>, low: int, high: int, i: nat, j: nat, l: Clist,
                   a: int, c: int)
    requires Partition(free, qs, low, high) && i < |qs| && j < |qs| && i != j && a / 8 in qs[i] && 0 <= a < |mem|
    requires QueueOk(l, qs[j]) && InMemory(mem, qs[j])
    ensures InMemory(mem[a := c], qs[j]) && Contents(mem[a := c], l, qs[j]) == Contents(mem, l, qs[j])
  {
    QueuesApart(free, qs, low, high, a / 8, i, j);
    ContentsApart(mem, l, qs[j], a, c);
  }

  lemma RestInMemory(mem: seq<int>, b: int, rest: seq<int>)
    requires InMemory(mem, [b] + rest)
    ensures InMemory(mem, rest)
  {
    assert forall k :: 0 <= k < |rest| ==> rest[k] == ([b] + rest)[k+1];
  }

  /* ---------------------------------------------------------------- the chains of blocks */

  function First(s: seq<int>): int { if s == [] then -1 else s[0] }

  /** The pool and every queue are chains of blocks. */
  ghost predicate Chained(next: seq<int>, head: int, free: seq<int>, qs: seq<seq<int>>) {
    Links(next, head, free) && forall j :: 0 <= j < |qs| ==> Links(next, First(qs[j]), qs[j])
  }

  /** putc: the links once the first block of the pool hangs on the end of queue i. */
  function Hung(next: seq<int>, q: seq<int>, b: int): (r: seq<int>)
    requires 0 <= b < |next| && (q != [] ==> 0 <= q[|q|-1] < |next|)
    ensures |r| == |next|
  {
    if q == [] then next[b := -1] else next[b := -1][q[|q|-1] := b]
  }

  /** The first block of the pool and the last of queue i are in no other chain. */
  lemma TakeApart(free: seq<int>, qs: seq<seq<int>>, low: int, high: int, i: nat, j: nat)
    requires Partition(free, qs, low, high) && i < |qs| && j < |qs| && free != []
    ensures low <= free[0] <= high && free[0] !in qs[j]
    ensures qs[i] != [] ==> qs[i][|qs[i]|-1] !in free && (j != i ==> qs[i][|qs[i]|-1] !in qs[j])
  {
    assert free[0] in free;
    FreeApart(free, qs, low, high, free[0], j);
    if qs[i] != [] {
      assert qs[i][|qs[i]|-1] in qs[i];
      QueuesApart(free, qs, low, high, qs[i][|qs[i]|-1], i, j);
    }
  }

  lemma TakeOther(next: seq<int>, free: seq<int>, qs: seq<seq<int>>, low: int, high: int, i: nat, j: nat)
    requires Partition(free, qs, low, high) && 0 <= low && high < |next| && i < |qs| && j < |qs| && free != [] && j != i
    requires Links(next, First(qs[i]), qs[i]) && Links(next, First(qs[j]), qs[j])
    ensures low <= free[0] <= high && Links(Hung(next, qs[i], free[0]), First(qs[j]), qs[j])
  {
    TakeApart(free, qs, low, high, i, j);
    LinksFrame(next, Hung(next, qs[i], free[0]), First(qs[j]), qs[j]);
  }

  lemma TakePool(next: seq<int>, head: int, free: seq<int>, qs: seq<seq<int>>, low: int, high: int, i: nat)
    requires Partition(free, qs, low, high) && 0 <= low && high < |next| && i < |qs| && free != []
    requires Links(next, head, free) && Links(next, First(qs[i]), qs[i])
    ensures head == free[0] && low <= head <= high && head !in qs[i]
    ensures Links(Hung(next, qs[i], head), next[head], free[1..])
    ensures Links(Hung(next, qs[i], head), First(qs[i] + [head]), qs[i] + [head])
  {
    TakeApart(free, qs, low, high, i, i);
    LinksPop(next, head, free);
    assert forall x :: x in free[1..] ==> x in free;
    LinksFrame(next, Hung(next, qs[i], head), next[head], free[1..]);
    LinksPush(next, First(qs[i]), if qs[i] == [] then -1 else qs[i][|qs[i]|-1], qs[i], head);
  }

  lemma TakeChain(next: seq<int>, head: int, free: seq<int>, qs: seq<seq<int>>, low: int, high: int, i: nat)
    requires Chained(next, head, free, qs) && Partition(free, qs, low, high) && 0 <= low && high < |next| && i < |qs|
        && free != []
    ensures head == free[0] && low <= head <= high && head !in qs[i]
    ensures Chained(Hung(next, qs[i], head), next[head], free[1..], qs[i := qs[i] + [head]])
    ensures Partition(free[1..], qs[i := qs[i] + [head]], low, high)
  {
    TakePool(next, head, free, qs, low, high, i);
    PartitionTake(free, qs, low, high, i);
    forall j | 0 <= j < |qs| && j != i
      ensures Links(Hung(next, qs[i], head), First(qs[j]), qs[j])
    {
      TakeOther(next, free, qs, low, high, i, j);
    }
  }

  /** getc: the first block of queue i goes in front of the pool. */
  lemma GiveChain(next: seq<int>, head: int, free: seq<int>, qs: seq<seq<int>>, low: int, high: int, i: nat, b: int,
                  rest: seq<int>)
    requires Chained(next, head, free, qs) && Partition(free, qs, low, high) && 0 <= low && high < |next| && i < |qs|
    requires qs[i] == [b] + rest
    ensures low <= b <= high && Chained(next[b := head], b, [b] + free, qs[i := rest])
        && Partition([b] + free, qs[i := rest], low, high)
  {
    assert b in qs[i] && rest == qs[i][1..];
    QueuesApart(free, qs, low, high, b, i, i);
    LinksPop(next, b, qs[i]);
    LinksPushFront(next, head, free, b);
    PartitionGive(free, qs, low, high, i, b, rest);
    LinksFrame(next, next[b := head], First(rest), rest);
    forall j | 0 <= j < |qs| && j != i
      ensures Links(next[b := head], First(qs[j]), qs[j])
    {
      QueuesApart(free, qs, low, high, b, i, j);
      LinksFrame(next, next[b := head], First(qs[j]), qs[j]);
    }
  }
}
