/** cinit, getc and putc as they run. */
module CharPool {
  import opened Counting
  import opened Rings
  import opened CharQueue

  class Pool {
    const low: int
    const high: int
    var next: seq<int>
    var mem: seq<int>
    var cfreelist: int
    var lists: seq<Clist>
    ghost var free: seq<int>
    ghost var qs: seq<seq<int>>

    ghost predicate Queue(i: int)
      requires 0 <= i < |lists| && i < |qs|
      reads this
    {
      QueueOk(lists[i], qs[i]) && InMemory(mem, qs[i])
    }

    /** The pool is a chain, each list head matches its chain of blocks, and the blocks are all accounted for. */
    ghost predicate Valid()
      reads this
    {
      && 0 < low && high < |next| && |mem| == 8 * |next| && |lists| == |qs|
      && Chained(next, cfreelist, free, qs) && Partition(free, qs, low, high)
      && forall i :: 0 <= i < |lists| ==> Queue(i)
    }

    /** The characters of queue i, oldest first. */
    ghost function Chars(i: int): seq<int>
      requires Valid() && 0 <= i < |lists|
      reads this
    {
      assert Queue(i);
      Contents(mem, lists[i], qs[i])
    }

    /** cinit: blocks low to high are chained up, the last one first. */
    constructor Cinit(low: int, high: int, n: nat, mem: seq<int>)
      requires 0 < low && low <= high + 1 && |mem| == 8 * (high + 1)
      ensures Valid() && this.low == low && this.high == high && |lists| == n
      ensures forall i :: 0 <= i < n ==> Chars(i) == []
    {
      this.low, this.high, this.mem := low, high, mem;
      lists, qs := seq(n, _ => Clist(0, 0, 0)), seq(n, _ => []);
      var links := seq(high + 1, _ => -1);
      var head := -1;
      ghost var s: seq<int> := [];
      var cp := low;
      NoQueues(seq(n, _ => []));
      while cp <= high
        invariant low <= cp <= high + 1 && |links| == high + 1 && Links(links, head, s)
        invariant forall x :: Count(s, x) == if low <= x < cp then 1 else 0
      {
        CountIn(s, cp);
        LinksPushFront(links, head, s, cp);
        forall x ensures Count([cp] + s, x) == Count([cp], x) + Count(s, x) { CountAppend([cp], s, x); }
        forall x ensures Count([cp], x) == if x == cp then 1 else 0 { CountOne(cp, x); }
        links := links[cp := head];
        head := cp;
        s := [cp] + s;
        cp := cp + 1;
      }
      next, cfreelist, free := links, head, s;
    }

    /** A block returns to the pool. */
    method Give(i: int, b: int, ghost rest: seq<int>, l: Clist)
      requires Valid() && 0 <= i < |lists| && qs[i] == [b] + rest && QueueOk(l, rest)
      modifies this
      ensures Valid() && mem == old(mem) && lists == old(lists)[i := l] && qs == old(qs)[i := rest]
    {
      assert Queue(i) && InMemory(mem, qs[i]);
      GiveChain(next, cfreelist, free, qs, low, high, i, b, rest);
      RestInMemory(mem, b, rest);
      next := next[b := cfreelist];
      cfreelist := b;
      free := [b] + free;
      lists := lists[i := l];
      qs := qs[i := rest];
      forall j | 0 <= j < |lists| && j != i
        ensures Queue(j)
      {
        assert old(Queue(j));
      }
    }

    /** getc: the oldest character of queue i, or -1 when there is none; no other queue changes. */
    method Getc(i: int) returns (ret: int)
      requires Valid() && 0 <= i < |lists|
      modifies this
      ensures Valid() && |lists| == old(|lists|)
      ensures if old(Chars(i)) == [] then ret == -1 && Chars(i) == [] else old(Chars(i)) == [ret] + Chars(i)
      ensures forall j :: 0 <= j < |lists| && j != i ==> Chars(j) == old(Chars(j))
    {
      assert Queue(i);
      var l := lists[i];
      ghost var bs := qs[i];
      GotSeen(l, bs);
      if l.cf == 0 {
        assert bs == [];
        lists := lists[i := l.(cl := 0)];
        assert lists == old(lists);
        return -1;
      }
      GotFirst(mem, l, bs);
      ret := mem[l.cf];
      Advance(i);
    }

    /** Only the list head changes. */
    method SetList(i: int, l: Clist)
      requires Valid() && 0 <= i < |lists| && QueueOk(l, qs[i])
      modifies this`lists
      ensures Valid() && lists == old(lists)[i := l]
    {
      assert Queue(i);
      lists := lists[i := l];
      forall j | 0 <= j < |lists|
        ensures Queue(j)
      {
        assert j != i ==> old(Queue(j));
      }
    }

    /** putc: the character joins queue i, or -1 when the pool is needed and empty, and then nothing changes; no other
        queue changes either way. */
    method Putc(c: int, i: int) returns (r: int)
      requires Valid() && 0 <= i < |lists|
      modifies this
      ensures Valid() && |lists| == old(|lists|) && (r == 0 || r == -1)
      ensures r == 0 ==> Chars(i) == old(Chars(i)) + [c] && forall j :: 0 <= j < |lists| && j != i ==>
          Chars(j) == old(Chars(j))
      ensures r == -1 <==> old(cfreelist) == -1 && old(Needs(lists[i]))
      ensures r == -1 ==> next == old(next) && mem == old(mem) && cfreelist == old(cfreelist) && lists == old(lists)
    {
      assert Queue(i);
      var l := lists[i];
      PutSeen(l, qs[i]);
      var b := -1;
      if l.cl == 0 || l.cl % 8 == 0 {
        if cfreelist == -1 {
          return -1;
        }
        b := Take(i, l);
        l := l.(cl := 8 * b + 2, cf := if l.cl == 0 then 8 * b + 2 else l.cf);
      }
      Store(c, i, l, b, old(qs)[i]);
      r := 0;
    }

    /** Everything is in order except that queue i has a block, or room in one, that its list head does not show yet. */
    ghost predicate ValidBut(i: int)
      reads this
    {
      && 0 < low && high < |next| && |mem| == 8 * |next| && |lists| == |qs| && 0 <= i < |lists|
      && Chained(next, cfreelist, free, qs) && Partition(free, qs, low, high)
      && forall j :: 0 <= j < |lists| && j != i ==> Queue(j)
    }

    /** The first block of the pool is linked to the end of queue i. */
    method Take(i: int, l: Clist) returns (b: int)
      requires Valid() && 0 <= i < |lists| && cfreelist != -1 && l == lists[i] && Needs(l)
      modifies this`next, this`cfreelist, this`free, this`qs
      ensures ValidBut(i) && low <= b <= high && b !in old(qs)[i] && qs == old(qs)[i := old(qs)[i] + [b]]
    {
      assert Queue(i);
      PutSeen(l, qs[i]);
      TakeChain(next, cfreelist, free, qs, low, high, i);
      b := cfreelist;
      cfreelist := next[b];
      if l.cl == 0 {
        next := next[b := -1];
      } else {
        next := next[b := -1];
        next := next[(l.cl - 8) / 8 := b];
      }
      free := free[1..];
      qs := qs[i := qs[i] + [b]];
      forall j | 0 <= j < |lists| && j != i
        ensures Queue(j)
      {
        assert old(Queue(j));
      }
    }

    /** The rest of putc. */
    method Store(c: int, i: int, l: Clist, ghost b: int, ghost bs: seq<int>)
      requires ValidBut(i) && NoDup(bs) && QueueOk(lists[i], bs) && InMemory(mem, bs) && qs[i] == Put(lists[i], bs, b).1
      requires Needs(lists[i]) ==> low <= b <= high && b !in bs
      requires Put(lists[i], bs, b).0 == Clist(l.cc + 1, l.cf, l.cl + 1)
      modifies this`mem, this`lists
      ensures Valid() && |lists| == old(|lists|)
      ensures Chars(i) == Contents(old(mem), old(lists[i]), bs) + [c]
      ensures forall j :: 0 <= j < |lists| && j != i ==>
          old(Queue(j)) && Chars(j) == Contents(old(mem), old(lists[j]), qs[j])
    {
      PutLast(mem, lists[i], bs, b, c);
      ghost var a := l.cl;
      assert a / 8 in qs[i];
      mem := mem[l.cl := c];
      lists := lists[i := Clist(l.cc + 1, l.cf, l.cl + 1)];
      forall j | 0 <= j < |lists| && j != i
        ensures Queue(j) && Contents(mem, lists[j], qs[j]) == Contents(old(mem), old(lists[j]), qs[j])
      {
        assert old(Queue(j));
        StoreApart(old(mem), free, qs, low, high, i, j, lists[j], a, c);
      }
    }

    /** The rest of getc: the list head moves on, and a block that is finished goes back to the pool. */
    method Advance(i: int)
      requires Valid() && 0 <= i < |lists| && qs[i] != [] && QueueOk(lists[i], qs[i])
      modifies this
      ensures Valid() && mem == old(mem)
      ensures lists == old(lists)[i := Got(old(lists[i]), old(qs[i])).0]
          && qs == old(qs)[i := Got(old(lists[i]), old(qs[i])).1]
    {
      assert Queue(i);
      var l := lists[i];
      ghost var bs := qs[i];
      GotIs(l, bs);
      var b := l.cf / 8;
      l := l.(cf := l.cf + 1, cc := l.cc - 1);
      if l.cc == 0 {
        Give(i, b, [], Clist(0, 0, 0));
      } else if l.cf % 8 == 0 {
        assert next[bs[0]] == Follower(bs, 0);
        Give(i, b, bs[1..], l.(cf := 8 * next[b] + 2));
      } else {
        SetList(i, l);
        assert qs == old(qs)[i := bs];
      }
    }
  }

  lemma {:induction false} NoQueues(qs: seq<seq<int>>)
    requires forall i :: 0 <= i < |qs| ==> qs[i] == []
    ensures forall b :: QueueCount(qs, b) == 0
  {
    if qs != [] {
      NoQueues(qs[1..]);
    }
  }
}
