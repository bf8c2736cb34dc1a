/** The order in which itrunc frees the blocks of a file: the last first. */
module FileOrder {
  import opened FreeList
  import opened FileTree

  /** Some y comes before some x. */
  ghost predicate Precedes(s: seq<int>, y: int, x: int) { exists p, q :: 0 <= p < q < |s| && s[p] == y && s[q] == x }

  lemma InBoth(a: seq<int>, b: seq<int>, y: int, x: int)
    requires y in a && x in b
    ensures Precedes(a + b, y, x)
  {
    var p :| 0 <= p < |a| && a[p] == y;
    var q :| 0 <= q < |b| && b[q] == x;
    assert (a + b)[p] == y && (a + b)[|a| + q] == x;
  }

  lemma InFirst(a: seq<int>, b: seq<int>, y: int, x: int)
    requires Precedes(a, y, x)
    ensures Precedes(a + b, y, x)
  {
    var p, q :| 0 <= p < q < |a| && a[p] == y && a[q] == x;
    assert (a + b)[p] == y && (a + b)[q] == x;
  }

  lemma InSecond(a: seq<int>, b: seq<int>, y: int, x: int)
    requires Precedes(b, y, x)
    ensures Precedes(a + b, y, x)
  {
    var p, q :| 0 <= p < q < |b| && b[p] == y && b[q] == x;
    assert (a + b)[|a| + p] == y && (a + b)[|a| + q] == x;
  }

  /* ---------------------------------------------------------------- families */

  lemma {:induction false} MemberIn(g: Family, n: nat, i: nat, x: int)
    requires i < n && x in Member(g, i)
    ensures x in Cat(g, n)
  {
    if i < n - 1 { MemberIn(g, n - 1, i, x); }
  }

  /** What a later member leads to comes first. */
  lemma {:induction false} LaterFirst(g: Family, n: nat, i: nat, j: nat, y: int, x: int)
    requires i < j < n && y in Member(g, j) && x in Member(g, i)
    ensures Precedes(Cat(g, n), y, x)
  {
    if j == n - 1 {
      MemberIn(g, n - 1, i, x);
      InBoth(Member(g, j), Cat(g, n - 1), y, x);
    } else {
      LaterFirst(g, n - 1, i, j, y, x);
      InSecond(Member(g, n - 1), Cat(g, n - 1), y, x);
    }
  }

  /** The order within a member is kept. */
  lemma {:induction false} SameMember(g: Family, n: nat, i: nat, y: int, x: int)
    requires i < n && Precedes(Member(g, i), y, x)
    ensures Precedes(Cat(g, n), y, x)
  {
    if i == n - 1 {
      InFirst(Member(g, i), Cat(g, n - 1), y, x);
    } else {
      SameMember(g, n - 1, i, y, x);
      InSecond(Member(g, n - 1), Cat(g, n - 1), y, x);
    }
  }

  /* ---------------------------------------------------------------- one indirect block */

  lemma WordIn(store: Store, a: int, j: nat)
    requires a != 0 && j < WORDS && Entry(store, a, j) != 0
    ensures Entry(store, a, j) in Node(store, a)
  {
    MemberIn(Leaves(Words(store, a)), WORDS + 1, j, Entry(store, a, j));
  }

  lemma WordsBackward(store: Store, a: int, j: nat, j': nat)
    requires a != 0 && j < j' < WORDS && Entry(store, a, j) != 0 && Entry(store, a, j') != 0
    ensures Precedes(Node(store, a), Entry(store, a, j'), Entry(store, a, j))
  {
    LaterFirst(Leaves(Words(store, a)), WORDS + 1, j, j', Entry(store, a, j'), Entry(store, a, j));
    InFirst(Rev(Words(store, a)), [a], Entry(store, a, j'), Entry(store, a, j));
  }

  /* ---------------------------------------------------------------- the doubly indirect block */

  lemma SecondIn(store: Store, a: int, k: nat, j: nat)
    requires a != 0 && k < WORDS && j < WORDS && Entry(store, Entry(store, a, k), j) != 0 && Entry(store, a, k) != 0
    ensures Entry(store, Entry(store, a, k), j) in Slot(store, a, true, 7)
  {
    WordIn(store, Entry(store, a, k), j);
    MemberIn(Nodes(store, Words(store, a)), WORDS + 1, k, Entry(store, Entry(store, a, k), j));
  }

  lemma SecondBackward(store: Store, a: int, k: nat, j: nat, k': nat, j': nat)
    requires a != 0 && k < WORDS && k' < WORDS && j < WORDS && j' < WORDS && (k < k' || (k == k' && j < j'))
    requires Entry(store, a, k) != 0 && Entry(store, a, k') != 0
    requires Entry(store, Entry(store, a, k), j) != 0 && Entry(store, Entry(store, a, k'), j') != 0
    ensures Precedes(Slot(store, a, true, 7), Entry(store, Entry(store, a, k'), j'),
        Entry(store, Entry(store, a, k), j))
  {
    var g, x, y := Nodes(store, Words(store, a)), Entry(store, Entry(store, a, k), j),
        Entry(store, Entry(store, a, k'), j');
    WordIn(store, Entry(store, a, k), j);
    WordIn(store, Entry(store, a, k'), j');
    if k < k' {
      LaterFirst(g, WORDS + 1, k, k', y, x);
    } else {
      WordsBackward(store, Entry(store, a, k), j, j');
      SameMember(g, WORDS + 1, k, y, x);
    }
    InFirst(Dbl(store, Words(store, a)), [a], y, x);
  }

  /* ---------------------------------------------------------------- the file */

  function SlotNumber(ino: Ino, bn: nat): nat { if !ino.large then bn else if bn / 256 < 7 then bn / 256 else 7 }

  lemma DataInSlot(ino: Ino, store: Store, bn: int)
    requires IsBn(bn) && Lookup(ino, store, bn) != 0
    ensures SlotNumber(ino, bn) < 8
    ensures Lookup(ino, store, bn) in Member(Slots(ino, store), SlotNumber(ino, bn))
  {
    if ino.large {
      var a := At(ino.addr, SlotNumber(ino, bn));
      if bn / 256 < 7 { WordIn(store, a, bn % 256); } else { SecondIn(store, a, bn / 256 - 7, bn % 256); }
    }
  }

  lemma BackwardInSlot(ino: Ino, store: Store, bn: int, bn': int)
    requires IsBn(bn) && IsBn(bn') && bn < bn' && ino.large && SlotNumber(ino, bn) == SlotNumber(ino, bn')
    requires Lookup(ino, store, bn) != 0 && Lookup(ino, store, bn') != 0
    ensures Precedes(Member(Slots(ino, store), SlotNumber(ino, bn)), Lookup(ino, store, bn'), Lookup(ino, store, bn))
  {
    var a := At(ino.addr, SlotNumber(ino, bn));
    if bn / 256 < 7 {
      assert bn / 256 == bn' / 256 && bn % 256 < bn' % 256;
      WordsBackward(store, a, bn % 256, bn' % 256);
      assert Member(Slots(ino, store), SlotNumber(ino, bn)) == Node(store, a);
    } else {
      SecondBackward(store, a, bn / 256 - 7, bn % 256, bn' / 256 - 7, bn' % 256);
    }
  }

  /** itrunc frees the data blocks of a file from the last to the first, so that they are taken again from the first
      on. */
  lemma LastBlocksFirst(ino: Ino, store: Store, bn: int, bn': int)
    requires IsBn(bn) && IsBn(bn') && bn < bn'
    requires Lookup(ino, store, bn) != 0 && Lookup(ino, store, bn') != 0
    ensures Precedes(Blocks(ino, store), Lookup(ino, store, bn'), Lookup(ino, store, bn))
  {
    DataInSlot(ino, store, bn);
    DataInSlot(ino, store, bn');
    var i, j := SlotNumber(ino, bn), SlotNumber(ino, bn');
    if i < j {
      LaterFirst(Slots(ino, store), NADDR, i, j, Lookup(ino, store, bn'), Lookup(ino, store, bn));
    } else {
      BackwardInSlot(ino, store, bn, bn');
      SameMember(Slots(ino, store), NADDR, i, Lookup(ino, store, bn'), Lookup(ino, store, bn));
    }
  }
}
