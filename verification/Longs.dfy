/** Numbers in two words, as the kernel keeps times and file offsets. */
module Longs {

  const WORD := 0x1_0000
  const LONG := 0x1_0000_0000
  const HALF := 0x8000_0000

  /** The high word and the low word. */
  datatype Two = Two(hi: int, lo: int)

  predicate IsTwo(x: Two) { 0 <= x.hi < WORD && 0 <= x.lo < WORD }

  function Value(x: Two): int { WORD * x.hi + x.lo }

  function Split(v: int): Two { Two(v / WORD, v % WORD) }

  const MAXINT := 0x7FFF

  /** A word read as an int. */
  function Int(w: int): int { if w <= MAXINT then w else w - WORD }

  function Min(a: int, b: int): int { if a < b then a else b }

  /** The kernel's min compares ints.  Of a count and the room there is it takes a part of the count if and only if the
      count is an int; otherwise it takes the count itself, which is then negative. */
  lemma MinOfCount(count: int, room: int)
    requires 0 <= count < WORD && 0 < room <= MAXINT
    ensures 0 <= Min(Int(count), room) <= room && Min(Int(count), room) == Min(count, room) <==> count <= MAXINT
    ensures count > MAXINT ==> Min(Int(count), room) == count - WORD < 0
  {
  }

  /** How far x is ahead of y, going round. */
  function Ahead(x: int, y: int): int { if x >= y then x - y else x - y + LONG }

  /** A 32-bit difference read as signed. */
  function Signed(m: int): int { if m < HALF then m else m - LONG }

  /** dpcmp: the signed difference, clipped to a word. */
  function Dpcmp(x: Two, y: Two): (d: int)
    requires IsTwo(x) && IsTwo(y)
    ensures d > 0 <==> 0 < Ahead(Value(x), Value(y)) < HALF
    ensures d <= 0 <==> Ahead(Value(x), Value(y)) == 0 || Ahead(Value(x), Value(y)) >= HALF
  {
    var diff := Signed(Ahead(Value(x), Value(y)));
    if diff > 512 then 512 else if diff < -512 then -512 else diff
  }

  /** dpadd: a word added as unsigned. */
  function Dpadd(x: Two, n: int): (r: Two)
    requires IsTwo(x) && 0 <= n < WORD
    ensures IsTwo(r) && Ahead(Value(r), Value(x)) == n
  {
    var v := Value(x) + n;
    Split(if v >= LONG then v - LONG else v)
  }

  /** The carry from the low word into the high one. */
  function Next(x: Two): (r: Two)
    requires IsTwo(x)
    ensures IsTwo(r) && Ahead(Value(r), Value(x)) == 1
  {
    var lo := (x.lo + 1) % WORD;
    Two(if lo == 0 then (x.hi + 1) % WORD else x.hi, lo)
  }
}
