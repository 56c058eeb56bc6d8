/** Sequence numbers that wrap, and the windowed comparison all receive queues rely on. */
module SequenceNumbers {
  type U8 = x: int | 0 <= x < 0x100
  type U16 = x: int | 0 <= x < 0x1_0000
  type U24 = x: int | 0 <= x < 0x100_0000
  type U32 = x: int | 0 <= x < 0x1_0000_0000

  /** x modulo 2^16, written out for the range that sums and differences of two numbers have. */
  function Wrap16(x: int): U16 {
    if 0 <= x < 0x1_0000 then x
    else if -0x1_0000 <= x < 0 then x + 0x1_0000
    else if 0x1_0000 <= x < 0x2_0000 then x - 0x1_0000
    else x % 0x1_0000
  }

  lemma Wrap16IsModulo(x: int)
    ensures Wrap16(x) == x % 0x1_0000
  {}

  function Wrap24(x: int): U24 { x % 0x100_0000 }

  function Wrap32(x: int): U32 { x % 0x1_0000_0000 }

  predicate IsBefore16(x: int, y: int) { Wrap16(x - y) > 0x7FFF }

  predicate IsBefore24(x: int, y: int) { Wrap24(x - y) > 0x7F_FFFF }

  predicate IsBefore32(x: int, y: int) { Wrap32(x - y) > 0x7FFF_FFFF }

  /** "Before" means at most half the circle behind; at exactly half, each number is before the other. */
  lemma BeforeMeansBehind(x: U16, y: U16)
    ensures IsBefore16(x, y) <==> 1 <= Wrap16(y - x) <= 0x8000
    ensures IsBefore16(x, y) && IsBefore16(y, x) <==> Wrap16(y - x) == 0x8000
    ensures x == y || IsBefore16(x, y) || IsBefore16(y, x)
  {}

  /** Inside the half circle above any origin the comparison is the comparison of the distances. */
  lemma BeforeInWindow(origin: U16, x: U16, y: U16)
    requires Wrap16(x - origin) < 0x8000 && Wrap16(y - origin) < 0x8000
    ensures IsBefore16(x, y) <==> Wrap16(x - origin) < Wrap16(y - origin)
  {}

  lemma DistanceInjective(origin: U16, x: U16, y: U16)
    ensures Wrap16(x - origin) == Wrap16(y - origin) <==> x == y
  {}
}
