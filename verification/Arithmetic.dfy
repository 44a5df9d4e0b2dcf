/** Numbers of 64 bits, and a fact about multiples. */
module Arithmetic {
  const W := 0x1_0000_0000_0000_0000

  type word = x: int | 0 <= x < W

  lemma MultipleBound(d: int, m: int)
    requires m > 0
    ensures d >= 1 ==> d * m >= m
    ensures d <= -1 ==> d * m <= -m
  {
  }
}
