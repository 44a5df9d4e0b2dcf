/** The bitwise operators of unbounded two's complement integers, bit by bit. */
module BitOps {
  type byte = x: int | 0 <= x < 256

  function Pow2(k: nat): (p: int)
    ensures p >= 1
  {
    if k == 0 then 1 else 2 * Pow2(k - 1)
  }

  function Abs(a: int): nat { if a < 0 then -a else a }

  function Not(a: int): int { -a - 1 }

  function And(a: int, b: int): int
    decreases Abs(a) + Abs(b)
  {
    if a == 0 || b == 0 then 0
    else if a == -1 then b
    else if b == -1 then a
    else 2 * And(a / 2, b / 2) + if a % 2 == 1 && b % 2 == 1 then 1 else 0
  }

  function Or(a: int, b: int): int
    decreases Abs(a) + Abs(b)
  {
    if a == 0 then b
    else if b == 0 then a
    else if a == -1 || b == -1 then -1
    else 2 * Or(a / 2, b / 2) + if a % 2 == 1 || b % 2 == 1 then 1 else 0
  }

  function ShiftLeft(a: int, k: nat): int { a * Pow2(k) }

  function ShiftRight(a: int, k: nat): int { a / Pow2(k) }

  lemma MulDiff(a: int, b: int, p: int)
    requires p >= 1 && a > b
    ensures a * p >= b * p + p
  {
    assert (a - b) * p == a * p - b * p;
    assert (a - b - 1) * p >= 0;
  }

  lemma DivModUnique(x: int, p: int, q: int, r: int)
    requires p >= 1 && 0 <= r < p && x == q * p + r
    ensures x / p == q && x % p == r
  {
    var q', r' := x / p, x % p;
    assert x == q' * p + r' && 0 <= r' < p;
    if q > q' {
      MulDiff(q, q', p);
    } else if q < q' {
      MulDiff(q', q, p);
    }
  }

  /** One bit of a remainder modulo a power of two. */
  lemma ModStep(x: int, k: nat)
    requires k >= 1
    ensures x % Pow2(k) == 2 * ((x / 2) % Pow2(k - 1)) + x % 2
  {
    var p := Pow2(k - 1);
    var q, r := (x / 2) / p, (x / 2) % p;
    assert x / 2 == q * p + r;
    assert x == q * (2 * p) + (2 * r + x % 2);
    DivModUnique(x, 2 * p, q, 2 * r + x % 2);
  }

  /** The operators work on every bit alike. */
  lemma AndStep(a: int, b: int)
    ensures And(a, b) == 2 * And(a / 2, b / 2) + if a % 2 == 1 && b % 2 == 1 then 1 else 0
  {
  }

  lemma OrStep(a: int, b: int)
    ensures Or(a, b) == 2 * Or(a / 2, b / 2) + if a % 2 == 1 || b % 2 == 1 then 1 else 0
  {
  }

  /** Masking the low bits is the remainder. */
  lemma {:induction false} AndMask(x: int, k: nat)
    ensures And(x, Pow2(k) - 1) == x % Pow2(k)
    decreases k
  {
    if k > 0 {
      ModStep(x, k);
      AndMask(x / 2, k - 1);
      var p := Pow2(k - 1);
      assert Pow2(k) == 2 * p;
      hide *;
      AndStep(x, 2 * p - 1);
      assert (2 * p - 1) / 2 == p - 1 && (2 * p - 1) % 2 == 1;
    }
  }

  /** Setting bits above a small number is addition. */
  lemma {:induction false} OrDisjoint(a: int, x: int, k: nat)
    requires 0 <= a < Pow2(k) && x >= 0
    ensures Or(a, ShiftLeft(x, k)) == a + ShiftLeft(x, k)
    decreases k
  {
    if k > 0 {
      var y := ShiftLeft(x, k - 1);
      assert ShiftLeft(x, k) == 2 * y;
      OrDisjoint(a / 2, x, k - 1);
      hide *;
      OrStep(a, 2 * y);
    }
  }

  /** Setting all the high bits. */
  lemma {:induction false} OrHighBits(x: int, k: nat)
    ensures Or(x, Not(Pow2(k) - 1)) == x % Pow2(k) - Pow2(k)
    decreases k
  {
    if k == 0 {
      assert x % 1 == 0;
    } else {
      ModStep(x, k);
      OrHighBits(x / 2, k - 1);
      var p := Pow2(k - 1);
      assert Pow2(k) == 2 * p && Not(Pow2(k) - 1) == -2 * p && Not(p - 1) == -p;
      hide *;
      OrStep(x, -2 * p);
      assert (-2 * p) / 2 == -p && (-2 * p) % 2 == 0;
    }
  }

  lemma {:induction false} PowAdds(a: nat, b: nat)
    ensures Pow2(a + b) == Pow2(a) * Pow2(b)
  {
    if a > 0 { PowAdds(a - 1, b); }
  }

  lemma {:induction false} PowMonotone(a: nat, b: nat)
    requires a <= b
    ensures Pow2(a) <= Pow2(b)
  {
    if a < b { PowMonotone(a, b - 1); }
  }
}
