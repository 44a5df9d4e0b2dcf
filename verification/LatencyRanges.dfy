/**
 The measured ranges of configs/dram/lat_mem_rd.py: sizes that grow by a step which doubles at
 every power of two.
 */
module LatencyRanges {
  import opened BitOps

  /** The bit test: not zero, and no bit is left without the lowest one. */
  predicate IsPow2(num: int) { num != 0 && And(num, num - 1) == 0 }

  lemma {:induction false} AndSelf(x: nat)
    ensures And(x, x) == x
  {
    if x > 0 {
      AndSelf(x / 2);
      AndStep(x, x);
    }
  }

  /** The bit test holds for powers of two only. */
  lemma {:induction false} IsPow2Means(num: nat)
    requires IsPow2(num)
    ensures exists k: nat :: num == Pow2(k)
  {
    AndStep(num, num - 1);
    if num % 2 == 0 {
      hide And;
      assert num / 2 - 1 == (num - 1) / 2;
      IsPow2Means(num / 2);
      var k: nat :| num / 2 == Pow2(k);
      assert num == Pow2(k + 1);
    } else {
      AndSelf(num / 2);
      assert num == Pow2(0);
    }
  }

  lemma {:induction false} PowersAreIsPow2(k: nat)
    ensures IsPow2(Pow2(k))
  {
    if k > 0 {
      PowersAreIsPow2(k - 1);
      var p := Pow2(k - 1);
      assert Pow2(k) == 2 * p && And(p, p - 1) == 0;
      AndStep(2 * p, 2 * p - 1);
      hide And, Pow2;
      assert (2 * p) / 2 == p && (2 * p - 1) / 2 == p - 1 && (2 * p) % 2 == 0;
    }
  }

  /** `4 + r` times a power of two, for the four values of `r`. */
  function Range(q: nat, r: nat): int { (4 + r) * 1024 * Pow2(q) }

  lemma KiloIsPower(q: nat)
    ensures 1024 * Pow2(q) == Pow2(q + 10) && 4 * Pow2(q + 10) == Pow2(q + 12) && 8 * Pow2(q + 10) == Pow2(q + 13)
  {
    PowAdds(10, q);
    assert Pow2(5) == 32 && Pow2(10) == 32 * 32 by { PowAdds(5, 5); }
    assert Pow2(q + 11) == 2 * Pow2(q + 10) && Pow2(q + 12) == 2 * Pow2(q + 11);
  }

  lemma BetweenPowers(x: int, k: nat)
    requires Pow2(k) < x < Pow2(k + 1)
    ensures !IsPow2(x)
  {
    if IsPow2(x) {
      IsPow2Means(x);
      var j: nat :| x == Pow2(j);
      if j <= k { PowMonotone(j, k); } else { PowMonotone(k + 1, j); }
    }
  }

  /** Only the first of four ranges is a power of two. */
  lemma RangeIsPow2Iff(q: nat, r: nat)
    requires r <= 3
    ensures IsPow2(Range(q, r)) <==> r == 0
  {
    KiloIsPower(q);
    var p := Pow2(q + 10);
    assert Range(q, r) == (4 + r) * p;
    hide *;
    if r == 0 {
      PowersAreIsPow2(q + 12);
    } else {
      BetweenPowers(Range(q, r), q + 12);
    }
  }

  /** The range and the step at index `i`. */
  function RangeAt(i: nat): int { Range(i / 4, i % 4) }

  function StepAt(i: nat): int { StepOf(i / 4) }

  lemma NextRange(i: nat)
    ensures RangeAt(i + 1) == RangeAt(i) + StepAt(i) && StepAt(i) >= 1024
    ensures StepAt(i + 1) == if IsPow2(RangeAt(i + 1)) then 2 * StepAt(i) else StepAt(i)
  {
    hide *;
    var q, r := i / 4, i % 4;
    NextIndex(i);
    RangeAtIs(i);
    RangeAtIs(i + 1);
    RangeStep(q, r);
    if r < 3 {
      RangeIsPow2Iff(q, r + 1);
    } else {
      RangeIsPow2Iff(q + 1, 0);
    }
  }

  lemma NextIndex(i: nat)
    ensures (i + 1) / 4 == (if i % 4 < 3 then i / 4 else i / 4 + 1) && (i + 1) % 4 == if i % 4 < 3 then i % 4 + 1 else 0
  {
  }

  lemma RangeAtIs(i: nat)
    ensures RangeAt(i) == Range(i / 4, i % 4) && StepAt(i) == StepOf(i / 4)
  {
  }

  function StepOf(q: nat): int { 1024 * Pow2(q) }

  lemma RangeStep(q: nat, r: nat)
    ensures Range(q, r + 1) == Range(q, r) + StepOf(q) && Range(q + 1, 0) == Range(q, 3) + StepOf(q)
    ensures StepOf(q) >= 1024 && StepOf(q + 1) == 2 * StepOf(q)
  {
    var p := Pow2(q);
    assert Pow2(q + 1) == 2 * p;
    hide Pow2;
    assert (4 + (r + 1)) * 1024 * p == (4 + r) * 1024 * p + 1024 * p;
  }

  lemma FirstRange()
    ensures RangeAt(0) == 4096 && StepAt(0) == 1024
  {
  }

  /** The ranges have a closed form, and only the last one reaches the maximum. */
  method Ranges(maxRange: int) returns (ranges: seq<int>)
    ensures |ranges| >= 1 && forall i :: 0 <= i < |ranges| ==> ranges[i] == RangeAt(i)
    ensures ranges[|ranges| - 1] >= maxRange
    ensures forall i :: 0 <= i < |ranges| - 1 ==> ranges[i] < maxRange
  {
    hide *;
    FirstRange();
    ranges := [4096];
    var step := 1024;
    while ranges[|ranges| - 1] < maxRange
      invariant |ranges| >= 1 && step == StepAt(|ranges| - 1)
      invariant forall i :: 0 <= i < |ranges| ==> ranges[i] == RangeAt(i)
      invariant forall i :: 0 <= i < |ranges| - 1 ==> ranges[i] < maxRange
      decreases maxRange - ranges[|ranges| - 1]
    {
      NextRange(|ranges| - 1);
      var next := ranges[|ranges| - 1] + step;
      if IsPow2(next) {
        step := step * 2;
      }
      ranges := ranges + [next];
    }
  }
}
