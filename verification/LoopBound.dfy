/**
 Loop bound inference of src/cpu/o3/pre.cc (`DVRLoopBoundDetector::infer`): from two snapshots of
 the registers, how many more times the loop's back edge is taken. Registers are 64 bits wide.
 */
module LoopBound {
  import opened Wrappers
  import opened Arithmetic

  const H := 0x8000_0000_0000_0000

  datatype Comparison = Unknown | Equal | NotEqual | SignedLess | SignedGreaterEqual | UnsignedLess | UnsignedGreaterEqual

  datatype Detector = Detector(
    seenBranch: bool, earlyExitSeen: bool, source0: int, source1: int, comparison: Comparison,
    branchValue0: word, branchValue1: word, branchValuesValid: bool)

  /** One source register stays at `bound`, the other one moved from `start` to `current`. */
  datatype Induction = Induction(start: word, current: word, bound: word, first: bool) {
    /** The step the register really makes. */
    function Delta(): int { current - start }

    /** The same as a signed 64-bit number. */
    function Real(): int { if Delta() >= H then Delta() - W else if Delta() < -H then Delta() + W else Delta() }

    /** The increment the inference assumes. */
    function Inc(): int { SignedDelta(current, start) }
  }

  datatype Inference = Inference(matched: bool, fallback: bool, bound: word, increment: int, remaining: word, lanes: nat)

  function Wrap(x: int): word { x % W }

  function Signed(x: word): int { if x < H then x else x - W }

  // ----- the inference -----

  /** `signedDelta`, which saturates. */
  function SignedDelta(finish: word, start: word): int {
    if finish >= start then
      if finish - start > H - 1 then H - 1 else finish - start
    else if start - finish > H - 1 then -H
    else -(start - finish)
  }

  function FindInduction(d: Detector, start0: word, start1: word, finish0: word, finish1: word): Option<Induction> {
    if start0 == finish0 && start1 != finish1 then
      Some(Induction(start1, finish1, finish0, false))
    else if start1 == finish1 && start0 != finish0 then
      Some(Induction(start0, finish0, finish1, true))
    else if d.branchValuesValid && start0 == d.branchValue0 && start1 != d.branchValue1 then
      Some(Induction(start1, d.branchValue1, d.branchValue0, false))
    else if d.branchValuesValid && start1 == d.branchValue1 && start0 != d.branchValue0 then
      Some(Induction(start0, d.branchValue0, d.branchValue1, true))
    else None
  }

  function Step(increment: int): nat { if increment > 0 then increment else -increment }

  /** The switch over comparisons: the distance to the bound, or no match. */
  function FindDistance(c: Comparison, i: Induction): Option<word> {
    match c
    case SignedLess =>
      if i.Inc() <= 0 || Signed(i.current) >= Signed(i.bound) then None
      else Some(Wrap(Signed(i.bound) - Signed(i.current)))
    case UnsignedLess =>
      if i.Inc() <= 0 || i.current >= i.bound then None else Some(i.bound - i.current)
    case SignedGreaterEqual =>
      if i.Inc() >= 0 || Signed(i.current) < Signed(i.bound) then None
      else Some(Wrap(Wrap(Signed(i.current) - Signed(i.bound)) + 1))
    case UnsignedGreaterEqual =>
      if i.Inc() >= 0 || i.current < i.bound then None else Some(Wrap(i.current - i.bound + 1))
    case NotEqual =>
      if i.Inc() == 0 then None
      else if (if i.Inc() > 0 then i.current >= i.bound else i.current <= i.bound) then None
      else
        var distance := if i.Inc() > 0 then i.bound - i.current else i.current - i.bound;
        if distance % Step(i.Inc()) != 0 then None else Some(distance)
    case _ => None
  }

  /** The quotient, rounded up by adding all but one of the divisor, on 64-bit numbers. */
  function Remaining(distance: word, step: nat): word
    requires 1 <= step <= H
  {
    var n := Wrap(distance + step - 1);
    assert 0 <= n / step <= n;
    n / step
  }

  function Infer(d: Detector, start: seq<word>, finish: seq<word>, maxLanes: nat): (r: Inference)
    requires |start| == 32 && |finish| == 32
    ensures r.lanes <= maxLanes && (r.fallback <==> !r.matched)
    ensures r.fallback ==> r.bound == r.increment == r.remaining == 0 && r.lanes == if maxLanes < 128 then maxLanes else 128
  {
    var fallback := Inference(false, true, 0, 0, 0, if maxLanes < 128 then maxLanes else 128);
    if !d.seenBranch || d.earlyExitSeen || !(0 <= d.source0 < 32) || !(0 <= d.source1 < 32) then fallback
    else
      var induction := FindInduction(d, start[d.source0], start[d.source1], finish[d.source0], finish[d.source1]);
      if induction.None? then fallback
      else
        var i := induction.value;
        var distance := FindDistance(d.comparison, i);
        if distance.None? then fallback
        else
          var remaining := Remaining(distance.value, Step(i.Inc()));
          Inference(true, false, i.bound, i.Inc(), remaining, if remaining < maxLanes then remaining else maxLanes)
  }

  // ----- what the machine does -----

  /** The branch of the loop with these values in its two source registers. */
  predicate Taken(c: Comparison, v0: word, v1: word) {
    match c
    case SignedLess => Signed(v0) < Signed(v1)
    case SignedGreaterEqual => Signed(v0) >= Signed(v1)
    case UnsignedLess => v0 < v1
    case UnsignedGreaterEqual => v0 >= v1
    case NotEqual => v0 != v1
    case Equal => v0 == v1
    case Unknown => false
  }

  /** The moving register after `k` more iterations. */
  function Value(i: Induction, k: nat): word { Wrap(i.current + k * i.Delta()) }

  predicate TakenAfter(c: Comparison, i: Induction, k: nat) {
    if i.first then Taken(c, Value(i, k), i.bound) else Taken(c, i.bound, Value(i, k))
  }

  /** The back edge is taken exactly `n` more times. */
  ghost predicate IsTripCount(c: Comparison, i: Induction, n: nat) {
    !TakenAfter(c, i, n) && forall k: nat :: k < n ==> TakenAfter(c, i, k)
  }

  // ----- when the two agree -----

  predicate IsSigned(c: Comparison) { c == SignedLess || c == SignedGreaterEqual }

  predicate IsLess(c: Comparison) { c == SignedLess || c == UnsignedLess }

  /** A register as the comparison reads it, and the least number it can read. */
  function View(c: Comparison, x: word): int { if IsSigned(c) then Signed(x) else x }

  function Least(c: Comparison): int { if IsSigned(c) then -H else 0 }

  /** The distance as a number without bounds. */
  function Gap(c: Comparison, i: Induction): int {
    if IsLess(c) then View(c, i.bound) - View(c, i.current)
    else if c == NotEqual then if i.Inc() > 0 then i.bound - i.current else i.current - i.bound
    else View(c, i.current) - View(c, i.bound) + 1
  }

  /** Iterations until the bound is passed, rounded up. */
  function Steps(c: Comparison, i: Induction): int
    requires i.Inc() != 0
  {
    (Gap(c, i) + Step(i.Inc()) - 1) / Step(i.Inc())
  }

  /** Where the moving register ends up, were it not for 64 bits. */
  function Last(c: Comparison, i: Induction): int
    requires i.Inc() != 0
  {
    View(c, i.current) + Steps(c, i) * i.Inc()
  }

  /** The rounding sum does not fit in 64 bits. */
  predicate Overflows(c: Comparison, i: Induction) { Gap(c, i) + Step(i.Inc()) - 1 >= W }

  /** Neither the rounding sum nor the moving register leaves 64 bits. */
  predicate Fits(c: Comparison, i: Induction)
    requires i.Inc() != 0
  {
    !Overflows(c, i) && Least(c) <= Last(c, i) < Least(c) + W
  }

  lemma CeilingMeans(gap: int, step: int)
    requires gap >= 1 && step >= 1
    ensures var n := (gap + step - 1) / step; n >= 1 && (n - 1) * step < gap <= n * step
  {
    var n := (gap + step - 1) / step;
    var r := (gap + step - 1) % step;
    assert gap + step - 1 == step * n + r;
    assert step * n == n * step;
    assert (n - 1) * step == n * step - step;
    if n < 1 { NotPositive(n, step); }
  }

  lemma NotPositive(n: int, step: int)
    requires n <= 0 && step >= 1
    ensures n * step <= 0
  {
  }

  lemma Scale(a: int, b: int, step: int)
    requires a <= b && step >= 1
    ensures a * step <= b * step
  {
    assert (b - a) * step >= 0;
    assert (b - a) * step == b * step - a * step;
  }

  /** Reading a wrapped number. */
  lemma ViewOfWrap(c: Comparison, x: int)
    ensures Least(c) <= x < Least(c) + W ==> View(c, Wrap(x)) == x
    ensures Least(c) + W <= x < Least(c) + 2 * W ==> View(c, Wrap(x)) == x - W
    ensures Least(c) - W <= x < Least(c) ==> View(c, Wrap(x)) == x + W
  {
  }

  lemma WrapOfView(c: Comparison, x: word, delta: int)
    ensures Wrap(x + delta) == Wrap(View(c, x) + delta)
  {
  }

  ghost predicate Accepted(c: Comparison, i: Induction) {
    FindDistance(c, i).Some?
  }

  lemma WrapSmall(x: int)
    ensures 0 <= x < W ==> Wrap(x) == x
    ensures Wrap(W) == 0
  {
  }

  lemma DistanceIsGap(c: Comparison, i: Induction)
    requires Accepted(c, i)
    ensures 1 <= Gap(c, i) <= W && FindDistance(c, i).value == Wrap(Gap(c, i)) && i.Inc() != 0
  {
    var s, u := Signed(i.current) - Signed(i.bound), i.current - i.bound;
    WrapSmall(s);
    WrapSmall(-s);
    WrapSmall(s + 1);
    WrapSmall(u);
    WrapSmall(-u);
    hide Wrap;
  }

  /** The difference is a signed 64-bit number, so that the inference knows the real step. */
  predicate Plain(i: Induction) { -H <= i.Delta() < H }

  lemma PlainMeans(i: Induction)
    ensures Plain(i) <==> i.Inc() == i.Delta()
    ensures !Plain(i) ==> i.Inc() == if i.Delta() > 0 then H - 1 else -H
  {
  }

  ghost predicate Supported(c: Comparison) {
    c == NotEqual || IsLess(c) || c == SignedGreaterEqual || c == UnsignedGreaterEqual
  }

  lemma AcceptedMeans(c: Comparison, i: Induction)
    requires Accepted(c, i)
    ensures Supported(c) && 1 <= Step(i.Inc()) <= H && i.Inc() == if i.Inc() > 0 then Step(i.Inc()) else 0 - Step(i.Inc())
    ensures c != NotEqual ==> (IsLess(c) <==> i.Inc() > 0)
    ensures c == NotEqual ==> Gap(c, i) % Step(i.Inc()) == 0
    ensures var v, b := View(c, i.current), View(c, i.bound);
            && Least(c) <= v < Least(c) + W && Least(c) <= b < Least(c) + W
            && Gap(c, i) == if i.Inc() > 0 then b - v else if c == NotEqual then v - b else v - b + 1
  {
    hide Wrap;
  }

  lemma WrappedSum(gap: int, step: int)
    requires 1 <= gap <= W && 1 <= step <= H
    ensures var n := Wrap(Wrap(gap) + step - 1);
            n == if gap + step - 1 < W then gap + step - 1 else gap + step - 1 - W
  {
  }

  lemma RoundedUp(gap: int, step: int)
    requires 1 <= gap <= W && 1 <= step <= H
    ensures Remaining(Wrap(gap), step) == if gap + step - 1 >= W then 0 else (gap + step - 1) / step
  {
    WrappedSum(gap, step);
    var n := Wrap(Wrap(gap) + step - 1);
    assert Remaining(Wrap(gap), step) == n / step;
    hide *;
    if gap + step - 1 >= W { SmallQuotient(n, step); }
  }

  lemma SmallQuotient(x: int, step: int)
    requires 0 <= x < step
    ensures x / step == 0
  {
  }

  /** What is counted: the rounded quotient, unless the sum overflows, and then nothing. */
  lemma RemainingMeans(c: Comparison, i: Induction)
    requires Accepted(c, i)
    ensures i.Inc() != 0 && 1 <= Step(i.Inc()) <= H && Steps(c, i) >= 1
    ensures Remaining(FindDistance(c, i).value, Step(i.Inc())) == if Overflows(c, i) then 0 else Steps(c, i)
  {
    DistanceIsGap(c, i);
    AcceptedMeans(c, i);
    RoundedUp(Gap(c, i), Step(i.Inc()));
    CeilingMeans(Gap(c, i), Step(i.Inc()));
    hide Remaining, FindDistance, Gap, Step, Accepted;
  }

  /** The rounding sum overflows only for signed comparisons, when the step just changed the sign. */
  lemma OverflowChangesSign(c: Comparison, i: Induction)
    requires Accepted(c, i) && Overflows(c, i)
    ensures IsSigned(c) && (i.start < H <==> i.current >= H)
  {
    PlainMeans(i);
    AcceptedMeans(c, i);
    UnsignedView(c, i.current);
    UnsignedView(c, i.bound);
    if c == NotEqual && !Plain(i) { SaturatedRange(c, i); }
    hide View, FindDistance;
  }

  /** No lane is left of an accepted loop exactly when the rounding sum overflows. */
  lemma NoLaneIffOverflow(c: Comparison, i: Induction)
    requires Accepted(c, i)
    ensures i.Inc() != 0 && 1 <= Step(i.Inc()) <= H
    ensures Remaining(FindDistance(c, i).value, Step(i.Inc())) == 0 <==> Overflows(c, i)
  {
    RemainingMeans(c, i);
  }

  /** The branch decides on the views of its operands. */
  predicate Passes(c: Comparison, v: int, bound: int) {
    if c == NotEqual then v != bound else if IsLess(c) then v < bound else v >= bound
  }

  lemma TakenByView(c: Comparison, i: Induction, k: nat)
    requires (i.first || c == NotEqual) && Plain(i)
    requires Supported(c)
    ensures TakenAfter(c, i, k) <==> Passes(c, View(c, Wrap(View(c, i.current) + k * i.Inc())), View(c, i.bound))
  {
    PlainMeans(i);
    WrapOfView(c, i.current, k * i.Inc());
  }

  /** The arithmetic of both lemmas below, with `moved` for the way gone so far. */
  lemma PassesBefore(c: Comparison, v: int, bound: int, moved: nat, gap: int, up: bool)
    requires Least(c) <= v < Least(c) + W && Least(c) <= bound < Least(c) + W && 0 <= moved < gap
    requires c != NotEqual ==> (IsLess(c) <==> up)
    requires gap == if up then bound - v else if c == NotEqual then v - bound else v - bound + 1
    ensures var x := if up then v + moved else v - moved; Least(c) <= x < Least(c) + W && Passes(c, x, bound)
  {
  }

  lemma PassesAtEnd(c: Comparison, v: int, bound: int, moved: nat, gap: int, up: bool, step: int)
    requires Least(c) <= v < Least(c) + W && Least(c) <= bound < Least(c) + W && 1 <= step <= H
    requires moved - step < gap <= moved && 1 <= gap <= W && (c == NotEqual ==> moved == gap)
    requires c != NotEqual ==> (IsLess(c) <==> up)
    requires gap == if up then bound - v else if c == NotEqual then v - bound else v - bound + 1
    ensures var x := if up then v + moved else v - moved;
            Passes(c, View(c, Wrap(x)), bound) <==> !(Least(c) <= x < Least(c) + W)
  {
    var x := if up then v + moved else v - moved;
    ViewOfWrap(c, x);
    hide View, Wrap;
  }

  lemma SignedProduct(k: nat, step: int, increment: int)
    requires increment == if increment > 0 then step else -step
    ensures k * increment == if increment > 0 then k * step else -(k * step)
  {
    assert k * (-step) == -(k * step);
  }

  lemma BelowGap(gap: int, step: int, k: nat)
    requires gap >= 1 && step >= 1 && k < (gap + step - 1) / step
    ensures 0 <= k * step < gap
  {
    var n := (gap + step - 1) / step;
    CeilingMeans(gap, step);
    hide *;
    Scale(0, k, step);
    Scale(k, n - 1, step);
  }

  lemma AtGap(gap: int, step: int)
    requires gap >= 1 && step >= 1
    ensures var n := (gap + step - 1) / step;
            n >= 1 && n * step - step < gap <= n * step && (gap % step == 0 ==> n * step == gap)
  {
    var n := (gap + step - 1) / step;
    CeilingMeans(gap, step);
    if gap % step == 0 { Divides(gap, step); }
    OneLess(n, step);
  }

  lemma OneLess(n: int, step: int)
    ensures (n - 1) * step == n * step - step
  {
  }

  /** Before the bound is passed the branch is taken. */
  lemma TakenBefore(c: Comparison, i: Induction, k: nat)
    requires Accepted(c, i) && Plain(i) && i.Inc() != 0 && (i.first || c == NotEqual) && k < Steps(c, i)
    ensures TakenAfter(c, i, k)
  {
    hide *;
    AcceptedMeans(c, i);
    DistanceIsGap(c, i);
    StepsByGap(c, i);
    TakenByView(c, i, k);
    var v, gap, step, way := View(c, i.current), Gap(c, i), Step(i.Inc()), k * i.Inc();
    SignedProduct(k, step, i.Inc());
    BelowGap(gap, step, k);
    var moved := k * step;
    PassesBefore(c, v, View(c, i.bound), moved, gap, i.Inc() > 0);
    ViewOfWrap(c, v + way);
  }

  lemma LastIs(c: Comparison, i: Induction)
    requires i.Inc() != 0
    ensures Last(c, i) == View(c, i.current) + Steps(c, i) * i.Inc()
  {
    hide View, Steps;
  }

  /** At the rounded quotient the branch is not taken exactly when the register has not wrapped around. */
  lemma TakenAtSteps(c: Comparison, i: Induction)
    requires Accepted(c, i) && Plain(i) && i.Inc() != 0 && (i.first || c == NotEqual)
    ensures Steps(c, i) >= 1
    ensures TakenAfter(c, i, Steps(c, i)) <==> !(Least(c) <= Last(c, i) < Least(c) + W)
  {
    hide *;
    AcceptedMeans(c, i);
    DistanceIsGap(c, i);
    StepsByGap(c, i);
    LastIs(c, i);
    var v, gap, step, n := View(c, i.current), Gap(c, i), Step(i.Inc()), Steps(c, i);
    AtGap(gap, step);
    TakenByView(c, i, n);
    SignedProduct(n, step, i.Inc());
    var moved := n * step;
    PassesAtEnd(c, v, View(c, i.bound), moved, gap, i.Inc() > 0, step);
  }

  lemma Divides(gap: int, step: int)
    requires gap >= 1 && step >= 1 && gap % step == 0
    ensures ((gap + step - 1) / step) * step == gap
  {
    CeilingMeans(gap, step);
    var n, m := (gap + step - 1) / step, gap / step;
    assert gap == step * m && step * m == m * step;
    assert (m - 1) * step == m * step - step;
    if n < m { Scale(n, m - 1, step); }
    if n > m { Scale(m, n - 1, step); }
  }

  /** The moving register is the first operand, or the order does not matter, and its step is known. */
  lemma ForwardTripCountIff(c: Comparison, i: Induction)
    requires Accepted(c, i) && Plain(i) && (i.first || c == NotEqual)
    ensures i.Inc() != 0 && 1 <= Step(i.Inc()) <= H
    ensures IsTripCount(c, i, Remaining(FindDistance(c, i).value, Step(i.Inc()))) <==> Fits(c, i)
  {
    RemainingMeans(c, i);
    var n := Remaining(FindDistance(c, i).value, Step(i.Inc()));
    hide Remaining, FindDistance, Steps, Last, TakenAfter, Gap, Accepted, Plain, Overflows;
    TakenAtSteps(c, i);
    if n < Steps(c, i) {
      TakenBefore(c, i, n);
    } else {
      forall k: nat | k < n ensures TakenAfter(c, i, k) {
        TakenBefore(c, i, k);
      }
    }
  }

  // ----- the first three values -----

  /** A number at most one turn off, brought into range. */
  function Turned(c: Comparison, x: int): int {
    if x < Least(c) then x + W else if x >= Least(c) + W then x - W else x
  }

  function Multiple(k: nat, x: int): int { if k == 0 then 0 else if k == 1 then x else 2 * x }

  lemma MultipleMeans(k: nat, x: int)
    requires k <= 2
    ensures k * x == Multiple(k, x)
  {
    if k == 2 { assert k * x == 2 * x; }
  }

  lemma SameTurn(x: int, turns: int)
    requires -2 <= turns <= 2
    ensures Wrap(x + turns * W) == Wrap(x)
  {
  }

  lemma RealMeans(i: Induction) returns (turns: int)
    ensures -H <= i.Real() < H && -1 <= turns <= 1 && i.Delta() == i.Real() + turns * W
  {
    turns := if i.Delta() >= H then 1 else if i.Delta() < -H then -1 else 0;
  }

  lemma ViewRange(c: Comparison, x: word)
    ensures Least(c) <= View(c, x) < Least(c) + W
  {
  }

  lemma FirstValues(c: Comparison, i: Induction, k: nat)
    requires k <= 2
    ensures View(c, Value(i, k)) == Turned(c, View(c, i.current) + Multiple(k, i.Real()))
  {
    var v, d, r := View(c, i.current), i.Delta(), i.Real();
    var turns := RealMeans(i);
    ValueMeans(c, i, k);
    hide *;
    ViewRange(c, i.current);
    TurnsOut(k, d, r, turns);
    SameTurn(v + Multiple(k, r), Multiple(k, turns));
    ViewOfTurn(c, v + Multiple(k, r));
  }

  lemma ValueMeans(c: Comparison, i: Induction, k: nat)
    requires k <= 2
    ensures Value(i, k) == Wrap(View(c, i.current) + Multiple(k, i.Delta()))
  {
    MultipleMeans(k, i.Delta());
    WrapOfView(c, i.current, Multiple(k, i.Delta()));
    hide Wrap, View;
  }

  lemma TurnsOut(k: nat, d: int, r: int, turns: int)
    requires k <= 2 && d == r + turns * W && -1 <= turns <= 1 && -H <= r < H
    ensures Multiple(k, d) == Multiple(k, r) + Multiple(k, turns) * W && -2 <= Multiple(k, turns) <= 2 && -W <= Multiple(k, r) < W
  {
  }

  lemma ViewOfTurn(c: Comparison, x: int)
    requires Least(c) - W <= x < Least(c) + 2 * W
    ensures View(c, Wrap(x)) == Turned(c, x)
  {
    ViewOfWrap(c, x);
    hide View, Wrap;
  }

  /** The branch in the first three iterations. */
  lemma TakenEarly(c: Comparison, i: Induction, k: nat)
    requires k <= 2 && Supported(c)
    ensures var v, b := Turned(c, View(c, i.current) + Multiple(k, i.Real())), View(c, i.bound);
            TakenAfter(c, i, k) <==> if i.first || c == NotEqual then Passes(c, v, b) else Passes(c, b, v)
  {
    FirstValues(c, i, k);
    assert c == NotEqual ==> (Value(i, k) == i.bound <==> View(c, Value(i, k)) == View(c, i.bound));
    hide Value, Turned;
  }

  lemma ShortTrips(c: Comparison, i: Induction)
    ensures IsTripCount(c, i, 0) <==> !TakenAfter(c, i, 0)
    ensures IsTripCount(c, i, 1) <==> TakenAfter(c, i, 0) && !TakenAfter(c, i, 1)
    ensures IsTripCount(c, i, 2) <==> TakenAfter(c, i, 0) && TakenAfter(c, i, 1) && !TakenAfter(c, i, 2)
    ensures !TakenAfter(c, i, 0) ==> forall n: nat :: IsTripCount(c, i, n) <==> n == 0
  {
    hide TakenAfter;
  }

  lemma QuotientIs(x: int, step: int, q: int)
    requires step >= 1 && q * step <= x < q * step + step
    ensures x / step == q
  {
    var r := x - q * step;
    assert x == q * step + r;
    var q' := x / step;
    assert x == step * q' + x % step && step * q' == q' * step;
    assert (q' + 1) * step == q' * step + step && (q + 1) * step == q * step + step;
    if q' < q { Scale(q' + 1, q, step); }
    if q' > q { Scale(q + 1, q', step); }
  }

  // ----- the bound as first operand -----

  /** The register stands at the bound and moves away from the branch, or the rounding sum overflows. */
  predicate ExactSwapped(c: Comparison, i: Induction) {
    var v := View(c, i.current);
    if !IsLess(c) && i.current == i.bound then
      if i.Real() < 0 then v + i.Real() < Least(c) else v + i.Real() < Least(c) + W
    else Overflows(c, i)
  }

  /** The branch with the bound first, on the views. */
  lemma SwappedBranch(c: Comparison, v: int, b: int, r: int)
    requires Supported(c) && c != NotEqual && Least(c) <= v < Least(c) + W && Least(c) <= b < Least(c) + W && -H <= r < H && r != 0
    requires if IsLess(c) then v < b else v >= b
    ensures IsLess(c) || v != b ==> !Passes(c, b, Turned(c, v))
    ensures !IsLess(c) && v == b ==> Passes(c, b, Turned(c, v))
    ensures !IsLess(c) && v == b ==> (!Passes(c, b, Turned(c, v + r)) <==> if r < 0 then v + r < Least(c) else v + r < Least(c) + W)
  {
  }

  lemma SwappedTripCountIff(c: Comparison, i: Induction)
    requires Accepted(c, i) && c != NotEqual && !i.first
    ensures i.Inc() != 0 && 1 <= Step(i.Inc()) <= H
    ensures IsTripCount(c, i, Remaining(FindDistance(c, i).value, Step(i.Inc()))) <==> ExactSwapped(c, i)
  {
    RemainingMeans(c, i);
    AcceptedMeans(c, i);
    var v, b, r := View(c, i.current), View(c, i.bound), i.Real();
    var turns := RealMeans(i);
    AtBound(c, i);
    hide View, Gap, Step, Remaining, FindDistance, Steps, Accepted, Overflows, Wrap;
    assert r != 0 && (if IsLess(c) then v < b else v >= b);
    SwappedBranch(c, v, b, r);
    TakenEarly(c, i, 0);
    TakenEarly(c, i, 1);
    ShortTrips(c, i);
    hide IsTripCount, TakenAfter, Turned, Passes;
  }

  lemma AtBound(c: Comparison, i: Induction)
    requires Accepted(c, i)
    ensures i.current == i.bound <==> View(c, i.current) == View(c, i.bound)
    ensures c != NotEqual && i.current == i.bound ==> i.Inc() != 0 && Steps(c, i) == 1 && !Overflows(c, i)
    ensures i.Real() != 0 && (c == NotEqual || if IsLess(c) then View(c, i.current) < View(c, i.bound) else View(c, i.current) >= View(c, i.bound))
  {
    AcceptedMeans(c, i);
    if c != NotEqual && i.current == i.bound {
      var step := Step(i.Inc());
      assert Gap(c, i) == 1;
      QuotientIs(step, step, 1);
    }
  }

  // ----- differences that do not fit -----

  /** The assumed step is the largest one, the real one goes the other way: at most two iterations count. */
  predicate ExactSaturated(c: Comparison, i: Induction) {
    SaturatedCase(c, View(c, i.current), View(c, i.bound), i.Real(), Gap(c, i))
  }

  predicate SaturatedCase(c: Comparison, v: int, b: int, r: int, gap: int) {
    if c == NotEqual then false
    else if IsLess(c) then
      || (gap <= H - 1 && v + r < Least(c) && v + r + W >= b)
      || (H <= gap <= H + 1 && v + r >= Least(c) && v + 2 * r < Least(c) && v + 2 * r + W >= b)
    else gap <= H && v + r >= Least(c) + W && v + r - W < b
  }

  /** How many iterations are inferred then. */
  lemma SaturatedStep(i: Induction)
    requires !Plain(i)
    ensures i.Inc() != 0 && Step(i.Inc()) == if i.Delta() > 0 then H - 1 else H
  {
    PlainMeans(i);
  }

  lemma StepsByGap(c: Comparison, i: Induction)
    requires Accepted(c, i) && i.Inc() != 0
    ensures var gap, step := Gap(c, i), Step(i.Inc());
            step >= 1 && Steps(c, i) == (gap + step - 1) / step && (Overflows(c, i) <==> gap + step - 1 >= W)
  {
    DistanceIsGap(c, i);
  }

  lemma SaturatedCount(c: Comparison, i: Induction)
    requires Accepted(c, i) && !Plain(i)
    ensures i.Inc() != 0
    ensures var n, gap := (if Overflows(c, i) then 0 else Steps(c, i)), Gap(c, i);
            if i.Delta() > 0 then n == (if gap <= H - 1 then 1 else if gap <= H + 1 then 2 else 0)
            else n == if gap <= H then 1 else 0
  {
    PlainMeans(i);
    DistanceIsGap(c, i);
    var gap, step := Gap(c, i), Step(i.Inc());
    StepsByGap(c, i);
    SaturatedStep(i);
    hide *;
    if gap <= step {
      QuotientIs(gap + step - 1, step, 1);
    } else if gap + step - 1 < W {
      QuotientIs(gap + step - 1, step, 2);
    }
  }

  /** Where the registers are when the difference does not fit. */
  lemma SaturatedRange(c: Comparison, i: Induction)
    requires Accepted(c, i) && !Plain(i)
    ensures i.Delta() > 0 ==> i.current >= H && -H <= i.Real() < 0 && i.Real() + W <= i.current && (c == NotEqual || IsLess(c))
    ensures i.Delta() < 0 ==> i.current < H - 1 && 0 < i.Real() < H && i.current + W - i.Real() < W + i.current && !IsLess(c)
    ensures c == NotEqual ==> i.Delta() > 0 && i.current == H && i.bound == W - 1 && i.Real() == -H
  {
    PlainMeans(i);
    AcceptedMeans(c, i);
    if c == NotEqual {
      var gap := Gap(c, i);
      if i.Delta() > 0 {
        assert 1 <= gap <= H - 1 && gap % (H - 1) == 0;
        assert gap == H - 1 by { WholeMultiple(gap, H - 1); }
      } else {
        assert 1 <= gap < H && gap % H == 0;
        WholeMultiple(gap, H);
      }
    }
  }

  lemma WholeMultiple(gap: int, step: int)
    requires 1 <= gap <= step && gap % step == 0
    ensures gap == step
  {
  }

  lemma SaturatedTripCountIff(c: Comparison, i: Induction)
    requires Accepted(c, i) && !Plain(i) && (i.first || c == NotEqual)
    ensures i.Inc() != 0 && 1 <= Step(i.Inc()) <= H
    ensures IsTripCount(c, i, Remaining(FindDistance(c, i).value, Step(i.Inc()))) <==> ExactSaturated(c, i)
  {
    RemainingMeans(c, i);
    SaturatedCount(c, i);
    SaturatedViews(c, i);
    var v, b, r, gap := View(c, i.current), View(c, i.bound), i.Real(), Gap(c, i);
    UnsignedView(c, i.current);
    TakenEarly(c, i, 0);
    TakenEarly(c, i, 1);
    TakenEarly(c, i, 2);
    ShortTrips(c, i);
    hide View, Gap, Step, Remaining, FindDistance, Steps, IsTripCount, TakenAfter, Accepted, Overflows, Plain, Induction.Inc, Induction.Delta, Induction.Real, Passes, Turned, SaturatedCase, Supported;
    SaturatedBranch(c, v, b, r, gap);
  }

  /** The registers when the difference does not fit, as the comparison sees them. */
  lemma SaturatedViews(c: Comparison, i: Induction)
    requires Accepted(c, i) && !Plain(i)
    ensures var v, b, r, gap := View(c, i.current), View(c, i.bound), i.Real(), Gap(c, i);
            && Supported(c) && 1 <= Step(i.Inc()) <= H && (i.Delta() > 0 <==> c == NotEqual || IsLess(c))
            && Least(c) <= v < Least(c) + W && Least(c) <= b < Least(c) + W && -H <= r < H
            && (c == NotEqual ==> v == H && b == W - 1 && r == -H && gap == H - 1)
            && (IsLess(c) ==> r < 0 && v < b && gap == b - v && (c == UnsignedLess ==> v >= H))
            && (c != NotEqual && !IsLess(c) ==> r > 0 && v >= b && gap == v - b + 1 && v < H - 1)
  {
    SaturatedRange(c, i);
    AcceptedMeans(c, i);
    PlainMeans(i);
    UnsignedView(c, i.current);
    DistanceIsGap(c, i);
  }

  lemma UnsignedView(c: Comparison, x: word)
    ensures View(c, x) == if IsSigned(c) && x >= H then x - W else x
  {
  }

  /** The branch on the views, for the inferred number of iterations. */
  lemma SaturatedBranch(c: Comparison, v: int, b: int, r: int, gap: int)
    requires Supported(c) && Least(c) <= v < Least(c) + W && Least(c) <= b < Least(c) + W && -H <= r < H
    requires c == NotEqual ==> v == H && b == W - 1 && r == -H && gap == H - 1
    requires IsLess(c) ==> r < 0 && v < b && gap == b - v && (c == UnsignedLess ==> v >= H)
    requires c != NotEqual && !IsLess(c) ==> r > 0 && v >= b && gap == v - b + 1 && v < H - 1
    ensures var n := if c == NotEqual || IsLess(c) then (if gap <= H - 1 then 1 else if gap <= H + 1 then 2 else 0) else if gap <= H then 1 else 0;
            var p0, p1, p2 := Passes(c, Turned(c, v), b), Passes(c, Turned(c, v + r), b), Passes(c, Turned(c, v + 2 * r), b);
            var trip := if n == 0 then !p0 else if n == 1 then p0 && !p1 else p0 && p1 && !p2;
            trip <==> SaturatedCase(c, v, b, r, gap)
  {
  }

  // ----- every loop -----

  /** Exactly when the inferred number is right. */
  predicate Exact(c: Comparison, i: Induction)
    requires i.Inc() != 0
  {
    if !i.first && c != NotEqual then ExactSwapped(c, i)
    else if Plain(i) then Fits(c, i)
    else ExactSaturated(c, i)
  }

  /**
   Main result, for every accepted loop, in either order of the operands and for every step of the
   register: the inferred number is the trip count of the 64-bit machine exactly in these cases.
   */
  lemma TripCountIff(c: Comparison, i: Induction)
    requires Accepted(c, i)
    ensures i.Inc() != 0 && 1 <= Step(i.Inc()) <= H
    ensures IsTripCount(c, i, Remaining(FindDistance(c, i).value, Step(i.Inc()))) <==> Exact(c, i)
  {
    RemainingMeans(c, i);
    if !i.first && c != NotEqual {
      SwappedTripCountIff(c, i);
    } else if Plain(i) {
      ForwardTripCountIff(c, i);
    } else {
      SaturatedTripCountIff(c, i);
    }
  }

  /** With the operands the other way round a less-than loop is over at once: one iteration too many unless the sum overflows. */
  lemma SwappedOperandsMisjudged(c: Comparison, i: Induction)
    requires Accepted(c, i) && IsLess(c) && !i.first
    ensures i.Inc() != 0 && IsTripCount(c, i, 0) && (Exact(c, i) <==> Overflows(c, i))
  {
    AcceptedMeans(c, i);
    AtBound(c, i);
    var turns := RealMeans(i);
    SwappedBranch(c, View(c, i.current), View(c, i.bound), i.Real());
    TakenEarly(c, i, 0);
    ShortTrips(c, i);
    hide View, Gap, Step, Accepted, IsTripCount, TakenAfter, Turned, Passes, Overflows;
  }

  /** The lanes of a matched inference: the count capped by the maximum, and right exactly as above. */
  lemma InferredLanes(d: Detector, start: seq<word>, finish: seq<word>, maxLanes: nat) returns (i: Induction)
    requires |start| == 32 && |finish| == 32 && Infer(d, start, finish, maxLanes).matched
    ensures Accepted(d.comparison, i) && i.Inc() != 0 && 1 <= Step(i.Inc()) <= H
    ensures 0 <= d.source0 < 32 && 0 <= d.source1 < 32
    ensures Some(i) == FindInduction(d, start[d.source0], start[d.source1], finish[d.source0], finish[d.source1])
    ensures var r := Infer(d, start, finish, maxLanes);
            && r.remaining == Remaining(FindDistance(d.comparison, i).value, Step(i.Inc()))
            && r.lanes == (if r.remaining < maxLanes then r.remaining else maxLanes)
            && (IsTripCount(d.comparison, i, r.remaining) <==> Exact(d.comparison, i))
  {
    i := FindInduction(d, start[d.source0], start[d.source1], finish[d.source0], finish[d.source1]).value;
    RemainingMeans(d.comparison, i);
    TripCountIff(d.comparison, i);
    hide Exact, IsTripCount, FindDistance, Remaining;
  }

  /** A signed register that steps from 2^63 - 5 by 5 to the least number, below 2^63 - 1: no lane is left. */
  lemma RoundingOverflows()
    ensures var i := Induction(H - 5, H, H - 1, true);
            Accepted(SignedLess, i) && Plain(i) && Overflows(SignedLess, i) && TakenAfter(SignedLess, i, 0)
  {
  }

  // ----- the inference, said about the registers -----

  /** `Signed` is the number in the signed range that has these 64 bits. */
  lemma SignedMeans(x: word)
    ensures -H <= Signed(x) < H && (Signed(x) == x || Signed(x) == x - W)
  {
  }

  /** Exactly one of two registers has another value than before. */
  predicate OneMoved(before0: word, before1: word, now0: word, now1: word) { (before0 == now0) != (before1 == now1) }

  /** The largest or smallest signed number beyond the signed range. */
  function Clamped(x: int): int { if x > H - 1 then H - 1 else if x < -H then -H else x }

  /** How far the moving register is from the end of the loop. */
  function Distance(c: Comparison, to: word, bound: word): int {
    match c
    case SignedLess => Signed(bound) - Signed(to)
    case UnsignedLess => bound - to
    case SignedGreaterEqual => Signed(to) - Signed(bound) + 1
    case UnsignedGreaterEqual => to - bound + 1
    case _ => if to < bound then bound - to else to - bound
  }

  /** The register moves towards the bound and has not reached it; for inequality it hits the bound. */
  predicate Matches(c: Comparison, from: word, to: word, bound: word) {
    && from != to
    && match c
       case SignedLess => to > from && Signed(to) < Signed(bound)
       case UnsignedLess => to > from && to < bound
       case SignedGreaterEqual => to < from && Signed(to) >= Signed(bound)
       case UnsignedGreaterEqual => to < from && to >= bound
       case NotEqual => (from < to < bound || from > to > bound) && Distance(c, to, bound) % Size(Clamped(to - from)) == 0
       case _ => false
  }

  /** The size of a step that is not zero. */
  function Size(x: int): (n: nat)
    ensures n >= 1
  {
    if x > 0 then x else if x < 0 then -x else 1
  }

  /** The least number of steps that cover the distance; none if distance and step do not fit together in 64 bits. */
  ghost predicate IsCount(distance: int, step: nat, n: int) {
    if distance + step - 1 >= W then n == 0 else (n - 1) * step < distance <= n * step
  }

  /** What is inferred from a register that moved and one that did not. */
  ghost predicate InferredFrom(c: Comparison, from: word, to: word, bound: word, maxLanes: nat, r: Inference) {
    && (r.matched <==> Matches(c, from, to, bound))
    && (r.matched ==>
          && r.bound == bound && r.increment == Clamped(to - from)
          && IsCount(Distance(c, to, bound), Size(Clamped(to - from)), r.remaining)
          && r.lanes == if r.remaining < maxLanes then r.remaining else maxLanes)
  }

  /** The same from the values of both registers before and now. */
  ghost predicate InferredBetween(c: Comparison, before0: word, before1: word, now0: word, now1: word, maxLanes: nat, r: Inference) {
    && (before0 == now0 ==> InferredFrom(c, before1, now1, now0, maxLanes, r))
    && (before1 == now1 ==> InferredFrom(c, before0, now0, now1, maxLanes, r))
  }

  lemma IncIs(i: Induction)
    requires i.start != i.current
    ensures i.Inc() == Clamped(i.current - i.start) != 0 && Step(i.Inc()) == Size(Clamped(i.current - i.start)) <= H
  {
  }

  lemma DistanceIs(c: Comparison, i: Induction)
    requires i.start != i.current
    ensures Accepted(c, i) <==> Matches(c, i.start, i.current, i.bound)
    ensures Accepted(c, i) ==> Gap(c, i) == Distance(c, i.current, i.bound)
  {
    IncIs(i);
    hide Size;
  }

  lemma CountIs(c: Comparison, i: Induction)
    requires i.start != i.current && Accepted(c, i)
    ensures IsCount(Distance(c, i.current, i.bound), Size(Clamped(i.current - i.start)), Remaining(FindDistance(c, i).value, Step(i.Inc())))
  {
    var n := Remaining(FindDistance(c, i).value, Step(i.Inc()));
    hide *;
    IncIs(i);
    DistanceIs(c, i);
    RemainingMeans(c, i);
    DistanceIsGap(c, i);
    StepsByGap(c, i);
    CeilingMeans(Gap(c, i), Step(i.Inc()));
    IsCountIs(Gap(c, i), Step(i.Inc()), n);
  }

  lemma IsCountIs(distance: int, step: nat, n: int)
    ensures IsCount(distance, step, n) <==> if distance + step - 1 >= W then n == 0 else (n - 1) * step < distance <= n * step
  {
  }

  /** One register at rest: what is inferred from the other one. */
  lemma InferFrom(c: Comparison, i: Induction, maxLanes: nat, r: Inference)
    requires i.start != i.current && (r.matched <==> Accepted(c, i))
    requires r.matched ==> r.bound == i.bound && r.increment == i.Inc() && i.Inc() != 0 && 1 <= Step(i.Inc()) <= H
    requires r.matched ==> r.remaining == Remaining(FindDistance(c, i).value, Step(i.Inc()))
    requires r.matched ==> r.lanes == if r.remaining < maxLanes then r.remaining else maxLanes
    ensures InferredFrom(c, i.start, i.current, i.bound, maxLanes, r)
  {
    IncIs(i);
    DistanceIs(c, i);
    if r.matched { CountIs(c, i); }
    hide Accepted, Matches, Clamped, Size, IsCount, Distance, Remaining, FindDistance, Step, Induction.Inc;
  }

  /** Which register moved, by the snapshots or else by the values at the branch. */
  lemma InductionIs(d: Detector, start0: word, start1: word, finish0: word, finish1: word)
    ensures var found := FindInduction(d, start0, start1, finish0, finish1);
            if OneMoved(start0, start1, finish0, finish1) then
              found == Some(if start0 == finish0 then Induction(start1, finish1, finish0, false) else Induction(start0, finish0, finish1, true))
            else if d.branchValuesValid && OneMoved(start0, start1, d.branchValue0, d.branchValue1) then
              found == Some(if start0 == d.branchValue0 then Induction(start1, d.branchValue1, d.branchValue0, false)
                            else Induction(start0, d.branchValue0, d.branchValue1, true))
            else found == None
  {
  }

  /** The branch was seen, nothing left the loop before it, and both its sources are registers. */
  predicate Usable(d: Detector) { d.seenBranch && !d.earlyExitSeen && 0 <= d.source0 < 32 && 0 <= d.source1 < 32 }

  /**
   The inference said about the registers alone, for every comparison and either order of the operands: if
   one of the two registers moved between the snapshots, or else between the first snapshot and the branch,
   it is matched exactly if that register is on its way to the other one, and then bound, increment and count
   are those of its way; in every other case nothing is matched.
   */
  lemma InferMeans(d: Detector, start: seq<word>, finish: seq<word>, maxLanes: nat)
    requires |start| == 32 && |finish| == 32
    ensures var r := Infer(d, start, finish, maxLanes);
            if !Usable(d) then !r.matched
            else
              var s0, s1, f0, f1 := start[d.source0], start[d.source1], finish[d.source0], finish[d.source1];
              if OneMoved(s0, s1, f0, f1) then InferredBetween(d.comparison, s0, s1, f0, f1, maxLanes, r)
              else if d.branchValuesValid && OneMoved(s0, s1, d.branchValue0, d.branchValue1) then
                InferredBetween(d.comparison, s0, s1, d.branchValue0, d.branchValue1, maxLanes, r)
              else !r.matched
  {
    if Usable(d) {
      var s0, s1, f0, f1 := start[d.source0], start[d.source1], finish[d.source0], finish[d.source1];
      InductionIs(d, s0, s1, f0, f1);
      var found, r := FindInduction(d, s0, s1, f0, f1), Infer(d, start, finish, maxLanes);
      hide FindInduction, FindDistance, Remaining, InferredFrom;
      if found.Some? {
        if Accepted(d.comparison, found.value) { RemainingMeans(d.comparison, found.value); }
        InferFrom(d.comparison, found.value, maxLanes, r);
      }
    }
  }
}
