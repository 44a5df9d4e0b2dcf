/**
 What the meeting of the sides does to a parked lane. If an operation on the way to the reconvergence PC
 writes any register, there is a state of the run that the lane never has on its own; if an operation
 accumulates, the lane never gets right again.
 */
module VectorRewound {
  import opened Wrappers
  import opened VectorExecutor
  import opened VectorRefinement
  import opened VectorPrograms
  import opened VectorShapes
  import opened VectorMeeting
  import opened VectorSharing

  // ----- the way to the reconvergence PC -----

  ghost predicate Along(p: Program, from: nat, j: nat, c: Core) { c.active && |c.regs| == 32 && c.pc == Path(p, from, j) }

  lemma AlongStep(p: Program, d: nat, from: nat, j: nat, c: Core)
    requires DiamondShape(p) && Lively(p, d) && Along(p, from, j, c) && LiveAt(p, Path(p, from, j))
    ensures Along(p, from, j + 1, ScalarStep(p, c))
  {
    var k := Find(p, c.pc, 1, |p.uops|);
    assert Straight(p, k, 2);
    LivelyStep(p, d, k, c);
    hide CoreStep, Straight, Lively, DiamondShape, GoesOn;
  }

  lemma {:induction false} AlongSteps(p: Program, d: nat, from: nat, j: nat, c: Core)
    requires DiamondShape(p) && Lively(p, d) && Along(p, from, 0, c) && Live(p, from, j)
    ensures Along(p, from, j, ScalarSteps(p, c, j))
  {
    hide DiamondShape, Lively, Along, ScalarStep;
    if j > 0 {
      LiveShorter(p, from, j - 1, j);
      AlongSteps(p, d, from, j - 1, c);
      assert LiveAt(p, Path(p, from, j - 1));
      AlongStep(p, d, from, j - 1, ScalarSteps(p, c, j - 1));
    }
  }

  lemma AlongIs(p: Program, from: nat, j: nat, c: Core)
    ensures Along(p, from, j, c) <==> c.active && |c.regs| == 32 && c.pc == Path(p, from, j)
  {
  }

  /** The path from `from` gets to entry `star` after `last` operations. */
  ghost predicate LeadsTo(p: Program, from: nat, last: nat, star: nat) {
    Live(p, from, last + 1) && star < |p.uops| && Path(p, from, last) == p.uops[star].pc
  }

  // ----- operations that mark -----

  const Mark := 7

  /** Every operation behind the branch writes the same value. */
  ghost predicate Marking(p: Program, d: nat) {
    Lively(p, d) && forall k :: 2 <= k < |p.uops| ==> Marks(p.uops[k])
  }

  ghost predicate Marks(op: Uop) { op.semantic.Compute? && forall a, b :: op.semantic.compute(a, b) == Some(Mark) }

  lemma MarkStep(p: Program, d: nat, k: nat, x: nat, c: Core)
    requires Marking(p, d) && 2 <= k < |p.uops| && |c.regs| == 32 && x < 32
    ensures var e := CoreStep(p, k, c);
            |e.regs| == 32 && (c.regs[x] == Mark || (Writes(p.uops[k]) && p.uops[k].destination == x) ==> e.regs[x] == Mark)
  {
    assert Marks(p.uops[k]);
  }

  /** One operation on the way, from a lane that stands at it. */
  lemma AlongMarks(p: Program, d: nat, x: nat, c: Core)
    requires Marking(p, d) && c.active && |c.regs| == 32 && x < 32 && LiveAt(p, c.pc)
    ensures var k, e := Find(p, c.pc, 1, |p.uops|), ScalarStep(p, c);
            |e.regs| == 32 && (c.regs[x] == Mark || (Writes(p.uops[k]) && p.uops[k].destination == x) ==> e.regs[x] == Mark)
  {
    MarkStep(p, d, Find(p, c.pc, 1, |p.uops|), x, c);
    hide CoreStep, Marking, Writes, GoesOn;
  }

  lemma MarkingIsLively(p: Program, d: nat)
    requires Marking(p, d)
    ensures Lively(p, d) && d < 32
  {
    hide Marks, HasResults;
  }

  lemma WritesTo(op: Uop)
    requires Writes(op)
    ensures 0 <= op.destination < 32
  {
  }

  lemma FoundIs(p: Program, star: nat)
    requires Distinct(p) && 1 <= star < |p.uops|
    ensures Find(p, p.uops[star].pc, 1, |p.uops|) == star
  {
  }

  lemma LiveLast(p: Program, from: nat, j: nat)
    requires Live(p, from, j + 1)
    ensures Live(p, from, j) && LiveAt(p, Path(p, from, j))
  {
  }

  lemma {:induction false} MarkedAlong(p: Program, d: nat, from: nat, star: nat, last: nat, j: nat, c: Core)
    requires DiamondShape(p) && Distinct(p) && Marking(p, d) && Along(p, from, 0, c) && Live(p, from, j + 1)
    requires 1 <= star < |p.uops| && Path(p, from, last) == p.uops[star].pc && Writes(p.uops[star]) && last <= j
    ensures var e := ScalarSteps(p, c, j + 1); |e.regs| == 32 && e.regs[p.uops[star].destination] == Mark
  {
    hide *;
    MarkingIsLively(p, d);
    WritesTo(p.uops[star]);
    LiveLast(p, from, j);
    AlongSteps(p, d, from, j, c);
    var e := ScalarSteps(p, c, j);
    AlongIs(p, from, j, e);
    FoundIs(p, star);
    ScalarMore(p, c, j);
    if last < j { MarkedAlong(p, d, from, star, last, j - 1, c); }
    AlongMarks(p, d, p.uops[star].destination, e);
  }

  /** A lane on its own is at the start of its side only with the registers it came with. */
  ghost predicate Unmarked(p: Program, from: nat, regs: seq<int>, c: Core) {
    c.active ==>
      || (c.pc == from && c.regs == regs)
      || (Find(p, c.pc, 1, |p.uops|) == 1 && c.regs == regs && c.pc != from)
      || (c.pc != from && Find(p, c.pc, 1, |p.uops|) > Find(p, from, 1, |p.uops|) && |c.regs| == 32)
  }

  lemma UnmarkedStep(p: Program, d: nat, from: nat, regs: seq<int>, c: Core)
    requires DiamondShape(p) && Forward(p) && Marking(p, d) && Unmarked(p, from, regs, c) && |regs| == 32
    requires from == BranchPC(p, 1, regs[d] != 0) && Find(p, from, 1, |p.uops|) >= 2
    ensures Unmarked(p, from, regs, ScalarStep(p, c))
  {
    if c.active {
      var k := Find(p, c.pc, 1, |p.uops|);
      if k == 1 {
        LivelyBranch(p, d, c);
      } else {
        assert k >= 2 && Straight(p, k, 2);
        MarkStep(p, d, k, 0, c);
        StepsStraight(p, k, c, 2);
      }
      hide CoreStep, Marking, Straight;
    }
  }

  lemma {:induction false} AloneUnmarked(p: Program, d: nat, from: nat, regs: seq<int>, c: Core, n: nat)
    requires DiamondShape(p) && Forward(p) && Marking(p, d) && Unmarked(p, from, regs, c) && |regs| == 32
    requires from == BranchPC(p, 1, regs[d] != 0) && Find(p, from, 1, |p.uops|) >= 2
    ensures Unmarked(p, from, regs, ScalarSteps(p, c, n))
  {
    hide Unmarked, ScalarStep, DiamondShape, Forward, Find;
    if n > 0 {
      AloneUnmarked(p, d, from, regs, c, n - 1);
      UnmarkedStep(p, d, from, regs, ScalarSteps(p, c, n - 1));
    }
  }

  /** The second lane at the branch, and its state at the start of its side. */
  lemma SecondStarts(p: Program, d: nat, taken: bool)
    requires DiamondShape(p) && SidesExist(p) && d < 32 && Find(p, BranchPC(p, 1, !taken), 1, |p.uops|) >= 2
    ensures var c, from := SecondCore(p, d, taken), BranchPC(p, 1, !taken);
            && |c.regs| == 32 && (c.regs[d] != 0) == !taken && (forall x :: 0 <= x < 32 ==> c.regs[x] != Mark)
            && Unmarked(p, from, c.regs, c) && Along(p, from, 0, c.(pc := from)) && c.active && Find(p, c.pc, 1, |p.uops|) == 1
  {
    EntryFound(p);
    PathStarts(p, BranchPC(p, 1, !taken));
    hide DiamondShape, Find, Path;
  }

  /** The second side reaches the reconvergence PC, and entry `star` lies on its way. */
  ghost predicate Reconverges(p: Program, taken: bool, end: nat, last: nat, star: nat) {
    Joins(p, !taken, end) && last < end && LeadsTo(p, BranchPC(p, 1, !taken), last, star)
  }

  lemma SideIsFound(p: Program, taken: bool, end: nat, last: nat, star: nat)
    requires Reconverges(p, taken, end, last, star)
    ensures |p.uops| > 1 && Find(p, BranchPC(p, 1, !taken), 1, |p.uops|) >= 2 && Live(p, BranchPC(p, 1, !taken), end) && Joins(p, !taken, end)
    ensures last < end && star < |p.uops| && Path(p, BranchPC(p, 1, !taken), last) == p.uops[star].pc
  {
    var from := BranchPC(p, 1, !taken);
    assert LiveAt(p, Path(p, from, 0));
    PathStarts(p, from);
    hide Path;
  }

  /**
   Where the sides meet, any write on the way is enough: for operations that all write the same value
   there are two lanes and a budget with which the second lane is left in a state that it never has on its own.
   */
  lemma MeetingShows(p: Program, d: nat, star: nat, taken: bool, n: nat, end: nat, last: nat, k: nat)
    requires DiamondShape(p) && SidesExist(p) && Distinct(p) && Forward(p) && Marking(p, d)
    requires Meets(p, taken, n) && Reconverges(p, taken, end, last, star) && 1 <= star && Writes(p.uops[star])
    ensures |p.uops| > 1 && Valid(p, TwoLanes(p))
    ensures var rs := [Response(0, LaneValue(taken)), Response(1, LaneValue(!taken))];
            var c := Serve(p, TwoLanes(p), rs, d, n + end + 2).lanes[1].core;
            c.active && c != ScalarSteps(p, SecondCore(p, d, taken), k)
  {
    hide *;
    SideIsFound(p, taken, end, last, star);
    MarkingIsLively(p, d);
    var m := ServedLanesMeet(p, d, taken, n, end, n + end + 2);
    var c, from := SecondCore(p, d, taken), BranchPC(p, 1, !taken);
    ScalarNothing(p, SentBack(p, c.(pc := from), end, taken));
    SecondStarts(p, d, taken);
    SentBackIsMarked(p, d, star, taken, end, last, c.(pc := from));
    AloneUnmarked(p, d, from, c.regs, c, k);
    UnmarkedIs(p, from, c.regs, ScalarSteps(p, c, k));
  }

  lemma UnmarkedIs(p: Program, from: nat, regs: seq<int>, c: Core)
    requires Unmarked(p, from, regs, c)
    ensures c.active && c.pc == from ==> c.regs == regs
  {
  }

  lemma SentBackIsMarked(p: Program, d: nat, star: nat, taken: bool, end: nat, last: nat, c: Core)
    requires |p.uops| > 1 && DiamondShape(p) && Distinct(p) && Marking(p, d) && Reconverges(p, taken, end, last, star) && 1 <= star && Writes(p.uops[star])
    requires Along(p, BranchPC(p, 1, !taken), 0, c)
    ensures var e := SentBack(p, c, end, taken);
            e.active && e.pc == BranchPC(p, 1, !taken) && |e.regs| == 32 && 0 <= p.uops[star].destination < 32 && e.regs[p.uops[star].destination] == Mark
  {
    hide DiamondShape, Distinct, Marking, Reconverges, LeadsTo, Along, ScalarSteps, Path, Live, Writes, BranchPC, Find;
    var from := BranchPC(p, 1, !taken);
    SideIsFound(p, taken, end, last, star);
    MarkingIsLively(p, d);
    WritesTo(p.uops[star]);
    AlongSteps(p, d, from, end, c);
    AlongIs(p, from, end, ScalarSteps(p, c, end));
    MarkedAlong(p, d, from, star, last, end - 1, c);
  }

  // ----- operations that count -----

  /** Entry `star` counts in register `x`, nothing else writes `x`. */
  ghost predicate Counting(p: Program, d: nat, star: nat, x: nat) {
    && Lively(p, d) && 2 <= star < |p.uops| && x < 32
    && Plain(p.uops[star]) && p.uops[star].source0 == x && p.uops[star].destination == x
    && p.uops[star].semantic.Compute? && (forall a, b :: p.uops[star].semantic.compute(a, b) == Some(a + 1))
    && (forall k :: 2 <= k < |p.uops| && k != star ==> Harmless(p.uops[k], x))
  }

  predicate Plain(op: Uop) { !op.conditional && !op.control }

  predicate Harmless(op: Uop, x: nat) {
    op.destination != x
  }

  function Count(c: Core, x: nat): int { if x < |c.regs| then c.regs[x] else 0 }

  /** What a step does to the count, and that a lane goes on where it should. */
  lemma CountStep(p: Program, d: nat, star: nat, x: nat, k: nat, c: Core)
    requires Counting(p, d, star, x) && 2 <= k < |p.uops| && |c.regs| == 32 && c.active && Straight(p, k, 2)
    ensures var e := CoreStep(p, k, c);
            && |e.regs| == 32 && Count(e, x) == Count(c, x) + (if k == star then 1 else 0)
            && (GoesOn(p, k) ==> e.active) && (e.active ==> e.pc == Hop(p, k))
  {
    assert HasResults(p.uops[k]) && (k != star ==> Harmless(p.uops[k], x));
  }

  // ----- a lane on its own -----

  /** Counted at most once, and then past the counting entry. */
  ghost predicate CountedOnce(p: Program, star: nat, x: nat, base: int, c: Core) {
    |c.regs| == 32 && (c.active ==> Find(p, c.pc, 1, |p.uops|) >= 1) &&
    (Count(c, x) == base || (Count(c, x) == base + 1 && (!c.active || Find(p, c.pc, 1, |p.uops|) > star)))
  }

  lemma CountedOnceStep(p: Program, d: nat, star: nat, x: nat, base: int, c: Core)
    requires DiamondShape(p) && Forward(p) && Counting(p, d, star, x) && CountedOnce(p, star, x, base, c)
    ensures CountedOnce(p, star, x, base, ScalarStep(p, c))
  {
    if c.active {
      var k := Find(p, c.pc, 1, |p.uops|);
      if k == 1 {
        LivelyBranch(p, d, c);
        StepsBranch(p, c);
      } else {
        assert Straight(p, k, 2);
        CountStep(p, d, star, x, k, c);
        StepsStraight(p, k, c, 2);
      }
      hide CoreStep, Counting, Straight;
    }
  }

  lemma {:induction false} AloneCountsOnce(p: Program, d: nat, star: nat, x: nat, base: int, c: Core, n: nat)
    requires DiamondShape(p) && Forward(p) && Counting(p, d, star, x) && CountedOnce(p, star, x, base, c)
    ensures CountedOnce(p, star, x, base, ScalarSteps(p, c, n))
  {
    hide CountedOnce, ScalarStep, DiamondShape, Forward, Counting;
    if n > 0 {
      AloneCountsOnce(p, d, star, x, base, c, n - 1);
      CountedOnceStep(p, d, star, x, base, ScalarSteps(p, c, n - 1));
    }
  }

  // ----- a lane that was rewound -----

  /** Counted already, but before the counting entry of its path again; or counted twice. */
  ghost predicate Rewound(p: Program, from: nat, last: nat, x: nat, base: int, c: Core) {
    |c.regs| == 32 && (c.active ==> Find(p, c.pc, 1, |p.uops|) >= 2) &&
    (Count(c, x) >= base + 2 || (Count(c, x) == base + 1 && c.active && exists j :: 0 <= j <= last && c.pc == Path(p, from, j)))
  }

  lemma RewoundStep(p: Program, d: nat, star: nat, x: nat, from: nat, last: nat, base: int, c: Core)
    requires DiamondShape(p) && Distinct(p) && Counting(p, d, star, x) && LeadsTo(p, from, last, star) && Rewound(p, from, last, x, base, c)
    ensures Rewound(p, from, last, x, base, ScalarStep(p, c))
  {
    if c.active {
      var k := Find(p, c.pc, 1, |p.uops|);
      assert Straight(p, k, 2);
      CountStep(p, d, star, x, k, c);
      StepsStraight(p, k, c, 2);
      if Count(c, x) < base + 2 {
        var j :| 0 <= j <= last && c.pc == Path(p, from, j);
        assert LiveAt(p, Path(p, from, j));
        assert Path(p, from, j + 1) == Hop(p, k);
        if j == last { assert k == star; }
      }
      hide CoreStep, Counting, Straight;
    }
  }

  lemma {:induction false} StaysRewound(p: Program, d: nat, star: nat, x: nat, from: nat, last: nat, base: int, c: Core, n: nat)
    requires DiamondShape(p) && Distinct(p) && Counting(p, d, star, x) && LeadsTo(p, from, last, star) && Rewound(p, from, last, x, base, c)
    ensures Rewound(p, from, last, x, base, ScalarSteps(p, c, n))
  {
    hide Rewound, ScalarStep, DiamondShape, Distinct, Counting, LeadsTo;
    if n > 0 {
      StaysRewound(p, d, star, x, from, last, base, c, n - 1);
      RewoundStep(p, d, star, x, from, last, base, ScalarSteps(p, c, n - 1));
    }
  }

  /** A rewound lane is in no state of its own. */
  lemma RewoundIsForeign(p: Program, star: nat, x: nat, from: nat, last: nat, base: int, c: Core)
    requires Forward(p) && Distinct(p) && 1 <= star && LeadsTo(p, from, last, star) && Rewound(p, from, last, x, base, c)
    ensures !CountedOnce(p, star, x, base, c)
  {
    if Count(c, x) == base + 1 {
      var j :| 0 <= j <= last && c.pc == Path(p, from, j);
      if j < last {
        LiveShorter(p, from, last, last + 1);
        PathIncreases(p, from, j, last);
      }
    }
  }

  // ----- the meeting -----

  lemma OnlyLast(p: Program, from: nat, last: nat, star: nat, j: nat)
    requires Forward(p) && Distinct(p) && LeadsTo(p, from, last, star) && 1 <= star && Live(p, from, j + 1)
    ensures LiveAt(p, Path(p, from, j)) && (Find(p, Path(p, from, j), 1, |p.uops|) == star <==> j == last)
  {
    if j < last { LiveShorter(p, from, last, last + 1); PathOnce(p, from, j, last); }
    if last < j { LiveShorter(p, from, j, j + 1); PathOnce(p, from, last, j); }
    FoundIs(p, star);
    hide Path, Forward, Distinct;
  }

  lemma AlongCounts(p: Program, d: nat, star: nat, x: nat, c: Core)
    requires DiamondShape(p) && Counting(p, d, star, x) && c.active && |c.regs| == 32 && LiveAt(p, c.pc)
    ensures Count(ScalarStep(p, c), x) == Count(c, x) + if Find(p, c.pc, 1, |p.uops|) == star then 1 else 0
  {
    var k := Find(p, c.pc, 1, |p.uops|);
    assert Straight(p, k, 2);
    CountStep(p, d, star, x, k, c);
    hide CoreStep, Counting, Straight, GoesOn;
  }

  lemma CountingIsLively(p: Program, d: nat, star: nat, x: nat)
    requires Counting(p, d, star, x)
    ensures Lively(p, d) && d < 32 && 1 <= star
  {
    hide HasResults, Harmless;
  }

  lemma {:induction false} CountAlong(p: Program, d: nat, star: nat, x: nat, from: nat, last: nat, j: nat, c: Core)
    requires DiamondShape(p) && Distinct(p) && Forward(p) && Counting(p, d, star, x) && Along(p, from, 0, c) && Live(p, from, j)
    requires LeadsTo(p, from, last, star)
    ensures Count(ScalarSteps(p, c, j), x) == Count(c, x) + if j > last then 1 else 0
  {
    hide *;
    if j == 0 {
      ScalarNothing(p, c);
    } else {
      CountingIsLively(p, d, star, x);
      LiveLast(p, from, j - 1);
      CountAlong(p, d, star, x, from, last, j - 1, c);
      AlongSteps(p, d, from, j - 1, c);
      AlongIs(p, from, j - 1, ScalarSteps(p, c, j - 1));
      OnlyLast(p, from, last, star, j - 1);
      ScalarMore(p, c, j - 1);
      AlongCounts(p, d, star, x, ScalarSteps(p, c, j - 1));
    }
  }

  lemma SentBackHasCounted(p: Program, d: nat, star: nat, x: nat, taken: bool, end: nat, last: nat, c: Core)
    requires |p.uops| > 1 && DiamondShape(p) && Distinct(p) && Forward(p) && Counting(p, d, star, x) && Reconverges(p, taken, end, last, star)
    requires Along(p, BranchPC(p, 1, !taken), 0, c)
    ensures Rewound(p, BranchPC(p, 1, !taken), last, x, Count(c, x), SentBack(p, c, end, taken))
  {
    var from := BranchPC(p, 1, !taken);
    SideIsFound(p, taken, end, last, star);
    CountingIsLively(p, d, star, x);
    PathStarts(p, from);
    hide DiamondShape, Distinct, Forward, Counting, Joins, Along, ScalarSteps, Path, Live, BranchPC, Find;
    AlongSteps(p, d, from, end, c);
    AlongIs(p, from, end, ScalarSteps(p, c, end));
    CountAlong(p, d, star, x, from, last, end, c);
    hide LeadsTo, Reconverges;
  }

  lemma SecondCounts(p: Program, d: nat, star: nat, x: nat, taken: bool)
    requires DiamondShape(p) && Find(p, p.uops[1].pc, 1, |p.uops|) == 1
    ensures var c := SecondCore(p, d, taken); CountedOnce(p, star, x, Count(c, x), c) && Count(c.(pc := BranchPC(p, 1, !taken)), x) == Count(c, x)
  {
    hide DiamondShape, Find;
  }

  /**
   Where the sides meet and an operation on the way accumulates: for every budget that lets the lanes
   meet and reconverge, the second one ends in a state that it never has on its own.
   */
  lemma MeetingCorrupts(p: Program, d: nat, star: nat, x: nat, taken: bool, n: nat, end: nat, last: nat, budget: nat, k: nat)
    requires DiamondShape(p) && SidesExist(p) && Distinct(p) && Forward(p) && Counting(p, d, star, x)
    requires Meets(p, taken, n) && Reconverges(p, taken, end, last, star) && budget > n + end + 1
    ensures |p.uops| > 1 && Valid(p, TwoLanes(p))
    ensures var rs := [Response(0, LaneValue(taken)), Response(1, LaneValue(!taken))];
            Serve(p, TwoLanes(p), rs, d, budget).lanes[1].core != ScalarSteps(p, SecondCore(p, d, taken), k)
  {
    hide *;
    SideIsFound(p, taken, end, last, star);
    CountingIsLively(p, d, star, x);
    var m := ServedLanesMeet(p, d, taken, n, end, budget);
    var c, from := SecondCore(p, d, taken), BranchPC(p, 1, !taken);
    SecondStarts(p, d, taken);
    EntryFound(p);
    SecondCounts(p, d, star, x, taken);
    SentBackHasCounted(p, d, star, x, taken, end, last, c.(pc := from));
    ReconvergesLeads(p, taken, end, last, star);
    Foreign(p, d, star, x, from, last, Count(c, x), c, k, SentBack(p, c.(pc := from), end, taken), m);
  }

  lemma ReconvergesLeads(p: Program, taken: bool, end: nat, last: nat, star: nat)
    requires Reconverges(p, taken, end, last, star)
    ensures |p.uops| > 1 && LeadsTo(p, BranchPC(p, 1, !taken), last, star)
  {
  }

  lemma Foreign(p: Program, d: nat, star: nat, x: nat, from: nat, last: nat, base: int, c: Core, k: nat, e: Core, m: nat)
    requires DiamondShape(p) && Distinct(p) && Forward(p) && Counting(p, d, star, x) && LeadsTo(p, from, last, star)
    requires CountedOnce(p, star, x, base, c) && Rewound(p, from, last, x, base, e)
    ensures ScalarSteps(p, e, m) != ScalarSteps(p, c, k)
  {
    hide *;
    CountingIsLively(p, d, star, x);
    AloneCountsOnce(p, d, star, x, base, c, k);
    StaysRewound(p, d, star, x, from, last, base, e, m);
    RewoundIsForeign(p, star, x, from, last, base, ScalarSteps(p, e, m));
  }
}
