/**
 Diamonds whose sides meet: one side of the entry branch runs into the start of the other before the
 reconvergence PC. The parked lane is then issued together with the first one, sent back to the start of
 its side when the paths reconverge, and executes the operations between a second time.
 */
module VectorMeeting {
  import opened VectorExecutor
  import opened VectorRefinement
  import opened VectorPrograms
  import opened VectorShapes

  // ----- slices that only go forward -----

  ghost predicate Distinct(p: Program) {
    forall j, k :: 1 <= j < k < |p.uops| ==> p.uops[j].pc != p.uops[k].pc
  }

  ghost predicate Forward(p: Program) {
    forall k :: 2 <= k < |p.uops| ==> Find(p, Hop(p, k), 1, |p.uops|) < 0 || Find(p, Hop(p, k), 1, |p.uops|) > k
  }

  /** A lane does not end at entry `k`. */
  predicate GoesOn(p: Program, k: nat)
    requires k < |p.uops|
  {
    var op := p.uops[k];
    if op.conditional || (op.control && op.target != 0) then Hop(p, k) != 0 && Hop(p, k) != p.uops[0].pc
    else (op.control ==> op.writes) && NextPC(p, k) != 0 && (p.pastFlr || k != p.stopIndex)
  }

  /** The first `n` operations from `from` exist, and a lane gets through them. */
  ghost predicate Live(p: Program, from: nat, n: nat) {
    forall m :: 0 <= m < n ==> LiveAt(p, Path(p, from, m))
  }

  ghost predicate LiveAt(p: Program, pc: nat) {
    2 <= Find(p, pc, 1, |p.uops|) && GoesOn(p, Find(p, pc, 1, |p.uops|))
  }

  /** Positions on a path increase. */
  lemma {:induction false} PathIncreases(p: Program, from: nat, m: nat, n: nat)
    requires Forward(p) && m < n && Live(p, from, n)
    ensures Find(p, Path(p, from, n), 1, |p.uops|) < 0 || Find(p, Path(p, from, n), 1, |p.uops|) > Find(p, Path(p, from, m), 1, |p.uops|)
    decreases n
  {
    assert LiveAt(p, Path(p, from, n - 1));
    var k := Find(p, Path(p, from, n - 1), 1, |p.uops|);
    assert Path(p, from, n) == Hop(p, k);
    if m < n - 1 { PathIncreases(p, from, m, n - 1); }
  }

  lemma PathOnce(p: Program, from: nat, m: nat, n: nat)
    requires Forward(p) && m < n && Live(p, from, n)
    ensures Path(p, from, m) != Path(p, from, n)
  {
    assert LiveAt(p, Path(p, from, m));
    PathIncreases(p, from, m, n);
  }

  lemma LiveShorter(p: Program, from: nat, m: nat, n: nat)
    requires Live(p, from, n) && m <= n
    ensures Live(p, from, m)
  {
  }

  // ----- operations that have results -----

  /** The branch tests the loaded register `d`, and every operation behind it has a result. */
  ghost predicate Lively(p: Program, d: nat) {
    && |p.uops| > 1 && d < 32 && p.uops[1].tainted && p.uops[1].source0 == d
    && p.uops[1].semantic.Branch? && (forall a, b :: p.uops[1].semantic.compare(a, b) == (a != 0))
    && (forall k :: 2 <= k < |p.uops| ==> HasResults(p.uops[k]))
  }

  ghost predicate HasResults(op: Uop) { op.semantic.Compute? && forall a, b :: op.semantic.compute(a, b).Some? }

  /** A lane goes on where it should. */
  lemma LivelyStep(p: Program, d: nat, k: nat, c: Core)
    requires Lively(p, d) && 2 <= k < |p.uops| && |c.regs| == 32 && c.active && Straight(p, k, 2)
    ensures var e := CoreStep(p, k, c); |e.regs| == 32 && (GoesOn(p, k) ==> e.active) && (e.active ==> e.pc == Hop(p, k))
  {
    assert HasResults(p.uops[k]);
  }

  lemma LivelyBranch(p: Program, d: nat, c: Core)
    requires Lively(p, d) && DiamondShape(p) && |c.regs| == 32
    ensures var e := CoreStep(p, 1, c); e.regs == c.regs && (e.active ==> e.pc == BranchPC(p, 1, c.regs[d] != 0))
    ensures TakesBranch(p, 1, c) <==> c.regs[d] != 0
  {
  }

  // ----- two lanes in the group executor -----

  predicate On(l: Lane, pc: nat) { l.core.active && l.ready && l.core.pc == pc && |l.core.regs| == 32 }

  /** The first lane leads, and nothing diverges: both lanes that stand at its PC execute its operation. */
  lemma LeadStep(p: Program, s: State, k: nat)
    requires Valid(p, s) && |s.lanes| == 2 && AllReady(s) && Selected(s.lanes[0]) && !MustPop(s)
    requires k < |p.uops| && Fetch(p, s.lanes[0]) == k && (p.uops[k].conditional ==> !p.uops[k].tainted)
    ensures Step(p, s).1 == Continue && Step(p, s).0.stack == s.stack && |Step(p, s).0.lanes| == 2
    ensures Step(p, s).0.lanes[0] == Issued(p, k, Refilled(p, s.lanes[0])) && Step(p, s).0.lanes[1] == Issued(p, k, s.lanes[1])
  {
    StepCases(p, s);
    assert Popped(s) == s && Leader(s.lanes, 0) == 0;
    var u := Led(p, s, 0);
    LedReady(p, s, 0);
    NobodyWaits(p, k, u);
    SameTakes(p, k, u.lanes);
    NoDivergence(p, k, u);
    assert u.lanes[0] == Refilled(p, s.lanes[0]) && u.lanes[1] == s.lanes[1];
    hide Step, Popped, Leader, Fetch, Refilled, Issue, AllIssued, Issued, Diverges, MustWait, Valid;
  }

  /** The stack entry of the second lane. */
  ghost predicate Parks(p: Program, s: State, taken: bool)
  {
    |p.uops| > 1 && |s.lanes| == 2 && s.stack == [Entry({1}, BranchPC(p, 1, !taken), Reconvergence(p.uops[1]))]
    && !s.lanes[0].blocked && s.lanes[1].blocked
  }

  /** The first lane is on its side, the second one waits at the start of the other. */
  ghost predicate Apiece(p: Program, s: State, taken: bool, n: nat, c: Core) {
    Valid(p, s) && Parks(p, s, taken) && On(s.lanes[0], Path(p, BranchPC(p, 1, taken), n))
    && On(s.lanes[1], BranchPC(p, 1, !taken)) && s.lanes[1].core == c
  }

  /** The first lane has met the second one, and both go on together. */
  ghost predicate Met(p: Program, s: State, taken: bool, j: nat, c: Core) {
    Valid(p, s) && Parks(p, s, taken) && On(s.lanes[0], Path(p, BranchPC(p, 1, !taken), j))
    && On(s.lanes[1], Path(p, BranchPC(p, 1, !taken), j)) && s.lanes[1].core == ScalarSteps(p, c, j)
  }

  /** One step of a lane that is issued. */
  lemma IssuedLane(p: Program, d: nat, k: nat, l: Lane, pc: nat)
    requires DiamondShape(p) && Distinct(p) && Lively(p, d) && LiveAt(p, pc) && k == Find(p, pc, 1, |p.uops|) && On(l, pc)
    ensures var m := Issued(p, k, l); On(m, Hop(p, k)) && m.blocked == l.blocked && m.core == ScalarStep(p, l.core)
  {
    assert Straight(p, k, 2);
    LivelyStep(p, d, k, l.core);
    hide CoreStep, Straight, Lively, GoesOn;
  }

  lemma FetchIs(p: Program, l: Lane)
    requires Distinct(p) && WindowValid(p, l) && Find(p, l.core.pc, 1, |p.uops|) >= 1
    ensures Fetch(p, l) == Find(p, l.core.pc, 1, |p.uops|)
  {
  }

  lemma PairStep(p: Program, d: nat, s: State, taken: bool, pc: nat, k: nat)
    requires DiamondShape(p) && Distinct(p) && Lively(p, d) && Valid(p, s) && Parks(p, s, taken)
    requires LiveAt(p, pc) && k == Find(p, pc, 1, |p.uops|) && On(s.lanes[0], pc) && pc != Reconvergence(p.uops[1])
    requires s.lanes[1].core.active && s.lanes[1].ready && |s.lanes[1].core.regs| == 32
    ensures var (t, o) := Step(p, s);
            && o == Continue && Valid(p, t) && Parks(p, t, taken) && On(t.lanes[0], Hop(p, k))
            && (s.lanes[1].core.pc != pc ==> t.lanes[1] == s.lanes[1])
            && (s.lanes[1].core.pc == pc ==> On(t.lanes[1], Hop(p, k)) && t.lanes[1].core == ScalarStep(p, s.lanes[1].core))
  {
    StepValid(p, s);
    FetchIs(p, s.lanes[0]);
    NotDue(p, s, taken, pc);
    BehindBranch(p, k);
    LeadStep(p, s, k);
    IssuedLane(p, d, k, Refilled(p, s.lanes[0]), pc);
    if s.lanes[1].core.pc == pc { IssuedLane(p, d, k, s.lanes[1], pc); }
    assert p.uops[k].pc == pc;
    hide Step, Fetch, DiamondShape, Distinct, Lively, LiveAt, CoreStep, Valid, Refilled, ScalarStep;
  }

  lemma BehindBranch(p: Program, k: nat)
    requires DiamondShape(p) && 2 <= k < |p.uops|
    ensures p.uops[k].conditional ==> !p.uops[k].tainted
  {
    assert Straight(p, k, 2);
  }

  lemma NotDue(p: Program, s: State, taken: bool, pc: nat)
    requires Parks(p, s, taken) && On(s.lanes[0], pc) && pc != Reconvergence(p.uops[1]) && s.lanes[1].core.active && s.lanes[1].ready
    ensures !MustPop(s) && Selected(s.lanes[0]) && AllReady(s)
  {
    assert Selected(s.lanes[0]);
  }

  /** The first side on its way to the start of the second. */
  lemma ApieceStep(p: Program, d: nat, s: State, taken: bool, m: nat, n: nat, c: Core)
    requires DiamondShape(p) && Distinct(p) && Forward(p) && Lively(p, d) && Apiece(p, s, taken, m, c) && m < n
    requires Live(p, BranchPC(p, 1, taken), n) && Path(p, BranchPC(p, 1, taken), n) == BranchPC(p, 1, !taken)
    requires Path(p, BranchPC(p, 1, taken), m) != Reconvergence(p.uops[1])
    ensures Step(p, s).1 == Continue && Apiece(p, Step(p, s).0, taken, m + 1, c)
  {
    hide DiamondShape, Distinct, Forward, Lively, Live, LiveAt, Step, Valid, Hop, Path, Find, BranchPC, ScalarStep;
    var from := BranchPC(p, 1, taken);
    var pc := Path(p, from, m);
    LiveOn(p, from, m, n);
    PathStep(p, from, m);
    PathOnce(p, from, m, n);
    PairStep(p, d, s, taken, pc, Find(p, pc, 1, |p.uops|));
  }

  lemma LiveOn(p: Program, from: nat, m: nat, n: nat)
    requires Live(p, from, n) && m < n
    ensures LiveAt(p, Path(p, from, m))
  {
  }

  lemma PathStep(p: Program, from: nat, m: nat)
    requires LiveAt(p, Path(p, from, m))
    ensures var k := Find(p, Path(p, from, m), 1, |p.uops|); 2 <= k < |p.uops| && Path(p, from, m + 1) == Hop(p, k)
  {
    hide Hop, GoesOn;
  }

  /** Both lanes on the way to the reconvergence PC. */
  lemma MetStep(p: Program, d: nat, s: State, taken: bool, j: nat, c: Core)
    requires DiamondShape(p) && Distinct(p) && Lively(p, d) && Met(p, s, taken, j, c)
    requires LiveAt(p, Path(p, BranchPC(p, 1, !taken), j)) && Path(p, BranchPC(p, 1, !taken), j) != Reconvergence(p.uops[1])
    ensures Step(p, s).1 == Continue && Met(p, Step(p, s).0, taken, j + 1, c)
  {
    hide DiamondShape, Distinct, Lively, LiveAt, Step, Valid, Hop, Path, Find, BranchPC, ScalarStep, ScalarSteps;
    var from := BranchPC(p, 1, !taken);
    var pc := Path(p, from, j);
    PathStep(p, from, j);
    ScalarMore(p, c, j);
    PairStep(p, d, s, taken, pc, Find(p, pc, 1, |p.uops|));
  }

  lemma ScalarMore(p: Program, c: Core, n: nat)
    ensures ScalarSteps(p, c, n + 1) == ScalarStep(p, ScalarSteps(p, c, n))
  {
  }

  /** At the reconvergence PC the second lane is sent back to the start of its side, with its registers. */
  lemma RewindStep(p: Program, s: State, taken: bool, j: nat, c: Core)
    requires DiamondShape(p) && Distinct(p) && Met(p, s, taken, j, c) && Path(p, BranchPC(p, 1, !taken), j) == Reconvergence(p.uops[1])
    requires Find(p, Reconvergence(p.uops[1]), 1, |p.uops|) >= 2 && Find(p, BranchPC(p, 1, !taken), 1, |p.uops|) >= 2
    requires BranchPC(p, 1, !taken) != Reconvergence(p.uops[1])
    ensures Popped(s).stack == [] && |Popped(s).lanes| == 2 && Valid(p, Popped(s)) && Together(p, Popped(s), 2) && AllReady(Popped(s))
    ensures Popped(Popped(s)) == Popped(s) && Step(p, s) == Step(p, Popped(s))
    ensures Popped(s).lanes[1].core == ScalarSteps(p, c, j).(pc := BranchPC(p, 1, !taken))
    ensures Selected(Popped(s).lanes[0]) && Popped(s).lanes[0].core.pc == Reconvergence(p.uops[1])
  {
    hide Path, DiamondShape, Distinct, ScalarSteps;
    assert Selected(s.lanes[0]) && s.lanes[0].core.pc == s.stack[0].pc;
    assert AnySelectedAt(s.lanes, s.stack[0].pc) && MustPop(s);
    PoppedValid(p, s);
    var t := Popped(s);
    assert t.lanes[0] == s.lanes[0];
    forall i | 0 <= i < |t.lanes| ensures Free(p, t.lanes[i], 2) {
      if i == 1 { assert t.lanes[1].core.pc == BranchPC(p, 1, !taken); }
    }
  }

  // ----- the run of the two lanes -----

  /** The path of the first side meets the start of the second after `n` operations and before the reconvergence PC. */
  ghost predicate Meets(p: Program, taken: bool, n: nat) {
    && |p.uops| > 1 && Live(p, BranchPC(p, 1, taken), n) && Path(p, BranchPC(p, 1, taken), n) == BranchPC(p, 1, !taken)
    && forall m :: 0 <= m <= n ==> Path(p, BranchPC(p, 1, taken), m) != Reconvergence(p.uops[1])
  }

  /** A side reaches the reconvergence PC after `end` operations. */
  ghost predicate Joins(p: Program, taken: bool, end: nat) {
    && |p.uops| > 1 && Live(p, BranchPC(p, 1, taken), end) && Path(p, BranchPC(p, 1, taken), end) == Reconvergence(p.uops[1])
    && Find(p, Reconvergence(p.uops[1]), 1, |p.uops|) >= 2
  }

  lemma MeetsMeans(p: Program, s: State, taken: bool, m: nat, n: nat, c: Core)
    requires Meets(p, taken, n) && m <= n && Apiece(p, s, taken, m, c)
    ensures |p.uops| > 1 && Valid(p, s) && Live(p, BranchPC(p, 1, taken), n) && Path(p, BranchPC(p, 1, taken), n) == BranchPC(p, 1, !taken)
    ensures Path(p, BranchPC(p, 1, taken), m) != Reconvergence(p.uops[1])
  {
    hide Path, Live, Valid;
  }

  lemma {:induction false} ApieceRun(p: Program, d: nat, s: State, taken: bool, m: nat, n: nat, c: Core, budget: nat) returns (t: State)
    requires DiamondShape(p) && Distinct(p) && Forward(p) && Lively(p, d) && Meets(p, taken, n) && m <= n && Apiece(p, s, taken, m, c)
    ensures Valid(p, s) && Valid(p, t) && Apiece(p, t, taken, n, c) && Run(p, s, budget + (n - m)) == Run(p, t, budget)
    decreases n - m
  {
    hide *;
    MeetsMeans(p, s, taken, m, n, c);
    if m == n {
      t := s;
    } else {
      ApieceStep(p, d, s, taken, m, n, c);
      RunUnfolds(p, s, budget + (n - m) - 1);
      t := ApieceRun(p, d, Step(p, s).0, taken, m + 1, n, c, budget);
    }
  }

  lemma ApieceIsMet(p: Program, s: State, taken: bool, n: nat, c: Core)
    requires Apiece(p, s, taken, n, c) && Meets(p, taken, n)
    ensures Met(p, s, taken, 0, c) && |s.lanes| == 2
  {
    assert Path(p, BranchPC(p, 1, !taken), 0) == BranchPC(p, 1, !taken) && ScalarSteps(p, c, 0) == c;
  }

  lemma MetMeans(p: Program, s: State, taken: bool, j: nat, end: nat, c: Core)
    requires Forward(p) && Joins(p, !taken, end) && j <= end && Met(p, s, taken, j, c)
    ensures |p.uops| > 1 && Valid(p, s)
    ensures var from := BranchPC(p, 1, !taken); j < end ==> LiveAt(p, Path(p, from, j)) && Path(p, from, j) != Reconvergence(p.uops[1])
  {
    var from := BranchPC(p, 1, !taken);
    if j < end {
      assert LiveAt(p, Path(p, from, j));
      PathOnce(p, from, j, end);
    }
    hide Path, Live, Valid, LiveAt, Forward;
  }

  lemma {:induction false} MetRun(p: Program, d: nat, s: State, taken: bool, j: nat, end: nat, c: Core, budget: nat) returns (t: State)
    requires DiamondShape(p) && Distinct(p) && Forward(p) && Lively(p, d) && Joins(p, !taken, end) && j <= end && Met(p, s, taken, j, c)
    ensures Valid(p, s) && Valid(p, t) && Run(p, s, budget + (end - j)) == Run(p, t, budget) && Met(p, t, taken, end, c)
    decreases end - j
  {
    hide *;
    MetMeans(p, s, taken, j, end, c);
    if j == end {
      t := s;
    } else {
      MetStep(p, d, s, taken, j, c);
      RunUnfolds(p, s, budget + (end - j) - 1);
      t := MetRun(p, d, Step(p, s).0, taken, j + 1, end, c, budget);
    }
  }

  /** The state in which the second lane is sent back. */
  ghost function SentBack(p: Program, c: Core, end: nat, taken: bool): Core
    requires |p.uops| > 1
  {
    ScalarSteps(p, c, end).(pc := BranchPC(p, 1, !taken))
  }

  lemma RewindRun(p: Program, s: State, taken: bool, n: nat, end: nat, c: Core, budget: nat) returns (v: State)
    requires DiamondShape(p) && Distinct(p) && Meets(p, taken, n) && Joins(p, !taken, end) && Met(p, s, taken, end, c)
    ensures Valid(p, s) && Valid(p, v) && Together(p, v, 2) && v.stack == [] && |v.lanes| == 2 && |p.uops| > 1
    ensures Run(p, s, budget + 1) == Run(p, v, budget + 1) && v.lanes[1].core == SentBack(p, c, end, taken)
    ensures Selected(v.lanes[0]) && v.lanes[0].core.pc != v.lanes[1].core.pc && Find(p, v.lanes[0].core.pc, 1, |p.uops|) >= 2
  {
    var from := BranchPC(p, 1, !taken);
    assert Path(p, BranchPC(p, 1, taken), n) != Reconvergence(p.uops[1]);
    assert Path(p, from, 0) == from;
    assert end > 0;
    assert LiveAt(p, Path(p, from, 0));
    RewindStep(p, s, taken, end, c);
    v := Popped(s);
    RunUnfolds(p, s, budget);
    RunUnfolds(p, v, budget);
    hide Path, Step, Run, DiamondShape, Distinct, Meets, Popped, ScalarSteps, Find;
  }

  /**
   From the moment the lanes part: as soon as the paths have reconverged, the second lane has been sent
   back to the start of its side with the registers of its end, and from there it goes on.
   */
  lemma PartedLanesMeet(p: Program, d: nat, s: State, taken: bool, n: nat, end: nat, c: Core, budget: nat) returns (m: nat)
    requires DiamondShape(p) && Distinct(p) && Forward(p) && Lively(p, d) && Meets(p, taken, n) && Joins(p, !taken, end)
    requires Apiece(p, s, taken, 0, c) && budget > n + end
    ensures Valid(p, s) && |s.lanes| == 2 && |p.uops| > 1
    ensures Run(p, s, budget).lanes[1].core == ScalarSteps(p, SentBack(p, c, end, taken), m) && (budget == n + end + 1 ==> m == 0)
  {
    hide *;
    var t := ApieceRun(p, d, s, taken, 0, n, c, budget - n);
    ApieceIsMet(p, t, taken, n, c);
    var u := MetRun(p, d, t, taken, 0, end, c, budget - n - end);
    var v := RewindRun(p, u, taken, n, end, c, budget - n - end - 1);
    DistinctIsCoherent(p);
    TogetherParks(p, v);
    m := TogetherRun(p, v, budget - n - end, 1);
    if budget == n + end + 1 {
      m := 0;
      OtherStays(p, v);
      ScalarNothing(p, v.lanes[1].core);
    }
  }

  lemma ScalarNothing(p: Program, c: Core)
    ensures ScalarSteps(p, c, 0) == c
  {
  }

  lemma TogetherParks(p: Program, s: State)
    requires Valid(p, s) && Together(p, s, 2)
    ensures Parking(s) && Tracks(p, s, s.lanes)
  {
  }

  /** The first lane leads from another PC: the second one stays. */
  lemma OtherStays(p: Program, s: State)
    requires DiamondShape(p) && Coherent(p) && Valid(p, s) && Together(p, s, 2) && s.stack == [] && |s.lanes| == 2
    requires Selected(s.lanes[0]) && s.lanes[0].core.pc != s.lanes[1].core.pc && Find(p, s.lanes[0].core.pc, 1, |p.uops|) >= 2
    ensures Run(p, s, 1).lanes[1].core == s.lanes[1].core
  {
    TogetherParks(p, s);
    OrderlyStep(p, s, s.lanes);
    StepIsLaneWise(p, s, s.lanes);
    StepCases(p, s);
    FetchFinds(p, s.lanes[0]);
    assert Popped(s) == s && Leader(s.lanes, 0) == 0;
    assert !Moves(p, s, 1);
    OwnAfterMeans(p, s, s.lanes);
    RunUnfolds(p, s, 0);
    RunNothing(p, Step(p, s).0);
    hide Step, Run, Moves, OwnStep, OwnAfter, Parking, Coherent, DiamondShape, Valid;
  }

  lemma DistinctIsCoherent(p: Program)
    requires Distinct(p)
    ensures Coherent(p)
  {
    hide CoreStep;
    forall j: nat, k: nat | Shown(p, j) && Shown(p, k) && p.uops[j].pc == p.uops[k].pc ensures SameAct(p, j, k) {
      ShownInside(p, j);
      ShownInside(p, k);
    }
  }

  /** Without parked lanes and value branches a run is lane-wise. */
  lemma TogetherRun(p: Program, s: State, budget: nat, i: nat) returns (m: nat)
    requires DiamondShape(p) && Coherent(p) && Together(p, s, 2) && Valid(p, s) && Parking(s) && Tracks(p, s, s.lanes) && i < |s.lanes|
    ensures Run(p, s, budget).lanes[i].core == ScalarSteps(p, s.lanes[i].core, m)
  {
    OrderlyRun(p, s, s.lanes, budget);
    RunIsLaneWise(p, s, s.lanes, budget);
    var final := RunOwn(p, s, s.lanes, budget);
    hide Run, RunOwn, CleanRun, OwnSteps, Coherent, DiamondShape;
    m :| OwnSteps(p, s.lanes[i], m) == final[i];
    OwnStepsAreScalar(p, s.lanes[i], m);
  }

  // ----- the branch -----

  /** Both sides exist: a lane goes on after the branch. */
  ghost predicate SidesExist(p: Program) {
    |p.uops| > 1 && forall taken :: BranchPC(p, 1, taken) != 0 && BranchPC(p, 1, taken) != p.uops[0].pc
  }

  lemma BranchLane(p: Program, d: nat, l: Lane, taken: bool)
    requires DiamondShape(p) && Lively(p, d) && SidesExist(p) && On(l, p.uops[1].pc) && (l.core.regs[d] != 0) == taken
    ensures Takes(p, 1, l) == taken && Issues(l, p.uops[1].pc)
    ensures var m := Issued(p, 1, l);
            On(m, BranchPC(p, 1, taken)) && m.blocked == l.blocked && m.core == l.core.(pc := BranchPC(p, 1, taken))
  {
    LivelyBranch(p, d, l.core);
  }

  lemma BranchParksSecond(p: Program, lanes: seq<Lane>, taken: bool)
    requires |p.uops| > 1 && |lanes| == 2 && Issues(lanes[0], p.uops[1].pc) && Takes(p, 1, lanes[0]) == taken && Takes(p, 1, lanes[1]) != taken
    requires Issues(lanes[1], p.uops[1].pc) && p.uops[1].conditional && SidesExist(p)
    requires On(Issued(p, 1, lanes[0]), BranchPC(p, 1, taken)) && On(Issued(p, 1, lanes[1]), BranchPC(p, 1, !taken))
    ensures Diverges(p, 1, lanes)
    ensures var t := Park(p, 1, lanes, []);
            && t.stack == [Entry({1}, BranchPC(p, 1, !taken), Reconvergence(p.uops[1]))] && |t.lanes| == 2
            && t.lanes[0] == Issued(p, 1, lanes[0]) && t.lanes[1] == Issued(p, 1, lanes[1]).(blocked := true)
  {
    var after := AllIssued(p, 1, lanes);
    assert FirstTakes(p, 1, lanes, 0) == taken;
    hide CoreStep, TakesBranch, Takes, Issued, BranchPC;
    assert Deferred(p, 1, taken, lanes, after) == {1};
    assert DeferredPC(p, 1, taken, lanes, after, 2) == after[1].core.pc;
  }

  lemma BranchSplits(p: Program, d: nat, s: State, taken: bool, c: Core)
    requires DiamondShape(p) && Lively(p, d) && SidesExist(p) && Valid(p, s) && |s.lanes| == 2 && s.stack == []
    requires On(s.lanes[0], p.uops[1].pc) && On(s.lanes[1], p.uops[1].pc) && !s.lanes[0].blocked && !s.lanes[1].blocked
    requires (s.lanes[0].core.regs[d] != 0) == taken && (s.lanes[1].core.regs[d] != 0) == !taken && s.lanes[1].core == c
    ensures Step(p, s).1 == Continue && Apiece(p, Step(p, s).0, taken, 0, c.(pc := BranchPC(p, 1, !taken)))
  {
    BranchLeads(p, s);
    StepValid(p, s);
    var u := Led(p, s, 0);
    hide Step, Led, Park, Diverges, MustWait, Valid, CoreStep, Takes, Issued, Issues, Path, Lively, DiamondShape, TakesBranch, SidesExist, BranchPC, Refilled;
    BranchLane(p, d, u.lanes[0], taken);
    BranchLane(p, d, u.lanes[1], !taken);
    Conditional(p);
    BranchParksSecond(p, u.lanes, taken);
    PathStarts(p, BranchPC(p, 1, taken));
  }

  lemma Conditional(p: Program)
    requires DiamondShape(p)
    ensures |p.uops| > 1 && p.uops[1].conditional
  {
  }

  lemma PathStarts(p: Program, from: nat)
    ensures Path(p, from, 0) == from
  {
  }

  lemma BranchLeads(p: Program, s: State)
    requires DiamondShape(p) && Valid(p, s) && |s.lanes| == 2 && s.stack == []
    requires On(s.lanes[0], p.uops[1].pc) && On(s.lanes[1], p.uops[1].pc) && !s.lanes[0].blocked && !s.lanes[1].blocked
    ensures var u := Led(p, s, 0);
            && |u.lanes| == 2 && u.stack == [] && u.lanes[1] == s.lanes[1] && u.lanes[0].core == s.lanes[0].core
            && u.lanes[0].ready == s.lanes[0].ready && u.lanes[0].blocked == s.lanes[0].blocked
            && Step(p, s) == if !Diverges(p, 1, u.lanes) then (u.(lanes := AllIssued(p, 1, u.lanes)), Continue) else (Park(p, 1, u.lanes, []), Continue)
  {
    StepCases(p, s);
    FirstLeads(s);
    EntryFetch(p, s.lanes[0]);
    LedIs(p, s, 0);
    hide *;
    LedReady(p, s, 0);
    NobodyWaits(p, 1, Led(p, s, 0));
    IssueUnwaited(p, 1, Led(p, s, 0));
  }

  lemma FirstLeads(s: State)
    requires |s.lanes| == 2 && s.stack == [] && Selected(s.lanes[0]) && Selected(s.lanes[1])
    ensures Popped(s) == s && Leader(s.lanes, 0) == 0 && AllReady(s)
  {
  }

  lemma IssueUnwaited(p: Program, k: nat, u: State)
    requires k < |p.uops| && !MustWait(p, k, u.lanes) && u.stack == []
    ensures Issue(p, k, u) == if !Diverges(p, k, u.lanes) then (u.(lanes := AllIssued(p, k, u.lanes)), Continue) else (Park(p, k, u.lanes, []), Continue)
  {
    hide Park, AllIssued, Diverges, MustWait;
  }

  lemma EntryFetch(p: Program, l: Lane)
    requires DiamondShape(p) && WindowValid(p, l) && l.core.pc == p.uops[1].pc
    ensures Fetch(p, l) == 1
  {
  }

  // ----- the responses -----

  function Zeros(): (s: seq<int>)
    ensures |s| == 32
  {
    seq(32, _ => 0)
  }

  /** Two lanes that wait for their source values. */
  ghost function TwoLanes(p: Program): State
    requires |p.uops| > 1
  {
    State([FirstLane(p, Zeros()), FirstLane(p, Zeros())], [])
  }

  /** The first response is not enough: the branch waits for the second lane. */
  lemma BranchWaits(p: Program, d: nat, value: int, budget: nat)
    requires DiamondShape(p) && budget > 0
    ensures Valid(p, TwoLanes(p)) && Resume(p, TwoLanes(p), 0, d, value, budget) == Answered(TwoLanes(p), 0, d, value)
  {
    var a := Answered(TwoLanes(p), 0, d, value);
    StepCases(p, a);
    assert Selected(a.lanes[0]) && Popped(a) == a && Leader(a.lanes, 0) == 0;
    EntryFetch(p, a.lanes[0]);
    assert Refilled(p, a.lanes[0]) == a.lanes[0] by { assert Find(p, p.uops[1].pc, 1, a.lanes[0].windowEnd) == 1; }
    assert Led(p, a, 0) == a by { assert a.lanes[0 := a.lanes[0]] == a.lanes; }
    assert AwaitsValue(a.lanes[1], p.uops[1].pc);
    assert Step(p, a) == (a, Waiting);
    RunUnfolds(p, a, budget - 1);
  }

  function LaneValue(taken: bool): int { if taken then 1 else 0 }

  /** The two lanes after both responses, at the branch. */
  lemma Both(p: Program, d: nat, taken: bool, budget: nat) returns (b: State, c: Core)
    requires DiamondShape(p) && budget > 0
    ensures |p.uops| > 1 && Valid(p, TwoLanes(p)) && Valid(p, b) && |b.lanes| == 2
    ensures var rs := [Response(0, LaneValue(taken)), Response(1, LaneValue(!taken))];
            Serve(p, TwoLanes(p), rs, d, budget) == Run(p, b, budget)
    ensures b == Answered(Answered(TwoLanes(p), 0, d, LaneValue(taken)), 1, d, LaneValue(!taken))
    ensures c == WithSource(FirstLane(p, Zeros()).core, d, LaneValue(!taken)) && b.lanes[1].core == c
  {
    var rs := [Response(0, LaneValue(taken)), Response(1, LaneValue(!taken))];
    var s, a := TwoLanes(p), Answered(TwoLanes(p), 0, d, LaneValue(taken));
    BranchWaits(p, d, LaneValue(taken), budget);
    b := Answered(a, 1, d, LaneValue(!taken));
    c := b.lanes[1].core;
    hide DiamondShape, Serve, Run;
    ServeTwo(p, s, rs, d, budget);
  }

  lemma BothReady(p: Program, d: nat, taken: bool, b: State, c: Core)
    requires DiamondShape(p) && d < 32
    requires b == Answered(Answered(TwoLanes(p), 0, d, LaneValue(taken)), 1, d, LaneValue(!taken)) && c == b.lanes[1].core
    ensures Valid(p, b) && |b.lanes| == 2 && b.stack == []
    ensures On(b.lanes[0], p.uops[1].pc) && On(b.lanes[1], p.uops[1].pc) && !b.lanes[0].blocked && !b.lanes[1].blocked
    ensures (b.lanes[0].core.regs[d] != 0) == taken && (b.lanes[1].core.regs[d] != 0) == !taken
  {
    EntryFound(p);
    hide DiamondShape, Find;
  }

  lemma EntryFound(p: Program)
    requires |p.uops| > 1
    ensures Find(p, p.uops[1].pc, 1, |p.uops|) == 1
  {
  }

  lemma ServeTwo(p: Program, s: State, rs: seq<Response>, d: nat, budget: nat)
    requires Valid(p, s) && |rs| == 2
    ensures var t := Resume(p, s, rs[0].lane, d, rs[0].value, budget);
            Serve(p, s, rs, d, budget) == Resume(p, t, rs[1].lane, d, rs[1].value, budget)
  {
    hide Resume, Valid;
    var rest := rs[1..];
    assert rest[0] == rs[1] && rest[1..] == [];
    var t := Resume(p, s, rs[0].lane, d, rs[0].value, budget);
    var u := Resume(p, t, rs[1].lane, d, rs[1].value, budget);
    assert Serve(p, u, [], d, budget) == u;
    assert Serve(p, t, rest, d, budget) == Serve(p, u, rest[1..], d, budget);
  }

  /** A lane at the branch with its source value. */
  function SecondCore(p: Program, d: nat, taken: bool): Core
    requires |p.uops| > 1
  {
    WithSource(FirstLane(p, Zeros()).core, d, LaneValue(!taken))
  }

  /** Both responses, for two lanes that take different sides: where the second one is after the meeting. */
  lemma ServedLanesMeet(p: Program, d: nat, taken: bool, n: nat, end: nat, budget: nat) returns (m: nat)
    requires DiamondShape(p) && SidesExist(p) && Distinct(p) && Forward(p) && Lively(p, d)
    requires Meets(p, taken, n) && Joins(p, !taken, end) && budget > n + end + 1
    ensures |p.uops| > 1 && Valid(p, TwoLanes(p))
    ensures var rs := [Response(0, LaneValue(taken)), Response(1, LaneValue(!taken))];
            && Serve(p, TwoLanes(p), rs, d, budget).lanes[1].core
               == ScalarSteps(p, SentBack(p, SecondCore(p, d, taken).(pc := BranchPC(p, 1, !taken)), end, taken), m)
            && (budget == n + end + 2 ==> m == 0)
  {
    hide *;
    LivelyRegister(p, d);
    var b, c := Both(p, d, taken, budget);
    BothReady(p, d, taken, b, c);
    BranchSplits(p, d, b, taken, c);
    RunUnfolds(p, b, budget - 1);
    m := PartedLanesMeet(p, d, Step(p, b).0, taken, n, end, c.(pc := BranchPC(p, 1, !taken)), budget - 1);
    SecondCoreIs(p, d, taken);
  }

  lemma LivelyRegister(p: Program, d: nat)
    requires Lively(p, d)
    ensures d < 32 && |p.uops| > 1
  {
  }

  lemma SecondCoreIs(p: Program, d: nat, taken: bool)
    requires |p.uops| > 1
    ensures SecondCore(p, d, taken) == WithSource(FirstLane(p, Zeros()).core, d, LaneValue(!taken))
  {
  }
}
