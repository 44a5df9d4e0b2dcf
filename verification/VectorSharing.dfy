/**
 Diamonds whose sides may share operations: if nothing that the sides share writes a register, a lane that
 is issued while it is parked and sent back later has lost nothing. The group executor is then right for
 every meaning of the operations, all lanes, responses and budgets.
 */
module VectorSharing {
  import opened Wrappers
  import opened VectorExecutor
  import opened VectorRefinement
  import opened VectorPrograms
  import opened VectorShapes
  import opened VectorMeeting

  // ----- states of a lane -----

  /** The same state; where a lane stands that has ended does not matter. */
  predicate Same(a: Core, b: Core) { a == b || (!a.active && !b.active && a.regs == b.regs) }

  /** A state that the lane has on its own. */
  ghost predicate OwnState(p: Program, start: Core, c: Core) { exists n :: Same(ScalarSteps(p, start, n), c) }

  lemma OwnStart(p: Program, c: Core)
    ensures OwnState(p, c, c) && OwnState(p, c, ScalarStep(p, c))
  {
    assert ScalarSteps(p, c, 0) == c;
    assert ScalarSteps(p, c, 1) == ScalarStep(p, c);
  }

  lemma OwnStateStep(p: Program, start: Core, c: Core)
    requires OwnState(p, start, c)
    ensures OwnState(p, start, ScalarStep(p, c))
  {
    var n: nat :| Same(ScalarSteps(p, start, n), c);
    if c.active { assert ScalarSteps(p, start, n + 1) == ScalarStep(p, c); }
  }

  lemma OwnStateSame(p: Program, start: Core, c: Core, d: Core)
    requires OwnState(p, start, c) && Same(c, d)
    ensures OwnState(p, start, d)
  {
    var n: nat :| Same(ScalarSteps(p, start, n), c);
    assert Same(ScalarSteps(p, start, n), d);
  }

  // ----- what the sides share -----

  /** An operation that computes a value for its destination. */
  predicate Writes(op: Uop) { !op.conditional && !(op.control && op.target != 0) && (op.control ==> op.writes) && 0 <= op.destination < 32 }

  ghost predicate WritesAt(p: Program, pc: nat) {
    var k := Find(p, pc, 1, |p.uops|);
    k >= 0 && Writes(p.uops[k])
  }

  /** Side `taken` has met the start of the other one, and is on its way to `reconvergence`. */
  ghost predicate Shares(p: Program, taken: bool, m: nat, n: nat, reconvergence: nat) {
    && |p.uops| > 1 && m <= n && Path(p, BranchPC(p, 1, taken), m) == BranchPC(p, 1, !taken)
    && forall j :: 0 <= j <= n ==> Path(p, BranchPC(p, 1, taken), j) != reconvergence
  }

  /** No shared operation writes a register. */
  ghost predicate SharesQuietly(p: Program, reconvergence: nat)
    requires |p.uops| > 1
  {
    forall taken, m, n :: Shares(p, taken, m, n, reconvergence) ==> !WritesAt(p, Path(p, BranchPC(p, 1, taken), n))
  }

  lemma QuietStep(p: Program, k: nat, c: Core)
    requires k < |p.uops| && |c.regs| == 32
    ensures |CoreStep(p, k, c).regs| == 32 && (!Writes(p.uops[k]) ==> CoreStep(p, k, c).regs == c.regs)
  {
  }

  // ----- the lanes behind the branch -----

  /** The side has met the start of the other one before place `n`. */
  ghost predicate MetBefore(p: Program, taken: bool, n: nat)
    requires |p.uops| > 1
  {
    exists m :: 0 <= m < n && Path(p, BranchPC(p, 1, taken), m) == BranchPC(p, 1, !taken)
  }

  /** Where a parked lane stands if it has not ended. */
  ghost function ParkedAt(p: Program, taken: bool, n: nat): nat
    requires |p.uops| > 1
  {
    if MetBefore(p, taken, n) then Path(p, BranchPC(p, 1, taken), n) else BranchPC(p, 1, !taken)
  }

  ghost predicate SideLane(p: Program, l: Lane, i: nat, e: Entry, taken: bool, n: nat, start: Core)
    requires |p.uops| > 1
  {
    && |l.core.regs| == 32 && OwnState(p, start, l.core) && (l.core.active ==> l.ready)
    && if i in e.deferred then
         && l.blocked && e.deferredPC == BranchPC(p, 1, !taken)
         && ScalarStep(p, start) == Core(BranchPC(p, 1, !taken), l.core.regs, true)
         && (l.core.active ==> l.core.pc == ParkedAt(p, taken, n))
       else
         !l.blocked && Stands(p, l.core, 2) && (l.core.active ==> l.core.pc == Path(p, BranchPC(p, 1, taken), n))
  }

  /** One side waits; the other one is at place `n` of its path. */
  ghost predicate Sided(p: Program, s: State, taken: bool, n: nat, starts: seq<Core>) {
    && |p.uops| > 1 && |s.stack| == 1 && s.stack[0].pc == Reconvergence(p.uops[1]) && |starts| == |s.lanes|
    && (forall m :: 0 <= m < n ==> Path(p, BranchPC(p, 1, taken), m) != s.stack[0].pc)
    && forall i :: 0 <= i < |s.lanes| ==> SideLane(p, s.lanes[i], i, s.stack[0], taken, n, starts[i])
  }

  /** Nobody waits. */
  ghost predicate Joined(p: Program, s: State, starts: seq<Core>) {
    && Together(p, s, 2) && |starts| == |s.lanes| && AllReady(s)
    && forall i :: 0 <= i < |s.lanes| ==> OwnState(p, starts[i], s.lanes[i].core)
  }

  lemma OtherSide(p: Program, taken: bool)
    requires DiamondShape(p) && SidesExist(p)
    ensures Find(p, BranchPC(p, 1, taken), 1, |p.uops|) >= 2
  {
  }

  /** Sending the parked lanes back brings all together again. */
  lemma ReleasedLane(p: Program, l: Lane, i: nat, e: Entry, taken: bool, n: nat, start: Core)
    requires DiamondShape(p) && SidesExist(p) && SideLane(p, l, i, e, taken, n, start)
    ensures var m := Release(l, i, e); Free(p, m, 2) && (m.core.active ==> m.ready) && OwnState(p, start, m.core)
  {
    OtherSide(p, !taken);
    OwnStart(p, start);
    hide DiamondShape, SidesExist, ScalarStep, Path, OwnState, Find;
    if i in e.deferred {
      if l.core.active {
        assert Release(l, i, e).core == ScalarStep(p, start);
      } else {
        OwnStateSame(p, start, l.core, Release(l, i, e).core);
      }
    }
  }

  lemma PopJoins(p: Program, s: State, taken: bool, n: nat, starts: seq<Core>)
    requires DiamondShape(p) && SidesExist(p) && Sided(p, s, taken, n, starts) && MustPop(s)
    ensures Joined(p, Popped(s), starts)
  {
    var t := Popped(s);
    hide DiamondShape, SidesExist, Path, OwnState, MustPop;
    forall i | 0 <= i < |s.lanes|
      ensures t.lanes[i] == Release(s.lanes[i], i, s.stack[0]) && Free(p, t.lanes[i], 2) && (t.lanes[i].core.active ==> t.lanes[i].ready)
      ensures OwnState(p, starts[i], t.lanes[i].core)
    {
      assert SideLane(p, s.lanes[i], i, s.stack[0], taken, n, starts[i]);
      ReleasedLane(p, s.lanes[i], i, s.stack[0], taken, n, starts[i]);
    }
  }

  // ----- one step of one side -----

  lemma MetMore(p: Program, taken: bool, n: nat)
    requires |p.uops| > 1
    ensures MetBefore(p, taken, n + 1) <==> MetBefore(p, taken, n) || Path(p, BranchPC(p, 1, taken), n) == BranchPC(p, 1, !taken)
  {
    hide Path, BranchPC;
    if Path(p, BranchPC(p, 1, taken), n) == BranchPC(p, 1, !taken) { assert MetBefore(p, taken, n + 1); }
  }

  /** What an issue does to a lane that stands at the entry. */
  lemma IssuedCore(p: Program, k: nat, l: Lane)
    requires DiamondShape(p) && Distinct(p) && 2 <= k < |p.uops| && Issues(l, p.uops[k].pc) && |l.core.regs| == 32
    ensures var m := Issued(p, k, l);
            && m.core == ScalarStep(p, l.core) && |m.core.regs| == 32 && m.ready == m.core.active && m.blocked == l.blocked
            && Stands(p, m.core, 2) && (m.core.active ==> m.core.pc == Hop(p, k)) && (!Writes(p.uops[k]) ==> m.core.regs == l.core.regs)
  {
    assert Straight(p, k, 2) && Find(p, p.uops[k].pc, 1, |p.uops|) == k;
    StepsStraight(p, k, l.core, 2);
    QuietStep(p, k, l.core);
    hide CoreStep, Straight, DiamondShape, Distinct, Writes, Hop, Stands;
  }

  lemma SideIssued(p: Program, k: nat, l: Lane, i: nat, e: Entry, taken: bool, n: nat, start: Core)
    requires DiamondShape(p) && Distinct(p) && 2 <= k < |p.uops| && SideLane(p, l, i, e, taken, n, start)
    requires p.uops[k].pc == Path(p, BranchPC(p, 1, taken), n) && Path(p, BranchPC(p, 1, taken), n + 1) == Hop(p, k)
    requires MetBefore(p, taken, n + 1) ==> !Writes(p.uops[k])
    ensures SideLane(p, Issued(p, k, l), i, e, taken, n + 1, start)
  {
    MetMore(p, taken, n);
    hide DiamondShape, Distinct, Path, BranchPC, OwnState, ScalarStep, CoreStep, Stands, Hop, Writes, MetBefore;
    if Issues(l, p.uops[k].pc) {
      IssuedCore(p, k, l);
      OwnStateStep(p, start, l.core);
      hide Issued;
    }
  }

  /** The next operation on the path. */
  lemma PathGoes(p: Program, from: nat, n: nat)
    requires Find(p, Path(p, from, n), 1, |p.uops|) >= 1
    ensures var k := Find(p, Path(p, from, n), 1, |p.uops|); k < |p.uops| && p.uops[k].pc == Path(p, from, n) && Path(p, from, n + 1) == Hop(p, k)
  {
    hide Hop;
  }

  /** No pop: the first of the selected lanes leads at place `n`, before the reconvergence PC. */
  lemma SideLeads(p: Program, s: State, taken: bool, n: nat, starts: seq<Core>)
    requires Distinct(p) && Valid(p, s) && Sided(p, s, taken, n, starts) && !MustPop(s)
    ensures Popped(s) == s && Leader(s.lanes, 0) < |s.lanes| && AllReady(s)
    ensures var j, pc := Leader(s.lanes, 0), Path(p, BranchPC(p, 1, taken), n);
            && s.lanes[j].core.pc == pc != s.stack[0].pc && Find(p, pc, 1, |p.uops|) >= 2 && Fetch(p, s.lanes[j]) == Find(p, pc, 1, |p.uops|)
  {
    hide Path, OwnState, ScalarStep, Find;
    forall i | 0 <= i < |s.lanes| && s.lanes[i].core.active ensures s.lanes[i].ready {
      assert SideLane(p, s.lanes[i], i, s.stack[0], taken, n, starts[i]);
    }
    var j := Leader(s.lanes, 0);
    assert AnySelected(s.lanes);
    assert Selected(s.lanes[j]);
    assert SideLane(p, s.lanes[j], j, s.stack[0], taken, n, starts[j]);
    assert !AnySelectedAt(s.lanes, s.stack[0].pc);
    FetchIs(p, s.lanes[j]);
  }

  lemma LedSided(p: Program, s: State, j: nat, taken: bool, n: nat, starts: seq<Core>)
    requires Valid(p, s) && j < |s.lanes| && Sided(p, s, taken, n, starts)
    ensures Sided(p, Led(p, s, j), taken, n, starts)
  {
    var u := Led(p, s, j);
    hide Path, OwnState, ScalarStep, Stands, ParkedAt;
    forall i | 0 <= i < |u.lanes| ensures SideLane(p, u.lanes[i], i, u.stack[0], taken, n, starts[i]) {
      assert SideLane(p, s.lanes[i], i, s.stack[0], taken, n, starts[i]);
    }
  }

  /** All lanes of an issue at place `n`. */
  lemma SidedLanes(p: Program, u: State, k: nat, taken: bool, n: nat, starts: seq<Core>)
    requires DiamondShape(p) && Distinct(p) && SharesQuietly(p, Reconvergence(p.uops[1])) && Sided(p, u, taken, n, starts)
    requires Path(p, BranchPC(p, 1, taken), n) != u.stack[0].pc && 2 <= k == Find(p, Path(p, BranchPC(p, 1, taken), n), 1, |p.uops|)
    ensures forall i :: 0 <= i < |u.lanes| ==> SideLane(p, Issued(p, k, u.lanes[i]), i, u.stack[0], taken, n + 1, starts[i])
    ensures forall m :: 0 <= m < n + 1 ==> Path(p, BranchPC(p, 1, taken), m) != u.stack[0].pc
  {
    hide DiamondShape, Distinct, SharesQuietly, Path, Writes, Hop, MetBefore, Find, SideLane, Issued, BranchPC;
    PathGoes(p, BranchPC(p, 1, taken), n);
    QuietHere(p, taken, n);
    forall i | 0 <= i < |u.lanes| ensures SideLane(p, Issued(p, k, u.lanes[i]), i, u.stack[0], taken, n + 1, starts[i]) {
      assert SideLane(p, u.lanes[i], i, u.stack[0], taken, n, starts[i]);
      SideIssued(p, k, u.lanes[i], i, u.stack[0], taken, n, starts[i]);
    }
  }

  lemma SidedIs(p: Program, t: State, u: State, k: nat, taken: bool, n: nat, starts: seq<Core>)
    requires k < |p.uops| && Sided(p, u, taken, n, starts) && t.stack == u.stack && |t.lanes| == |u.lanes|
    requires forall i :: 0 <= i < |u.lanes| ==> t.lanes[i] == Issued(p, k, u.lanes[i])
    requires forall i :: 0 <= i < |u.lanes| ==> SideLane(p, Issued(p, k, u.lanes[i]), i, u.stack[0], taken, n + 1, starts[i])
    requires forall m :: 0 <= m < n + 1 ==> Path(p, BranchPC(p, 1, taken), m) != u.stack[0].pc
    ensures Sided(p, t, taken, n + 1, starts)
  {
    hide SideLane, Path, Issued, BranchPC;
  }

  lemma SidedMeans(p: Program, s: State, taken: bool, n: nat, starts: seq<Core>)
    requires Sided(p, s, taken, n, starts)
    ensures |p.uops| > 1 && |s.stack| == 1 && s.stack[0].pc == Reconvergence(p.uops[1]) && |starts| == |s.lanes|
  {
  }

  lemma SidedIssue(p: Program, u: State, k: nat, taken: bool, n: nat, starts: seq<Core>)
    requires DiamondShape(p) && Distinct(p) && SharesQuietly(p, Reconvergence(p.uops[1])) && Sided(p, u, taken, n, starts) && AllReady(u)
    requires Path(p, BranchPC(p, 1, taken), n) != u.stack[0].pc && 2 <= k == Find(p, Path(p, BranchPC(p, 1, taken), n), 1, |p.uops|)
    ensures k < |p.uops| && Sided(p, Issue(p, k, u).0, taken, n + 1, starts) && Issue(p, k, u).1 == Continue
  {
    hide *;
    SidedMeans(p, u, taken, n, starts);
    PathGoes(p, BranchPC(p, 1, taken), n);
    BehindBranch(p, k);
    SameTakes(p, k, u.lanes);
    NobodyWaits(p, k, u);
    NoDivergence(p, k, u);
    SidedLanes(p, u, k, taken, n, starts);
    SidedIs(p, Issue(p, k, u).0, u, k, taken, n, starts);
  }

  /** A side that has met the start of the other writes nothing here. */
  lemma QuietHere(p: Program, taken: bool, n: nat)
    requires |p.uops| > 1 && SharesQuietly(p, Reconvergence(p.uops[1]))
    requires forall m :: 0 <= m <= n ==> Path(p, BranchPC(p, 1, taken), m) != Reconvergence(p.uops[1])
    ensures MetBefore(p, taken, n + 1) ==> !WritesAt(p, Path(p, BranchPC(p, 1, taken), n))
  {
    hide Path, WritesAt;
    if MetBefore(p, taken, n + 1) {
      var m :| 0 <= m < n + 1 && Path(p, BranchPC(p, 1, taken), m) == BranchPC(p, 1, !taken);
      assert Shares(p, taken, m, n, Reconvergence(p.uops[1]));
    }
  }

  // ----- steps and runs -----

  /** Whatever the sides of the diamond share writes no register. */
  ghost predicate QuietDiamond(p: Program) {
    DiamondShape(p) && SidesExist(p) && Distinct(p) && SharesQuietly(p, Reconvergence(p.uops[1]))
  }

  lemma QuietDiamondMeans(p: Program)
    requires QuietDiamond(p)
    ensures |p.uops| > 1 && DiamondShape(p) && SidesExist(p) && Distinct(p) && SharesQuietly(p, Reconvergence(p.uops[1]))
  {
    hide SharesQuietly, SidesExist, Distinct;
  }

  /** Behind the branch. */
  ghost predicate Behind(p: Program, s: State, starts: seq<Core>) {
    Joined(p, s, starts) || exists taken, n :: Sided(p, s, taken, n, starts)
  }

  /** Without parked lanes every step is one of their own for the lanes that move. */
  lemma JoinedStep(p: Program, s: State, starts: seq<Core>)
    requires DiamondShape(p) && Coherent(p) && Valid(p, s) && Joined(p, s, starts)
    ensures Joined(p, Step(p, s).0, starts)
  {
    TogetherParks(p, s);
    OrderlyStep(p, s, s.lanes);
    StepCores(p, s, s.lanes);
    AllReadyKept(p, s);
    StepValid(p, s);
    var t := Step(p, s).0;
    TogetherStays(p, s);
    hide Step, Coherent, DiamondShape, Valid, Parking, Together, OwnState, ScalarStep, AllReady, CleanStep, Orderly, Moves;
    forall i | 0 <= i < |t.lanes| ensures OwnState(p, starts[i], t.lanes[i].core) {
      OwnStateStep(p, starts[i], s.lanes[i].core);
    }
  }

  lemma TogetherStays(p: Program, s: State)
    requires DiamondShape(p) && Coherent(p) && Valid(p, s) && Together(p, s, 2)
    ensures Together(p, Step(p, s).0, 2)
  {
    StepCases(p, s);
    assert Popped(s) == s;
    var j := Leader(s.lanes, 0);
    if j < |s.lanes| {
      LeaderFinds(p, s, j, true, 0, 2);
      LedPhase(p, s, j, true, 0, 2);
      assert Free(p, s.lanes[j], 2);
      var k := Fetch(p, s.lanes[j]);
      assert 2 <= k && Straight(p, k, 2);
      hide Fetch, Led, Issue, DiamondShape, Coherent, Popped, Leader, Valid, Step, Straight;
      TogetherIssue(p, k, Led(p, s, j), 2);
    }
  }

  lemma StepOfPopped(p: Program, s: State)
    requires Valid(p, s) && Popped(s).stack == []
    ensures Valid(p, Popped(s)) && Step(p, s) == Step(p, Popped(s))
  {
    PoppedValid(p, s);
    assert Popped(Popped(s)) == Popped(s);
    hide Popped, Leader, Refilled, Drop, Issue, Fetch, Valid;
  }

  lemma SidedStep(p: Program, s: State, taken: bool, n: nat, starts: seq<Core>)
    requires QuietDiamond(p) && Valid(p, s) && Sided(p, s, taken, n, starts)
    ensures Behind(p, Step(p, s).0, starts)
  {
    hide *;
    QuietDiamondMeans(p);
    SidedMeans(p, s, taken, n, starts);
    DistinctIsCoherent(p);
    if MustPop(s) {
      PopJoins(p, s, taken, n, starts);
      JoinedStack(p, Popped(s), starts);
      StepOfPopped(p, s);
      JoinedStep(p, Popped(s), starts);
      JoinedIsBehind(p, Step(p, s).0, starts);
    } else {
      SideLeads(p, s, taken, n, starts);
      StepCases(p, s);
      var j := Leader(s.lanes, 0);
      LaneWindow(p, s, j);
      LedSided(p, s, j, taken, n, starts);
      LedIs(p, s, j);
      LedReady(p, s, j);
      var k := Fetch(p, s.lanes[j]);
      SidedIssue(p, Led(p, s, j), k, taken, n, starts);
      SidedIsBehind(p, Step(p, s).0, taken, n + 1, starts);
    }
  }

  lemma JoinedStack(p: Program, s: State, starts: seq<Core>)
    requires Joined(p, s, starts)
    ensures s.stack == []
  {
    hide OwnState;
  }

  lemma LaneWindow(p: Program, s: State, j: nat)
    requires Valid(p, s) && j < |s.lanes|
    ensures WindowValid(p, s.lanes[j])
  {
  }

  lemma JoinedIsBehind(p: Program, s: State, starts: seq<Core>)
    requires Joined(p, s, starts)
    ensures Behind(p, s, starts)
  {
    hide Joined;
  }

  lemma SidedIsBehind(p: Program, s: State, taken: bool, n: nat, starts: seq<Core>)
    requires Sided(p, s, taken, n, starts)
    ensures Behind(p, s, starts)
  {
    hide Sided;
  }

  lemma BehindStep(p: Program, s: State, starts: seq<Core>)
    requires QuietDiamond(p) && Valid(p, s) && Behind(p, s, starts)
    ensures Behind(p, Step(p, s).0, starts)
  {
    hide DiamondShape, SidesExist, Distinct, SharesQuietly, Valid, Step, Joined, Sided, Reconvergence;
    if Joined(p, s, starts) {
      DistinctIsCoherent(p);
      JoinedStep(p, s, starts);
    } else {
      var taken, n: nat :| Sided(p, s, taken, n, starts);
      SidedStep(p, s, taken, n, starts);
    }
  }

  lemma BehindOwn(p: Program, s: State, starts: seq<Core>)
    requires Behind(p, s, starts)
    ensures |starts| == |s.lanes| && forall i :: 0 <= i < |s.lanes| ==> OwnState(p, starts[i], s.lanes[i].core)
  {
    hide OwnState, Path, Stands;
    if !Joined(p, s, starts) {
      var taken, n: nat :| Sided(p, s, taken, n, starts);
      forall i | 0 <= i < |s.lanes| ensures OwnState(p, starts[i], s.lanes[i].core) {
        assert SideLane(p, s.lanes[i], i, s.stack[0], taken, n, starts[i]);
      }
    }
  }

  lemma {:induction false} BehindRun(p: Program, s: State, starts: seq<Core>, budget: nat)
    requires QuietDiamond(p) && Valid(p, s) && Behind(p, s, starts)
    ensures Behind(p, Run(p, s, budget), starts)
    decreases budget
  {
    hide *;
    if budget == 0 {
      RunNothing(p, s);
    } else {
      BehindStep(p, s, starts);
      RunUnfolds(p, s, budget - 1);
      if Step(p, s).1.Continue? { BehindRun(p, Step(p, s).0, starts, budget - 1); }
    }
  }

  // ----- the branch -----

  function Cores(lanes: seq<Lane>): (cs: seq<Core>)
    ensures |cs| == |lanes| && forall i :: 0 <= i < |cs| ==> cs[i] == lanes[i].core
  {
    seq(|lanes|, i requires 0 <= i < |lanes| => lanes[i].core)
  }

  ghost predicate Full(s: State) { forall i :: 0 <= i < |s.lanes| ==> |s.lanes[i].core.regs| == 32 }

  /** A lane behind the branch. */
  lemma BranchCore(p: Program, l: Lane)
    requires DiamondShape(p) && Issues(l, p.uops[1].pc) && |l.core.regs| == 32
    ensures var m := Issued(p, 1, l);
            && m.core == ScalarStep(p, l.core) && m.core.regs == l.core.regs && m.ready == m.core.active && m.blocked == l.blocked
            && OwnState(p, l.core, m.core) && Stands(p, m.core, 2)
  {
    EntryFound(p);
    StepsBranch(p, l.core);
    OwnStart(p, l.core);
    assert CoreStep(p, 1, l.core).regs == l.core.regs;
    hide OwnState, Stands, BranchPC, TakesBranch, Find;
  }

  /** The branch parts the lanes: the parked ones stand at the start of the other side. */
  lemma BranchSides(p: Program, u: State)
    requires DiamondShape(p) && u.stack == [] && Full(u) && Unparked(p, 1, u) && OwnGroup(p, 1, u) && Diverges(p, 1, u.lanes)
    requires forall i :: 0 <= i < |u.lanes| ==> Issues(u.lanes[i], p.uops[1].pc) && !u.lanes[i].blocked
    ensures Sided(p, Park(p, 1, u.lanes, []), FirstTakes(p, 1, u.lanes, 0), 0, Cores(u.lanes))
  {
    var first, t := FirstTakes(p, 1, u.lanes, 0), Park(p, 1, u.lanes, []);
    BranchParks(p, u);
    ParkShape(p, u.lanes);
    PathStarts(p, BranchPC(p, 1, first));
    assert !MetBefore(p, first, 0);
    hide DiamondShape, Unparked, OwnGroup, Diverges, Park, FirstTakes, Path, OwnState, ScalarStep, CoreStep, Stands, Issued, Issues;
    forall i | 0 <= i < |t.lanes| ensures SideLane(p, t.lanes[i], i, t.stack[0], first, 0, Cores(u.lanes)[i]) {
      assert OnSide(p, t.lanes[i], i, t.stack[0], first, 0);
      BranchCore(p, u.lanes[i]);
    }
  }

  lemma ParkShape(p: Program, lanes: seq<Lane>)
    requires |p.uops| > 1
    ensures var t := Park(p, 1, lanes, []);
            && |t.lanes| == |lanes| && |t.stack| == 1 && t.stack[0].pc == Reconvergence(p.uops[1])
            && forall i :: 0 <= i < |lanes| ==>
                 && t.lanes[i].core == Issued(p, 1, lanes[i]).core && t.lanes[i].ready == Issued(p, 1, lanes[i]).ready
                 && (i in t.stack[0].deferred ==> t.lanes[i].core.active)
  {
    hide CoreStep, TakesBranch, FirstTakes, DeferredPC;
  }

  /** The leader at the branch. */
  lemma BranchLeader(p: Program, s: State)
    requires DiamondShape(p) && Valid(p, s) && AtBranch(p, s)
    ensures Popped(s) == s && forall i :: 0 <= i < |s.lanes| ==> Fetch(p, s.lanes[i]) == 1 && WindowValid(p, s.lanes[i])
  {
    forall i | 0 <= i < |s.lanes| ensures Fetch(p, s.lanes[i]) == 1 {
      assert Before(p, s.lanes[i]);
      EntryFetch(p, s.lanes[i]);
    }
  }

  lemma LedSame(p: Program, s: State, j: nat)
    requires j < |s.lanes| && WindowValid(p, s.lanes[j])
    ensures var u := Led(p, s, j);
            && u.stack == s.stack && |u.lanes| == |s.lanes|
            && forall i :: 0 <= i < |s.lanes| ==> u.lanes[i].core == s.lanes[i].core && u.lanes[i].ready == s.lanes[i].ready && u.lanes[i].blocked == s.lanes[i].blocked
  {
  }

  lemma SplitsOrStays(p: Program, u: State)
    requires DiamondShape(p) && AtBranch(p, u) && AllReady(u) && Full(u)
    ensures Behind(p, Issue(p, 1, u).0, Cores(u.lanes))
  {
    BranchIssue(p, u);
    NobodyWaits(p, 1, u);
    forall i | 0 <= i < |u.lanes| ensures Issues(u.lanes[i], p.uops[1].pc) && !u.lanes[i].blocked { assert Before(p, u.lanes[i]); }
    if Diverges(p, 1, u.lanes) {
      BranchSides(p, u);
      assert Issue(p, 1, u).0 == Park(p, 1, u.lanes, []);
      SidedIsBehind(p, Issue(p, 1, u).0, FirstTakes(p, 1, u.lanes, 0), 0, Cores(u.lanes));
    } else {
      NoDivergence(p, 1, u);
      AllAlike(p, u, Issue(p, 1, u).0);
      JoinedIsBehind(p, Issue(p, 1, u).0, Cores(u.lanes));
    }
  }

  lemma AllAlike(p: Program, u: State, t: State)
    requires DiamondShape(p) && u.stack == t.stack == [] && Full(u) && |t.lanes| == |u.lanes|
    requires forall i :: 0 <= i < |u.lanes| ==> Issues(u.lanes[i], p.uops[1].pc) && !u.lanes[i].blocked && t.lanes[i] == Issued(p, 1, u.lanes[i])
    ensures Joined(p, t, Cores(u.lanes))
  {
    hide DiamondShape, Issued, Issues, OwnState, Stands, ScalarStep;
    forall i | 0 <= i < |t.lanes| ensures Free(p, t.lanes[i], 2) && (t.lanes[i].core.active ==> t.lanes[i].ready) && OwnState(p, u.lanes[i].core, t.lanes[i].core) {
      BranchCore(p, u.lanes[i]);
    }
  }

  lemma BranchStep(p: Program, s: State)
    requires DiamondShape(p) && Valid(p, s) && AtBranch(p, s) && AllReady(s) && Full(s)
    ensures Behind(p, Step(p, s).0, Cores(s.lanes))
  {
    StepCases(p, s);
    BranchLeader(p, s);
    var j := Leader(s.lanes, 0);
    if j < |s.lanes| {
      var u := Led(p, s, j);
      LedPhase(p, s, j, true, 0, 2);
      LedReady(p, s, j);
      LedSame(p, s, j);
      assert Cores(u.lanes) == Cores(s.lanes) && Full(u);
      hide *;
      SplitsOrStays(p, u);
    } else {
      NobodyThere(p, s);
      JoinedIsBehind(p, s, Cores(s.lanes));
    }
  }

  lemma NobodyThere(p: Program, s: State)
    requires |p.uops| > 1 && AtBranch(p, s) && AllReady(s) && Leader(s.lanes, 0) == |s.lanes|
    ensures Joined(p, s, Cores(s.lanes)) && s.lanes == []
  {
    if s.lanes != [] {
      assert false;
    }
  }

  /** Some lane at the branch has no source value: nobody moves. */
  lemma BranchHolds(p: Program, s: State, budget: nat, x: nat)
    requires DiamondShape(p) && Valid(p, s) && AtBranch(p, s) && !AllReady(s) && x < |s.lanes| && s.lanes[x].ready && budget > 0
    ensures var t := Run(p, s, budget);
            && AtBranch(p, t) && |t.lanes| == |s.lanes|
            && forall i :: 0 <= i < |s.lanes| ==> t.lanes[i].core == s.lanes[i].core && t.lanes[i].ready == s.lanes[i].ready
  {
    StepCases(p, s);
    BranchLeader(p, s);
    assert Before(p, s.lanes[x]) && Selected(s.lanes[x]);
    var j := Leader(s.lanes, 0);
    var u := Led(p, s, j);
    LedPhase(p, s, j, true, 0, 2);
    LedSame(p, s, j);
    var y :| 0 <= y < |s.lanes| && s.lanes[y].core.active && !s.lanes[y].ready;
    assert Before(p, u.lanes[y]) && AwaitsValue(u.lanes[y], p.uops[1].pc);
    assert Step(p, s) == (u, Waiting);
    RunUnfolds(p, s, budget - 1);
    hide Run, Step, DiamondShape, Valid, Led, Leader, Popped;
  }

  // ----- all responses -----

  lemma AnsweredAtBranch(p: Program, s: State, lane: nat, d: int, value: int)
    requires Valid(p, s) && AtBranch(p, s) && Full(s) && lane < |s.lanes|
    ensures var a := Answered(s, lane, d, value);
            && Valid(p, a) && AtBranch(p, a) && Full(a) && |a.lanes| == |s.lanes| && a.lanes[lane].ready
            && forall i :: 0 <= i < |s.lanes| ==>
                 && a.lanes[i].core == (if i == lane then Sourced(s.lanes[i], d, value).core else s.lanes[i].core)
                 && a.lanes[i].core.active && (i != lane ==> a.lanes[i].ready == s.lanes[i].ready)
  {
    var a := Answered(s, lane, d, value);
    forall i | 0 <= i < |a.lanes| ensures Before(p, a.lanes[i]) && WindowValid(p, a.lanes[i]) { assert Before(p, s.lanes[i]) && WindowValid(p, s.lanes[i]); }
  }

  /** All lanes are answered: no response is left. */
  lemma LastResponse(s: State, a: State, rs: seq<Response>)
    requires rs != [] && Expected(s, rs) && |a.lanes| == |s.lanes| && AllReady(a)
    requires forall i :: 0 <= i < |s.lanes| ==> a.lanes[i].core.active && (i != rs[0].lane ==> a.lanes[i].ready == s.lanes[i].ready)
    ensures rs == [rs[0]]
  {
    if |rs| > 1 { MoreResponses(s, a, rs); }
  }

  lemma MoreResponses(s: State, a: State, rs: seq<Response>)
    requires |rs| > 1 && Expected(s, rs) && |a.lanes| == |s.lanes|
    requires forall i :: 0 <= i < |s.lanes| ==> a.lanes[i].core.active && (i != rs[0].lane ==> a.lanes[i].ready == s.lanes[i].ready)
    ensures !AllReady(a)
  {
    var i := rs[1].lane;
    assert a.lanes[i].core.active && !a.lanes[i].ready;
  }

  lemma NextResponses(s: State, t: State, rs: seq<Response>)
    requires rs != [] && Expected(s, rs) && |t.lanes| == |s.lanes|
    requires forall i :: 0 <= i < |s.lanes| && i != rs[0].lane ==> t.lanes[i].ready == s.lanes[i].ready && t.lanes[i].core == s.lanes[i].core
    ensures Expected(t, rs[1..]) && ValueFor(rs[1..], rs[0].lane) == None && forall i :: i != rs[0].lane ==> ValueFor(rs, i) == ValueFor(rs[1..], i)
  {
    var rest := rs[1..];
    forall j | 0 <= j < |rest| ensures rest[j] == rs[j + 1] && rest[j].lane != rs[0].lane {}
    NoValue(rest, rs[0].lane);
  }

  ghost predicate AllOwn(p: Program, s: State, rs: seq<Response>, d: int, t: State) {
    |t.lanes| == |s.lanes| && forall i :: 0 <= i < |s.lanes| ==> OwnState(p, StartOf(s.lanes[i], rs, i, d).core, t.lanes[i].core)
  }

  /** The last response sets the lanes going. */
  lemma LastCall(p: Program, s: State, a: State, rs: seq<Response>, d: int, budget: nat)
    requires QuietDiamond(p) && Valid(p, a) && AtBranch(p, a) && AllReady(a) && Full(a) && |a.lanes| == |s.lanes| && |rs| == 1 && budget > 0
    requires forall i :: 0 <= i < |s.lanes| ==> a.lanes[i].core == if i == rs[0].lane then Sourced(s.lanes[i], d, rs[0].value).core else s.lanes[i].core
    ensures AllOwn(p, s, rs, d, Run(p, a, budget))
  {
    hide *;
    var starts := Cores(a.lanes);
    forall i | 0 <= i < |s.lanes| ensures StartOf(s.lanes[i], rs, i, d).core == starts[i] { OnlyResponse(s.lanes[i], rs, i, d); }
    QuietDiamondMeans(p);
    BranchStep(p, a);
    RunUnfolds(p, a, budget - 1);
    var t := Step(p, a).0;
    if Step(p, a).1.Continue? { BehindRun(p, t, starts, budget - 1); }
    BehindOwn(p, Run(p, a, budget), starts);
    AllOwnIs(p, s, rs, d, Run(p, a, budget), starts);
  }

  lemma OnlyResponse(l: Lane, rs: seq<Response>, i: nat, d: int)
    requires |rs| == 1
    ensures StartOf(l, rs, i, d).core == if i == rs[0].lane then Sourced(l, d, rs[0].value).core else l.core
  {
    assert rs[1..] == [] && ValueFor(rs[1..], i) == None;
  }

  lemma AllOwnIs(p: Program, s: State, rs: seq<Response>, d: int, t: State, starts: seq<Core>)
    requires |t.lanes| == |s.lanes| == |starts| && forall i :: 0 <= i < |s.lanes| ==> StartOf(s.lanes[i], rs, i, d).core == starts[i]
    requires forall i :: 0 <= i < |t.lanes| ==> OwnState(p, starts[i], t.lanes[i].core)
    ensures AllOwn(p, s, rs, d, t)
  {
    hide OwnState, StartOf;
  }

  lemma ServeUnfold(p: Program, s: State, rs: seq<Response>, d: int, budget: nat)
    requires Valid(p, s) && rs != [] && rs[0].lane < |s.lanes| && s.lanes[rs[0].lane].core.active && budget > 0
    ensures var a := Answered(s, rs[0].lane, d, rs[0].value);
            Valid(p, a) && Serve(p, s, rs, d, budget) == Serve(p, Run(p, a, budget), rs[1..], d, budget)
  {
    hide Run;
  }

  lemma ServeNothing(p: Program, s: State, rs: seq<Response>, d: int, budget: nat)
    requires Valid(p, s) && rs == []
    ensures Serve(p, s, rs, d, budget) == s
  {
  }

  lemma StartsAgree(p: Program, s: State, t: State, rs: seq<Response>, d: int, u: State)
    requires rs != [] && |t.lanes| == |s.lanes| && AllOwn(p, t, rs[1..], d, u)
    requires ValueFor(rs[1..], rs[0].lane) == None && forall i :: i != rs[0].lane ==> ValueFor(rs, i) == ValueFor(rs[1..], i)
    requires forall i :: 0 <= i < |s.lanes| ==> t.lanes[i].core == if i == rs[0].lane then Sourced(s.lanes[i], d, rs[0].value).core else s.lanes[i].core
    ensures AllOwn(p, s, rs, d, u)
  {
    hide OwnState;
    forall i | 0 <= i < |s.lanes| ensures StartOf(s.lanes[i], rs, i, d).core == StartOf(t.lanes[i], rs[1..], i, d).core {}
  }

  lemma {:induction false} QuietIsRight(p: Program, s: State, rs: seq<Response>, d: int, budget: nat)
    requires QuietDiamond(p) && Valid(p, s) && AtBranch(p, s) && Full(s) && Expected(s, rs) && budget > 0
    ensures AllOwn(p, s, rs, d, Serve(p, s, rs, d, budget))
    decreases |rs|
  {
    if rs == [] {
      forall i | 0 <= i < |s.lanes| ensures OwnState(p, s.lanes[i].core, s.lanes[i].core) { OwnStart(p, s.lanes[i].core); }
    } else {
      var r, a := rs[0], Answered(s, rs[0].lane, d, rs[0].value);
      assert r.lane < |s.lanes| && s.lanes[r.lane].core.active;
      hide *;
      QuietDiamondMeans(p);
      AnsweredAtBranch(p, s, r.lane, d, r.value);
      ServeUnfold(p, s, rs, d, budget);
      var t := Run(p, a, budget);
      if AllReady(a) {
        LastResponse(s, a, rs);
        LastCall(p, s, a, rs, d, budget);
        ServeNothing(p, t, rs[1..], d, budget);
      } else {
        BranchHolds(p, a, budget, r.lane);
        FullIs(a, t);
        NextResponses(s, t, rs);
        QuietIsRight(p, t, rs[1..], d, budget);
        StartsAgree(p, s, t, rs, d, Serve(p, t, rs[1..], d, budget));
      }
    }
  }

  lemma FullIs(s: State, t: State)
    requires Full(s) && |t.lanes| == |s.lanes| && forall i :: 0 <= i < |s.lanes| ==> t.lanes[i].core == s.lanes[i].core
    ensures Full(t)
  {
  }
}
