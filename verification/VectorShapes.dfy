/**
 Programs for which the group executor is always right, whatever the operations compute and whatever
 the order of the responses: it does to every lane what the lane would have done on its own, and it
 finishes all of them. Their shape can be checked before the first call.

 Uniform programs never branch on loaded values. Diamond programs do so once, at their entry, and
 neither side of the branch runs into the start of the other before the reconvergence PC.
 */
module VectorShapes {
  import opened Wrappers
  import opened VectorExecutor
  import opened VectorRefinement
  import opened VectorPrograms

  // ----- shapes -----

  /** Where a lane goes from entry `k` if it goes on and the branch, if any, does not look at values. */
  function Hop(p: Program, k: nat): nat
    requires k < |p.uops|
  {
    var op := p.uops[k];
    if op.conditional then BranchPC(p, k, op.branchTaken)
    else if op.control && op.target != 0 then op.target
    else NextPC(p, k)
  }

  /** The PC after `n` operations from `from`. */
  function Path(p: Program, from: nat, n: nat): nat {
    if n == 0 then from
    else
      var pc := Path(p, from, n - 1);
      var k := Find(p, pc, 1, |p.uops|);
      if k < 0 then pc else Hop(p, k)
  }

  /** Up to the reconvergence PC the path does not meet the other side. */
  ghost predicate Apart(p: Program, from: nat, reconvergence: nat, other: nat) {
    forall n :: (forall m :: 0 <= m <= n ==> Path(p, from, m) != reconvergence) ==> Path(p, from, n) != other
  }

  /** A lane that gets here ends, or stands at an entry from number `least` on. */
  ghost predicate Inside(p: Program, pc: nat, least: nat) {
    |p.uops| > 1 && (pc == 0 || pc == p.uops[0].pc || Find(p, pc, 1, |p.uops|) >= least)
  }

  /** The entry does not branch on loaded values and leads nowhere else. */
  ghost predicate Straight(p: Program, k: nat, least: nat)
    requires k < |p.uops|
  {
    var op := p.uops[k];
    && (op.conditional ==> !op.tainted)
    && if op.conditional || (op.control && op.target != 0) then Inside(p, Hop(p, k), least)
       else k + 1 < |p.uops| ==> Find(p, p.uops[k + 1].pc, 1, |p.uops|) >= least
  }

  ghost predicate Uniform(p: Program) { |p.uops| > 1 && forall k :: 1 <= k < |p.uops| ==> Straight(p, k, 1) }

  /** Everything a diamond needs but the separation of its sides. */
  ghost predicate DiamondShape(p: Program) {
    && |p.uops| > 1 && p.uops[1].conditional
    && Inside(p, BranchPC(p, 1, true), 2) && Inside(p, BranchPC(p, 1, false), 2)
    && (forall k :: 2 <= k < |p.uops| ==> Straight(p, k, 2) && p.uops[k].pc != p.uops[1].pc)
  }

  /** The sides of the entry branch stay apart up to `reconvergence`. */
  ghost predicate SidesApart(p: Program, reconvergence: nat)
    requires |p.uops| > 1
  {
    && Apart(p, BranchPC(p, 1, true), reconvergence, BranchPC(p, 1, false))
    && Apart(p, BranchPC(p, 1, false), reconvergence, BranchPC(p, 1, true))
  }

  ghost predicate Diamond(p: Program) { DiamondShape(p) && SidesApart(p, Reconvergence(p.uops[1])) }

  // ----- one lane -----

  ghost predicate Stands(p: Program, c: Core, least: nat) { c.active ==> Find(p, c.pc, 1, |p.uops|) >= least }

  /** An entry that does not branch on values: the lane ends or follows the path. */
  lemma StepsStraight(p: Program, k: nat, c: Core, least: nat)
    requires k < |p.uops| && Straight(p, k, least)
    ensures var d := CoreStep(p, k, c); Stands(p, d, least) && (d.active ==> d.pc == Hop(p, k))
  {
  }

  lemma StepsBranch(p: Program, c: Core)
    requires DiamondShape(p)
    ensures var d := CoreStep(p, 1, c);
            Stands(p, d, 2) && (d.active ==> d.pc == BranchPC(p, 1, TakesBranch(p, 1, c)) && d.pc != 0)
  {
  }

  // ----- phases -----

  /** Nobody waits; every active lane stands at an entry from number `least` on. */
  ghost predicate Together(p: Program, s: State, least: nat) {
    s.stack == [] && forall i :: 0 <= i < |s.lanes| ==> Free(p, s.lanes[i], least)
  }

  ghost predicate Free(p: Program, l: Lane, least: nat) { Stands(p, l.core, least) && !l.blocked }

  /** All lanes are at the branch. */
  ghost predicate AtBranch(p: Program, s: State) {
    |p.uops| > 1 && s.stack == [] && forall i :: 0 <= i < |s.lanes| ==> Before(p, s.lanes[i])
  }

  ghost predicate Before(p: Program, l: Lane)
    requires |p.uops| > 1
  {
    !l.blocked && l.core.active && l.core.pc == p.uops[1].pc
  }

  /** The side of the first lane has gone `n` steps, the other side waits. */
  ghost predicate OneSide(p: Program, s: State, taken: bool, n: nat) {
    && |p.uops| > 1 && |s.stack| == 1 && s.stack[0].pc == Reconvergence(p.uops[1])
    && (forall m :: 0 <= m < n ==> Path(p, BranchPC(p, 1, taken), m) != s.stack[0].pc)
    && forall i :: 0 <= i < |s.lanes| ==> OnSide(p, s.lanes[i], i, s.stack[0], taken, n)
  }

  ghost predicate OnSide(p: Program, l: Lane, i: nat, e: Entry, taken: bool, n: nat)
    requires |p.uops| > 1
  {
    Stands(p, l.core, 2) && (l.core.active ==> l.ready) &&
    if i in e.deferred then l.blocked && l.core.pc == e.deferredPC == BranchPC(p, 1, !taken)
    else !l.blocked && (l.core.active ==> l.core.pc == Path(p, BranchPC(p, 1, taken), n))
  }

  ghost predicate InPhase(p: Program, s: State) {
    AtBranch(p, s) || Together(p, s, 2) || exists taken, n :: OneSide(p, s, taken, n)
  }

  /** The states that the two kinds of programs go through. */
  ghost predicate Orderly(p: Program, s: State) {
    (Uniform(p) && Together(p, s, 1)) || (DiamondShape(p) && Together(p, s, 2)) || (Diamond(p) && InPhase(p, s))
  }

  ghost predicate Clear(p: Program, k: nat, s: State)
    requires k < |p.uops|
  {
    MustWait(p, k, s.lanes) || (Unparked(p, k, s) && OwnGroup(p, k, s))
  }

  // ----- issues -----

  lemma SameTakes(p: Program, k: nat, lanes: seq<Lane>)
    requires k < |p.uops| && (p.uops[k].conditional ==> !p.uops[k].tainted)
    ensures !Diverges(p, k, lanes)
  {
    if p.uops[k].conditional {
      assert forall i :: 0 <= i < |lanes| && Issues(lanes[i], p.uops[k].pc) ==> Takes(p, k, lanes[i]) == p.uops[k].branchTaken;
    }
  }

  lemma TogetherIssue(p: Program, k: nat, s: State, least: nat)
    requires Together(p, s, least) && k < |p.uops| && Straight(p, k, least)
    ensures Clear(p, k, s) && Together(p, Issue(p, k, s).0, least) && Issue(p, k, s).1 != Overflow && !Diverges(p, k, s.lanes)
  {
    SameTakes(p, k, s.lanes);
    forall i | 0 <= i < |s.lanes| ensures Free(p, Issued(p, k, s.lanes[i]), least) && !s.lanes[i].blocked {
      assert Free(p, s.lanes[i], least);
      StepsStraight(p, k, s.lanes[i].core, least);
      hide CoreStep, Straight;
    }
    hide CoreStep, Straight, Diverges, Free;
  }

  /** The waiting side is not where the other one is now. */
  lemma NotMet(p: Program, s: State, taken: bool, n: nat)
    requires Diamond(p) && OneSide(p, s, taken, n) && Path(p, BranchPC(p, 1, taken), n) != s.stack[0].pc
    ensures Path(p, BranchPC(p, 1, taken), n) != BranchPC(p, 1, !taken)
  {
    var from, r := BranchPC(p, 1, taken), Reconvergence(p.uops[1]);
    assert Apart(p, from, r, BranchPC(p, 1, !taken));
    hide Path;
    assert forall m :: 0 <= m <= n ==> Path(p, from, m) != r;
  }

  lemma OneSideLane(p: Program, k: nat, f: nat, l: Lane, i: nat, e: Entry, taken: bool, n: nat)
    requires |p.uops| > 1 && k < |p.uops| && f < |p.uops| && Straight(p, f, 2) && SameAct(p, f, k) && OnSide(p, l, i, e, taken, n)
    requires p.uops[f].pc == p.uops[k].pc == Path(p, BranchPC(p, 1, taken), n) != BranchPC(p, 1, !taken)
    requires Path(p, BranchPC(p, 1, taken), n + 1) == Hop(p, f)
    ensures OnSide(p, Issued(p, k, l), i, e, taken, n + 1)
    ensures l.blocked ==> !Issues(l, p.uops[k].pc)
  {
    StepsStraight(p, f, l.core, 2);
    hide CoreStep, Path, Straight, Stands;
  }

  /** An issue without divergence. */
  lemma NoDivergence(p: Program, k: nat, s: State)
    requires k < |p.uops| && !Diverges(p, k, s.lanes)
    ensures Issue(p, k, s) == if MustWait(p, k, s.lanes) then (s, Waiting) else (s.(lanes := AllIssued(p, k, s.lanes)), Continue)
    ensures |AllIssued(p, k, s.lanes)| == |s.lanes| && forall i :: 0 <= i < |s.lanes| ==> AllIssued(p, k, s.lanes)[i] == Issued(p, k, s.lanes[i])
    ensures OwnGroup(p, k, s)
  {
    hide MustWait, Diverges, Issued;
  }

  lemma OneSideLanes(p: Program, k: nat, s: State, taken: bool, n: nat)
    requires Diamond(p) && Coherent(p) && OneSide(p, s, taken, n) && 2 <= k && Shown(p, k)
    requires p.uops[k].pc == Path(p, BranchPC(p, 1, taken), n) != s.stack[0].pc && Find(p, p.uops[k].pc, 1, |p.uops|) >= 2
    ensures forall i :: 0 <= i < |s.lanes| ==> OnSide(p, Issued(p, k, s.lanes[i]), i, s.stack[0], taken, n + 1)
    ensures Unparked(p, k, s) && !Diverges(p, k, s.lanes)
  {
    var f := Find(p, p.uops[k].pc, 1, |p.uops|);
    FirstIsShown(p, p.uops[k].pc);
    hide Shown, Find;
    assert Straight(p, k, 2) && Straight(p, f, 2) && SameAct(p, f, k);
    SameTakes(p, k, s.lanes);
    NotMet(p, s, taken, n);
    assert Path(p, BranchPC(p, 1, taken), n + 1) == Hop(p, f);
    hide CoreStep, Diamond, Coherent, Straight, Diverges, Path, SameAct, Issued, Issues, Hop;
    forall i | 0 <= i < |s.lanes|
      ensures OnSide(p, Issued(p, k, s.lanes[i]), i, s.stack[0], taken, n + 1)
      ensures s.lanes[i].blocked ==> !Issues(s.lanes[i], p.uops[k].pc)
    {
      assert OnSide(p, s.lanes[i], i, s.stack[0], taken, n);
      hide OnSide;
      OneSideLane(p, k, f, s.lanes[i], i, s.stack[0], taken, n);
    }
  }

  lemma OneSideIssue(p: Program, k: nat, s: State, taken: bool, n: nat)
    requires Diamond(p) && Coherent(p) && OneSide(p, s, taken, n) && 2 <= k && Shown(p, k)
    requires p.uops[k].pc == Path(p, BranchPC(p, 1, taken), n) != s.stack[0].pc && Find(p, p.uops[k].pc, 1, |p.uops|) >= 2
    ensures Clear(p, k, s) && Issue(p, k, s).1 != Overflow
    ensures OneSide(p, Issue(p, k, s).0, taken, if MustWait(p, k, s.lanes) then n else n + 1)
  {
    hide Diamond, Coherent, Path, Issued, OnSide, Issue, AllIssued, MustWait, OwnGroup, Unparked, Diverges, BranchPC;
    OneSideLanes(p, k, s, taken, n);
    NoDivergence(p, k, s);
  }

  lemma BranchParks(p: Program, s: State)
    requires DiamondShape(p) && s.stack == [] && Unparked(p, 1, s) && OwnGroup(p, 1, s) && Diverges(p, 1, s.lanes)
    requires forall i :: 0 <= i < |s.lanes| ==> Issues(s.lanes[i], p.uops[1].pc) && !s.lanes[i].blocked
    ensures OneSide(p, Park(p, 1, s.lanes, s.stack), FirstTakes(p, 1, s.lanes, 0), 0)
  {
    var first := FirstTakes(p, 1, s.lanes, 0);
    var t := Park(p, 1, s.lanes, s.stack);
    forall i | 0 <= i < |s.lanes| ensures OnSide(p, t.lanes[i], i, t.stack[0], first, 0) {
      var c := s.lanes[i].core;
      StepsBranch(p, c);
      assert t.lanes[i].core == CoreStep(p, 1, c) && t.lanes[i].ready == t.lanes[i].core.active;
      assert Issued(p, 1, s.lanes[i]).core == CoreStep(p, 1, c);
      if i in t.stack[0].deferred {
        ParkedWait(p, 1, s, i);
        DefersMeans(p, 1, s, i);
      }
      hide CoreStep, MustWait, Diverges, FirstTakes, Park, DiamondShape, Stands;
    }
  }

  /** The branch is issued by all lanes at once, and splits them into two sides at most. */
  lemma BranchIssue(p: Program, s: State)
    requires DiamondShape(p) && AtBranch(p, s)
    ensures Clear(p, 1, s) && InPhase(p, Issue(p, 1, s).0) && Issue(p, 1, s).1 != Overflow
  {
    if !MustWait(p, 1, s.lanes) {
      forall i | 0 <= i < |s.lanes| ensures Issues(s.lanes[i], p.uops[1].pc) && !s.lanes[i].blocked && Free(p, Issued(p, 1, s.lanes[i]), 2) {
        assert Before(p, s.lanes[i]);
        assert !AwaitsValue(s.lanes[i], p.uops[1].pc);
        StepsBranch(p, s.lanes[i].core);
      }
      hide CoreStep, MustWait, Free, Before;
      if Diverges(p, 1, s.lanes) {
        BranchParks(p, s);
      } else {
        assert Together(p, Issue(p, 1, s).0, 2);
      }
    } else {
      assert AtBranch(p, Issue(p, 1, s).0);
    }
  }

  // ----- steps -----

  /** Resuming the waiting side brings the lanes together; otherwise the other side can go on. */
  lemma PopPhase(p: Program, s: State, taken: bool, n: nat)
    requires OneSide(p, s, taken, n)
    ensures MustPop(s) ==> Together(p, Popped(s), 2)
    ensures !MustPop(s) ==> Popped(s) == s && AnySelected(s.lanes)
    ensures !MustPop(s) ==> forall i :: 0 <= i < |s.lanes| && Selected(s.lanes[i]) ==>
              s.lanes[i].core.pc == Path(p, BranchPC(p, 1, taken), n) && s.lanes[i].core.pc != s.stack[0].pc
  {
    hide Path, Stands;
    forall i | 0 <= i < |s.lanes| ensures OnSide(p, s.lanes[i], i, s.stack[0], taken, n) {}
    if MustPop(s) {
      forall i | 0 <= i < |s.lanes| ensures Free(p, Popped(s).lanes[i], 2) {
        assert OnSide(p, s.lanes[i], i, s.stack[0], taken, n);
      }
    }
  }

  lemma LedPhase(p: Program, s: State, i: nat, taken: bool, n: nat, least: nat)
    requires Valid(p, s) && i < |s.lanes|
    ensures var u := Led(p, s, i);
            && (AtBranch(p, s) ==> AtBranch(p, u)) && (Together(p, s, least) ==> Together(p, u, least))
            && (OneSide(p, s, taken, n) ==> OneSide(p, u, taken, n))
  {
    var u := Led(p, s, i);
    hide Path, Stands, Refilled;
    if OneSide(p, s, taken, n) {
      forall j | 0 <= j < |u.lanes| ensures OnSide(p, u.lanes[j], j, u.stack[0], taken, n) {
        assert OnSide(p, s.lanes[j], j, s.stack[0], taken, n);
      }
    }
    if Together(p, s, least) {
      forall j | 0 <= j < |u.lanes| ensures Free(p, u.lanes[j], least) { assert Free(p, s.lanes[j], least); }
    }
    if AtBranch(p, s) {
      forall j | 0 <= j < |u.lanes| ensures Before(p, u.lanes[j]) { assert Before(p, s.lanes[j]); }
    }
  }

  /** The situation in which a leader issues, after a pop. */
  ghost predicate Leading(p: Program, t: State, taken: bool, n: nat, least: nat) {
    || (least == 1 && Uniform(p) && Together(p, t, 1))
    || (least == 2 && DiamondShape(p) && Together(p, t, 2))
    || (least == 2 && Diamond(p) && (AtBranch(p, t) || (OneSide(p, t, taken, n) && AtPath(p, t, taken, n))))
  }

  ghost predicate AtPath(p: Program, t: State, taken: bool, n: nat) {
    |p.uops| > 1 && |t.stack| == 1 && forall i :: 0 <= i < |t.lanes| && Selected(t.lanes[i]) ==>
      t.lanes[i].core.pc == Path(p, BranchPC(p, 1, taken), n) != t.stack[0].pc
  }

  lemma LeaderFinds(p: Program, t: State, i: nat, taken: bool, n: nat, least: nat)
    requires Leading(p, t, taken, n, least) && Valid(p, t) && i < |t.lanes| && Selected(t.lanes[i])
    ensures var k := Fetch(p, t.lanes[i]);
            1 <= k && Shown(p, k) && p.uops[k].pc == t.lanes[i].core.pc && (AtBranch(p, t) || Find(p, p.uops[k].pc, 1, |p.uops|) >= least)
    ensures least == 2 && AtBranch(p, t) ==> Fetch(p, t.lanes[i]) == 1
    ensures least == 2 && !AtBranch(p, t) ==> Fetch(p, t.lanes[i]) >= 2
  {
    hide Path, Apart, Straight, Shown;
    FetchFinds(p, t.lanes[i]);
    if Fetch(p, t.lanes[i]) >= 0 { FetchIsShown(p, t.lanes[i]); }
    if AtBranch(p, t) {
      assert Before(p, t.lanes[i]);
    } else if Together(p, t, least) {
      assert Free(p, t.lanes[i], least);
    } else {
      assert OnSide(p, t.lanes[i], i, t.stack[0], taken, n);
    }
  }

  /** The issue of the leader is clear of parked lanes and stays in the phases. */
  lemma LeadPhase(p: Program, t: State, i: nat, taken: bool, n: nat, least: nat)
    requires Leading(p, t, taken, n, least) && Coherent(p) && Valid(p, t) && i < |t.lanes| && Selected(t.lanes[i])
    ensures var k, u := Fetch(p, t.lanes[i]), Led(p, t, i);
            1 <= k && Shown(p, k) && Clear(p, k, u) && Orderly(p, Issue(p, k, u).0) && Issue(p, k, u).1 != Overflow
  {
    hide Shown;
    LeaderFinds(p, t, i, taken, n, least);
    LedPhase(p, t, i, taken, n, least);
    var k, u := Fetch(p, t.lanes[i]), Led(p, t, i);
    if least == 1 {
      hide Path, Clear, Issue, Fetch, Led;
      TogetherIssue(p, k, u, 1);
    } else if AtBranch(p, t) {
      hide Path, Clear, Issue, Fetch, Led;
      BranchIssue(p, u);
    } else if Together(p, t, 2) {
      assert Straight(p, k, 2);
      hide Path, Clear, Issue, Fetch, Led, Straight;
      TogetherIssue(p, k, u, 2);
    } else {
      assert u.stack == t.stack;
      hide Path, Clear, Issue, Fetch, Led;
      OneSideIssue(p, k, u, taken, n);
    }
  }

  /** After the pop, some leader can issue or all lanes are idle. */
  lemma PopLeads(p: Program, s: State) returns (taken: bool, n: nat, least: nat)
    requires Orderly(p, s)
    ensures Leading(p, Popped(s), taken, n, least) && Orderly(p, Popped(s))
    ensures Popped(s).stack != [] ==> AnySelected(Popped(s).lanes)
  {
    taken, n, least := true, 0, if Uniform(p) && Together(p, s, 1) then 1 else 2;
    if least == 2 && !Together(p, s, 2) && exists a, b :: OneSide(p, s, a, b) {
      taken, n :| OneSide(p, s, taken, n);
      PopPhase(p, s, taken, n);
      hide Path, SidesApart, DiamondShape, Uniform, Together, OneSide;
    } else {
      assert Popped(s) == s;
    }
  }

  lemma OrderlyStep(p: Program, s: State, own: seq<Lane>)
    requires Coherent(p) && Orderly(p, s) && Valid(p, s) && Parking(s) && Tracks(p, s, own)
    ensures CleanStep(p, s, own) && Orderly(p, Step(p, s).0) && Step(p, s).1 != Overflow
  {
    PoppedValid(p, s);
    PopTracks(p, s, own);
    var t := Popped(s);
    var taken, n, least := PopLeads(p, s);
    var j := Leader(t.lanes, 0);
    if j < |t.lanes| {
      LeadPhase(p, t, j, taken, n, least);
      AgreedByCoherence(p, Fetch(p, t.lanes[j]), Led(p, t, j), own);
      LedIs(p, t, j);
    }
    hide Popped, Leader, Fetch, Led, Issue, Unparked, OwnGroup, Agreed, Coherent, Orderly, Leading, Valid, Parking;
  }

  lemma LedIs(p: Program, t: State, j: nat)
    requires j < |t.lanes| && WindowValid(p, t.lanes[j])
    ensures Led(p, t, j) == t.(lanes := t.lanes[j := Refilled(p, t.lanes[j])])
  {
  }

  // ----- progress -----

  /** Every lane that is still active has its source value. */
  ghost predicate AllReady(s: State) { forall i :: 0 <= i < |s.lanes| && s.lanes[i].core.active ==> s.lanes[i].ready }

  ghost predicate AllEnded(s: State) { forall i :: 0 <= i < |s.lanes| ==> !s.lanes[i].core.active }

  /** With all source values there, a step moves a lane or all lanes have ended. */
  lemma StepMoves(p: Program, s: State)
    requires Coherent(p) && Orderly(p, s) && Valid(p, s) && Parking(s) && AllReady(s)
    ensures Step(p, s).1 == Drained ==> AllEnded(Step(p, s).0)
    ensures Step(p, s).1 != Drained ==> Step(p, s).1 == Continue && exists i :: 0 <= i < |s.lanes| && Moves(p, s, i) && s.lanes[i].core.active
  {
    PoppedValid(p, s);
    PopKeeps(p, s);
    PopReady(s);
    var t := Popped(s);
    var taken, n, least := PopLeads(p, s);
    var j := Leader(t.lanes, 0);
    if j < |t.lanes| {
      LeadPhase(p, t, j, taken, n, least);
      LeaderFinds(p, t, j, taken, n, least);
      LedIs(p, t, j);
      var k, u := Fetch(p, t.lanes[j]), Led(p, t, j);
      LedReady(p, t, j);
      NobodyWaits(p, k, u);
      assert Moves(p, s, j) && s.lanes[j].core.active;
      hide Popped, Leader, Fetch, Led, Clear, Coherent, Orderly, Leading, Valid, Parking, MustWait, AllReady;
    } else {
      NobodySelected(p, t);
      hide Popped, Leader, Coherent, Orderly, Leading, Valid, Parking, AllReady;
    }
  }

  lemma PopReady(s: State)
    requires AllReady(s) && Parking(s)
    ensures AllReady(Popped(s))
  {
  }

  lemma LedReady(p: Program, t: State, j: nat)
    requires AllReady(t) && j < |t.lanes| && WindowValid(p, t.lanes[j])
    ensures AllReady(Led(p, t, j))
  {
  }

  lemma NobodyWaits(p: Program, k: nat, u: State)
    requires AllReady(u) && k < |p.uops|
    ensures !MustWait(p, k, u.lanes) && Issue(p, k, u).1 in {Continue, Overflow}
  {
    hide Diverges;
  }

  /** No lane is selected: then none is active. */
  lemma NobodySelected(p: Program, t: State)
    requires Orderly(p, t) && AllReady(t) && Leader(t.lanes, 0) == |t.lanes| && (t.stack != [] ==> AnySelected(t.lanes))
    ensures AllEnded(t)
  {
    hide Path, Stands;
    forall i | 0 <= i < |t.lanes| ensures !t.lanes[i].core.active {
      assert !Selected(t.lanes[i]);
      if Together(p, t, 1) {
        assert Free(p, t.lanes[i], 1);
      } else if Together(p, t, 2) {
        assert Free(p, t.lanes[i], 2);
      } else if AtBranch(p, t) {
        assert Before(p, t.lanes[i]);
      }
    }
  }

  /** In a step lanes stay or take a step of their own, and keep their source values. */
  lemma StepCores(p: Program, s: State, own: seq<Lane>)
    requires Coherent(p) && Valid(p, s) && Parking(s) && Tracks(p, s, own) && CleanStep(p, s, own)
    ensures StepsOf(p, s.lanes, Step(p, s).0.lanes)
    ensures forall i :: 0 <= i < |s.lanes| && Moves(p, s, i) ==> Step(p, s).0.lanes[i].core == ScalarStep(p, s.lanes[i].core)
  {
    StepIsLaneWise(p, s, own);
    StepValid(p, s);
    var next := OwnAfter(p, s, own);
    forall i | 0 <= i < |own| ensures next[i].core == if Moves(p, s, i) then ScalarStep(p, own[i].core) else own[i].core {
      OwnIsScalar(p, own[i]);
      hide OwnStep, ScalarStep, Moves, Coherent;
    }
    hide OwnStep, ScalarStep, Moves, Step, OwnAfter, Parking, CleanStep, Valid, Coherent;
  }

  lemma StepReady(p: Program, s: State, i: nat)
    requires Valid(p, s) && Parking(s) && i < |s.lanes| && (s.lanes[i].core.active ==> s.lanes[i].ready)
    ensures |Step(p, s).0.lanes| == |s.lanes| && (Step(p, s).0.lanes[i].core.active ==> Step(p, s).0.lanes[i].ready)
  {
    PoppedValid(p, s);
    PopKeeps(p, s);
    StepValid(p, s);
    var t := Popped(s);
    assert t.lanes[i].core.active ==> t.lanes[i].ready;
    var j := Leader(t.lanes, 0);
    if j < |t.lanes| {
      var k, u := Fetch(p, t.lanes[j]), t.(lanes := t.lanes[j := Refilled(p, t.lanes[j])]);
      if k >= 0 { IssueReady(p, k, u, i); }
    }
    hide Popped, Refilled, Fetch, Leader, Issue, Parking, Valid;
  }

  lemma IssueReady(p: Program, k: nat, s: State, i: nat)
    requires k < |p.uops| && i < |s.lanes| && (s.lanes[i].core.active ==> s.lanes[i].ready)
    ensures |Issue(p, k, s).0.lanes| == |s.lanes| && (Issue(p, k, s).0.lanes[i].core.active ==> Issue(p, k, s).0.lanes[i].ready)
  {
    hide CoreStep, MustWait, Diverges, FirstTakes, Deferred, DeferredPC;
  }

  lemma AllReadyKept(p: Program, s: State)
    requires Valid(p, s) && Parking(s) && AllReady(s)
    ensures AllReady(Step(p, s).0)
  {
    StepValid(p, s);
    hide Step, Parking, Valid;
    forall i | 0 <= i < |s.lanes| && Step(p, s).0.lanes[i].core.active ensures Step(p, s).0.lanes[i].ready {
      StepReady(p, s, i);
    }
  }

  // ----- runs -----

  lemma {:induction false} OrderlyRun(p: Program, s: State, own: seq<Lane>, budget: nat)
    requires Coherent(p) && Orderly(p, s) && Valid(p, s) && Parking(s) && Tracks(p, s, own)
    ensures CleanRun(p, s, own, budget) && Orderly(p, Run(p, s, budget))
    decreases budget
  {
    if budget > 0 {
      StepValid(p, s);
      OrderlyStep(p, s, own);
      StepIsLaneWise(p, s, own);
      hide Step, CleanStep, Coherent, Orderly, OwnAfter, Parking, Valid, Tracks;
      OrderlyRun(p, Step(p, s).0, OwnAfter(p, s, own), budget - 1);
    }
  }

  /** With all source values there and enough budget, a call finishes every lane. */
  lemma {:induction false} RunFinishes(p: Program, s: State, own: seq<Lane>, budget: nat, n: nat)
    requires Coherent(p) && Orderly(p, s) && Valid(p, s) && Parking(s) && Tracks(p, s, own) && AllReady(s)
    requires AllEnd(p, s.lanes, n) && Total(p, s.lanes, n, |s.lanes|) <= budget
    ensures AllEnded(Run(p, s, budget))
    decreases budget
  {
    hide *;
    if budget == 0 {
      RunNothing(p, s);
      TotalBound(p, s.lanes, n, |s.lanes|);
      NoneLeft(s);
    } else {
      RunUnfolds(p, s, budget - 1);
      OrderlyStep(p, s, own);
      StepIsLaneWise(p, s, own);
      AllReadyKept(p, s);
      MeasureDrops(p, s, own, n);
      if Step(p, s).1 == Continue {
        RunFinishes(p, Step(p, s).0, OwnAfter(p, s, own), budget - 1, n);
      }
    }
  }

  lemma NoneLeft(s: State)
    requires forall i :: 0 <= i < |s.lanes| ==> !s.lanes[i].core.active
    ensures AllEnded(s)
  {
  }

  /** A step that is not the last one leaves fewer steps to make. */
  lemma MeasureDrops(p: Program, s: State, own: seq<Lane>, n: nat)
    requires Coherent(p) && Orderly(p, s) && Valid(p, s) && Parking(s) && Tracks(p, s, own) && AllReady(s)
    requires AllEnd(p, s.lanes, n)
    ensures var (t, o) := Step(p, s);
            && AllEnd(p, t.lanes, n) && |t.lanes| == |s.lanes|
            && (if o == Continue then Total(p, t.lanes, n, |t.lanes|) < Total(p, s.lanes, n, |s.lanes|) else AllEnded(t))
  {
    OrderlyStep(p, s, own);
    StepMoves(p, s);
    StepCores(p, s, own);
    StepValid(p, s);
    var t := Step(p, s).0;
    hide *;
    EndsKept(p, s.lanes, t.lanes, n);
    TotalDrops(p, s.lanes, t.lanes, n, |s.lanes|);
  }

  // ----- responses -----

  lemma AnsweredOrderly(p: Program, s: State, lane: nat, destination: int, value: int)
    requires Orderly(p, s) && lane < |s.lanes|
    ensures Orderly(p, Answered(s, lane, destination, value))
  {
    var t := Answered(s, lane, destination, value);
    hide Path, Stands, Diamond, DiamondShape, Uniform;
    forall j | 0 <= j < |t.lanes| ensures SameStand(p, s.lanes[j], t.lanes[j]) {
      SourceKeepsPC(p, s.lanes[j].core, destination, value);
    }
    if Together(p, s, 2) {
      forall j | 0 <= j < |t.lanes| ensures Free(p, t.lanes[j], 2) { assert Free(p, s.lanes[j], 2) && SameStand(p, s.lanes[j], t.lanes[j]); }
      assert Together(p, t, 2);
    }
    if Together(p, s, 1) {
      forall j | 0 <= j < |t.lanes| ensures Free(p, t.lanes[j], 1) { assert Free(p, s.lanes[j], 1) && SameStand(p, s.lanes[j], t.lanes[j]); }
    }
    if AtBranch(p, s) {
      forall j | 0 <= j < |t.lanes| ensures Before(p, t.lanes[j]) { assert Before(p, s.lanes[j]) && SameStand(p, s.lanes[j], t.lanes[j]); }
      assert AtBranch(p, t);
    } else if exists a, b :: OneSide(p, s, a, b) {
      var taken, n :| OneSide(p, s, taken, n);
      forall j | 0 <= j < |t.lanes| ensures OnSide(p, t.lanes[j], j, t.stack[0], taken, n) {
        assert OnSide(p, s.lanes[j], j, s.stack[0], taken, n) && SameStand(p, s.lanes[j], t.lanes[j]);
      }
      assert OneSide(p, t, taken, n);
    }
  }

  ghost predicate SameStand(p: Program, a: Lane, b: Lane) {
    && b.core.pc == a.core.pc && b.core.active == a.core.active && b.blocked == a.blocked && (a.ready ==> b.ready)
    && (Stands(p, a.core, 1) <==> Stands(p, b.core, 1)) && (Stands(p, a.core, 2) <==> Stands(p, b.core, 2))
  }

  lemma SourceKeepsPC(p: Program, c: Core, destination: int, value: int)
    ensures var d := WithSource(c, destination, value);
            && d.pc == c.pc && d.active == c.active
            && (Stands(p, c, 1) <==> Stands(p, d, 1)) && (Stands(p, c, 2) <==> Stands(p, d, 2))
  {
  }

  lemma OrderlyCall(p: Program, s: State, own: seq<Lane>, r: Response, destination: int, budget: nat)
    requires Coherent(p) && Orderly(p, s) && Valid(p, s) && Parking(s) && Tracks(p, s, own)
    ensures CleanCall(p, s, own, r, destination, budget) && Orderly(p, Resume(p, s, r.lane, destination, r.value, budget))
  {
    hide Coherent, Orderly, Valid, Parking, Run, CleanRun;
    if Accepts(s, r.lane, budget) {
      AnsweredOrderly(p, s, r.lane, destination, r.value);
      AnsweredKeeps(p, s, own, r.lane, destination, r.value);
      OrderlyRun(p, Answered(s, r.lane, destination, r.value), Given(own, r.lane, destination, r.value), budget);
    }
  }

  lemma {:induction false} OrderlyCalls(p: Program, s: State, own: seq<Lane>, rs: seq<Response>, destination: int, budget: nat)
    requires Coherent(p) && Orderly(p, s) && Valid(p, s) && Parking(s) && Tracks(p, s, own)
    ensures CleanCalls(p, s, own, rs, destination, budget) && Orderly(p, Serve(p, s, rs, destination, budget))
    decreases |rs|
  {
    hide Coherent, Orderly, Valid, Parking, Resume, CleanCall, CallOwn, Tracks;
    if rs != [] {
      OrderlyCall(p, s, own, rs[0], destination, budget);
      CallKeeps(p, s, own, rs[0], destination, budget);
      OrderlyCalls(p, Resume(p, s, rs[0].lane, destination, rs[0].value, budget), CallOwn(p, s, own, rs[0], destination, budget),
                   rs[1..], destination, budget);
    }
  }

  // ----- all lanes finish -----

  /** Lanes without source value have a response coming. */
  ghost predicate ReadyBut(s: State, rs: seq<Response>) {
    forall i :: 0 <= i < |s.lanes| && s.lanes[i].core.active && !s.lanes[i].ready ==> ValueFor(rs, i).Some?
  }

  lemma {:induction false} RunReady(p: Program, s: State, own: seq<Lane>, budget: nat, i: nat)
    requires Coherent(p) && Orderly(p, s) && Valid(p, s) && Parking(s) && Tracks(p, s, own)
    requires i < |s.lanes| && (s.lanes[i].core.active ==> s.lanes[i].ready)
    ensures Run(p, s, budget).lanes[i].core.active ==> Run(p, s, budget).lanes[i].ready
    decreases budget
  {
    hide *;
    if budget == 0 {
      RunNothing(p, s);
    } else {
      RunUnfolds(p, s, budget - 1);
      OrderlyStep(p, s, own);
      StepIsLaneWise(p, s, own);
      StepReady(p, s, i);
      if Step(p, s).1.Continue? { RunReady(p, Step(p, s).0, OwnAfter(p, s, own), budget - 1, i); }
    }
  }

  lemma ReachesEnds(p: Program, a: Lane, b: Lane, n: nat)
    requires Coherent(p) && WindowValid(p, a) && Reaches(p, a, b) && EndsWithin(p, a.core, n)
    ensures EndsWithin(p, b.core, n)
  {
    var m :| OwnSteps(p, a, m) == b;
    OwnStepsAreScalar(p, a, m);
    EndsLater(p, a.core, m, n);
  }

  /** Every lane, from its source value, ends within `n` steps of its own. */
  ghost predicate StartsEnd(p: Program, own: seq<Lane>, rs: seq<Response>, destination: int, n: nat) {
    forall i :: 0 <= i < |own| ==> EndsWithin(p, StartOf(own[i], rs, i, destination).core, n)
  }

  lemma LastCallFinishes(p: Program, s: State, own: seq<Lane>, r: Response, destination: int, budget: nat, n: nat)
    requires Coherent(p) && Orderly(p, s) && Valid(p, s) && Parking(s) && Tracks(p, s, own) && budget > 0
    requires Expected(s, [r]) && ReadyBut(s, [r]) && StartsEnd(p, own, [r], destination, n) && |s.lanes| * n <= budget
    ensures AllEnded(Resume(p, s, r.lane, destination, r.value, budget))
  {
    assert [r][0] == r && [r][1..] == [];
    var a, given := Answered(s, r.lane, destination, r.value), Given(own, r.lane, destination, r.value);
    forall i: nat ensures ValueFor([r], i) == if i == r.lane then Some(r.value) else None {}
    forall i | 0 <= i < |a.lanes| ensures EndsWithin(p, a.lanes[i].core, n) && (a.lanes[i].core.active ==> a.lanes[i].ready) {
      assert EndsWithin(p, StartOf(own[i], [r], i, destination).core, n);
      assert a.lanes[i].core == StartOf(own[i], [r], i, destination).core;
      hide EndsWithin;
    }
    AnsweredKeeps(p, s, own, r.lane, destination, r.value);
    AnsweredOrderly(p, s, r.lane, destination, r.value);
    hide Coherent, Orderly, Parking, EndsWithin, Total, Run, Given, Valid, Tracks;
    TotalBound(p, a.lanes, n, |a.lanes|);
    RunFinishes(p, a, given, budget, n);
  }

  /** What a call leaves for the next ones. */
  lemma NextCall(p: Program, s: State, own: seq<Lane>, rs: seq<Response>, destination: int, budget: nat, n: nat)
    requires rs != [] && Coherent(p) && Orderly(p, s) && Valid(p, s) && Parking(s) && Tracks(p, s, own) && budget > 0
    requires Expected(s, rs) && ReadyBut(s, rs) && StartsEnd(p, own, rs, destination, n)
    requires CleanCall(p, s, own, rs[0], destination, budget)
    ensures var t, next := Resume(p, s, rs[0].lane, destination, rs[0].value, budget), CallOwn(p, s, own, rs[0], destination, budget);
            Expected(t, rs[1..]) && ReadyBut(t, rs[1..]) && |next| == |own| && StartsEnd(p, next, rs[1..], destination, n)
  {
    var r := rs[0];
    var t, next := Resume(p, s, r.lane, destination, r.value, budget), CallOwn(p, s, own, r, destination, budget);
    CallIsLaneWise(p, s, own, r, destination, budget);
    ExpectedNext(s, t, own, next, rs);
    hide Coherent, Orderly, Parking, CallOwn, Resume, CleanCall, EndsWithin, Reaches, Valid, ReadyBut, StartsEnd;
    NextReady(p, s, own, rs, destination, budget);
    hide Expected;
    NextEnds(p, s, own, next, rs, destination, n);
  }

  lemma NextEnds(p: Program, s: State, own: seq<Lane>, next: seq<Lane>, rs: seq<Response>, destination: int, n: nat)
    requires rs != [] && Coherent(p) && |next| == |own| && Tracks(p, s, own) && StartsEnd(p, own, rs, destination, n)
    requires forall i :: 0 <= i < |own| ==> Reaches(p, if i == rs[0].lane then Sourced(own[i], destination, rs[0].value) else own[i], next[i])
    requires forall i :: 0 <= i < |own| && i != rs[0].lane && ValueFor(rs, i).Some? ==> next[i] == own[i]
    requires ValueFor(rs[1..], rs[0].lane) == None && forall i :: i != rs[0].lane ==> ValueFor(rs, i) == ValueFor(rs[1..], i)
    ensures StartsEnd(p, next, rs[1..], destination, n)
  {
    hide Coherent, EndsWithin, Reaches;
    forall i | 0 <= i < |own| ensures EndsWithin(p, StartOf(next[i], rs[1..], i, destination).core, n) {
      assert EndsWithin(p, StartOf(own[i], rs, i, destination).core, n);
      if ValueFor(rs[1..], i) == None { ReachesEnds(p, StartOf(own[i], rs, i, destination), next[i], n); }
    }
  }

  lemma NextReady(p: Program, s: State, own: seq<Lane>, rs: seq<Response>, destination: int, budget: nat)
    requires rs != [] && Coherent(p) && Orderly(p, s) && Valid(p, s) && Parking(s) && Tracks(p, s, own) && budget > 0
    requires Expected(s, rs) && ReadyBut(s, rs)
    requires forall i :: i != rs[0].lane ==> ValueFor(rs, i) == ValueFor(rs[1..], i)
    ensures ReadyBut(Resume(p, s, rs[0].lane, destination, rs[0].value, budget), rs[1..])
  {
    var r := rs[0];
    AnsweredKeeps(p, s, own, r.lane, destination, r.value);
    AnsweredOrderly(p, s, r.lane, destination, r.value);
    var a, given := Answered(s, r.lane, destination, r.value), Given(own, r.lane, destination, r.value);
    var t := Run(p, a, budget);
    hide Coherent, Orderly, Parking, Run, Valid, Given;
    forall i | 0 <= i < |t.lanes| && t.lanes[i].core.active && !t.lanes[i].ready ensures ValueFor(rs[1..], i).Some? {
      if a.lanes[i].core.active ==> a.lanes[i].ready {
        RunReady(p, a, given, budget, i);
      }
    }
  }

  lemma {:induction false} ServeFinishes(p: Program, s: State, own: seq<Lane>, rs: seq<Response>, destination: int, budget: nat, n: nat)
    requires rs != [] && Coherent(p) && Orderly(p, s) && Valid(p, s) && Parking(s) && Tracks(p, s, own) && budget > 0
    requires Expected(s, rs) && ReadyBut(s, rs) && StartsEnd(p, own, rs, destination, n) && |s.lanes| * n <= budget
    ensures AllEnded(Serve(p, s, rs, destination, budget))
    decreases |rs|
  {
    var r, rest := rs[0], rs[1..];
    if rest == [] {
      assert rs == [r];
      LastCallFinishes(p, s, own, r, destination, budget, n);
    } else {
      OrderlyCall(p, s, own, r, destination, budget);
      CallKeeps(p, s, own, r, destination, budget);
      NextCall(p, s, own, rs, destination, budget, n);
      hide Coherent, Orderly, Valid, Parking, Resume, CleanCall, CallOwn, Tracks, Expected, ReadyBut, StartsEnd;
      ServeFinishes(p, Resume(p, s, r.lane, destination, r.value, budget), CallOwn(p, s, own, r, destination, budget), rest, destination, budget, n);
    }
  }

  // ----- main results -----

  /** The lane ended where its own execution from its source value ends. */
  ghost predicate Finished(p: Program, start: Lane, rs: seq<Response>, i: nat, destination: int, n: nat, now: Lane) {
    now.core == ScalarSteps(p, StartOf(start, rs, i, destination).core, n)
  }

  lemma OrderlyProgramsFinish(p: Program, s: State, rs: seq<Response>, destination: int, budget: nat, n: nat)
    requires Coherent(p) && Orderly(p, s) && Valid(p, s) && Fresh(s) && Expected(s, rs) && budget > 0 && |s.lanes| * n <= budget
    requires forall i :: 0 <= i < |s.lanes| ==> ValueFor(rs, i).Some?
    requires StartsEnd(p, s.lanes, rs, destination, n)
    ensures forall i :: 0 <= i < |s.lanes| ==> Finished(p, s.lanes[i], rs, i, destination, n, Serve(p, s, rs, destination, budget).lanes[i])
  {
    var own := s.lanes;
    assert Parking(s) && Tracks(p, s, own) && ReadyBut(s, rs);
    OrderlyCalls(p, s, own, rs, destination, budget);
    ResponsesAreLaneWise(p, s, own, rs, destination, budget);
    if own != [] {
      assert ValueFor(rs, 0).Some? && rs != [];
      ServeFinishes(p, s, own, rs, destination, budget, n);
    }
    var t, final := Serve(p, s, rs, destination, budget), ServeOwn(p, s, own, rs, destination, budget);
    hide Serve, ServeOwn, CleanCalls, Orderly, Parking, Expected;
    forall i | 0 <= i < |own| ensures Finished(p, own[i], rs, i, destination, n, t.lanes[i]) {
      FinishedAlone(p, StartOf(own[i], rs, i, destination), final[i], n);
    }
  }

  lemma FinishedAlone(p: Program, start: Lane, final: Lane, n: nat)
    requires Coherent(p) && WindowValid(p, start) && Reaches(p, start, final) && EndsWithin(p, start.core, n) && !final.core.active
    ensures final.core == ScalarSteps(p, start.core, n)
  {
    var m :| OwnSteps(p, start, m) == final;
    OwnStepsAreScalar(p, start, m);
    EndIsUnique(p, start.core, m, n);
  }

  /** All lanes stand at the entry behind the source load, as they are set up. */
  ghost predicate AtEntry(p: Program, s: State) {
    |p.uops| > 1 && Valid(p, s) && Fresh(s) && forall i :: 0 <= i < |s.lanes| ==> s.lanes[i].core.pc == p.uops[1].pc
  }

  /**
   Main result: a program that never branches on loaded values. Whatever its operations compute, for
   every number of lanes and every order of responses: if each lane ends within `n` steps of its own and
   the budget allows `n` steps for each, every lane ends where its own execution ends.
   */
  lemma UniformProgramsFinish(p: Program, s: State, rs: seq<Response>, destination: int, budget: nat, n: nat)
    requires Coherent(p) && Uniform(p) && AtEntry(p, s) && Expected(s, rs) && budget > 0 && |s.lanes| * n <= budget
    requires forall i :: 0 <= i < |s.lanes| ==> ValueFor(rs, i).Some?
    requires StartsEnd(p, s.lanes, rs, destination, n)
    ensures forall i :: 0 <= i < |s.lanes| ==> Finished(p, s.lanes[i], rs, i, destination, n, Serve(p, s, rs, destination, budget).lanes[i])
  {
    assert Together(p, s, 1) by {
      forall i | 0 <= i < |s.lanes| ensures Free(p, s.lanes[i], 1) {}
    }
    OrderlyProgramsFinish(p, s, rs, destination, budget, n);
  }

  /** Main result: the same for diamonds, whose lanes diverge at their entry. */
  lemma DiamondProgramsFinish(p: Program, s: State, rs: seq<Response>, destination: int, budget: nat, n: nat)
    requires Coherent(p) && Diamond(p) && AtEntry(p, s) && Expected(s, rs) && budget > 0 && |s.lanes| * n <= budget
    requires forall i :: 0 <= i < |s.lanes| ==> ValueFor(rs, i).Some?
    requires StartsEnd(p, s.lanes, rs, destination, n)
    ensures forall i :: 0 <= i < |s.lanes| ==> Finished(p, s.lanes[i], rs, i, destination, n, Serve(p, s, rs, destination, budget).lanes[i])
  {
    assert AtBranch(p, s) by {
      forall i | 0 <= i < |s.lanes| ensures Before(p, s.lanes[i]) {}
    }
    OrderlyProgramsFinish(p, s, rs, destination, budget, n);
  }

  /** Without any budget to speak of, and for some lanes only: what is executed is right. */
  lemma OrderlyProgramsAreLaneWise(p: Program, s: State, rs: seq<Response>, destination: int, budget: nat)
    requires Coherent(p) && (Uniform(p) || Diamond(p)) && AtEntry(p, s) && Expected(s, rs) && budget > 0
    ensures Parking(s) && Tracks(p, s, s.lanes) && CleanCalls(p, s, s.lanes, rs, destination, budget)
    ensures var own := ServeOwn(p, s, s.lanes, rs, destination, budget);
            && Tracks(p, Serve(p, s, rs, destination, budget), own)
            && forall i :: 0 <= i < |s.lanes| ==> Reaches(p, StartOf(s.lanes[i], rs, i, destination), own[i])
  {
    assert AtBranch(p, s) by {
      forall i | 0 <= i < |s.lanes| ensures Before(p, s.lanes[i]) {}
    }
    assert Together(p, s, 1) by {
      forall i | 0 <= i < |s.lanes| ensures Free(p, s.lanes[i], 1) {}
    }
    OrderlyCalls(p, s, s.lanes, rs, destination, budget);
    ResponsesAreLaneWise(p, s, s.lanes, rs, destination, budget);
  }
}
