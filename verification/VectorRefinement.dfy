/**
 The group executor against the executor of single lanes: what it does to a lane is what the lane
 would have done on its own, as long as no issue touches a parked lane, no divergence parks a lane
 that was not issued, and every lane that is moved would have found the same operation.
 */
module VectorRefinement {
  import opened Wrappers
  import opened VectorExecutor

  // ----- parked lanes -----

  ghost predicate Waits(s: State, j: nat, i: nat)
    requires j < |s.stack|
  {
    i < |s.lanes| && s.lanes[i].blocked && s.lanes[i].core.pc == s.stack[j].deferredPC
  }

  ghost predicate InEntry(s: State, i: nat, j: nat) { j < |s.stack| && i in s.stack[j].deferred }

  /** Every parked lane is in one stack entry and stands where that entry will resume it. */
  ghost predicate Parking(s: State) {
    && (forall i, j :: InEntry(s, i, j) ==> Waits(s, j, i))
    && (forall i, j, k :: InEntry(s, i, j) && InEntry(s, i, k) ==> j == k)
    && (forall i :: 0 <= i < |s.lanes| && s.lanes[i].blocked ==> exists j :: InEntry(s, i, j))
  }

  // ----- lanes on their own -----

  /** `own[i]` is lane `i` as it would be on its own: the same core, with a window of its own. */
  ghost predicate Tracks(p: Program, s: State, own: seq<Lane>) {
    |own| == |s.lanes| && forall i :: 0 <= i < |own| ==> own[i].core == s.lanes[i].core && WindowValid(p, own[i])
  }

  /** On its own the lane would do what entry `k` does, or end if there is none. */
  ghost predicate ActsAlone(p: Program, k: int, l: Lane)
    requires k < |p.uops| && WindowValid(p, l)
  {
    var k' := Fetch(p, l);
    if k < 0 then k' < 0 else k' >= 0 && CoreStep(p, k', l.core) == CoreStep(p, k, l.core)
  }

  ghost predicate Moves(p: Program, s: State, i: nat)
    requires Valid(p, s)
  {
    var t := Popped(s);
    var j := Leader(t.lanes, 0);
    PoppedValid(p, s);
    i < |t.lanes| && j < |t.lanes| &&
      var k := Fetch(p, t.lanes[j]);
      if k < 0 then Selected(t.lanes[i])
      else !MustWait(p, k, Led(p, t, j).lanes) && Issues(t.lanes[i], p.uops[k].pc)
  }

  /** The state in which the leader issues. */
  ghost function Led(p: Program, t: State, j: nat): State
    requires j < |t.lanes| && WindowValid(p, t.lanes[j])
  {
    t.(lanes := t.lanes[j := Refilled(p, t.lanes[j])])
  }

  ghost function OwnAfter(p: Program, s: State, own: seq<Lane>): seq<Lane>
    requires Valid(p, s) && Tracks(p, s, own)
  {
    seq(|own|, i requires 0 <= i < |own| => if Moves(p, s, i) then OwnStep(p, own[i]) else own[i])
  }

  // ----- clean steps -----

  /** An issue touches no parked lane, a divergence parks only lanes that were issued, and each lane finds its own operation. */
  ghost predicate CleanIssue(p: Program, k: nat, s: State, own: seq<Lane>)
    requires k < |p.uops| && Tracks(p, s, own)
  {
    MustWait(p, k, s.lanes) || (Unparked(p, k, s) && OwnGroup(p, k, s) && Agreed(p, k, s, own))
  }

  ghost predicate Unparked(p: Program, k: nat, s: State)
    requires k < |p.uops|
  {
    forall i :: 0 <= i < |s.lanes| && s.lanes[i].blocked ==> !Issues(s.lanes[i], p.uops[k].pc)
  }

  ghost predicate OwnGroup(p: Program, k: nat, s: State)
    requires k < |p.uops|
  {
    Diverges(p, k, s.lanes) && FirstTakes(p, k, s.lanes, 0) ==>
      forall i :: 0 <= i < |s.lanes| && s.lanes[i].core.active && s.lanes[i].ready && s.lanes[i].core.pc != 0 ==>
        Issues(s.lanes[i], p.uops[k].pc)
  }

  ghost predicate Agreed(p: Program, k: nat, s: State, own: seq<Lane>)
    requires k < |p.uops| && Tracks(p, s, own)
  {
    forall i :: 0 <= i < |s.lanes| && Issues(s.lanes[i], p.uops[k].pc) ==> ActsAlone(p, k, own[i])
  }

  /** Giving up on a PC outside the program gives up no lane that could go on. */
  ghost predicate CleanDrop(p: Program, s: State, own: seq<Lane>)
    requires Tracks(p, s, own)
  {
    forall i :: 0 <= i < |s.lanes| && Selected(s.lanes[i]) ==> ActsAlone(p, -1, own[i])
  }

  ghost predicate CleanStep(p: Program, s: State, own: seq<Lane>)
    requires Valid(p, s) && Parking(s) && Tracks(p, s, own)
  {
    var t := Popped(s);
    var j := Leader(t.lanes, 0);
    PoppedValid(p, s);
    PopTracks(p, s, own);
    j < |t.lanes| ==>
      var k := Fetch(p, t.lanes[j]);
      if k < 0 then CleanDrop(p, t, own) else CleanIssue(p, k, Led(p, t, j), own)
  }

  /** Resuming the parked lanes moves none of them. */
  lemma PopKeeps(p: Program, s: State)
    requires Parking(s)
    ensures Parking(Popped(s)) && |Popped(s).lanes| == |s.lanes|
    ensures forall i :: 0 <= i < |s.lanes| ==> Popped(s).lanes[i].core == s.lanes[i].core
  {
    var t := Popped(s);
    if MustPop(s) {
      var top := |s.stack| - 1;
      forall i | 0 <= i < |s.lanes| ensures t.lanes[i].core == s.lanes[i].core {
        assert i in s.stack[top].deferred ==> InEntry(s, i, top);
      }
      forall i, j | InEntry(t, i, j) ensures Waits(t, j, i) {
        assert InEntry(s, i, j) && !InEntry(s, i, top);
      }
      forall i, j, k | InEntry(t, i, j) && InEntry(t, i, k) ensures j == k {
        assert InEntry(s, i, j) && InEntry(s, i, k);
      }
      forall i | 0 <= i < |t.lanes| && t.lanes[i].blocked ensures exists j :: InEntry(t, i, j) {
        var j :| InEntry(s, i, j);
        assert InEntry(t, i, j);
      }
    }
  }

  lemma PopTracks(p: Program, s: State, own: seq<Lane>)
    requires Parking(s) && Tracks(p, s, own)
    ensures Tracks(p, Popped(s), own)
    ensures forall j :: 0 <= j < |s.lanes| && WindowValid(p, s.lanes[j]) ==> Tracks(p, Led(p, Popped(s), j), own)
  {
    PopKeeps(p, s);
  }

  lemma LedKeeps(p: Program, s: State, i: nat)
    requires Valid(p, s) && i < |s.lanes| && Parking(s)
    ensures Valid(p, Led(p, s, i)) && Parking(Led(p, s, i))
  {
    var t := Led(p, s, i);
    assert forall a, b :: InEntry(t, a, b) <==> InEntry(s, a, b);
    forall a, b | InEntry(t, a, b) ensures Waits(t, b, a) {
      assert Waits(s, b, a);
    }
  }

  /** The cores after an issue, and that parked lanes stay. */
  lemma IssueKeeps(p: Program, k: nat, s: State)
    requires Parking(s) && k < |p.uops| && Unparked(p, k, s)
    ensures var t := s.(lanes := AllIssued(p, k, s.lanes));
            Parking(t) && forall i :: 0 <= i < |s.lanes| ==>
              t.lanes[i].core == (if Issues(s.lanes[i], p.uops[k].pc) then CoreStep(p, k, s.lanes[i].core) else s.lanes[i].core)
  {
    var t := s.(lanes := AllIssued(p, k, s.lanes));
    hide CoreStep;
    assert forall a, b :: InEntry(t, a, b) <==> InEntry(s, a, b);
    forall a, b | InEntry(t, a, b) ensures Waits(t, b, a) {
      assert Waits(s, b, a);
    }
  }

  /** Lanes parked by a clean divergence were issued, and all go the same way. */
  lemma DefersMeans(p: Program, k: nat, s: State, i: nat)
    requires k < |p.uops| && p.uops[k].conditional && i < |s.lanes| && Unparked(p, k, s) && OwnGroup(p, k, s)
    requires Diverges(p, k, s.lanes)
    requires Defers(p, k, FirstTakes(p, k, s.lanes, 0), s.lanes[i], Issued(p, k, s.lanes[i]))
    ensures Issues(s.lanes[i], p.uops[k].pc) && !s.lanes[i].blocked
    ensures Issued(p, k, s.lanes[i]).core.pc == BranchPC(p, k, !FirstTakes(p, k, s.lanes, 0))
  {
    hide Diverges, FirstTakes;
  }

  lemma {:induction false} DeferredPCMeans(p: Program, k: nat, first: bool, before: seq<Lane>, after: seq<Lane>, n: nat, pc: nat, i: nat)
    requires k < |p.uops| && |before| == |after| && i < n <= |after| && Defers(p, k, first, before[i], after[i])
    requires forall j :: 0 <= j < n && Defers(p, k, first, before[j], after[j]) ==> after[j].core.pc == pc
    ensures DeferredPC(p, k, first, before, after, n) == pc
  {
    if !Defers(p, k, first, before[n - 1], after[n - 1]) {
      DeferredPCMeans(p, k, first, before, after, n - 1, pc, i);
    }
  }

  /** The new stack entry describes the lanes it parks. */
  lemma ParkedWait(p: Program, k: nat, s: State, i: nat)
    requires k < |p.uops| && Unparked(p, k, s) && OwnGroup(p, k, s) && Diverges(p, k, s.lanes)
    requires i in Park(p, k, s.lanes, s.stack).stack[|s.stack|].deferred
    ensures Waits(Park(p, k, s.lanes, s.stack), |s.stack|, i) && Issues(s.lanes[i], p.uops[k].pc) && !s.lanes[i].blocked
  {
    var first, after := FirstTakes(p, k, s.lanes, 0), AllIssued(p, k, s.lanes);
    hide CoreStep;
    DefersMeans(p, k, s, i);
    forall j | 0 <= j < |after| && Defers(p, k, first, s.lanes[j], after[j])
      ensures after[j].core.pc == BranchPC(p, k, !first)
    {
      DefersMeans(p, k, s, j);
    }
    DeferredPCMeans(p, k, first, s.lanes, after, |after|, BranchPC(p, k, !first), i);
  }

  /** A divergence: the parked lanes form a new entry, the older ones stay. */
  lemma ParkKeeps(p: Program, k: nat, s: State)
    requires Parking(s) && k < |p.uops| && Unparked(p, k, s) && OwnGroup(p, k, s) && Diverges(p, k, s.lanes)
    ensures var t := Park(p, k, s.lanes, s.stack);
            Parking(t) && |t.lanes| == |s.lanes| && forall i :: 0 <= i < |s.lanes| ==>
              t.lanes[i].core == (if Issues(s.lanes[i], p.uops[k].pc) then CoreStep(p, k, s.lanes[i].core) else s.lanes[i].core)
  {
    var u := s.(lanes := AllIssued(p, k, s.lanes));
    var t := Park(p, k, s.lanes, s.stack);
    var top := |s.stack|;
    IssueKeeps(p, k, s);
    forall i | i in t.stack[top].deferred ensures Waits(t, top, i) && !s.lanes[i].blocked && t.lanes[i].blocked {
      ParkedWait(p, k, s, i);
    }
    forall i | 0 <= i < |s.lanes| ensures t.lanes[i].core == u.lanes[i].core && u.lanes[i].blocked == s.lanes[i].blocked {}
    hide Park, AllIssued, Unparked, OwnGroup, Diverges, CoreStep;
    ParkKeepsParking(s, u, t);
  }

  lemma ParkKeepsParking(s: State, u: State, t: State)
    requires Parking(u) && u.stack == s.stack && |t.stack| == |s.stack| + 1 && t.stack[..|s.stack|] == s.stack
    requires |u.lanes| == |t.lanes| == |s.lanes|
    requires forall i :: 0 <= i < |s.lanes| ==> t.lanes[i].core == u.lanes[i].core && u.lanes[i].blocked == s.lanes[i].blocked
    requires forall i :: 0 <= i < |s.lanes| ==> (t.lanes[i].blocked <==> s.lanes[i].blocked || i in t.stack[|s.stack|].deferred)
    requires forall i :: i in t.stack[|s.stack|].deferred ==> Waits(t, |s.stack|, i) && !s.lanes[i].blocked
    ensures Parking(t)
  {
    var top := |s.stack|;
    forall i: nat, j: nat | InEntry(t, i, j) ensures Waits(t, j, i) && (j < top ==> InEntry(u, i, j) && s.lanes[i].blocked) {
      if j < top {
        assert t.stack[j] == u.stack[j];
        assert InEntry(u, i, j);
        assert Waits(u, j, i);
      }
    }
    forall i: nat, j: nat, k: nat | InEntry(t, i, j) && InEntry(t, i, k) ensures j == k {
      if j < top && k < top { assert InEntry(u, i, j) && InEntry(u, i, k); }
    }
    forall i: nat | i < |t.lanes| && t.lanes[i].blocked ensures exists j :: InEntry(t, i, j) {
      if s.lanes[i].blocked {
        var j: nat :| InEntry(u, i, j);
        assert t.stack[j] == u.stack[j];
        assert InEntry(t, i, j);
      } else {
        assert InEntry(t, i, top);
      }
    }
  }

  lemma DropKeeps(s: State)
    requires Parking(s)
    ensures Parking(Drop(s)) && |Drop(s).lanes| == |s.lanes|
    ensures forall i :: 0 <= i < |s.lanes| ==>
              Drop(s).lanes[i].core == if Selected(s.lanes[i]) then s.lanes[i].core.(active := false) else s.lanes[i].core
  {
    var t := Drop(s);
    assert forall a, b :: InEntry(t, a, b) <==> InEntry(s, a, b);
    forall a, b | InEntry(t, a, b) ensures Waits(t, b, a) {
      assert Waits(s, b, a);
    }
  }

  /** Whatever way the issue goes, exactly the issued lanes have executed the entry. */
  lemma IssueIsLaneWise(p: Program, k: nat, u: State)
    requires Parking(u) && k < |p.uops| && (MustWait(p, k, u.lanes) || (Unparked(p, k, u) && OwnGroup(p, k, u)))
    ensures var t := Issue(p, k, u).0;
            Parking(t) && |t.lanes| == |u.lanes| && forall i :: 0 <= i < |u.lanes| ==>
              t.lanes[i].core == if !MustWait(p, k, u.lanes) && Issues(u.lanes[i], p.uops[k].pc) then CoreStep(p, k, u.lanes[i].core) else u.lanes[i].core
  {
    hide Parking, Park, MustWait, Diverges, AllIssued, Unparked, OwnGroup, CoreStep;
    if !MustWait(p, k, u.lanes) {
      IssueKeeps(p, k, u);
      AllIssuedLength(p, k, u.lanes);
      if Diverges(p, k, u.lanes) {
        ParkKeeps(p, k, u);
      }
    }
  }

  lemma AllIssuedLength(p: Program, k: nat, lanes: seq<Lane>)
    requires k < |p.uops|
    ensures |AllIssued(p, k, lanes)| == |lanes|
  {
  }

  /** The three ways of a step, with the lanes it moves. */
  lemma StepCases(p: Program, s: State)
    requires Valid(p, s)
    ensures var t := Popped(s);
            var j := Leader(t.lanes, 0);
            && Valid(p, t)
            && (j == |t.lanes| ==> Step(p, s) == (t, Drained) && forall i :: !Moves(p, s, i))
            && (j < |t.lanes| ==>
                  var k := Fetch(p, t.lanes[j]);
                  && -1 <= k < |p.uops|
                  && (k < 0 ==> Step(p, s) == (Drop(t), Drained) && forall i :: 0 <= i < |t.lanes| ==> (Moves(p, s, i) <==> Selected(t.lanes[i])))
                  && (k >= 0 ==> Step(p, s) == Issue(p, k, Led(p, t, j)) && forall i :: 0 <= i < |t.lanes| ==>
                        (Moves(p, s, i) <==> !MustWait(p, k, Led(p, t, j).lanes) && Issues(t.lanes[i], p.uops[k].pc))))
  {
    PoppedValid(p, s);
    hide Popped, Leader, Refilled, Drop, Issue, MustWait, Selected, Issues;
  }

  lemma OwnAfterMeans(p: Program, s: State, own: seq<Lane>)
    requires Valid(p, s) && Tracks(p, s, own)
    ensures |OwnAfter(p, s, own)| == |own|
    ensures forall i :: 0 <= i < |own| ==> WindowValid(p, OwnAfter(p, s, own)[i]) && OwnAfter(p, s, own)[i] == if Moves(p, s, i) then OwnStep(p, own[i]) else own[i]
  {
    hide Moves, OwnStep;
  }

  lemma OwnStepMeans(p: Program, k: int, l: Lane)
    requires k < |p.uops| && WindowValid(p, l) && l.core.active && ActsAlone(p, k, l)
    ensures OwnStep(p, l).core == if k < 0 then l.core.(active := false) else CoreStep(p, k, l.core)
  {
    hide CoreStep, Find;
  }

  lemma CleanStepMeans(p: Program, s: State, own: seq<Lane>)
    requires Valid(p, s) && Parking(s) && Tracks(p, s, own) && CleanStep(p, s, own)
    ensures var t := Popped(s);
            var j := Leader(t.lanes, 0);
            && Valid(p, t) && Tracks(p, t, own)
            && (j < |t.lanes| ==>
                  var k := Fetch(p, t.lanes[j]);
                  Tracks(p, Led(p, t, j), own) && k < |p.uops| &&
                  if k < 0 then CleanDrop(p, t, own) else CleanIssue(p, k, Led(p, t, j), own))
  {
    PoppedValid(p, s);
    PopTracks(p, s, own);
    hide Popped, Leader, Led, CleanDrop, CleanIssue, Tracks, Parking;
  }

  /** A clean step: every lane does nothing or exactly what it would have done alone. */
  lemma StepIsLaneWise(p: Program, s: State, own: seq<Lane>)
    requires Valid(p, s) && Parking(s) && Tracks(p, s, own) && CleanStep(p, s, own)
    ensures Parking(Step(p, s).0) && Tracks(p, Step(p, s).0, OwnAfter(p, s, own))
  {
    StepCases(p, s);
    CleanStepMeans(p, s, own);
    OwnAfterMeans(p, s, own);
    PopKeeps(p, s);
    var t := Popped(s);
    var j := Leader(t.lanes, 0);
    if j < |t.lanes| {
      var k := Fetch(p, t.lanes[j]);
      LedKeeps(p, t, j);
      LedCores(p, t, j);
      hide *;
      if k < 0 {
        DropTracks(p, s, t, own, OwnAfter(p, s, own));
      } else {
        IssueTracks(p, k, s, t, Led(p, t, j), own, OwnAfter(p, s, own));
      }
    } else {
      hide Step, Popped, Leader, Moves, Parking;
    }
  }

  lemma DropTracks(p: Program, s: State, t: State, own: seq<Lane>, next: seq<Lane>)
    requires Valid(p, s) && Parking(t) && Tracks(p, t, own) && CleanDrop(p, t, own) && |next| == |own|
    requires forall i :: 0 <= i < |t.lanes| ==> (Moves(p, s, i) <==> Selected(t.lanes[i]))
    requires forall i :: 0 <= i < |own| ==> WindowValid(p, next[i]) && next[i] == if Moves(p, s, i) then OwnStep(p, own[i]) else own[i]
    ensures Parking(Drop(t)) && Tracks(p, Drop(t), next)
  {
    DropKeeps(t);
    hide Parking, Drop, Moves, OwnStep, CoreStep;
    forall i | 0 <= i < |own| ensures next[i].core == Drop(t).lanes[i].core {
      if Selected(t.lanes[i]) { OwnStepMeans(p, -1, own[i]); }
    }
  }

  lemma IssueTracks(p: Program, k: nat, s: State, t: State, u: State, own: seq<Lane>, next: seq<Lane>)
    requires Valid(p, s) && k < |p.uops| && Parking(u) && Tracks(p, u, own) && CleanIssue(p, k, u, own) && |next| == |own| && |t.lanes| == |own|
    requires forall i, pc {:trigger Issues(t.lanes[i], pc)} :: 0 <= i < |t.lanes| ==> (Issues(u.lanes[i], pc) <==> Issues(t.lanes[i], pc))
    requires forall i :: 0 <= i < |t.lanes| ==> (Moves(p, s, i) <==> !MustWait(p, k, u.lanes) && Issues(t.lanes[i], p.uops[k].pc))
    requires forall i :: 0 <= i < |own| ==> WindowValid(p, next[i]) && next[i] == if Moves(p, s, i) then OwnStep(p, own[i]) else own[i]
    ensures Parking(Issue(p, k, u).0) && Tracks(p, Issue(p, k, u).0, next)
  {
    hide Parking, Issue, Moves, OwnStep, CoreStep, MustWait, Unparked, OwnGroup, ActsAlone;
    IssueIsLaneWise(p, k, u);
    forall i | 0 <= i < |own| ensures next[i].core == Issue(p, k, u).0.lanes[i].core {
      assert Issues(u.lanes[i], p.uops[k].pc) <==> Issues(t.lanes[i], p.uops[k].pc);
      if !MustWait(p, k, u.lanes) && Issues(u.lanes[i], p.uops[k].pc) { OwnStepMeans(p, k, own[i]); }
    }
  }

  lemma LedCores(p: Program, t: State, j: nat)
    requires j < |t.lanes| && WindowValid(p, t.lanes[j])
    ensures |Led(p, t, j).lanes| == |t.lanes|
    ensures forall i, pc {:trigger Issues(t.lanes[i], pc)} :: 0 <= i < |t.lanes| ==> (Issues(Led(p, t, j).lanes[i], pc) <==> Issues(t.lanes[i], pc))
    ensures forall i :: 0 <= i < |t.lanes| ==> Led(p, t, j).lanes[i].core == t.lanes[i].core
  {
  }

  // ----- runs -----

  ghost predicate CleanRun(p: Program, s: State, own: seq<Lane>, budget: nat)
    requires Valid(p, s) && Parking(s) && Tracks(p, s, own)
    decreases budget
  {
    StepValid(p, s);
    budget > 0 ==>
      CleanStep(p, s, own) && if Step(p, s).1.Continue? then StepIsLaneWise(p, s, own); CleanRun(p, Step(p, s).0, OwnAfter(p, s, own), budget - 1) else true
  }

  /** The lanes on their own after a clean run. */
  ghost function RunOwn(p: Program, s: State, own: seq<Lane>, budget: nat): (r: seq<Lane>)
    requires Valid(p, s) && Parking(s) && Tracks(p, s, own) && CleanRun(p, s, own, budget)
    ensures |r| == |own|
    decreases budget
  {
    if budget == 0 then own
    else
      StepValid(p, s);
      StepIsLaneWise(p, s, own);
      if Step(p, s).1.Continue? then RunOwn(p, Step(p, s).0, OwnAfter(p, s, own), budget - 1) else OwnAfter(p, s, own)
  }

  /** A lane has made some steps of its own. */
  ghost predicate Reaches(p: Program, a: Lane, b: Lane)
    requires WindowValid(p, a)
  {
    exists n :: OwnSteps(p, a, n) == b
  }

  lemma {:induction false} StepsCompose(p: Program, l: Lane, m: nat, n: nat)
    requires WindowValid(p, l)
    ensures OwnSteps(p, OwnSteps(p, l, m), n) == OwnSteps(p, l, m + n)
  {
    hide *;
    var k := OwnSteps(p, l, m);
    if n > 0 {
      StepsCompose(p, l, m, n - 1);
      OwnMore(p, k, n - 1);
      OwnMore(p, l, m + n - 1);
    } else {
      OwnNothing(p, k);
    }
  }

  lemma ReachesTransitive(p: Program, a: Lane, b: Lane, c: Lane)
    requires WindowValid(p, a) && WindowValid(p, b) && Reaches(p, a, b) && Reaches(p, b, c)
    ensures Reaches(p, a, c)
  {
    hide OwnSteps;
    var m :| OwnSteps(p, a, m) == b;
    var n :| OwnSteps(p, b, n) == c;
    StepsCompose(p, a, m, n);
  }

  lemma StepReaches(p: Program, a: Lane)
    requires WindowValid(p, a)
    ensures Reaches(p, a, a) && Reaches(p, a, OwnStep(p, a))
  {
    assert OwnSteps(p, a, 0) == a && OwnSteps(p, a, 1) == OwnStep(p, a);
  }

  /** A clean call: every lane is where its own steps lead. */
  lemma {:induction false} RunIsLaneWise(p: Program, s: State, own: seq<Lane>, budget: nat)
    requires Valid(p, s) && Parking(s) && Tracks(p, s, own) && CleanRun(p, s, own, budget)
    ensures Parking(Run(p, s, budget)) && Tracks(p, Run(p, s, budget), RunOwn(p, s, own, budget))
    ensures forall i :: 0 <= i < |own| ==> Reaches(p, own[i], RunOwn(p, s, own, budget)[i])
    ensures forall i :: 0 <= i < |own| && !s.lanes[i].ready ==>
              RunOwn(p, s, own, budget)[i] == own[i] && !Run(p, s, budget).lanes[i].ready
    decreases budget
  {
    if budget == 0 {
      forall i | 0 <= i < |own| ensures Reaches(p, own[i], own[i]) {
        StepReaches(p, own[i]);
      }
    } else {
      StepIsLaneWise(p, s, own);
      StepValid(p, s);
      var t, next := Step(p, s).0, OwnAfter(p, s, own);
      if Step(p, s).1.Continue? { RunIsLaneWise(p, t, next, budget - 1); }
      var final := RunOwn(p, s, own, budget);
      forall i | 0 <= i < |own| && !s.lanes[i].ready ensures next[i] == own[i] && !t.lanes[i].ready {
        IdleLaneStays(p, s, i);
      }
      forall i | 0 <= i < |own| ensures next[i] == own[i] || next[i] == OwnStep(p, own[i]) {}
      hide Step, CleanStep, Parking, OwnAfter, OwnStep, Reaches, Valid;
      forall i | 0 <= i < |own| ensures Reaches(p, own[i], final[i]) {
        StepReaches(p, own[i]);
        if Step(p, s).1.Continue? { ReachesTransitive(p, own[i], next[i], final[i]); }
      }
    }
  }

  lemma IdleLaneStays(p: Program, s: State, i: nat)
    requires Valid(p, s) && Parking(s) && i < |s.lanes| && !s.lanes[i].ready
    ensures |Step(p, s).0.lanes| == |s.lanes| && !Moves(p, s, i) && !Step(p, s).0.lanes[i].ready
  {
    hide *;
    PoppedValid(p, s);
    StepValid(p, s);
    PoppedIdle(s, i);
    IdleAfterPop(p, s, Popped(s), i);
  }

  lemma PoppedIdle(s: State, i: nat)
    requires i < |s.lanes|
    ensures |Popped(s).lanes| == |s.lanes| && Popped(s).lanes[i].ready == s.lanes[i].ready
  {
    hide MustPop;
  }

  lemma IdleAfterPop(p: Program, s: State, t: State, i: nat)
    requires Valid(p, s) && t == Popped(s) && Valid(p, t) && |Step(p, s).0.lanes| == |t.lanes| == |s.lanes| && i < |t.lanes| && !t.lanes[i].ready
    ensures !Moves(p, s, i) && !Step(p, s).0.lanes[i].ready
  {
    var j := Leader(t.lanes, 0);
    hide Popped, Leader, Issue, Fetch;
    if j < |t.lanes| {
      var k := Fetch(p, t.lanes[j]);
      var u := t.(lanes := t.lanes[j := Refilled(p, t.lanes[j])]);
      hide Refilled;
      if k >= 0 { IssueShape(p, k, u); }
    }
  }

  // ----- responses -----

  ghost function Given(own: seq<Lane>, lane: nat, destination: int, value: int): seq<Lane>
    requires lane < |own|
  {
    own[lane := Sourced(own[lane], destination, value)]
  }

  lemma AnsweredKeeps(p: Program, s: State, own: seq<Lane>, lane: nat, destination: int, value: int)
    requires Valid(p, s) && Parking(s) && Tracks(p, s, own) && lane < |s.lanes|
    ensures var t := Answered(s, lane, destination, value); Valid(p, t) && Parking(t) && Tracks(p, t, Given(own, lane, destination, value))
  {
    var t := Answered(s, lane, destination, value);
    assert forall a, b :: InEntry(t, a, b) <==> InEntry(s, a, b);
    forall a, b | InEntry(t, a, b) ensures Waits(t, b, a) {
      assert Waits(s, b, a);
    }
  }

  /** One response, and with it a clean call. */
  ghost predicate CleanCall(p: Program, s: State, own: seq<Lane>, r: Response, destination: int, budget: nat)
    requires Valid(p, s) && Parking(s) && Tracks(p, s, own)
  {
    if Accepts(s, r.lane, budget) then
      AnsweredKeeps(p, s, own, r.lane, destination, r.value);
      CleanRun(p, Answered(s, r.lane, destination, r.value), Given(own, r.lane, destination, r.value), budget)
    else true
  }

  ghost function CallOwn(p: Program, s: State, own: seq<Lane>, r: Response, destination: int, budget: nat): seq<Lane>
    requires Valid(p, s) && Parking(s) && Tracks(p, s, own) && CleanCall(p, s, own, r, destination, budget)
  {
    if Accepts(s, r.lane, budget) then
      AnsweredKeeps(p, s, own, r.lane, destination, r.value);
      RunOwn(p, Answered(s, r.lane, destination, r.value), Given(own, r.lane, destination, r.value), budget)
    else own
  }

  lemma CallKeeps(p: Program, s: State, own: seq<Lane>, r: Response, destination: int, budget: nat)
    requires Valid(p, s) && Parking(s) && Tracks(p, s, own) && CleanCall(p, s, own, r, destination, budget)
    ensures var t := Resume(p, s, r.lane, destination, r.value, budget);
            Parking(t) && Tracks(p, t, CallOwn(p, s, own, r, destination, budget))
  {
    hide Run, CleanRun, RunOwn, Parking, Valid;
    if Accepts(s, r.lane, budget) {
      AnsweredKeeps(p, s, own, r.lane, destination, r.value);
      RunIsLaneWise(p, Answered(s, r.lane, destination, r.value), Given(own, r.lane, destination, r.value), budget);
    }
  }

  ghost predicate CleanCalls(p: Program, s: State, own: seq<Lane>, rs: seq<Response>, destination: int, budget: nat)
    requires Valid(p, s) && Parking(s) && Tracks(p, s, own)
    decreases |rs|
  {
    rs != [] ==>
      CleanCall(p, s, own, rs[0], destination, budget) &&
      (CallKeeps(p, s, own, rs[0], destination, budget);
       CleanCalls(p, Resume(p, s, rs[0].lane, destination, rs[0].value, budget), CallOwn(p, s, own, rs[0], destination, budget),
                  rs[1..], destination, budget))
  }

  ghost function ServeOwn(p: Program, s: State, own: seq<Lane>, rs: seq<Response>, destination: int, budget: nat): seq<Lane>
    requires Valid(p, s) && Parking(s) && Tracks(p, s, own) && CleanCalls(p, s, own, rs, destination, budget)
    decreases |rs|
  {
    if rs == [] then own
    else
      CallKeeps(p, s, own, rs[0], destination, budget);
      ServeOwn(p, Resume(p, s, rs[0].lane, destination, rs[0].value, budget), CallOwn(p, s, own, rs[0], destination, budget),
               rs[1..], destination, budget)
  }

  /** At most one response for each lane, and only for lanes that wait for one. */
  ghost predicate Expected(s: State, rs: seq<Response>) {
    && (forall j :: 0 <= j < |rs| ==> rs[j].lane < |s.lanes| && s.lanes[rs[j].lane].core.active && !s.lanes[rs[j].lane].ready)
    && (forall j, m :: 0 <= j < m < |rs| ==> rs[j].lane != rs[m].lane)
  }

  /** A lane before it runs on its own: with its source value, if there is a response. */
  function StartOf(l: Lane, rs: seq<Response>, i: nat, destination: int): Lane {
    match ValueFor(rs, i)
    case None => l
    case Some(v) => Sourced(l, destination, v)
  }

  /** What one call does to the lanes. */
  lemma CallIsLaneWise(p: Program, s: State, own: seq<Lane>, r: Response, destination: int, budget: nat)
    requires Valid(p, s) && Parking(s) && Tracks(p, s, own) && CleanCall(p, s, own, r, destination, budget) && Accepts(s, r.lane, budget)
    ensures var t, next := Resume(p, s, r.lane, destination, r.value, budget), CallOwn(p, s, own, r, destination, budget);
            && Parking(t) && Tracks(p, t, next)
            && (forall i :: 0 <= i < |own| ==> Reaches(p, if i == r.lane then Sourced(own[i], destination, r.value) else own[i], next[i]))
            && (forall i :: 0 <= i < |own| && i != r.lane && !s.lanes[i].ready ==> next[i] == own[i] && !t.lanes[i].ready)
  {
    hide Run, CleanRun, RunOwn, Parking, Valid, Reaches;
    AnsweredKeeps(p, s, own, r.lane, destination, r.value);
    var a, given := Answered(s, r.lane, destination, r.value), Given(own, r.lane, destination, r.value);
    RunIsLaneWise(p, a, given, budget);
    assert forall i :: 0 <= i < |own| ==> given[i] == if i == r.lane then Sourced(own[i], destination, r.value) else own[i];
  }

  lemma ExpectedNext(s: State, t: State, own: seq<Lane>, next: seq<Lane>, rs: seq<Response>)
    requires rs != [] && Expected(s, rs) && |t.lanes| == |s.lanes| == |own| == |next|
    requires forall i :: 0 <= i < |own| ==> own[i].core == s.lanes[i].core && next[i].core == t.lanes[i].core
    requires forall i :: 0 <= i < |own| && i != rs[0].lane && !s.lanes[i].ready ==> next[i] == own[i] && !t.lanes[i].ready
    ensures Expected(t, rs[1..]) && ValueFor(rs[1..], rs[0].lane) == None
    ensures forall i :: 0 <= i < |own| && i != rs[0].lane && ValueFor(rs, i).Some? ==> !s.lanes[i].ready
    ensures forall i :: i != rs[0].lane ==> ValueFor(rs, i) == ValueFor(rs[1..], i)
  {
    var rest := rs[1..];
    forall j | 0 <= j < |rest| ensures rest[j] == rs[j + 1] && rest[j].lane != rs[0].lane && t.lanes[rest[j].lane].core.active && !t.lanes[rest[j].lane].ready {
      assert next[rs[j + 1].lane] == own[rs[j + 1].lane];
    }
    NoValue(rest, rs[0].lane);
    forall i | 0 <= i < |own| && i != rs[0].lane && ValueFor(rs, i).Some? ensures !s.lanes[i].ready {
      SomeValue(rs, i);
    }
  }

  lemma {:induction false} NoValue(rs: seq<Response>, i: nat)
    requires forall j :: 0 <= j < |rs| ==> rs[j].lane != i
    ensures ValueFor(rs, i) == None
  {
    if rs != [] { NoValue(rs[1..], i); }
  }

  lemma {:induction false} SomeValue(rs: seq<Response>, i: nat)
    requires ValueFor(rs, i).Some?
    ensures exists j :: 0 <= j < |rs| && rs[j].lane == i
  {
    if rs[0].lane != i {
      SomeValue(rs[1..], i);
      var j :| 0 <= j < |rs[1..]| && rs[1..][j].lane == i;
      assert rs[j + 1].lane == i;
    }
  }

  /**
   Main result, for every program, also with repeated PCs, and every order of the responses: in clean
   calls every lane ends in a state that it reaches on its own from its source value, and every parked
   lane stands where its single stack entry will resume it.
   */
  lemma {:induction false} ResponsesAreLaneWise(p: Program, s: State, own: seq<Lane>, rs: seq<Response>, destination: int, budget: nat)
    requires Valid(p, s) && Parking(s) && Tracks(p, s, own) && budget > 0
    requires Expected(s, rs) && CleanCalls(p, s, own, rs, destination, budget)
    ensures Parking(Serve(p, s, rs, destination, budget))
    ensures Tracks(p, Serve(p, s, rs, destination, budget), ServeOwn(p, s, own, rs, destination, budget))
    ensures forall i :: 0 <= i < |own| ==> Reaches(p, StartOf(own[i], rs, i, destination), ServeOwn(p, s, own, rs, destination, budget)[i])
    decreases |rs|
  {
    hide *;
    StartsValid(p, s, own, rs, destination);
    if rs == [] {
      NoResponses(p, s, own, destination, budget);
    } else {
      var r, rest := rs[0], rs[1..];
      ServeUnfolds(p, s, own, rs, destination, budget);
      CallIsLaneWise(p, s, own, r, destination, budget);
      var t, next := Resume(p, s, r.lane, destination, r.value, budget), CallOwn(p, s, own, r, destination, budget);
      CallShape(p, s, own, t, next);
      ExpectedNext(s, t, own, next, rs);
      ResponsesAreLaneWise(p, t, next, rest, destination, budget);
      var final := ServeOwn(p, s, own, rs, destination, budget);
      CallShape(p, s, own, Serve(p, s, rs, destination, budget), final);
      forall i | 0 <= i < |own| ensures Reaches(p, StartOf(own[i], rs, i, destination), final[i]) {
        ReachesBoth(p, own[i], next[i], final[i], rs, i, destination);
      }
    }
  }

  lemma StartsValid(p: Program, s: State, own: seq<Lane>, rs: seq<Response>, destination: int)
    requires Tracks(p, s, own)
    ensures forall i :: 0 <= i < |own| ==> WindowValid(p, own[i]) && WindowValid(p, StartOf(own[i], rs, i, destination))
  {
    hide ValueFor, Fills, WindowEnd;
  }

  lemma NoResponses(p: Program, s: State, own: seq<Lane>, destination: int, budget: nat)
    requires Valid(p, s) && Parking(s) && Tracks(p, s, own) && budget > 0 && CleanCalls(p, s, own, [], destination, budget)
    ensures Serve(p, s, [], destination, budget) == s && ServeOwn(p, s, own, [], destination, budget) == own
    ensures forall i :: 0 <= i < |own| ==> WindowValid(p, own[i]) && StartOf(own[i], [], i, destination) == own[i] && Reaches(p, own[i], own[i])
  {
    hide Parking, Valid, Reaches, WindowValid;
    forall i | 0 <= i < |own| ensures WindowValid(p, own[i]) && Reaches(p, own[i], own[i]) { StepReaches(p, own[i]); }
  }

  lemma CallShape(p: Program, s: State, own: seq<Lane>, t: State, next: seq<Lane>)
    requires Tracks(p, s, own) && Tracks(p, t, next) && |t.lanes| == |s.lanes|
    ensures |next| == |own| == |s.lanes| && forall i :: 0 <= i < |own| ==>
              WindowValid(p, own[i]) && WindowValid(p, next[i]) && own[i].core == s.lanes[i].core && next[i].core == t.lanes[i].core
  {
  }

  lemma ServeUnfolds(p: Program, s: State, own: seq<Lane>, rs: seq<Response>, destination: int, budget: nat)
    requires Valid(p, s) && Parking(s) && Tracks(p, s, own) && rs != [] && budget > 0 && Expected(s, rs) && CleanCalls(p, s, own, rs, destination, budget)
    ensures CleanCall(p, s, own, rs[0], destination, budget) && Accepts(s, rs[0].lane, budget)
    ensures var t, next := Resume(p, s, rs[0].lane, destination, rs[0].value, budget), CallOwn(p, s, own, rs[0], destination, budget);
            && Parking(t) && Tracks(p, t, next) && CleanCalls(p, t, next, rs[1..], destination, budget)
            && Serve(p, s, rs, destination, budget) == Serve(p, t, rs[1..], destination, budget)
            && ServeOwn(p, s, own, rs, destination, budget) == ServeOwn(p, t, next, rs[1..], destination, budget)
  {
    CallKeeps(p, s, own, rs[0], destination, budget);
    hide Resume, CallOwn, CleanCall, Parking, Valid, Tracks;
  }

  lemma ReachesBoth(p: Program, own: Lane, next: Lane, final: Lane, rs: seq<Response>, i: nat, destination: int)
    requires rs != [] && WindowValid(p, own) && WindowValid(p, next)
    requires Reaches(p, if i == rs[0].lane then Sourced(own, destination, rs[0].value) else own, next)
    requires Reaches(p, StartOf(next, rs[1..], i, destination), final)
    requires i == rs[0].lane ==> ValueFor(rs[1..], i) == None
    requires i != rs[0].lane ==> ValueFor(rs, i) == ValueFor(rs[1..], i) && (ValueFor(rs, i).Some? ==> next == own)
    ensures Reaches(p, StartOf(own, rs, i, destination), final)
  {
    hide Reaches;
    if ValueFor(rs[1..], i) == None {
      ReachesTransitive(p, StartOf(own, rs, i, destination), next, final);
    }
  }
}
