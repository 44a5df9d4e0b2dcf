/**
 Repeated PCs in slices that never branch on loaded values: the way of a lane through such a slice, with
 the windows it fills, is known before the first call, and it decides exactly whether all runs of the group
 executor do to every lane what the lane would have done alone.
 */
module VectorWays {
  import opened VectorExecutor
  import opened VectorRefinement
  import opened VectorShapes
  import opened VectorMeeting

  // ----- the way of a lane -----

  /** Where a lane stands, and where its window begins. */
  datatype Spot = Spot(pc: nat, active: bool, window: nat)

  function SpotOf(l: Lane): Spot { Spot(l.core.pc, l.core.active, l.windowStart) }

  function EntryAt(p: Program, t: Spot): (k: int)
    requires Fills(p, t.window)
    ensures k == -1 || (1 <= k < |p.uops| && p.uops[k].pc == t.pc)
  {
    var k := Find(p, t.pc, t.window, WindowEnd(p, t.window));
    if k >= 0 then k else Find(p, t.pc, 1, |p.uops|)
  }

  /** The beginning of the window once the operation is fetched. */
  function WindowAt(p: Program, t: Spot): (w: nat)
    requires Fills(p, t.window)
    ensures Fills(p, w)
  {
    var k := Find(p, t.pc, 1, |p.uops|);
    if Find(p, t.pc, t.window, WindowEnd(p, t.window)) >= 0 || k < 0 then t.window else k
  }

  datatype Exit = Exit(pc: nat, active: bool)

  /** Where entry `k` leads if it does not depend on values. */
  function ExitOf(p: Program, k: nat): Exit
    requires k < |p.uops|
  {
    var op := p.uops[k];
    if op.conditional then Leaving(p, BranchPC(p, k, op.branchTaken))
    else if op.control && op.target != 0 then Leaving(p, op.target)
    else if op.control && !op.writes then Exit(op.pc, false)
    else if op.semantic.Unsupported? && !op.control && !op.writes then Exit(NextPC(p, k), NextPC(p, k) != 0)
    else if !op.semantic.Compute? then Exit(op.pc, false)
    else if NextPC(p, k) != 0 && !p.pastFlr && k == p.stopIndex then Exit(0, false)
    else Exit(NextPC(p, k), NextPC(p, k) != 0)
  }

  function Leaving(p: Program, pc: nat): Exit
    requires |p.uops| > 0
  {
    Exit(pc, pc != 0 && pc != p.uops[0].pc)
  }

  function ExitAt(p: Program, t: Spot): Exit
    requires Fills(p, t.window)
  {
    if EntryAt(p, t) < 0 then Exit(t.pc, false) else ExitOf(p, EntryAt(p, t))
  }

  function NextSpot(p: Program, t: Spot): (r: Spot)
    requires Fills(p, t.window)
    ensures Fills(p, r.window)
  {
    if !t.active then t else Spot(ExitAt(p, t).pc, ExitAt(p, t).active, WindowAt(p, t))
  }

  /** The way from the entry behind the source load. */
  function Way(p: Program, n: nat): (t: Spot)
    requires Fills(p, 1)
    ensures Fills(p, t.window)
  {
    if n == 0 then Spot(p.uops[1].pc, true, 1) else NextSpot(p, Way(p, n - 1))
  }

  // ----- slices whose lanes go that way -----

  /** An operation that is evaluated has a result. */
  ghost predicate Settled(p: Program) { forall k :: 1 <= k < |p.uops| ==> Resolves(p.uops[k]) }

  ghost predicate Resolves(op: Uop) { op.semantic.Compute? ==> forall a, b :: op.semantic.compute(a, b).Some? }

  /** Captures of a PC are the same instruction: they do the same to the registers. */
  ghost predicate Recorded(p: Program) {
    forall j, k :: 1 <= j < |p.uops| && 1 <= k < |p.uops| && p.uops[j].pc == p.uops[k].pc ==> SameInstruction(p, j, k)
  }

  ghost predicate SameInstruction(p: Program, j: nat, k: nat)
    requires j < |p.uops| && k < |p.uops|
  {
    p.uops[j].conditional == p.uops[k].conditional && forall c: Core :: CoreStep(p, j, c).regs == CoreStep(p, k, c).regs
  }

  ghost predicate Plainly(p: Program) { Uniform(p) && Settled(p) && Recorded(p) }

  /** Wherever the way comes back to a PC, it goes on as before. */
  ghost predicate Consistent(p: Program)
    requires Fills(p, 1)
  {
    forall m, n :: Meet(p, m, n) ==> ExitAt(p, Way(p, m)) == ExitAt(p, Way(p, n))
  }

  ghost predicate Meet(p: Program, m: nat, n: nat)
    requires Fills(p, 1)
  {
    Way(p, m).active && Way(p, n).active && Way(p, m).pc == Way(p, n).pc
  }

  lemma FetchIsEntry(p: Program, l: Lane)
    requires WindowValid(p, l)
    ensures Fetch(p, l) == EntryAt(p, SpotOf(l)) && Refilled(p, l).windowStart == WindowAt(p, SpotOf(l))
  {
  }

  /** The fetched operation is the one that the filled window shows. */
  lemma EntryByWindow(p: Program, t: Spot)
    requires Fills(p, t.window) && EntryAt(p, t) >= 0
    ensures EntryAt(p, t) == Find(p, t.pc, WindowAt(p, t), WindowEnd(p, WindowAt(p, t)))
    ensures WindowAt(p, t.(window := WindowAt(p, t))) == WindowAt(p, t)
  {
    var k := Find(p, t.pc, 1, |p.uops|);
    if Find(p, t.pc, t.window, WindowEnd(p, t.window)) < 0 {
      assert Find(p, t.pc, k, WindowEnd(p, k)) == k;
    }
  }

  lemma SameWindowSameEntry(p: Program, t: Spot, u: Spot)
    requires Fills(p, t.window) && Fills(p, u.window) && t.pc == u.pc && WindowAt(p, t) == WindowAt(p, u)
    ensures EntryAt(p, t) == EntryAt(p, u)
  {
    hide WindowAt;
    if EntryAt(p, t) >= 0 { EntryByWindow(p, t); }
    if EntryAt(p, u) >= 0 { EntryByWindow(p, u); }
  }

  /** A step by entry `k` leads to its exit. */
  lemma StepExits(p: Program, k: nat, c: Core)
    requires Uniform(p) && Settled(p) && 1 <= k < |p.uops| && c.pc == p.uops[k].pc && c.active
    ensures CoreStep(p, k, c).pc == ExitOf(p, k).pc && CoreStep(p, k, c).active == ExitOf(p, k).active
  {
    assert Straight(p, k, 1) && Resolves(p.uops[k]);
    hide Uniform, Settled;
  }

  /** Captures of a PC act alike exactly if they have the same exit. */
  lemma ActsIffExit(p: Program, j: nat, k: nat, c: Core)
    requires Plainly(p) && 1 <= j < |p.uops| && 1 <= k < |p.uops| && p.uops[j].pc == p.uops[k].pc == c.pc && c.active
    ensures CoreStep(p, j, c) == CoreStep(p, k, c) <==> ExitOf(p, j) == ExitOf(p, k)
  {
    StepExits(p, j, c);
    StepExits(p, k, c);
    assert SameInstruction(p, j, k);
    hide Plainly, Uniform, Settled, Recorded, ExitOf, CoreStep;
    var a, b := CoreStep(p, j, c), CoreStep(p, k, c);
    assert a.regs == b.regs;
    assert a == Core(a.pc, a.regs, a.active) && b == Core(b.pc, b.regs, b.active);
  }

  /** On its own a lane follows the way. */
  lemma OwnGoes(p: Program, l: Lane)
    requires Uniform(p) && Settled(p) && WindowValid(p, l)
    ensures SpotOf(OwnStep(p, l)) == NextSpot(p, SpotOf(l))
  {
    FetchIsEntry(p, l);
    var k := Fetch(p, l);
    if l.core.active && k >= 0 { StepExits(p, k, l.core); }
    hide Uniform, Settled, CoreStep, ExitOf;
  }

  // ----- one step -----

  /** The first of the ready lanes at its PC. */
  ghost predicate First(s: State, i: nat) {
    forall j :: 0 <= j < i < |s.lanes| ==> !Issues(s.lanes[j], s.lanes[i].core.pc)
  }

  /** A lane that waits or comes first at its PC has the window that it would have alone. */
  ghost predicate WindowKept(p: Program, s: State, own: seq<Lane>, i: nat)
    requires i < |s.lanes| == |own| && WindowValid(p, s.lanes[i]) && WindowValid(p, own[i])
  {
    s.lanes[i].core.active && (!s.lanes[i].ready || First(s, i)) ==> WindowAt(p, SpotOf(s.lanes[i])) == WindowAt(p, SpotOf(own[i]))
  }

  ghost predicate Windows(p: Program, s: State, own: seq<Lane>)
    requires Valid(p, s) && Tracks(p, s, own)
  {
    forall i :: 0 <= i < |own| ==> WindowKept(p, s, own, i)
  }

  /** The lanes that the leader takes along have its exit. */
  ghost predicate LeaderAgrees(p: Program, s: State, own: seq<Lane>)
    requires Valid(p, s) && Tracks(p, s, own)
  {
    var j := Leader(s.lanes, 0);
    j < |own| ==> forall i :: 0 <= i < |own| && Issues(s.lanes[i], own[j].core.pc) ==> ExitAt(p, SpotOf(own[i])) == ExitAt(p, SpotOf(own[j]))
  }

  /** The leader, whose window is right, fetches its own operation. */
  lemma LeaderIsRight(p: Program, s: State, own: seq<Lane>)
    requires Uniform(p) && Valid(p, s) && Tracks(p, s, own) && Together(p, s, 1) && Windows(p, s, own) && Leader(s.lanes, 0) < |s.lanes|
    ensures var j := Leader(s.lanes, 0);
            && Selected(s.lanes[j]) && First(s, j) && (forall i :: 0 <= i < j ==> !Issues(s.lanes[i], s.lanes[i].core.pc))
            && Fetch(p, s.lanes[j]) == EntryAt(p, SpotOf(own[j])) && 1 <= Fetch(p, s.lanes[j]) < |p.uops|
            && p.uops[Fetch(p, s.lanes[j])].pc == s.lanes[j].core.pc
            && Refilled(p, s.lanes[j]).windowStart == WindowAt(p, SpotOf(own[j]))
  {
    var j := Leader(s.lanes, 0);
    forall i | 0 <= i < j ensures !Issues(s.lanes[i], s.lanes[i].core.pc) { assert Free(p, s.lanes[i], 1) && !Selected(s.lanes[i]); }
    assert First(s, j) && WindowKept(p, s, own, j) && Free(p, s.lanes[j], 1);
    FetchIsEntry(p, s.lanes[j]);
    hide Windows, Fills, WindowAt, Leader;
    SameWindowSameEntry(p, SpotOf(s.lanes[j]), SpotOf(own[j]));
  }

  /** The lanes before the issue: the leader with its window filled. */
  ghost function Base(p: Program, s: State, j: nat, i: nat): Lane
    requires i < |s.lanes| && Valid(p, s)
  {
    if i == j then Refilled(p, s.lanes[i]) else s.lanes[i]
  }

  /** Without parked lanes and value branches a step issues the leader's operation, or waits. */
  lemma StepShape(p: Program, s: State)
    requires Uniform(p) && Valid(p, s) && Together(p, s, 1) && Leader(s.lanes, 0) < |s.lanes| && 1 <= Fetch(p, s.lanes[Leader(s.lanes, 0)]) < |p.uops|
    ensures var j := Leader(s.lanes, 0);
            var k := Fetch(p, s.lanes[j]);
            && Popped(s) == s && Clear(p, k, Led(p, s, j)) && Together(p, Step(p, s).0, 1) && |Step(p, s).0.lanes| == |s.lanes|
            && Step(p, s).1 == (if MustWait(p, k, Led(p, s, j).lanes) then Waiting else Continue)
            && (forall i :: 0 <= i < |s.lanes| ==> (Moves(p, s, i) <==> !MustWait(p, k, Led(p, s, j).lanes) && Issues(s.lanes[i], p.uops[k].pc)))
            && (forall i :: 0 <= i < |s.lanes| ==> Step(p, s).0.lanes[i] == if Moves(p, s, i) then Issued(p, k, Base(p, s, j, i)) else Base(p, s, j, i))
  {
    assert Popped(s) == s;
    StepCases(p, s);
    var j := Leader(s.lanes, 0);
    var k, u := Fetch(p, s.lanes[j]), Led(p, s, j);
    assert Straight(p, k, 1);
    LedTogether(p, s, j);
    TogetherIssue(p, k, u, 1);
    NoDivergence(p, k, u);
    forall i | 0 <= i < |s.lanes| ensures u.lanes[i] == Base(p, s, j, i) && (Issues(u.lanes[i], p.uops[k].pc) <==> Issues(s.lanes[i], p.uops[k].pc)) {}
    hide Uniform, Valid, Together, Leader, Fetch, Led, Step, Popped, MustWait, Diverges, Moves, Issue, AllIssued, Base, Straight;
    forall i | 0 <= i < |s.lanes| ensures Step(p, s).0.lanes[i] == if Moves(p, s, i) then Issued(p, k, Base(p, s, j, i)) else Base(p, s, j, i) {
    }
  }

  lemma LedTogether(p: Program, s: State, j: nat)
    requires Together(p, s, 1) && j < |s.lanes| && WindowValid(p, s.lanes[j])
    ensures Together(p, Led(p, s, j), 1)
  {
    forall i | 0 <= i < |s.lanes| ensures Free(p, Led(p, s, j).lanes[i], 1) { assert Free(p, s.lanes[i], 1); }
  }

  /** A lane with the exit of entry `k` would have acted like it, and no other. */
  lemma AgreesIffExit(p: Program, k: nat, l: Lane)
    requires Plainly(p) && WindowValid(p, l) && l.core.active && 1 <= k < |p.uops| && p.uops[k].pc == l.core.pc
    ensures ActsAlone(p, k, l) <==> ExitAt(p, SpotOf(l)) == ExitOf(p, k)
  {
    FetchIsEntry(p, l);
    EntryFoundAt(p, l, k);
    ActsIffExit(p, EntryAt(p, SpotOf(l)), k, l.core);
    hide Plainly, EntryAt, ExitOf, CoreStep, Fetch;
  }

  lemma EntryFoundAt(p: Program, l: Lane, k: nat)
    requires WindowValid(p, l) && 1 <= k < |p.uops| && p.uops[k].pc == l.core.pc
    ensures EntryAt(p, SpotOf(l)) >= 1
  {
  }

  lemma StepIsClean(p: Program, s: State, own: seq<Lane>)
    requires Plainly(p) && Valid(p, s) && Parking(s) && Tracks(p, s, own) && Together(p, s, 1) && Windows(p, s, own) && LeaderAgrees(p, s, own)
    ensures CleanStep(p, s, own)
  {
    var j := Leader(s.lanes, 0);
    assert Popped(s) == s;
    PopTracks(p, s, own);
    if j < |s.lanes| {
      LeaderIsRight(p, s, own);
      StepShape(p, s);
      var k, u := Fetch(p, s.lanes[j]), Led(p, s, j);
      LedCores(p, s, j);
      forall i | 0 <= i < |u.lanes| && Issues(u.lanes[i], p.uops[k].pc) ensures ActsAlone(p, k, own[i]) {
        AgreesIffExit(p, k, own[i]);
        hide Plainly, ActsAlone, Fetch, EntryAt, Windows, Together, Led;
      }
      hide Plainly, ActsAlone, Fetch, Led, Leader, Windows, Together, MustWait, Unparked, OwnGroup, Parking, Popped;
    }
  }

  lemma MovedLane(p: Program, k: nat, l: Lane)
    requires Uniform(p) && Settled(p) && 1 <= k < |p.uops| && Issues(l, p.uops[k].pc)
    ensures var m := Issued(p, k, l);
            && m.core.pc == ExitOf(p, k).pc && m.core.active == ExitOf(p, k).active == m.ready && m.windowStart == l.windowStart
            && m.windowEnd == l.windowEnd
  {
    StepExits(p, k, l.core);
    hide CoreStep, Uniform, Settled, ExitOf;
  }

  /** The windows after a step, lane by lane. */
  lemma WindowStays(p: Program, s: State, own: seq<Lane>, t: State, next: seq<Lane>, i: nat)
    requires Plainly(p) && Valid(p, s) && Tracks(p, s, own) && Together(p, s, 1) && Windows(p, s, own) && i < |own|
    requires Valid(p, t) && Tracks(p, t, next) && |next| == |own| && Leader(s.lanes, 0) < |s.lanes|
    requires var j := Leader(s.lanes, 0);
             var k := Fetch(p, s.lanes[j]);
             && 1 <= k < |p.uops|
             && (forall x :: 0 <= x < |own| && Moves(p, s, x) ==> Issues(s.lanes[x], p.uops[k].pc))
             && (Moves(p, s, j) ==> forall x :: 0 <= x < |own| && Issues(s.lanes[x], p.uops[k].pc) ==> Moves(p, s, x))
             && (forall x :: 0 <= x < |own| ==> t.lanes[x] == if Moves(p, s, x) then Issued(p, k, Base(p, s, j, x)) else Base(p, s, j, x))
             && (forall x :: 0 <= x < |own| ==> next[x] == if Moves(p, s, x) then OwnStep(p, own[x]) else own[x])
    ensures WindowKept(p, t, next, i)
  {
    var j := Leader(s.lanes, 0);
    var k := Fetch(p, s.lanes[j]);
    LeaderIsRight(p, s, own);
    BaseMeans(p, s, j);
    assert t.lanes[i] == if Moves(p, s, i) then Issued(p, k, Base(p, s, j, i)) else Base(p, s, j, i);
    assert next[i] == if Moves(p, s, i) then OwnStep(p, own[i]) else own[i];
    assert WindowKept(p, s, own, i);
    hide Plainly, Windows, Together, Moves, Leader, Fetch, Base, OwnStep, Issued, Valid, Fills, WindowAt, EntryAt;
    if Moves(p, s, i) {
      MovedLane(p, k, Base(p, s, j, i));
      if i == j {
        OwnWindow(p, own[j]);
      } else if t.lanes[i].core.active {
        assert Moves(p, s, j);
        MovedLane(p, k, Base(p, s, j, j));
        assert t.lanes[j] == Issued(p, k, Base(p, s, j, j));
        assert Issues(t.lanes[j], t.lanes[i].core.pc);
      }
    } else if i == j {
      EntryByWindow(p, SpotOf(own[j]));
    } else if t.lanes[i].core.active && t.lanes[i].ready && First(t, i) {
      forall x | 0 <= x < i ensures !Issues(s.lanes[x], s.lanes[i].core.pc) {
        assert t.lanes[x] == if Moves(p, s, x) then Issued(p, k, Base(p, s, j, x)) else Base(p, s, j, x);
        assert !Issues(t.lanes[x], t.lanes[i].core.pc);
      }
    }
  }

  lemma BaseMeans(p: Program, s: State, j: nat)
    requires Valid(p, s) && j < |s.lanes|
    ensures forall i :: 0 <= i < |s.lanes| ==>
              var b := Base(p, s, j, i);
              && b.core == s.lanes[i].core && b.ready == s.lanes[i].ready && (i != j ==> b == s.lanes[i])
              && (i == j ==> b.windowStart == Refilled(p, s.lanes[j]).windowStart)
  {
  }

  lemma OwnWindow(p: Program, l: Lane)
    requires WindowValid(p, l) && l.core.active && EntryAt(p, SpotOf(l)) >= 0
    ensures OwnStep(p, l).windowStart == WindowAt(p, SpotOf(l))
  {
    FetchIsEntry(p, l);
    hide CoreStep;
  }

  lemma FollowStep(p: Program, s: State, own: seq<Lane>)
    requires Plainly(p) && Valid(p, s) && Parking(s) && Tracks(p, s, own) && Together(p, s, 1) && Windows(p, s, own) && LeaderAgrees(p, s, own)
    ensures CleanStep(p, s, own)
    ensures var t, next := Step(p, s).0, OwnAfter(p, s, own);
            && Valid(p, t) && |t.lanes| == |s.lanes| && Parking(t) && Tracks(p, t, next) && |next| == |own| && Together(p, t, 1) && Windows(p, t, next)
  {
    StepIsClean(p, s, own);
    StepIsLaneWise(p, s, own);
    StepValid(p, s);
    OwnAfterMeans(p, s, own);
    var t, next := Step(p, s).0, OwnAfter(p, s, own);
    if Leader(s.lanes, 0) < |s.lanes| {
      LeaderIsRight(p, s, own);
      StepShape(p, s);
      hide *;
      forall i | 0 <= i < |own| ensures WindowKept(p, t, next, i) { WindowStays(p, s, own, t, next, i); }
      WindowsAre(p, t, next);
    } else {
      StepCases(p, s);
      assert Popped(s) == s;
      assert t == s && next == own;
    }
  }

  lemma WindowsAre(p: Program, s: State, own: seq<Lane>)
    requires Valid(p, s) && Tracks(p, s, own) && forall i :: 0 <= i < |own| ==> WindowKept(p, s, own, i)
    ensures Windows(p, s, own)
  {
  }

  // ----- two reasons to agree -----

  ghost predicate OnWay(p: Program, t: Spot)
    requires Fills(p, 1)
  {
    exists n :: Way(p, n) == t
  }

  /** Every lane is on the way. */
  ghost predicate AllOnWay(p: Program, own: seq<Lane>)
    requires Fills(p, 1)
  {
    forall i :: 0 <= i < |own| ==> OnWay(p, SpotOf(own[i]))
  }

  /** All lanes are at the same spot, and they are at the beginning as long as one of them waits. */
  ghost predicate Lockstep(p: Program, s: State, own: seq<Lane>)
    requires Fills(p, 1)
  {
    && (forall i, j :: 0 <= i < |own| && 0 <= j < |own| ==> SpotOf(own[i]) == SpotOf(own[j]))
    && (AllReady(s) || forall i :: 0 <= i < |own| ==> SpotOf(own[i]) == Way(p, 0))
  }

  /** What makes the leader agree with the lanes it takes along. */
  ghost predicate Reason(p: Program, s: State, own: seq<Lane>)
    requires Fills(p, 1)
  {
    (Consistent(p) && AllOnWay(p, own)) || (p.uops[1].conditional && Lockstep(p, s, own))
  }

  lemma ReasonAgrees(p: Program, s: State, own: seq<Lane>)
    requires Fills(p, 1) && Valid(p, s) && Tracks(p, s, own) && Reason(p, s, own)
    ensures LeaderAgrees(p, s, own)
  {
    var j := Leader(s.lanes, 0);
    hide Way, ExitAt, Leader;
    if j < |own| {
      forall i | 0 <= i < |own| && Issues(s.lanes[i], own[j].core.pc) ensures ExitAt(p, SpotOf(own[i])) == ExitAt(p, SpotOf(own[j])) {
        if Consistent(p) && AllOnWay(p, own) {
          assert Selected(s.lanes[j]);
          var m: nat :| Way(p, m) == SpotOf(own[i]);
          var n: nat :| Way(p, n) == SpotOf(own[j]);
          assert Meet(p, m, n);
        }
      }
    }
  }

  lemma WayGoesOn(p: Program, l: Lane)
    requires Uniform(p) && Settled(p) && Fills(p, 1) && WindowValid(p, l) && OnWay(p, SpotOf(l))
    ensures OnWay(p, SpotOf(OwnStep(p, l)))
  {
    OwnGoes(p, l);
    var n: nat :| Way(p, n) == SpotOf(l);
    assert Way(p, n + 1) == NextSpot(p, Way(p, n));
  }

  lemma AllGoOn(p: Program, s: State, own: seq<Lane>)
    requires Uniform(p) && Settled(p) && Fills(p, 1) && Valid(p, s) && Tracks(p, s, own) && AllOnWay(p, own)
    ensures AllOnWay(p, OwnAfter(p, s, own))
  {
    OwnAfterMeans(p, s, own);
    var next := OwnAfter(p, s, own);
    hide Uniform, Settled, OwnStep, OwnAfter, OnWay, Moves, Valid;
    forall i | 0 <= i < |next| ensures OnWay(p, SpotOf(next[i])) {
      if Moves(p, s, i) { WayGoesOn(p, own[i]); }
    }
  }

  /** In lockstep a step moves all lanes or none. */
  lemma LockstepMoves(p: Program, s: State, own: seq<Lane>)
    requires Uniform(p) && p.uops[1].conditional && Valid(p, s) && Tracks(p, s, own) && Together(p, s, 1) && Windows(p, s, own) && Lockstep(p, s, own)
    ensures (forall i :: 0 <= i < |own| ==> !Moves(p, s, i)) || (AllReady(s) && forall i :: 0 <= i < |own| ==> Moves(p, s, i))
  {
    var j := Leader(s.lanes, 0);
    if j < |s.lanes| {
      LeaderIsRight(p, s, own);
      StepShape(p, s);
      var k, u := Fetch(p, s.lanes[j]), Led(p, s, j);
      hide Uniform, Valid, Windows, Together, Fetch, Leader, Led, Moves, Step, Popped, Clear, EntryAt, Way;
      if AllReady(s) {
        LedReady(p, s, j);
        NobodyWaits(p, k, u);
        forall i | 0 <= i < |own| ensures Issues(s.lanes[i], p.uops[k].pc) { assert SpotOf(own[i]) == SpotOf(own[j]); }
      } else {
        LockstepWaits(p, s, own, j, k);
      }
    } else {
      StepCases(p, s);
      assert Popped(s) == s;
    }
  }

  /** The entry branch waits for the last lane. */
  lemma LockstepWaits(p: Program, s: State, own: seq<Lane>, j: nat, k: nat)
    requires Fills(p, 1) && p.uops[1].conditional && Valid(p, s) && Tracks(p, s, own) && Together(p, s, 1) && Lockstep(p, s, own) && !AllReady(s)
    requires j < |s.lanes| && s.lanes[j].ready && k == EntryAt(p, SpotOf(own[j])) && k < |p.uops|
    ensures MustWait(p, k, Led(p, s, j).lanes)
  {
    var i :| 0 <= i < |s.lanes| && s.lanes[i].core.active && !s.lanes[i].ready;
    assert SpotOf(own[j]) == Way(p, 0) == SpotOf(own[i]);
    assert EntryAt(p, Way(p, 0)) == 1;
    assert Free(p, s.lanes[i], 1);
    assert Led(p, s, j).lanes[i] == s.lanes[i];
    hide Fills, EntryAt, Way, Valid, Together;
    assert AwaitsValue(Led(p, s, j).lanes[i], p.uops[1].pc);
  }

  lemma LockstepKept(p: Program, s: State, own: seq<Lane>)
    requires Uniform(p) && Settled(p) && p.uops[1].conditional && Valid(p, s) && Parking(s) && Tracks(p, s, own) && Together(p, s, 1)
    requires Windows(p, s, own) && Lockstep(p, s, own)
    ensures Lockstep(p, Step(p, s).0, OwnAfter(p, s, own))
  {
    LockstepMoves(p, s, own);
    OwnAfterMeans(p, s, own);
    if AllReady(s) { AllReadyKept(p, s); }
    var next := OwnAfter(p, s, own);
    hide Uniform, Settled, OwnStep, OwnAfter, Moves, Valid, Parking, Step, Together, Windows, AllReady, Way, NextSpot;
    forall i | 0 <= i < |own| ensures SpotOf(OwnStep(p, own[i])) == NextSpot(p, SpotOf(own[i])) { OwnGoes(p, own[i]); }
  }

  // ----- runs -----

  /** Nobody is parked, windows are right where it matters, and there is a reason to agree. */
  ghost predicate Following(p: Program, s: State, own: seq<Lane>)
    requires Fills(p, 1) && Valid(p, s) && Tracks(p, s, own)
  {
    Together(p, s, 1) && Windows(p, s, own) && Reason(p, s, own)
  }

  lemma FollowingStep(p: Program, s: State, own: seq<Lane>)
    requires Fills(p, 1) && Plainly(p) && Valid(p, s) && Parking(s) && Tracks(p, s, own) && Following(p, s, own)
    ensures CleanStep(p, s, own)
    ensures var t, next := Step(p, s).0, OwnAfter(p, s, own);
            Valid(p, t) && |t.lanes| == |s.lanes| && Parking(t) && Tracks(p, t, next) && Following(p, t, next)
  {
    ReasonAgrees(p, s, own);
    FollowStep(p, s, own);
    if Consistent(p) && AllOnWay(p, own) { AllGoOn(p, s, own); } else { LockstepKept(p, s, own); }
    hide Step, OwnAfter, Parking, Tracks, Valid, Together, Windows, Consistent, AllOnWay, Lockstep, CleanStep, Fills;
  }

  lemma {:induction false} FollowingRun(p: Program, s: State, own: seq<Lane>, budget: nat)
    requires Fills(p, 1) && Plainly(p) && Valid(p, s) && Parking(s) && Tracks(p, s, own) && Following(p, s, own)
    ensures CleanRun(p, s, own, budget)
    ensures var t := Run(p, s, budget); Parking(t) && Tracks(p, t, RunOwn(p, s, own, budget)) && Following(p, t, RunOwn(p, s, own, budget))
    decreases budget
  {
    if budget > 0 {
      StepValid(p, s);
      FollowingStep(p, s, own);
      hide Step, OwnAfter, CleanStep, Parking, Tracks, Valid, Following, Plainly, Fills;
      if Step(p, s).1.Continue? { FollowingRun(p, Step(p, s).0, OwnAfter(p, s, own), budget - 1); }
    }
  }

  /** A response moves no lane and keeps the windows right. */
  lemma AnsweredWindows(p: Program, s: State, own: seq<Lane>, lane: nat, destination: int, value: int)
    requires Valid(p, s) && Parking(s) && Tracks(p, s, own) && Together(p, s, 1) && Windows(p, s, own) && lane < |s.lanes|
    ensures var t, given := Answered(s, lane, destination, value), Given(own, lane, destination, value);
            && Valid(p, t) && Parking(t) && Tracks(p, t, given) && Together(p, t, 1) && Windows(p, t, given) && |given| == |own| == |t.lanes|
            && forall i :: 0 <= i < |own| ==>
                 SpotOf(given[i]) == SpotOf(own[i]) && SpotOf(t.lanes[i]) == SpotOf(s.lanes[i]) && (t.lanes[i].ready <==> s.lanes[i].ready || i == lane)
  {
    AnsweredKeeps(p, s, own, lane, destination, value);
    var t, given := Answered(s, lane, destination, value), Given(own, lane, destination, value);
    hide Valid, Parking, WindowAt, Fills;
    forall i | 0 <= i < |own|
      ensures SpotOf(given[i]) == SpotOf(own[i]) && SpotOf(t.lanes[i]) == SpotOf(s.lanes[i]) && (t.lanes[i].ready <==> s.lanes[i].ready || i == lane)
      ensures Free(p, t.lanes[i], 1)
    {
      assert Free(p, s.lanes[i], 1);
    }
    forall i | 0 <= i < |own| ensures WindowKept(p, t, given, i) {
      assert WindowKept(p, s, own, i);
      if s.lanes[i].core.active && s.lanes[i].ready && First(t, i) {
        forall x | 0 <= x < i ensures !Issues(s.lanes[x], s.lanes[i].core.pc) { assert !Issues(t.lanes[x], t.lanes[i].core.pc); }
        assert First(s, i);
      }
    }
  }

  lemma AnsweredReady(s: State, lane: nat, destination: int, value: int)
    requires lane < |s.lanes| && AllReady(s)
    ensures AllReady(Answered(s, lane, destination, value))
  {
  }

  lemma FollowingAnswered(p: Program, s: State, own: seq<Lane>, lane: nat, destination: int, value: int)
    requires Fills(p, 1) && Valid(p, s) && Parking(s) && Tracks(p, s, own) && Following(p, s, own) && lane < |s.lanes|
    ensures var t, given := Answered(s, lane, destination, value), Given(own, lane, destination, value);
            Valid(p, t) && Parking(t) && Tracks(p, t, given) && Following(p, t, given)
  {
    AnsweredWindows(p, s, own, lane, destination, value);
    hide Valid, Parking, Way, Fills, Consistent, Together, Windows, OnWay, Tracks, Answered, Given, AllReady;
    if AllReady(s) { AnsweredReady(s, lane, destination, value); }
  }

  lemma FollowingCall(p: Program, s: State, own: seq<Lane>, r: Response, destination: int, budget: nat)
    requires Fills(p, 1) && Plainly(p) && Valid(p, s) && Parking(s) && Tracks(p, s, own) && Following(p, s, own)
    ensures CleanCall(p, s, own, r, destination, budget)
    ensures var t := Resume(p, s, r.lane, destination, r.value, budget);
            Parking(t) && Tracks(p, t, CallOwn(p, s, own, r, destination, budget)) && Following(p, t, CallOwn(p, s, own, r, destination, budget))
  {
    hide Plainly, Valid, Parking, Following, Run, CleanRun, RunOwn, Fills;
    if Accepts(s, r.lane, budget) {
      FollowingAnswered(p, s, own, r.lane, destination, r.value);
      AnsweredKeeps(p, s, own, r.lane, destination, r.value);
      FollowingRun(p, Answered(s, r.lane, destination, r.value), Given(own, r.lane, destination, r.value), budget);
    }
  }

  lemma {:induction false} FollowingCalls(p: Program, s: State, own: seq<Lane>, rs: seq<Response>, destination: int, budget: nat)
    requires Fills(p, 1) && Plainly(p) && Valid(p, s) && Parking(s) && Tracks(p, s, own) && Following(p, s, own)
    ensures CleanCalls(p, s, own, rs, destination, budget)
    decreases |rs|
  {
    hide Plainly, Valid, Parking, Resume, CleanCall, CallOwn, Tracks, Following, Fills;
    if rs != [] {
      FollowingCall(p, s, own, rs[0], destination, budget);
      FollowingCalls(p, Resume(p, s, rs[0].lane, destination, rs[0].value, budget), CallOwn(p, s, own, rs[0], destination, budget),
                     rs[1..], destination, budget);
    }
  }

  // ----- a lane that leads alone -----

  /** Another lane that is neither issued nor waited for when the way is at its place number `n`. */
  ghost predicate Idle(p: Program, l: Lane, n: nat)
    requires Fills(p, 1)
  {
    && Way(p, n).active && !Issues(l, Way(p, n).pc)
    && (EntryAt(p, Way(p, n)) >= 0 && p.uops[EntryAt(p, Way(p, n))].conditional ==> !AwaitsValue(l, Way(p, n).pc))
  }

  /** Of two lanes, lane `x` leads and is at place number `n` of the way. */
  ghost predicate Leads(p: Program, s: State, own: seq<Lane>, x: nat, n: nat) {
    && Fills(p, 1) && Valid(p, s) && Tracks(p, s, own) && |own| == 2 && x < 2 && Together(p, s, 1) && Windows(p, s, own) && Parking(s)
    && SpotOf(own[x]) == Way(p, n) && (Way(p, n).active ==> s.lanes[x].ready) && (x == 1 ==> !s.lanes[0].ready)
  }

  lemma SoloFirst(p: Program, s: State, own: seq<Lane>, x: nat, n: nat)
    requires Leads(p, s, own, x, n) && Way(p, n).active
    ensures Leader(s.lanes, 0) == x && Selected(s.lanes[x]) && !s.lanes[1 - x].blocked && s.lanes[x].core.pc == Way(p, n).pc
    ensures Together(p, s, 1) && Windows(p, s, own)
  {
    assert Free(p, s.lanes[x], 1) && Free(p, s.lanes[1 - x], 1);
    hide Way, Windows, WindowValid;
  }

  lemma SoloNoWait(p: Program, s: State, x: nat, k: nat, pc: nat)
    requires Valid(p, s) && |s.lanes| == 2 && x < 2 && k < |p.uops| && p.uops[k].pc == pc && s.lanes[x].ready
    requires p.uops[k].conditional ==> !AwaitsValue(s.lanes[1 - x], pc)
    ensures !MustWait(p, k, Led(p, s, x).lanes)
  {
    var u := Led(p, s, x);
    assert u.lanes[1 - x] == s.lanes[1 - x] && u.lanes[x].ready;
  }

  lemma PlainlyMeans(p: Program)
    requires Plainly(p)
    ensures Uniform(p) && Settled(p) && Recorded(p)
  {
  }

  lemma IdleMeans(p: Program, l: Lane, n: nat)
    requires Fills(p, 1) && Idle(p, l, n)
    ensures Way(p, n).active && !Issues(l, Way(p, n).pc)
    ensures EntryAt(p, Way(p, n)) >= 0 && p.uops[EntryAt(p, Way(p, n))].conditional ==> !AwaitsValue(l, Way(p, n).pc)
  {
    hide Way;
  }

  lemma SoloAgrees(p: Program, s: State, own: seq<Lane>, x: nat)
    requires Valid(p, s) && Tracks(p, s, own) && |own| == 2 && x < 2 && Leader(s.lanes, 0) == x && !Issues(s.lanes[1 - x], own[x].core.pc)
    ensures LeaderAgrees(p, s, own)
  {
    hide Leader, ExitAt, Valid, Fills;
    forall i | 0 <= i < |own| && Issues(s.lanes[i], own[x].core.pc) ensures ExitAt(p, SpotOf(own[i])) == ExitAt(p, SpotOf(own[x])) {
      assert i == x;
    }
  }

  lemma SoloLeader(p: Program, s: State, own: seq<Lane>, x: nat, n: nat)
    requires Plainly(p) && Leads(p, s, own, x, n) && Idle(p, s.lanes[1 - x], n)
    ensures Leader(s.lanes, 0) == x && LeaderAgrees(p, s, own)
    ensures Step(p, s).1 == Continue && Moves(p, s, x) && !Moves(p, s, 1 - x) && |Step(p, s).0.lanes| == 2
    ensures Step(p, s).0.lanes[1 - x] == s.lanes[1 - x] && (Step(p, s).0.lanes[x].ready <==> Step(p, s).0.lanes[x].core.active)
  {
    assert SpotOf(own[x]) == Way(p, n);
    hide *;
    LeadsMeans(p, s, own, x, n);
    PlainlyMeans(p);
    IdleMeans(p, s.lanes[1 - x], n);
    SoloFirst(p, s, own, x, n);
    TrackedWindow(p, s, own, x);
    SoloAgrees(p, s, own, x);
    LeaderIsRight(p, s, own);
    StepShape(p, s);
    var k := Fetch(p, s.lanes[x]);
    SelectedIssues(s.lanes[x]);
    SoloNoWait(p, s, x, k, Way(p, n).pc);
    BaseMeans(p, s, x);
    BaseIssues(p, s, x);
    MovedLane(p, k, Base(p, s, x, x));
  }

  lemma SelectedIssues(l: Lane)
    requires Selected(l)
    ensures Issues(l, l.core.pc) && l.ready && l.core.active
  {
  }

  lemma BaseIssues(p: Program, s: State, j: nat)
    requires Valid(p, s) && j < |s.lanes|
    ensures Issues(Base(p, s, j, j), s.lanes[j].core.pc) <==> Issues(s.lanes[j], s.lanes[j].core.pc)
  {
  }

  lemma SoloStep(p: Program, s: State, own: seq<Lane>, x: nat, n: nat)
    requires Plainly(p) && Leads(p, s, own, x, n) && Idle(p, s.lanes[1 - x], n)
    ensures CleanStep(p, s, own) && Step(p, s).1 == Continue
    ensures var t, next := Step(p, s).0, OwnAfter(p, s, own);
            Valid(p, t) && Tracks(p, t, next) && Leads(p, t, next, x, n + 1) && t.lanes[1 - x] == s.lanes[1 - x] && next[1 - x] == own[1 - x]
  {
    SoloLeader(p, s, own, x, n);
    FollowStep(p, s, own);
    OwnAfterMeans(p, s, own);
    OwnGoes(p, own[x]);
    assert Way(p, n + 1) == NextSpot(p, Way(p, n));
    hide Plainly, Valid, Together, Windows, Leader, Step, Moves, Parking, OwnAfter, OwnStep, CleanStep, Way, Fills;
  }

  /** A run from `s` is one from `t` after some clean steps. */
  ghost predicate SameRun(p: Program, s: State, own: seq<Lane>, b: nat, t: State, next: seq<Lane>, rest: nat) {
    && Valid(p, s) && Parking(s) && Tracks(p, s, own) && Valid(p, t) && Parking(t) && Tracks(p, t, next)
    && Run(p, s, b) == Run(p, t, rest) && (CleanRun(p, s, own, b) <==> CleanRun(p, t, next, rest))
    && (CleanRun(p, s, own, b) ==> RunOwn(p, s, own, b) == RunOwn(p, t, next, rest))
  }

  /** For as long as the other lane stays idle. */
  lemma {:induction false} SoloRun(p: Program, s: State, own: seq<Lane>, x: nat, n: nat, b: nat, rest: nat, other: Lane) returns (t: State, next: seq<Lane>)
    requires Plainly(p) && Leads(p, s, own, x, n) && other == s.lanes[1 - x] && forall i :: n <= i < n + b ==> Idle(p, other, i)
    ensures Leads(p, t, next, x, n + b) && t.lanes[1 - x] == other && next[1 - x] == own[1 - x] && SameRun(p, s, own, b + rest, t, next, rest)
    decreases b
  {
    hide *;
    LeadsMeans(p, s, own, x, n);
    if b == 0 {
      t, next := s, own;
      SameRunItself(p, s, own, rest);
    } else {
      assert Idle(p, other, n);
      SoloStep(p, s, own, x, n);
      var s', own' := Step(p, s).0, OwnAfter(p, s, own);
      CleanRunUnfolds(p, s, own, b - 1 + rest);
      LeadsMeans(p, s', own', x, n + 1);
      t, next := SoloRun(p, s', own', x, n + 1, b - 1, rest, other);
      SameRunTrans(p, s, own, b + rest, s', own', b - 1 + rest, t, next, rest);
    }
  }

  lemma SameRunItself(p: Program, s: State, own: seq<Lane>, b: nat)
    requires Valid(p, s) && Parking(s) && Tracks(p, s, own)
    ensures SameRun(p, s, own, b, s, own, b)
  {
  }

  lemma SameRunTrans(p: Program, s: State, own: seq<Lane>, a: nat, t: State, next: seq<Lane>, b: nat, u: State, last: seq<Lane>, c: nat)
    requires SameRun(p, s, own, a, t, next, b) && SameRun(p, t, next, b, u, last, c)
    ensures SameRun(p, s, own, a, u, last, c)
  {
    hide Valid, Parking, Tracks, Run, CleanRun, RunOwn;
  }

  lemma LeadsMeans(p: Program, s: State, own: seq<Lane>, x: nat, n: nat)
    requires Leads(p, s, own, x, n)
    ensures Fills(p, 1) && Valid(p, s) && Tracks(p, s, own) && Parking(s) && |s.lanes| == |own| == 2 && x < 2
  {
  }

  lemma CleanRunUnfolds(p: Program, s: State, own: seq<Lane>, b: nat)
    requires Valid(p, s) && Parking(s) && Tracks(p, s, own) && CleanStep(p, s, own) && Step(p, s).1 == Continue
    ensures SameRun(p, s, own, b + 1, Step(p, s).0, OwnAfter(p, s, own), b)
  {
    StepValid(p, s);
    StepIsLaneWise(p, s, own);
    RunUnfolds(p, s, b);
    hide Step, OwnAfter, CleanStep, Parking, Tracks, Valid;
  }

  // ----- the first disagreement -----

  /** The way comes back to a PC and goes on differently. */
  ghost predicate Differ(p: Program, m: nat, n: nat)
    requires Fills(p, 1)
  {
    Meet(p, m, n) && ExitAt(p, Way(p, m)) != ExitAt(p, Way(p, n))
  }

  /** Place `n` is the first one that goes on differently, and `m` the first one with its PC. */
  ghost predicate FirstDiffer(p: Program, m: nat, n: nat)
    requires Fills(p, 1)
  {
    m < n && Differ(p, m, n) && forall j :: 0 <= j < m ==> Way(p, j).pc != Way(p, n).pc
  }

  lemma {:induction false} StaysActive(p: Program, m: nat, n: nat)
    requires Fills(p, 1) && m <= n && Way(p, n).active
    ensures Way(p, m).active
    decreases n - m
  {
    hide *;
    if m < n {
      WayMore(p, n - 1);
      ActiveBefore(p, Way(p, n - 1));
      StaysActive(p, m, n - 1);
    }
  }

  lemma WayMore(p: Program, n: nat)
    requires Fills(p, 1)
    ensures Way(p, n + 1) == NextSpot(p, Way(p, n))
  {
    hide NextSpot;
  }

  lemma ActiveBefore(p: Program, t: Spot)
    requires Fills(p, t.window) && NextSpot(p, t).active
    ensures t.active
  {
    hide ExitAt, WindowAt, Fills;
  }

  lemma LeastPlace(p: Program, pc: nat, m: nat) returns (k: nat)
    requires Fills(p, 1) && Way(p, m).pc == pc
    ensures k <= m && Way(p, k).pc == pc && forall j :: 0 <= j < k ==> Way(p, j).pc != pc
    decreases m
  {
    hide Way;
    if j: nat :| j < m && Way(p, j).pc == pc {
      k := LeastPlace(p, pc, j);
    } else {
      k := m;
    }
  }

  lemma {:induction false} LeastDiffer(p: Program, m: nat, n: nat) returns (m': nat, n': nat)
    requires Fills(p, 1) && m < n && Differ(p, m, n)
    ensures FirstDiffer(p, m', n')
    decreases n
  {
    hide Way, ExitAt;
    if a: nat, b: nat :| a < b < n && Differ(p, a, b) {
      m', n' := LeastDiffer(p, a, b);
    } else {
      n' := n;
      m' := LeastPlace(p, Way(p, n).pc, m);
      StaysActive(p, m', m);
      if m' < m { assert !Differ(p, m', m) && Meet(p, m', m); }
    }
  }

  lemma SomeDiffer(p: Program) returns (m: nat, n: nat)
    requires Fills(p, 1) && !Consistent(p)
    ensures FirstDiffer(p, m, n)
  {
    hide Way, ExitAt;
    var a: nat, b: nat :| Meet(p, a, b) && ExitAt(p, Way(p, a)) != ExitAt(p, Way(p, b));
    if a < b { m, n := LeastDiffer(p, a, b); } else { m, n := LeastDiffer(p, b, a); }
  }

  // ----- the run that goes wrong -----

  /** A waiting lane at the entry is not in the way if the entry does not branch. */
  lemma WaitingIsIdle(p: Program, l: Lane, n: nat)
    requires Plainly(p) && Fills(p, 1) && !p.uops[1].conditional && !l.ready && l.core.pc == p.uops[1].pc && Way(p, n).active
    ensures Idle(p, l, n)
  {
    var k := EntryAt(p, Way(p, n));
    if k >= 0 && p.uops[k].pc == p.uops[1].pc { assert SameInstruction(p, k, 1); }
    hide Way, Uniform, Settled, CoreStep;
  }

  lemma AheadIsIdle(p: Program, l: Lane, m: nat, n: nat, j: nat)
    requires Fills(p, 1) && FirstDiffer(p, m, n) && j < m && l.ready && l.core.pc == Way(p, n).pc
    ensures Idle(p, l, j)
  {
    StaysActive(p, j, n);
    assert Meet(p, m, n);
    hide Way, ExitAt;
  }

  /** What a clean step says about a lane that the first one takes along. */
  lemma CleanLeads(p: Program, s: State, own: seq<Lane>, k: nat)
    requires Valid(p, s) && Parking(s) && Tracks(p, s, own) && CleanStep(p, s, own) && |own| == 2 && s.stack == []
    requires Leader(s.lanes, 0) == 0 && Fetch(p, s.lanes[0]) == k < |p.uops| && Issues(s.lanes[1], p.uops[k].pc) && AllReady(s)
    ensures ActsAlone(p, k, own[1])
  {
    assert Popped(s) == s;
    CleanStepMeans(p, s, own);
    LedReady(p, s, 0);
    NobodyWaits(p, k, Led(p, s, 0));
    LedCores(p, s, 0);
    assert Issues(Led(p, s, 0).lanes[1], p.uops[k].pc);
    hide Valid, Parking, CleanStep, Leader, Fetch, Led, Popped, ActsAlone, MustWait, Unparked, OwnGroup, AllReady;
  }

  lemma CollisionMeans(p: Program, s: State, own: seq<Lane>, m: nat, n: nat)
    requires Leads(p, s, own, 0, m) && SpotOf(own[1]) == Way(p, n) && s.lanes[1].ready && Differ(p, m, n)
    ensures AllReady(s) && Way(p, m).active && Issues(s.lanes[1], s.lanes[0].core.pc) && s.stack == [] && s.lanes[1].core == own[1].core
    ensures SpotOf(own[0]) == Way(p, m) && ExitAt(p, SpotOf(own[0])) != ExitAt(p, SpotOf(own[1])) && own[1].core.active
  {
    hide Way, ExitAt, Windows, Parking, Valid, WindowValid;
  }

  /** Both lanes at the PC, one behind the other: the first one takes the second along, and that is wrong. */
  lemma Collision(p: Program, s: State, own: seq<Lane>, m: nat, n: nat)
    requires Plainly(p) && Leads(p, s, own, 0, m) && SpotOf(own[1]) == Way(p, n) && s.lanes[1].ready && Differ(p, m, n)
    ensures Valid(p, s) && Parking(s) && Tracks(p, s, own) && !CleanStep(p, s, own)
  {
    hide *;
    LeadsMeans(p, s, own, 0, m);
    PlainlyMeans(p);
    CollisionMeans(p, s, own, m, n);
    SoloFirst(p, s, own, 0, m);
    LeaderIsRight(p, s, own);
    var k := Fetch(p, s.lanes[0]);
    if CleanStep(p, s, own) {
      CleanLeads(p, s, own, k);
      TrackedWindow(p, s, own, 1);
      TrackedWindow(p, s, own, 0);
      IssuesMeans(s.lanes[1], s.lanes[0].core.pc);
      AgreesIffExit(p, k, own[1]);
      ExitByEntry(p, SpotOf(own[0]), k);
    }
  }

  lemma IssuesMeans(l: Lane, pc: nat)
    requires Issues(l, pc)
    ensures l.core.pc == pc
  {
  }

  lemma TrackedWindow(p: Program, s: State, own: seq<Lane>, i: nat)
    requires Tracks(p, s, own) && i < |own|
    ensures |s.lanes| == |own| && WindowValid(p, own[i]) && Fills(p, own[i].windowStart) && s.lanes[i].core == own[i].core
  {
  }

  lemma ExitByEntry(p: Program, t: Spot, k: nat)
    requires Fills(p, t.window) && EntryAt(p, t) == k
    ensures ExitAt(p, t) == ExitOf(p, k)
  {
    hide EntryAt, ExitOf;
  }

  // ----- all runs -----

  /** Every lane at the entry, with its first window. */
  ghost predicate Started(p: Program, s: State) {
    |p.uops| > 1 && s.stack == [] && forall i :: 0 <= i < |s.lanes| ==> s.lanes[i] == FirstLane(p, s.lanes[i].core.regs)
  }

  lemma EntryFills(p: Program)
    requires |p.uops| > 1
    ensures Fills(p, 1)
  {
  }

  lemma StartedMeans(p: Program, s: State)
    requires Uniform(p) && Started(p, s)
    ensures Fills(p, 1) && Valid(p, s) && Parking(s) && Tracks(p, s, s.lanes) && Together(p, s, 1) && Windows(p, s, s.lanes)
    ensures AllOnWay(p, s.lanes) && Lockstep(p, s, s.lanes)
  {
    EntryFills(p);
    forall i | 0 <= i < |s.lanes|
      ensures Free(p, s.lanes[i], 1) && WindowValid(p, s.lanes[i]) && SpotOf(s.lanes[i]) == Way(p, 0) && OnWay(p, SpotOf(s.lanes[i])) {}
    hide Uniform, OnWay, Way, WindowAt;
  }

  ghost predicate CleanFor(p: Program, s: State, rs: seq<Response>, destination: int, budget: nat) {
    Valid(p, s) && Parking(s) && Tracks(p, s, s.lanes) && CleanCalls(p, s, s.lanes, rs, destination, budget)
  }

  /** For all lanes, responses and budgets, every step does to every lane what the lane would have done alone. */
  ghost predicate AlwaysClean(p: Program) {
    forall s, rs, destination, budget :: Started(p, s) && Expected(s, rs) && budget > 0 ==> CleanFor(p, s, rs, destination, budget)
  }

  lemma ConsistentIsClean(p: Program, s: State, rs: seq<Response>, destination: int, budget: nat)
    requires Plainly(p) && Fills(p, 1) && Started(p, s) && (p.uops[1].conditional || Consistent(p))
    ensures CleanFor(p, s, rs, destination, budget)
  {
    PlainlyMeans(p);
    StartedMeans(p, s);
    hide Plainly, Uniform, Started, Valid, Parking, Tracks, Together, Windows, AllOnWay, Lockstep, Consistent, CleanCalls, Fills;
    FollowingCalls(p, s, s.lanes, rs, destination, budget);
  }

  lemma TwoStarted(p: Program)
    requires |p.uops| > 1
    ensures Started(p, TwoLanes(p)) && Expected(TwoLanes(p), Later()) && |TwoLanes(p).lanes| == 2
  {
  }

  /** The second lane first, then the first one. */
  function Later(): seq<Response> { [Response(1, 0), Response(0, 0)] }

  lemma WayStarts(p: Program)
    requires Fills(p, 1)
    ensures Way(p, 0) == Spot(p.uops[1].pc, true, 1)
  {
  }

  lemma LeadsIs(p: Program, s: State, own: seq<Lane>, x: nat, n: nat)
    requires Fills(p, 1) && Valid(p, s) && Tracks(p, s, own) && |own| == 2 && x < 2 && Together(p, s, 1) && Windows(p, s, own) && Parking(s)
    requires SpotOf(own[x]) == Way(p, n) && s.lanes[x].ready && (x == 1 ==> !s.lanes[0].ready)
    ensures Leads(p, s, own, x, n)
  {
  }

  /** The second lane alone goes to place `n`. */
  lemma FirstCall(p: Program, s: State, d: int, n: nat) returns (t: State, next: seq<Lane>)
    requires Plainly(p) && Fills(p, 1) && Started(p, s) && |s.lanes| == 2 && !p.uops[1].conditional && Way(p, n).active && n > 0
    ensures Valid(p, s) && Parking(s) && Tracks(p, s, s.lanes) && CleanCall(p, s, s.lanes, Response(1, 0), d, n)
    ensures Resume(p, s, 1, d, 0, n) == t && CallOwn(p, s, s.lanes, Response(1, 0), d, n) == next
    ensures Leads(p, t, next, 1, n) && SpotOf(next[0]) == Way(p, 0)
  {
    hide *;
    PlainlyMeans(p);
    StartedMeans(p, s);
    StartedLanes(p, s);
    AnsweredWindows(p, s, s.lanes, 1, d, 0);
    var a, given := Answered(s, 1, d, 0), Given(s.lanes, 1, d, 0);
    LeadsIs(p, a, given, 1, 0);
    SpotPC(s.lanes[1]);
    SpotPC(a.lanes[0]);
    WayStarts(p);
    forall i | 0 <= i < n ensures Idle(p, a.lanes[0], i) {
      StaysActive(p, i, n);
      WaitingIsIdle(p, a.lanes[0], i);
    }
    t, next := SoloRun(p, a, given, 1, 0, n, 0, a.lanes[0]);
    CallIs(p, s, Response(1, 0), d, n, t, next);
  }

  lemma StartedLanes(p: Program, s: State)
    requires Fills(p, 1) && Started(p, s)
    ensures forall i :: 0 <= i < |s.lanes| ==> SpotOf(s.lanes[i]) == Way(p, 0) && !s.lanes[i].ready && s.lanes[i].core.active
  {
    WayStarts(p);
    hide Way;
  }

  lemma SpotPC(l: Lane)
    ensures SpotOf(l).pc == l.core.pc && SpotOf(l).active == l.core.active
  {
  }

  lemma CallIs(p: Program, s: State, r: Response, d: int, n: nat, t: State, next: seq<Lane>)
    requires Valid(p, s) && Parking(s) && Tracks(p, s, s.lanes) && r.lane < |s.lanes| && s.lanes[r.lane].core.active && n > 0
    requires SameRun(p, Answered(s, r.lane, d, r.value), Given(s.lanes, r.lane, d, r.value), n, t, next, 0)
    ensures CleanCall(p, s, s.lanes, r, d, n) && Resume(p, s, r.lane, d, r.value, n) == t && CallOwn(p, s, s.lanes, r, d, n) == next
  {
    RunNothing(p, t);
    assert CleanRun(p, t, next, 0) && RunOwn(p, t, next, 0) == next;
    hide Valid, Parking, Tracks, Run, CleanRun, RunOwn;
  }

  /** The first lane catches up with it, and takes it along the wrong way. */
  lemma SecondCall(p: Program, d: int, m: nat, n: nat, t: State, next: seq<Lane>)
    requires Plainly(p) && Fills(p, 1) && FirstDiffer(p, m, n) && Leads(p, t, next, 1, n) && SpotOf(next[0]) == Way(p, 0)
    ensures Valid(p, t) && Parking(t) && Tracks(p, t, next) && !CleanCall(p, t, next, Response(0, 0), d, n)
  {
    hide *;
    LeadsMeans(p, t, next, 1, n);
    LeadsRest(p, t, next, n);
    FirstDifferMeans(p, m, n);
    WayStarts(p);
    TrackedWindow(p, t, next, 0);
    TrackedWindow(p, t, next, 1);
    AnsweredWindows(p, t, next, 0, d, 0);
    var a, given := Answered(t, 0, d, 0), Given(next, 0, d, 0);
    TrackedWindow(p, a, given, 1);
    LeadsIs(p, a, given, 0, 0);
    SpotPC(next[0]);
    SpotPC(a.lanes[1]);
    SpotPC(given[1]);
    forall i | 0 <= i < m ensures Idle(p, a.lanes[1], i) { AheadIsIdle(p, a.lanes[1], m, n, i); }
    var u, last := SoloRun(p, a, given, 0, 0, m, n - m, a.lanes[1]);
    Collision(p, u, last, m, n);
    UncleanRun(p, u, last, n - m);
    CallIsRun(p, t, next, Response(0, 0), d, n);
    SameRunClean(p, a, given, n, u, last, n - m);
  }

  lemma LeadsRest(p: Program, s: State, own: seq<Lane>, n: nat)
    requires Leads(p, s, own, 1, n)
    ensures SpotOf(own[1]) == Way(p, n) && (Way(p, n).active ==> s.lanes[1].ready) && Together(p, s, 1) && Windows(p, s, own)
  {
  }

  lemma FirstDifferMeans(p: Program, m: nat, n: nat)
    requires Fills(p, 1) && FirstDiffer(p, m, n)
    ensures m < n && Differ(p, m, n) && Way(p, n).active
  {
    hide Way;
  }

  lemma UncleanRun(p: Program, s: State, own: seq<Lane>, b: nat)
    requires Valid(p, s) && Parking(s) && Tracks(p, s, own) && !CleanStep(p, s, own) && b > 0
    ensures !CleanRun(p, s, own, b)
  {
    hide Step, CleanStep, Valid, Parking, Tracks;
  }

  lemma SameRunClean(p: Program, s: State, own: seq<Lane>, b: nat, t: State, next: seq<Lane>, rest: nat)
    requires SameRun(p, s, own, b, t, next, rest)
    ensures Valid(p, s) && Parking(s) && Tracks(p, s, own) && Valid(p, t) && Parking(t) && Tracks(p, t, next)
    ensures CleanRun(p, s, own, b) <==> CleanRun(p, t, next, rest)
  {
    hide CleanRun, Run, RunOwn, Valid, Parking, Tracks;
  }

  lemma CallIsRun(p: Program, s: State, own: seq<Lane>, r: Response, d: int, n: nat)
    requires Valid(p, s) && Parking(s) && Tracks(p, s, own) && r.lane < |s.lanes| == |own| && own[r.lane].core.active && n > 0
    ensures var a, given := Answered(s, r.lane, d, r.value), Given(own, r.lane, d, r.value);
            && Valid(p, a) && Parking(a) && Tracks(p, a, given)
            && (CleanCall(p, s, own, r, d, n) <==> CleanRun(p, a, given, n))
  {
    AnsweredKeeps(p, s, own, r.lane, d, r.value);
    hide CleanRun, Valid, Parking;
  }

  lemma DifferIsUnclean(p: Program, d: int, m: nat, n: nat)
    requires Plainly(p) && |p.uops| > 1 && Fills(p, 1) && !p.uops[1].conditional && FirstDiffer(p, m, n)
    ensures !CleanFor(p, TwoLanes(p), Later(), d, n) && n > 0
  {
    hide *;
    FirstDifferMeans(p, m, n);
    TwoStarted(p);
    var s, rs := TwoLanes(p), Later();
    var t, next := FirstCall(p, s, d, n);
    SecondCall(p, d, m, n, t, next);
    LaterIs(rs);
    var rest := rs[1..];
    if CleanFor(p, s, rs, d, n) {
      CleanForMeans(p, s, rs, d, n);
      CallsUnfold(p, s, s.lanes, rs, d, n);
      CallsUnfold(p, t, next, rest, d, n);
    }
  }

  lemma LaterIs(rs: seq<Response>)
    requires rs == Later()
    ensures |rs| == 2 && rs[0] == Response(1, 0) && rs[1..] != [] && rs[1..][0] == Response(0, 0)
  {
  }

  lemma CleanForMeans(p: Program, s: State, rs: seq<Response>, d: int, n: nat)
    requires CleanFor(p, s, rs, d, n)
    ensures Valid(p, s) && Parking(s) && Tracks(p, s, s.lanes) && CleanCalls(p, s, s.lanes, rs, d, n)
  {
    hide Valid, Parking, Tracks, CleanCalls;
  }

  lemma CallsUnfold(p: Program, s: State, own: seq<Lane>, rs: seq<Response>, d: int, n: nat)
    requires Valid(p, s) && Parking(s) && Tracks(p, s, own) && rs != [] && CleanCalls(p, s, own, rs, d, n)
    ensures CleanCall(p, s, own, rs[0], d, n)
    ensures var t, next := Resume(p, s, rs[0].lane, d, rs[0].value, n), CallOwn(p, s, own, rs[0], d, n);
            Parking(t) && Tracks(p, t, next) && CleanCalls(p, t, next, rs[1..], d, n)
  {
    CallKeeps(p, s, own, rs[0], d, n);
    hide Valid, Parking, Tracks, CleanCall, Resume, CallOwn;
  }

  /**
   Main result for repeated PCs, for slices that never branch on loaded values and whose operations have
   results: every step of every run, for all lanes, responses and budgets, does to every lane what the lane
   would have done alone, if and only if the entry is a branch, which keeps all lanes together, or the way
   goes on as before wherever it comes back to a PC.
   */
  lemma AlwaysCleanIff(p: Program)
    requires Plainly(p)
    ensures Fills(p, 1) && (AlwaysClean(p) <==> p.uops[1].conditional || Consistent(p))
  {
    assert |p.uops| > 1;
    EntryFills(p);
    hide Plainly, Fills, Consistent, CleanFor, Started, Expected;
    if p.uops[1].conditional || Consistent(p) {
      forall s, rs, destination, budget | Started(p, s) && Expected(s, rs) && budget > 0 ensures CleanFor(p, s, rs, destination, budget) {
        ConsistentIsClean(p, s, rs, destination, budget);
      }
    } else {
      var m, n := SomeDiffer(p);
      DifferIsUnclean(p, 0, m, n);
      TwoStarted(p);
    }
  }
}
