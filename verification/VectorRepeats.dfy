/**
 A slice in which a PC is captured twice with different outcomes, an inner back edge taken and then not
 taken. A lane on its own finds the second capture in its window; issued together with a lane that has
 not been there yet, it executes the first one again.
 */
module VectorRepeats {
  import opened Wrappers
  import opened VectorExecutor
  import opened VectorRefinement
  import opened VectorPrograms
  import opened VectorShapes
  import opened VectorMeeting
  import opened VectorWays

  function Op(pc: nat, register: int): Uop {
    Uop(pc, false, false, false, false, false, register >= 0, 0, 0, 0, register, -1, register, Compute((a: int, b: int) => Some(a + 1)))
  }

  function Edge(taken: bool, fallthrough: nat): Uop {
    Uop(3, false, true, true, false, taken, false, 20, fallthrough, 0, -1, -1, -1, Unsupported)
  }

  /** Entries 3 to 8 are never executed; they keep the second part out of the first window. */
  function Slice(): Program {
    Program([Op(1, 0), Op(2, -1), Edge(true, 4), Op(103, -1), Op(104, -1), Op(105, -1), Op(106, -1), Op(107, -1), Op(108, -1),
             Op(20, 1), Edge(false, 21), Op(21, -1)], 11, false)
  }

  /** A lane of the example. */
  function At(pc: nat, count: int, active: bool, ready: bool, lo: nat, hi: nat): Lane {
    Lane(Core(pc, [0, count], active), ready, false, lo, hi)
  }

  // ----- looking up -----

  lemma Finds()
    ensures var p := Slice();
            && Find(p, 2, 1, 9) == 1 && Find(p, 3, 1, 9) == 2 && Find(p, 20, 1, 9) == -1
            && Find(p, 20, 1, 12) == 9 && Find(p, 3, 9, 12) == 10 && Find(p, 21, 9, 12) == 11 && Find(p, 20, 9, 12) == 9
  {
    var p := Slice();
    assert Find(p, 20, 9, 12) == 9 && Find(p, 20, 8, 12) == 9 && Find(p, 20, 6, 12) == 9 && Find(p, 20, 4, 12) == 9 && Find(p, 20, 2, 12) == 9;
    assert Find(p, 20, 8, 9) == -1 && Find(p, 20, 6, 9) == -1 && Find(p, 20, 4, 9) == -1 && Find(p, 20, 2, 9) == -1;
  }

  // ----- alone -----

  /** The lane on its own, step by step. */
  function AloneAt(n: nat, ready: bool): Lane {
    if n == 0 then At(2, 0, true, ready, 1, 9)
    else if n == 1 then At(3, 0, true, ready, 1, 9)
    else if n == 2 then At(20, 0, true, ready, 1, 9)
    else if n == 3 then At(3, 1, true, ready, 9, 12)
    else if n == 4 then At(21, 1, true, ready, 9, 12)
    else At(0, 1, false, ready, 9, 12)
  }

  lemma AloneStep(n: nat, ready: bool)
    ensures WindowValid(Slice(), AloneAt(n, ready)) && OwnStep(Slice(), AloneAt(n, ready)) == AloneAt(n + 1, ready)
  {
    Finds();
    hide Find;
    assert [0, 0][1 := 1] == [0, 1];
  }

  lemma {:induction false} AloneSteps(n: nat, ready: bool)
    ensures WindowValid(Slice(), AloneAt(0, ready)) && OwnSteps(Slice(), AloneAt(0, ready), n) == AloneAt(n, ready)
  {
    hide *;
    AloneStep(0, ready);
    if n > 0 {
      AloneSteps(n - 1, ready);
      AloneStep(n - 1, ready);
      OwnMore(Slice(), AloneAt(0, ready), n - 1);
    } else {
      OwnNothing(Slice(), AloneAt(0, ready));
    }
  }

  // ----- together -----

  /** Two lanes without parked ones: lane `j` leads, and nobody waits or diverges. */
  lemma PairLeads(p: Program, s: State, j: nat, k: nat)
    requires Valid(p, s) && |s.lanes| == 2 && s.stack == [] && j < 2 && Selected(s.lanes[j]) && (j == 1 ==> !Selected(s.lanes[0]))
    requires k < |p.uops| && Fetch(p, s.lanes[j]) == k && (p.uops[k].conditional ==> !p.uops[k].tainted)
    requires p.uops[k].conditional ==> !AwaitsValue(s.lanes[0], p.uops[k].pc) && !AwaitsValue(s.lanes[1], p.uops[k].pc)
    ensures Step(p, s).1 == Continue && Step(p, s).0.stack == [] && |Step(p, s).0.lanes| == 2
    ensures forall i :: 0 <= i < 2 ==> Step(p, s).0.lanes[i] == Issued(p, k, if i == j then Refilled(p, s.lanes[i]) else s.lanes[i])
  {
    StepCases(p, s);
    assert Popped(s) == s && Leader(s.lanes, 0) == j;
    var u := Led(p, s, j);
    SameTakes(p, k, u.lanes);
    assert forall i :: 0 <= i < 2 ==> u.lanes[i] == if i == j then Refilled(p, s.lanes[i]) else s.lanes[i];
    NoDivergence(p, k, u);
    hide Step, Popped, Leader, Fetch, Refilled, Issue, AllIssued, Issued, Diverges, Valid;
  }

  /** What the three operations do to a lane. */
  lemma Acts(k: nat, l: Lane)
    requires k in {1, 2, 9} && l.core.active && l.ready && l.core.pc == Slice().uops[k].pc && |l.core.regs| == 2
    ensures Issued(Slice(), k, l) ==
            if k == 1 then l.(core := l.core.(pc := 3))
            else if k == 2 then l.(core := l.core.(pc := 20))
            else l.(core := Core(3, l.core.regs[1 := l.core.regs[1] + 1], true))
  {
  }

  /** The two lanes before each of the six steps, and at the end. */
  function Pair(n: nat): State {
    if n < 3 then State([AloneAt(0, false), AloneAt(n, true)], [])
    else State([AloneAt(if n < 6 then n - 3 else 3, true), At(if n < 5 then 3 else if n == 5 then 20 else 3, if n < 6 then 1 else 2, true, true, 9, 12)], [])
  }

  /** After step `n`; between the third and the fourth the first lane gets its source value. */
  function PairAfter(n: nat): State {
    if n == 2 then State([AloneAt(0, false), AloneAt(3, true)], []) else Pair(n + 1)
  }

  /** The entry of each step of a lane. */
  function EntryAt(n: nat): nat { if n == 0 then 1 else if n == 1 then 2 else 9 }

  lemma WindowsValid(l: Lane)
    requires (l.windowStart, l.windowEnd) in {(1, 9), (9, 12)}
    ensures WindowValid(Slice(), l)
  {
    Finds();
    hide Find;
  }

  lemma AloneFinds(n: nat)
    requires n < 3
    ensures var p, l, k := Slice(), AloneAt(n, true), EntryAt(n);
            && k < |p.uops| && WindowValid(p, l) && Selected(l) && l.core.pc == p.uops[k].pc && Fetch(p, l) == k
            && Refilled(p, l) == if k == 9 then l.(windowStart := 9, windowEnd := 12) else l
  {
    Finds();
    WindowsValid(AloneAt(n, true));
    hide Find;
  }

  lemma PairLeader(n: nat)
    requires n < 6
    ensures Pair(n).lanes[if n < 3 then 1 else 0] == AloneAt(n % 3, true)
    ensures |Pair(n).lanes| == 2 && Pair(n).stack == [] && Valid(Slice(), Pair(n))
    ensures n < 3 ==> !Selected(Pair(n).lanes[0])
    ensures Slice().uops[EntryAt(n % 3)].conditional ==>
              forall i :: 0 <= i < 2 ==> !AwaitsValue(Pair(n).lanes[i], Slice().uops[EntryAt(n % 3)].pc)
  {
    forall i | 0 <= i < 2 ensures WindowValid(Slice(), Pair(n).lanes[i]) { WindowsValid(Pair(n).lanes[i]); }
    hide WindowValid;
  }

  lemma IssuedPair(n: nat)
    requires n < 6
    ensures var p, s, k := Slice(), Pair(n), EntryAt(n % 3);
            && WindowValid(p, AloneAt(n % 3, true))
            && PairAfter(n).stack == [] && |PairAfter(n).lanes| == 2
            && PairAfter(n).lanes[if n < 3 then 1 else 0] == Issued(p, k, Refilled(p, AloneAt(n % 3, true)))
            && PairAfter(n).lanes[if n < 3 then 0 else 1] == Issued(p, k, s.lanes[if n < 3 then 0 else 1])
  {
    hide *;
    AloneFinds(n % 3);
    LeaderActs(n % 3);
    FollowerActs(n);
    PairLed(n);
    PairLeader(n);
  }

  lemma PairLed(n: nat)
    requires n < 6
    ensures PairAfter(n).stack == [] && |PairAfter(n).lanes| == 2 && PairAfter(n).lanes[if n < 3 then 1 else 0] == AloneAt(n % 3 + 1, true)
  {
  }

  lemma LeaderActs(n: nat)
    requires n < 3
    ensures WindowValid(Slice(), AloneAt(n, true)) && Issued(Slice(), EntryAt(n), Refilled(Slice(), AloneAt(n, true))) == AloneAt(n + 1, true)
  {
    AloneFinds(n);
    Acts(EntryAt(n), Refilled(Slice(), AloneAt(n, true)));
    assert [0, 0][1 := 1] == [0, 1];
    hide Fetch, Refilled, CoreStep, WindowValid;
  }

  /** The lane that does not lead stays, or goes along with the leader. */
  lemma FollowerActs(n: nat)
    requires n < 6
    ensures PairAfter(n).lanes[if n < 3 then 0 else 1] == Issued(Slice(), EntryAt(n % 3), Pair(n).lanes[if n < 3 then 0 else 1])
  {
    if n >= 4 { Acts(EntryAt(n % 3), Pair(n).lanes[1]); }
    assert [0, 1][1 := 2] == [0, 2];
    hide CoreStep;
  }

  lemma PairStep(n: nat)
    requires n < 6
    ensures Valid(Slice(), Pair(n)) && Step(Slice(), Pair(n)) == (PairAfter(n), Continue)
  {
    hide *;
    var p, s, j, k := Slice(), Pair(n), if n < 3 then 1 else 0, EntryAt(n % 3);
    PairLeader(n);
    AloneFinds(n % 3);
    Untainted(n % 3);
    IssuedPair(n);
    PairLeads(p, s, j, k);
    assert Step(p, s).0.lanes == PairAfter(n).lanes;
  }

  lemma Untainted(n: nat)
    ensures EntryAt(n) < |Slice().uops| && !Slice().uops[EntryAt(n)].tainted
  {
  }

  /** Three steps make a call. */
  lemma ThreeSteps(p: Program, s: State, t: State, u: State, v: State)
    requires Valid(p, s) && Valid(p, t) && Valid(p, u)
    requires Step(p, s) == (t, Continue) && Step(p, t) == (u, Continue) && Step(p, u) == (v, Continue)
    ensures Run(p, s, 3) == v
  {
    RunUnfolds(p, s, 2);
    RunUnfolds(p, t, 1);
    RunUnfolds(p, u, 0);
    RunNothing(p, v);
    hide Step, Run;
  }

  lemma FirstCall()
    ensures Valid(Slice(), Start()) && Resume(Slice(), Start(), 1, 0, 0, 3) == PairAfter(2)
  {
    hide *;
    var p := Slice();
    PairStep(0);
    PairStep(1);
    PairStep(2);
    PairGoesOn(0);
    PairGoesOn(1);
    ValidStart();
    ThreeSteps(p, Pair(0), Pair(1), Pair(2), PairAfter(2));
    FirstAnswer();
    ResumeIs(p, Start(), 1, Pair(0));
  }

  lemma PairGoesOn(n: nat)
    ensures n != 2 ==> PairAfter(n) == Pair(n + 1)
  {
  }

  lemma FirstAnswer()
    ensures Accepts(Start(), 1, 3) && Answered(Start(), 1, 0, 0) == Pair(0)
  {
    assert [0, 0][0 := 0] == [0, 0];
  }

  lemma SecondAnswer()
    ensures Accepts(PairAfter(2), 0, 3) && Answered(PairAfter(2), 0, 0, 0) == Pair(3)
  {
    assert [0, 0][0 := 0] == [0, 0];
  }

  lemma ResumeIs(p: Program, s: State, lane: nat, a: State)
    requires Valid(p, s) && Accepts(s, lane, 3) && Answered(s, lane, 0, 0) == a
    ensures Valid(p, a) && Resume(p, s, lane, 0, 0, 3) == Run(p, a, 3)
  {
    hide Run;
  }

  /** Two lanes that wait for their source values. */
  function Start(): State {
    State([FirstLane(Slice(), [0, 0]), FirstLane(Slice(), [0, 0])], [])
  }

  lemma ValidStart()
    ensures Valid(Slice(), Start()) && Start() == State([AloneAt(0, false), AloneAt(0, false)], [])
  {
    WindowsValid(AloneAt(0, false));
    hide WindowValid;
  }

  lemma SecondCall()
    ensures Valid(Slice(), PairAfter(2)) && Resume(Slice(), PairAfter(2), 0, 0, 0, 3) == Pair(6)
  {
    hide *;
    var p := Slice();
    PairStep(2);
    StepValid(p, Pair(2));
    PairStep(3);
    PairStep(4);
    PairStep(5);
    PairGoesOn(3);
    PairGoesOn(4);
    PairGoesOn(5);
    ThreeSteps(p, Pair(3), Pair(4), Pair(5), Pair(6));
    SecondAnswer();
    ResumeIs(p, PairAfter(2), 0, Pair(3));
  }

  lemma Shows(p: Program, w: nat, k: nat)
    requires Fills(p, w) && k < |p.uops| && Find(p, p.uops[k].pc, w, WindowEnd(p, w)) == k
    ensures Shown(p, k)
  {
  }

  lemma BothShown(p: Program)
    requires p == Slice()
    ensures Shown(p, 2) && Shown(p, 10)
  {
    Finds();
    WindowsValid(At(2, 0, true, true, 1, 9));
    WindowsValid(At(2, 0, true, true, 9, 12));
    assert WindowEnd(p, 1) == 9 && WindowEnd(p, 9) == 12;
    hide Find, Shown;
    Shows(p, 1, 2);
    Shows(p, 9, 10);
  }

  /** The two captures of the back edge disagree. */
  lemma NotCoherent(p: Program)
    requires p == Slice()
    ensures !Coherent(p)
  {
    BothShown(p);
    var c := Core(3, [], true);
    assert CoreStep(p, 2, c).pc == 20 && CoreStep(p, 10, c).pc == 21;
    assert p.uops[2].pc == p.uops[10].pc == 3;
    hide CoreStep, Slice, Shown, Find;
    assert !SameAct(p, 2, 10);
  }

  lemma BothCalls(p: Program, s: State, rs: seq<Response>)
    requires p == Slice() && s == Start() && rs == [Response(1, 0), Response(0, 0)]
    ensures Valid(p, s) && Serve(p, s, rs, 0, 3) == Pair(6)
  {
    FirstCall();
    SecondCall();
    hide Serve, Resume, Valid, Slice, Start, Pair, PairAfter;
    ServeTwo(p, s, rs, 0, 3);
  }

  lemma AloneCount(p: Program, l: Lane, n: nat)
    requires p == Slice() && l == Sourced(FirstLane(Slice(), [0, 0]), 0, 0)
    ensures WindowValid(p, l) && OwnSteps(p, l, n).core.regs != [0, 2]
  {
    hide *;
    AloneStarts(l);
    AloneSteps(n, false);
    AloneRegisters(n);
  }

  lemma AloneStarts(l: Lane)
    requires l == Sourced(FirstLane(Slice(), [0, 0]), 0, 0)
    ensures l == AloneAt(0, false)
  {
    assert [0, 0][0 := 0] == [0, 0];
  }

  lemma AloneRegisters(n: nat)
    ensures AloneAt(n, false).core.regs != [0, 2]
  {
    assert AloneAt(n, false).core.regs[1] <= 1;
  }

  /**
   The slice is not coherent, and it shows: with a budget of three, the response for the second lane and
   then that for the first one leave the second lane with a count that it never has on its own.
   */
  lemma RepeatedPCsDiffer(p: Program, s: State, l: Lane, rs: seq<Response>, n: nat)
    requires p == Slice() && s == Start() && l == Sourced(FirstLane(Slice(), [0, 0]), 0, 0) && rs == [Response(1, 0), Response(0, 0)]
    ensures !Coherent(p) && Valid(p, s) && |s.lanes| == 2 && WindowValid(p, l)
    ensures Serve(p, s, rs, 0, 3).lanes[1].core != OwnSteps(p, l, n).core
  {
    BothCalls(p, s, rs);
    AloneCount(p, l, n);
    NotCoherent(p);
    assert Pair(6).lanes[1].core.regs == [0, 2];
    hide Serve, Valid, OwnSteps, Coherent, Slice, WindowValid;
  }

  // ----- captures that no lane comes to -----

  function Nop(pc: nat): Uop {
    Uop(pc, false, false, false, false, false, false, 0, 0, 0, -1, -1, -1, Unsupported)
  }

  function Jump(pc: nat, target: nat): Uop {
    Uop(pc, false, false, true, false, false, false, target, 0, 0, -1, -1, -1, Unsupported)
  }

  /** PC 50 is captured with two targets, but every lane jumps over it. */
  function Skipping(): Program {
    Program([Nop(1), Jump(2, 9), Jump(50, 9), Nop(51), Jump(50, 51), Nop(9)], 5, true)
  }

  lemma SkippingFinds(p: Program)
    requires p == Skipping()
    ensures Find(p, 2, 1, 6) == 1 && Find(p, 50, 1, 6) == 2 && Find(p, 51, 1, 6) == 3 && Find(p, 9, 1, 6) == 5 && Find(p, 50, 3, 6) == 4
    ensures forall k :: 1 <= k < 6 ==> Find(p, p.uops[k].pc, 1, 6) >= 1
  {
    assert Find(p, 9, 5, 6) == 5 && Find(p, 9, 4, 6) == 5 && Find(p, 9, 3, 6) == 5 && Find(p, 9, 2, 6) == 5;
    assert Find(p, 51, 3, 6) == 3 && Find(p, 51, 2, 6) == 3;
  }

  lemma SkippingPlain(p: Program)
    requires p == Skipping()
    ensures Plainly(p)
  {
    SkippingUniform(p);
    hide Find, Uniform;
  }

  lemma SkippingUniform(p: Program)
    requires p == Skipping()
    ensures Uniform(p)
  {
    SkippingFinds(p);
    hide Find;
    forall k | 1 <= k < |p.uops| ensures Straight(p, k, 1) {}
  }

  lemma SkippingIncoherent(p: Program)
    requires p == Skipping()
    ensures !Coherent(p)
  {
    SkippingFinds(p);
    hide Find;
    Shows(p, 1, 2);
    Shows(p, 3, 4);
    var c := Core(50, [], true);
    assert CoreStep(p, 2, c).pc == 9 && CoreStep(p, 4, c).pc == 51;
    hide Shown, CoreStep;
    assert !SameAct(p, 2, 4);
  }

  lemma SkippingWay(p: Program)
    requires p == Skipping()
    ensures Fills(p, 1) && Way(p, 0).pc == 2 && Way(p, 1).pc == 9 && !Way(p, 2).active
  {
    SkippingFinds(p);
    assert WindowEnd(p, 1) == 6;
    hide Find;
    assert Way(p, 0) == Spot(2, true, 1);
    assert VectorWays.EntryAt(p, Way(p, 0)) == 1 && Way(p, 1) == Spot(9, true, 1);
    assert VectorWays.EntryAt(p, Way(p, 1)) == 5;
  }

  /** The condition on the way is weaker than coherence: what lanes never fetch does not matter. */
  lemma UnreachedCapturesDoNotMatter(p: Program)
    requires p == Skipping()
    ensures !Coherent(p) && AlwaysClean(p)
  {
    hide *;
    SkippingIncoherent(p);
    SkippingPlain(p);
    SkippingWay(p);
    ShortWay(p);
    AlwaysCleanIff(p);
  }

  /** A way of two operations at different PCs never comes back. */
  lemma ShortWay(p: Program)
    requires Fills(p, 1) && Way(p, 0).pc != Way(p, 1).pc && !Way(p, 2).active
    ensures Consistent(p)
  {
    hide Way, ExitAt, Fills;
    forall m: nat, n: nat | Meet(p, m, n) ensures m == n {
      if m >= 2 { StaysActive(p, 2, m); }
      if n >= 2 { StaysActive(p, 2, n); }
    }
  }
}
