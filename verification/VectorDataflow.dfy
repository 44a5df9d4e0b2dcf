/**
 What a lane computes, said without its state: the value of a register is what the last operation that
 wrote it computed from the values of its two sources at that time, and where the lane goes depends on
 the values of the sources of its branch.
 */
module VectorDataflow {
  import opened Wrappers
  import opened VectorExecutor
  import opened VectorRefinement

  // ----- the reference -----

  /** The operation is evaluated: it neither goes elsewhere nor ends the lane for lack of a meaning. */
  predicate Evaluated(op: Uop) { !op.conditional && !(op.control && (op.target != 0 || !op.writes)) && op.semantic.Compute? }

  ghost predicate Entries(p: Program, es: seq<nat>) { forall i :: 0 <= i < |es| ==> es[i] < |p.uops| }

  /** The value of register `r` after the entries `es`, from the registers `regs`. */
  ghost function Val(p: Program, regs: seq<int>, es: seq<nat>, r: int): int
    requires Entries(p, es)
    decreases |es|, 0
  {
    if !(0 <= r < |regs|) then 0
    else if es == [] then regs[r]
    else
      var before, op := es[..|es| - 1], p.uops[es[|es| - 1]];
      if Evaluated(op) && op.destination == r && Result(p, regs, before, op).Some? then Result(p, regs, before, op).value
      else Val(p, regs, before, r)
  }

  /** What an operation computes behind the entries `es`. */
  ghost function Result(p: Program, regs: seq<int>, es: seq<nat>, op: Uop): Option<int>
    requires Entries(p, es) && op.semantic.Compute?
    decreases |es|, 1
  {
    op.semantic.compute(Val(p, regs, es, op.source0), Val(p, regs, es, op.source1))
  }

  /** A branch behind the entries `es` is taken. */
  ghost predicate BranchTaken(p: Program, regs: seq<int>, es: seq<nat>, op: Uop)
    requires Entries(p, es)
  {
    if !op.tainted then op.branchTaken
    else if op.semantic.Branch? then op.semantic.compare(Val(p, regs, es, op.source0), Val(p, regs, es, op.source1))
    else (Val(p, regs, es, op.source0) != 0) == op.branchTaken
  }

  /** The PC of the next captured operation, or 0. */
  function Following(p: Program, k: nat): nat { if k + 1 < |p.uops| then p.uops[k + 1].pc else 0 }

  /** Where a lane is after entry `k`, behind the entries `es`. */
  ghost predicate Continues(p: Program, regs: seq<int>, es: seq<nat>, k: nat, c: Core, next: Core)
    requires Entries(p, es) && k < |p.uops|
  {
    var op := p.uops[k];
    if op.conditional then
      && next.pc == (if BranchTaken(p, regs, es, op) then op.target else if op.fallthrough != 0 then op.fallthrough else Following(p, k))
      && (next.active <==> next.pc != 0 && next.pc != p.uops[0].pc)
    else if op.control && op.target != 0 then
      next.pc == op.target && (next.active <==> op.target != p.uops[0].pc)
    else if Evaluated(op) then
      if Result(p, regs, es, op).None? then next.pc == c.pc && !next.active
      else if k == p.stopIndex && !p.pastFlr then !next.active && next.pc == 0
      else next.pc == Following(p, k) && (next.active <==> Following(p, k) != 0)
    else if op.semantic.Unsupported? && !op.control && !op.writes then
      next.pc == Following(p, k) && (next.active <==> Following(p, k) != 0)
    else next.pc == c.pc && !next.active
  }

  // ----- a lane on its own -----

  /** The entries that a lane executes in its first `n` steps. */
  ghost function Executed(p: Program, l: Lane, n: nat): (es: seq<nat>)
    requires WindowValid(p, l)
    ensures Entries(p, es)
  {
    if n == 0 then []
    else
      var m := OwnSteps(p, l, n - 1);
      Executed(p, l, n - 1) + if m.core.active && Fetch(p, m) >= 0 then [Fetch(p, m)] else []
  }

  /** The registers are those of the data flow. */
  ghost predicate Flows(p: Program, regs: seq<int>, es: seq<nat>, c: Core)
    requires Entries(p, es)
  {
    |c.regs| == |regs| && forall r :: 0 <= r < |regs| ==> c.regs[r] == Val(p, regs, es, r)
  }

  lemma SourceFlows(p: Program, regs: seq<int>, es: seq<nat>, c: Core, r: int)
    requires Entries(p, es) && Flows(p, regs, es, c)
    ensures Source(c, r) == Val(p, regs, es, r)
  {
  }

  /** One operation. */
  lemma StepFlows(p: Program, regs: seq<int>, es: seq<nat>, k: nat, c: Core)
    requires Entries(p, es) && k < |p.uops| && Flows(p, regs, es, c)
    ensures Entries(p, es + [k]) && Flows(p, regs, es + [k], CoreStep(p, k, c)) && Continues(p, regs, es, k, c, CoreStep(p, k, c))
  {
    var op, fs := p.uops[k], es + [k];
    SourceFlows(p, regs, es, c, op.source0);
    SourceFlows(p, regs, es, c, op.source1);
    assert fs[..|fs| - 1] == es;
  }

  /** Every lane, in every slice: after any number of its own steps its registers are those of the data flow. */
  lemma {:induction false} OwnStepsFlow(p: Program, l: Lane, n: nat)
    requires WindowValid(p, l)
    ensures Flows(p, l.core.regs, Executed(p, l, n), OwnSteps(p, l, n).core)
  {
    hide *;
    if n == 0 {
      OwnNothing(p, l);
      NothingFlows(p, l);
    } else {
      OwnStepsFlow(p, l, n - 1);
      var m := OwnSteps(p, l, n - 1);
      OwnMore(p, l, n - 1);
      OwnStepCore(p, m);
      ExecutedMore(p, l, n - 1);
      if m.core.active && Fetch(p, m) >= 0 {
        StepFlows(p, l.core.regs, Executed(p, l, n - 1), Fetch(p, m), m.core);
      } else {
        assert Executed(p, l, n) == Executed(p, l, n - 1);
        FlowsRegisters(p, l.core.regs, Executed(p, l, n - 1), m.core, OwnSteps(p, l, n).core);
      }
    }
  }

  lemma NothingFlows(p: Program, l: Lane)
    requires WindowValid(p, l)
    ensures Flows(p, l.core.regs, Executed(p, l, 0), l.core)
  {
  }

  lemma ExecutedMore(p: Program, l: Lane, n: nat)
    requires WindowValid(p, l)
    ensures var m := OwnSteps(p, l, n);
            && Executed(p, l, n + 1) == Executed(p, l, n) + (if m.core.active && Fetch(p, m) >= 0 then [Fetch(p, m)] else [])
            && Fetch(p, m) < |p.uops|
  {
    hide OwnSteps, Fetch;
    FetchInside(p, OwnSteps(p, l, n));
  }

  lemma FetchInside(p: Program, l: Lane)
    requires WindowValid(p, l)
    ensures Fetch(p, l) < |p.uops|
  {
  }

  lemma OwnStepCore(p: Program, l: Lane)
    requires WindowValid(p, l)
    ensures Fetch(p, l) < |p.uops|
    ensures OwnStep(p, l).core == if !l.core.active then l.core else if Fetch(p, l) < 0 then l.core.(active := false) else CoreStep(p, Fetch(p, l), l.core)
  {
    hide CoreStep, Refilled;
  }

  lemma FlowsRegisters(p: Program, regs: seq<int>, es: seq<nat>, c: Core, d: Core)
    requires Entries(p, es) && Flows(p, regs, es, c) && d.regs == c.regs
    ensures Flows(p, regs, es, d)
  {
  }

  /** The entry a lane fetches: the first capture of its PC in its window, or else the first one at all. */
  ghost predicate Fetches(p: Program, l: Lane, k: nat) {
    && 1 <= k < |p.uops| && p.uops[k].pc == l.core.pc
    && if exists j :: l.windowStart <= j < l.windowEnd && j < |p.uops| && p.uops[j].pc == l.core.pc then
         l.windowStart <= k < l.windowEnd && forall j :: l.windowStart <= j < k ==> p.uops[j].pc != l.core.pc
       else forall j :: 1 <= j < k ==> p.uops[j].pc != l.core.pc
  }

  /** The window after a fetch: the same if it shows the PC, or else the eight entries from the one fetched on. */
  ghost predicate Refills(p: Program, l: Lane, k: nat, next: Lane) {
    if exists j :: l.windowStart <= j < l.windowEnd && j < |p.uops| && p.uops[j].pc == l.core.pc then
      next.windowStart == l.windowStart && next.windowEnd == l.windowEnd
    else next.windowStart == k && next.windowEnd == if k + 8 < |p.uops| then k + 8 else |p.uops|
  }

  lemma FetchIs(p: Program, l: Lane)
    requires WindowValid(p, l)
    ensures Fetch(p, l) < 0 <==> forall j :: 1 <= j < |p.uops| ==> p.uops[j].pc != l.core.pc
    ensures Fetch(p, l) >= 0 ==> Fetches(p, l, Fetch(p, l)) && Refills(p, l, Fetch(p, l), Refilled(p, l))
  {
  }

  /** Every step of every lane: which entry it fetches, what becomes of its window, and where it goes. */
  lemma OwnStepGoes(p: Program, l: Lane, n: nat)
    requires WindowValid(p, l) && OwnSteps(p, l, n).core.active
    ensures var m, next, k := OwnSteps(p, l, n), OwnSteps(p, l, n + 1), Fetch(p, OwnSteps(p, l, n));
            if k < 0 then !next.core.active && forall j :: 1 <= j < |p.uops| ==> p.uops[j].pc != m.core.pc
            else Fetches(p, m, k) && Refills(p, m, k, next) && Continues(p, l.core.regs, Executed(p, l, n), k, m.core, next.core)
  {
    OwnStepsFlow(p, l, n);
    var m := OwnSteps(p, l, n);
    var k := Fetch(p, m);
    OwnMore(p, l, n);
    if k >= 0 {
      StepFlows(p, l.core.regs, Executed(p, l, n), k, m.core);
      hide Flows, Continues, CoreStep, OwnSteps, Executed;
    }
  }

  // ----- straight slices -----

  /** The first `n` entries behind the source load are captured once each, go straight on, and have results. */
  ghost predicate Straightforward(p: Program, n: nat) {
    && n < |p.uops| && (forall j, k :: 1 <= j < k <= n ==> p.uops[j].pc != p.uops[k].pc) && (p.pastFlr || p.stopIndex >= n || p.stopIndex == 0)
    && forall k :: 1 <= k <= n ==> p.uops[k].pc != 0 && GoesStraight(p.uops[k])
  }

  ghost predicate GoesStraight(op: Uop) {
    && !op.conditional && !op.control
    && if op.semantic.Compute? then forall a, b :: op.semantic.compute(a, b).Some? else op.semantic.Unsupported? && !op.writes
  }

  function UpTo(n: nat): (es: seq<nat>)
    ensures |es| == n && forall i :: 0 <= i < n ==> es[i] == i + 1
  {
    if n == 0 then [] else UpTo(n - 1) + [n]
  }

  /** A lane at entry `k` of a straight slice, whose window begins at or before it, fetches that entry. */
  lemma StraightFetch(p: Program, n: nat, l: Lane, k: nat)
    requires Straightforward(p, n) && WindowValid(p, l) && 1 <= k <= n && l.core.pc == p.uops[k].pc && l.windowStart <= k
    ensures Fetch(p, l) == k && Refilled(p, l).windowStart <= k
  {
  }

  /** The lane is at entry `k`. */
  ghost predicate Stands(p: Program, l: Lane, k: nat) { 1 <= k < |p.uops| && l.core.active && l.core.pc == p.uops[k].pc && l.windowStart <= k }

  lemma {:induction false} StraightSteps(p: Program, n: nat, l: Lane, m: nat)
    requires Straightforward(p, n) && WindowValid(p, l) && m < n && Stands(p, l, 1)
    ensures Executed(p, l, m) == UpTo(m) && Stands(p, OwnSteps(p, l, m), m + 1)
  {
    hide *;
    if m == 0 {
      OwnNothing(p, l);
      NothingExecuted(p, l);
    } else {
      StraightSteps(p, n, l, m - 1);
      var c := OwnSteps(p, l, m - 1);
      StandsMeans(p, c, m);
      StraightFetch(p, n, c, m);
      ExecutedMore(p, l, m - 1);
      OwnMore(p, l, m - 1);
      StraightStep(p, n, c, m);
      UpToMore(m);
    }
  }

  lemma NothingExecuted(p: Program, l: Lane)
    requires WindowValid(p, l)
    ensures Executed(p, l, 0) == UpTo(0)
  {
  }

  lemma UpToMore(n: nat)
    requires n > 0
    ensures UpTo(n) == UpTo(n - 1) + [n]
  {
  }

  lemma StandsMeans(p: Program, l: Lane, k: nat)
    requires Stands(p, l, k)
    ensures 1 <= k < |p.uops| && l.core.active && l.core.pc == p.uops[k].pc && l.windowStart <= k
  {
  }

  lemma StraightStep(p: Program, n: nat, l: Lane, k: nat)
    requires Straightforward(p, n) && WindowValid(p, l) && 1 <= k < n && Stands(p, l, k)
    ensures Stands(p, OwnStep(p, l), k + 1)
  {
    StraightFetch(p, n, l, k);
    assert GoesStraight(p.uops[k]) && p.uops[k + 1].pc != 0;
    hide Find, Straightforward;
  }

  /** In a straight slice every register has the value of the operations in their captured order. */
  lemma StraightSliceFlows(p: Program, n: nat, l: Lane, m: nat)
    requires Straightforward(p, n) && WindowValid(p, l) && m < n && Stands(p, l, 1)
    ensures Entries(p, UpTo(m)) && Flows(p, l.core.regs, UpTo(m), OwnSteps(p, l, m).core)
  {
    StraightSteps(p, n, l, m);
    OwnStepsFlow(p, l, m);
  }

  // ----- the group executor -----

  /** The registers of a lane when it starts: with the value of its response in the destination of the source load. */
  ghost predicate StartsWith(l: Lane, rs: seq<Response>, i: nat, destination: int, regs: seq<int>) {
    && |regs| == |l.core.regs|
    && forall r :: 0 <= r < |regs| ==>
         && ((r != destination || forall j :: 0 <= j < |rs| ==> rs[j].lane != i) ==> regs[r] == l.core.regs[r])
         && (r == destination ==> forall j :: 0 <= j < |rs| && rs[j].lane == i && (forall k :: 0 <= k < j ==> rs[k].lane != i) ==> regs[r] == rs[j].value)
  }

  lemma {:induction false} ValueIs(rs: seq<Response>, i: nat)
    ensures ValueFor(rs, i).None? ==> forall j :: 0 <= j < |rs| ==> rs[j].lane != i
    ensures ValueFor(rs, i).Some? ==> exists j :: 0 <= j < |rs| && rs[j].lane == i
    ensures forall j :: 0 <= j < |rs| && rs[j].lane == i && (forall k :: 0 <= k < j ==> rs[k].lane != i) ==> ValueFor(rs, i) == Some(rs[j].value)
  {
    if rs != [] {
      var rest := rs[1..];
      ValueIs(rest, i);
      assert forall j :: 1 <= j < |rs| ==> rs[j] == rest[j - 1];
      if rs[0].lane == i {
        assert rs[0].lane == i;
      } else {
        forall j | 0 <= j < |rs| && rs[j].lane == i && forall k :: 0 <= k < j ==> rs[k].lane != i ensures ValueFor(rs, i) == Some(rs[j].value) {
          assert rest[j - 1] == rs[j] && forall k :: 0 <= k < j - 1 ==> rest[k] == rs[k + 1];
        }
        if ValueFor(rs, i).Some? {
          var j :| 0 <= j < |rest| && rest[j].lane == i;
          assert rs[j + 1].lane == i;
        }
      }
    }
  }

  lemma StartIs(l: Lane, rs: seq<Response>, i: nat, destination: int)
    ensures StartsWith(l, rs, i, destination, StartOf(l, rs, i, destination).core.regs)
  {
    ValueIs(rs, i);
    hide ValueFor;
  }

  /**
   In clean calls every lane is where its own steps lead from its source value, and its registers are those of the
   data flow of the entries it executes.
   */
  lemma GroupFlows(p: Program, s: State, own: seq<Lane>, rs: seq<Response>, destination: int, budget: nat, i: nat) returns (start: Lane, n: nat)
    requires Valid(p, s) && Parking(s) && Tracks(p, s, own) && budget > 0 && i < |own|
    requires Expected(s, rs) && CleanCalls(p, s, own, rs, destination, budget)
    ensures WindowValid(p, start) && start.core.pc == own[i].core.pc && StartsWith(own[i], rs, i, destination, start.core.regs)
    ensures var c := Serve(p, s, rs, destination, budget).lanes[i].core;
            c == OwnSteps(p, start, n).core && Flows(p, start.core.regs, Executed(p, start, n), c)
  {
    ResponsesAreLaneWise(p, s, own, rs, destination, budget);
    StartIs(own[i], rs, i, destination);
    start := StartOf(own[i], rs, i, destination);
    var final := ServeOwn(p, s, own, rs, destination, budget)[i];
    hide Serve, ServeOwn, CleanCalls, Parking, Valid, Expected, StartsWith, Flows, OwnSteps;
    n :| OwnSteps(p, start, n) == final;
    OwnStepsFlow(p, start, n);
  }
}
