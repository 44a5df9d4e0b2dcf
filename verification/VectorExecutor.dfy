/**
 The source-response executors of src/cpu/o3/pre.cc (`DVRVectorInstructionRegister`): lanes that
 received the value of their source load replay a captured program. One executor resumes a single
 lane; the other issues all ready lanes of a PC together and parks the lanes that leave the path of
 the first one on a reconvergence stack.
 */
module VectorExecutor {
  import opened Wrappers

  /** What an operation computes: any function of its two sources, or any comparison of them. */
  datatype Semantic = Unsupported | Compute(compute: (int, int) -> Option<int>) | Branch(compare: (int, int) -> bool)

  datatype Uop = Uop(
    pc: nat, load: bool, conditional: bool, control: bool, tainted: bool, branchTaken: bool, writes: bool,
    target: nat, fallthrough: nat, reconvergence: nat,
    source0: int, source1: int, destination: int, semantic: Semantic)

  /** A captured program: entry 0 is the source load, replay starts at entry 1. A PC may be captured repeatedly. */
  datatype Program = Program(uops: seq<Uop>, stopIndex: nat, pastFlr: bool)

  /** What belongs to one lane alone. */
  datatype Core = Core(pc: nat, regs: seq<int>, active: bool)

  datatype Lane = Lane(core: Core, ready: bool, blocked: bool, windowStart: nat, windowEnd: nat)

  datatype Entry = Entry(deferred: set<nat>, deferredPC: nat, pc: nat)

  datatype State = State(lanes: seq<Lane>, stack: seq<Entry>)

  const MaxStack := 8

  // ----- one lane -----

  function Source(c: Core, r: int): int {
    if 0 <= r < |c.regs| then c.regs[r] else 0
  }

  function NextPC(p: Program, k: nat): nat {
    if k + 1 < |p.uops| then p.uops[k + 1].pc else 0
  }

  predicate TakesBranch(p: Program, k: nat, c: Core)
    requires k < |p.uops|
  {
    var op := p.uops[k];
    var lhs, rhs := Source(c, op.source0), Source(c, op.source1);
    if !op.tainted then op.branchTaken
    else if op.semantic.Branch? then op.semantic.compare(lhs, rhs)
    else (lhs != 0) == op.branchTaken
  }

  function BranchPC(p: Program, k: nat, taken: bool): nat
    requires k < |p.uops|
  {
    var op := p.uops[k];
    if taken then op.target else if op.fallthrough != 0 then op.fallthrough else NextPC(p, k)
  }

  /** Leaving for `pc`: the slice ends at PC 0 and, for control flow, at the source load. */
  function Goto(p: Program, c: Core, pc: nat, control: bool): Core
    requires |p.uops| > 0
  {
    c.(pc := pc, active := pc != 0 && !(control && pc == p.uops[0].pc))
  }

  /** The operation at index `k`, executed by a lane. */
  function CoreStep(p: Program, k: nat, c: Core): Core
    requires k < |p.uops|
  {
    var op := p.uops[k];
    if op.conditional then Goto(p, c, BranchPC(p, k, TakesBranch(p, k, c)), true)
    else if op.control && op.target != 0 then Goto(p, c, op.target, true)
    else if op.control && !op.writes then c.(active := false)
    else if op.semantic.Unsupported? && !op.control && !op.writes then Goto(p, c, NextPC(p, k), false)
    else if !op.semantic.Compute? then c.(active := false)
    else
      var value := op.semantic.compute(Source(c, op.source0), Source(c, op.source1));
      if value.None? then c.(active := false)
      else
        var written := if 0 <= op.destination < |c.regs| then c.(regs := c.regs[op.destination := value.value]) else c;
        if NextPC(p, k) != 0 && !p.pastFlr && k == p.stopIndex then written.(pc := 0, active := false)
        else Goto(p, written, NextPC(p, k), false)
  }

  /** The first entry in a range with this PC, or -1. */
  function Find(p: Program, pc: nat, lo: nat, hi: nat): (k: int)
    requires hi <= |p.uops|
    ensures k == -1 || (lo <= k < hi && p.uops[k].pc == pc)
    ensures k == -1 ==> forall j :: lo <= j < hi ==> p.uops[j].pc != pc
    ensures k >= 0 ==> forall j :: lo <= j < k ==> p.uops[j].pc != pc
    decreases hi - lo
  {
    if lo >= hi then -1 else if p.uops[lo].pc == pc then lo else Find(p, pc, lo + 1, hi)
  }

  // ----- the front-end window -----

  /** Where a window can begin: at the first capture of a PC. */
  predicate Fills(p: Program, w: nat) {
    1 <= w < |p.uops| && Find(p, p.uops[w].pc, 1, |p.uops|) == w
  }

  function WindowEnd(p: Program, w: nat): nat { if w + 8 < |p.uops| then w + 8 else |p.uops| }

  ghost predicate WindowValid(p: Program, l: Lane) {
    Fills(p, l.windowStart) && l.windowEnd == WindowEnd(p, l.windowStart)
  }

  /** The entry a lane issues: looked up in its window of eight first, then in the whole program. */
  function Fetch(p: Program, l: Lane): int
    requires WindowValid(p, l)
  {
    var k := Find(p, l.core.pc, l.windowStart, l.windowEnd);
    if k >= 0 then k else Find(p, l.core.pc, 1, |p.uops|)
  }

  function Refilled(p: Program, l: Lane): (r: Lane)
    requires WindowValid(p, l)
    ensures WindowValid(p, r) && r.core == l.core && r.ready == l.ready && r.blocked == l.blocked
  {
    var k := Find(p, l.core.pc, 1, |p.uops|);
    if Find(p, l.core.pc, l.windowStart, l.windowEnd) >= 0 || k < 0 then l
    else l.(windowStart := k, windowEnd := WindowEnd(p, k))
  }

  /** One step of a lane resumed on its own: what the program means for it. */
  function OwnStep(p: Program, l: Lane): (r: Lane)
    requires WindowValid(p, l)
    ensures WindowValid(p, r)
  {
    var k := Fetch(p, l);
    if !l.core.active then l
    else if k < 0 then l.(core := l.core.(active := false))
    else Refilled(p, l).(core := CoreStep(p, k, l.core))
  }

  function OwnSteps(p: Program, l: Lane, n: nat): (r: Lane)
    requires WindowValid(p, l)
    ensures WindowValid(p, r)
  {
    if n == 0 then l else OwnStep(p, OwnSteps(p, l, n - 1))
  }

  lemma OwnNothing(p: Program, l: Lane)
    requires WindowValid(p, l)
    ensures OwnSteps(p, l, 0) == l
  {
  }

  lemma OwnMore(p: Program, l: Lane, n: nat)
    requires WindowValid(p, l)
    ensures OwnSteps(p, l, n + 1) == OwnStep(p, OwnSteps(p, l, n))
  {
  }

  // ----- all lanes -----

  predicate Selected(l: Lane) { l.core.active && l.ready && !l.blocked }

  /** The lanes an issue at `pc` executes; a parked lane is not excluded. */
  predicate Issues(l: Lane, pc: nat) { l.core.active && l.ready && l.core.pc == pc }

  ghost predicate AnySelected(lanes: seq<Lane>) { exists i :: 0 <= i < |lanes| && Selected(lanes[i]) }

  ghost predicate AnySelectedAt(lanes: seq<Lane>, pc: nat) {
    exists i :: 0 <= i < |lanes| && Selected(lanes[i]) && lanes[i].core.pc == pc
  }

  ghost predicate MustPop(s: State) {
    |s.stack| > 0 && (AnySelectedAt(s.lanes, s.stack[|s.stack| - 1].pc) || !AnySelected(s.lanes))
  }

  function Release(l: Lane, i: nat, e: Entry): Lane {
    if i in e.deferred then l.(blocked := false, core := l.core.(pc := e.deferredPC)) else l
  }

  ghost function Popped(s: State): State {
    if MustPop(s) then
      var e := s.stack[|s.stack| - 1];
      State(seq(|s.lanes|, i requires 0 <= i < |s.lanes| => Release(s.lanes[i], i, e)), s.stack[..|s.stack| - 1])
    else s
  }

  /** The first selected lane leads. */
  function Leader(lanes: seq<Lane>, from: nat): (i: nat)
    requires from <= |lanes|
    ensures from <= i <= |lanes| && (i < |lanes| ==> Selected(lanes[i]))
    ensures forall j :: from <= j < i ==> !Selected(lanes[j])
    decreases |lanes| - from
  {
    if from == |lanes| || Selected(lanes[from]) then from else Leader(lanes, from + 1)
  }

  function Dropped(l: Lane): Lane {
    if Selected(l) then l.(core := l.core.(active := false), ready := false) else l
  }

  /** A lane after the issue of entry `k`. */
  function Issued(p: Program, k: nat, l: Lane): Lane
    requires k < |p.uops|
  {
    if Issues(l, p.uops[k].pc) then
      var c := CoreStep(p, k, l.core);
      l.(core := c, ready := c.active)
    else l
  }

  predicate Takes(p: Program, k: nat, l: Lane)
    requires k < |p.uops|
  {
    Issues(l, p.uops[k].pc) && TakesBranch(p, k, l.core)
  }

  ghost predicate Diverges(p: Program, k: nat, lanes: seq<Lane>)
    requires k < |p.uops|
  {
    && p.uops[k].conditional
    && (exists i :: 0 <= i < |lanes| && Takes(p, k, lanes[i]))
    && (exists i :: 0 <= i < |lanes| && Issues(lanes[i], p.uops[k].pc) && !Takes(p, k, lanes[i]))
  }

  /** A branch waits until every lane that stands at it has its source value. */
  ghost predicate MustWait(p: Program, k: nat, lanes: seq<Lane>)
    requires k < |p.uops|
  {
    p.uops[k].conditional && exists i :: 0 <= i < |lanes| && AwaitsValue(lanes[i], p.uops[k].pc)
  }

  predicate AwaitsValue(l: Lane, pc: nat) { l.core.active && !l.blocked && l.core.pc == pc && !l.ready }

  /** The lanes parked by a divergence, by their state before and after the issue. */
  predicate Defers(p: Program, k: nat, first: bool, before: Lane, after: Lane)
    requires k < |p.uops|
  {
    after.core.active && after.ready && after.core.pc != 0 && Takes(p, k, before) != first
  }

  /** The direction of the first lane that was issued. */
  function FirstTakes(p: Program, k: nat, lanes: seq<Lane>, from: nat): bool
    requires k < |p.uops| && from <= |lanes|
    decreases |lanes| - from
  {
    if from == |lanes| then false
    else if Issues(lanes[from], p.uops[k].pc) then Takes(p, k, lanes[from])
    else FirstTakes(p, k, lanes, from + 1)
  }

  function Reconvergence(op: Uop): nat { if op.reconvergence != 0 then op.reconvergence else op.fallthrough }

  // ----- one step of the group executor -----

  datatype Outcome = Continue | Waiting | Drained | Overflow

  ghost predicate Valid(p: Program, s: State) {
    forall i :: 0 <= i < |s.lanes| ==> WindowValid(p, s.lanes[i])
  }

  ghost function AllIssued(p: Program, k: nat, lanes: seq<Lane>): (r: seq<Lane>)
    requires k < |p.uops|
    ensures |r| == |lanes|
  {
    seq(|lanes|, i requires 0 <= i < |lanes| => Issued(p, k, lanes[i]))
  }

  ghost function Deferred(p: Program, k: nat, first: bool, before: seq<Lane>, after: seq<Lane>): set<nat>
    requires k < |p.uops| && |before| == |after|
  {
    set i: nat | i < |after| && Defers(p, k, first, before[i], after[i])
  }

  /** The PC of the last parked lane, which is the one kept. */
  function DeferredPC(p: Program, k: nat, first: bool, before: seq<Lane>, after: seq<Lane>, n: nat): nat
    requires k < |p.uops| && |before| == |after| && n <= |after|
  {
    if n == 0 then 0
    else if Defers(p, k, first, before[n - 1], after[n - 1]) then after[n - 1].core.pc
    else DeferredPC(p, k, first, before, after, n - 1)
  }

  function Parked(l: Lane, i: nat, deferred: set<nat>): Lane {
    if i in deferred then l.(blocked := true) else l
  }

  ghost function Park(p: Program, k: nat, before: seq<Lane>, stack: seq<Entry>): State
    requires k < |p.uops|
  {
    var after := AllIssued(p, k, before);
    var first := FirstTakes(p, k, before, 0);
    var deferred := Deferred(p, k, first, before, after);
    State(seq(|after|, i requires 0 <= i < |after| => Parked(after[i], i, deferred)),
          stack + [Entry(deferred, DeferredPC(p, k, first, before, after, |after|), Reconvergence(p.uops[k]))])
  }

  /** Issuing entry `k` for all lanes that stand at it. */
  ghost function Issue(p: Program, k: nat, s: State): (State, Outcome)
    requires k < |p.uops|
  {
    if MustWait(p, k, s.lanes) then (s, Waiting)
    else if !Diverges(p, k, s.lanes) then (s.(lanes := AllIssued(p, k, s.lanes)), Continue)
    else if |s.stack| >= MaxStack then (s.(lanes := AllIssued(p, k, s.lanes)), Overflow)
    else (Park(p, k, s.lanes, s.stack), Continue)
  }

  ghost function Drop(s: State): State {
    s.(lanes := seq(|s.lanes|, i requires 0 <= i < |s.lanes| => Dropped(s.lanes[i])))
  }

  ghost function Step(p: Program, s: State): (State, Outcome)
    requires Valid(p, s)
  {
    var t := Popped(s);
    var i := Leader(t.lanes, 0);
    if i == |t.lanes| then (t, Drained)
    else
      PoppedValid(p, s);
      var k := Fetch(p, t.lanes[i]);
      if k < 0 then (Drop(t), Drained) else Issue(p, k, t.(lanes := t.lanes[i := Refilled(p, t.lanes[i])]))
  }

  lemma PoppedValid(p: Program, s: State)
    requires Valid(p, s)
    ensures Valid(p, Popped(s))
  {
  }

  lemma RefillValid(p: Program, s: State, i: nat)
    requires Valid(p, s) && i < |s.lanes|
    ensures Valid(p, s.(lanes := s.lanes[i := Refilled(p, s.lanes[i])]))
  {
  }

  /** What an issue leaves alone: windows, and lanes without source value. */
  lemma IssueShape(p: Program, k: nat, s: State)
    requires k < |p.uops|
    ensures |Issue(p, k, s).0.lanes| == |s.lanes|
    ensures forall i :: 0 <= i < |s.lanes| ==> SameShape(s.lanes[i], Issue(p, k, s).0.lanes[i])
  {
    hide CoreStep, MustWait, Diverges, FirstTakes, Deferred, DeferredPC;
  }

  ghost predicate SameShape(a: Lane, b: Lane) {
    a.windowStart == b.windowStart && a.windowEnd == b.windowEnd && (!a.ready ==> b.core == a.core && !b.ready)
  }

  lemma StepValid(p: Program, s: State)
    requires Valid(p, s)
    ensures Valid(p, Step(p, s).0) && |Step(p, s).0.lanes| == |s.lanes|
  {
    PoppedValid(p, s);
    var t := Popped(s);
    var i := Leader(t.lanes, 0);
    if i < |t.lanes| {
      var k := Fetch(p, t.lanes[i]);
      RefillValid(p, t, i);
      var u := t.(lanes := t.lanes[i := Refilled(p, t.lanes[i])]);
      if k >= 0 { IssueShape(p, k, u); }
      assert |t.lanes| == |s.lanes|;
      hide Popped, Refilled, Fetch, Leader, Issue;
    }
  }

  // ----- a call, and all calls -----

  ghost function Run(p: Program, s: State, budget: nat): (r: State)
    requires Valid(p, s)
    ensures Valid(p, r) && |r.lanes| == |s.lanes|
    decreases budget
  {
    if budget == 0 then s
    else
      StepValid(p, s);
      var (t, o) := Step(p, s);
      if o.Continue? then Run(p, t, budget - 1) else t
  }

  function WithSource(c: Core, destination: int, value: int): Core {
    if 0 <= destination < |c.regs| then c.(regs := c.regs[destination := value]) else c
  }

  /** A lane with its source value. */
  function Sourced(l: Lane, destination: int, value: int): Lane { l.(core := WithSource(l.core, destination, value)) }

  /** The source value of a lane has arrived. */
  function Answered(s: State, lane: nat, destination: int, value: int): State
    requires lane < |s.lanes|
  {
    s.(lanes := s.lanes[lane := Sourced(s.lanes[lane], destination, value).(ready := true)])
  }

  predicate Accepts(s: State, lane: nat, budget: nat) {
    lane < |s.lanes| && s.lanes[lane].core.active && budget > 0
  }

  /** `resumeSourceLanes` */
  ghost function Resume(p: Program, s: State, lane: nat, destination: int, value: int, budget: nat): (r: State)
    requires Valid(p, s)
    ensures Valid(p, r) && |r.lanes| == |s.lanes|
  {
    if Accepts(s, lane, budget) then Run(p, Answered(s, lane, destination, value), budget) else s
  }

  datatype Response = Response(lane: nat, value: int)

  /** After all responses, each with its call. */
  ghost function Serve(p: Program, s: State, rs: seq<Response>, destination: int, budget: nat): (r: State)
    requires Valid(p, s)
    ensures Valid(p, r) && |r.lanes| == |s.lanes|
    decreases |rs|
  {
    if rs == [] then s
    else Serve(p, Resume(p, s, rs[0].lane, destination, rs[0].value, budget), rs[1..], destination, budget)
  }

  /** The value that a list of responses has for a lane. */
  function ValueFor(rs: seq<Response>, lane: nat): Option<int> {
    if rs == [] then None else if rs[0].lane == lane then Some(rs[0].value) else ValueFor(rs[1..], lane)
  }

  /** A lane before its source value has arrived. */
  function FirstLane(p: Program, regs: seq<int>): Lane
    requires |p.uops| > 1
  {
    Lane(Core(p.uops[1].pc, regs, true), false, false, 1, WindowEnd(p, 1))
  }

  /** All lanes wait for their source values. */
  ghost predicate Fresh(s: State) {
    s.stack == [] && forall i :: 0 <= i < |s.lanes| ==> s.lanes[i].core.active && !s.lanes[i].ready && !s.lanes[i].blocked
  }

  // ----- the executors -----

  class VectorInstructionRegister {
    var lanes: seq<Lane>
    var stack: seq<Entry>

    ghost function Now(): State reads this { State(lanes, stack) }

    /** `initializeSourceContinuation`: every lane at the entry behind the source load, if there is one. */
    constructor (p: Program, n: nat, regs: seq<int>)
      ensures Valid(p, Now()) && Fresh(Now())
      ensures |lanes| == if |p.uops| <= 1 then 0 else if n < 128 then n else 128
      ensures |p.uops| > 1 ==> forall i :: 0 <= i < |lanes| ==> lanes[i] == FirstLane(p, regs)
      ensures forall i :: 0 <= i < |lanes| ==>
                && lanes[i].core == Core(p.uops[1].pc, regs, true) && !lanes[i].ready && !lanes[i].blocked
                && lanes[i].windowStart == 1 && lanes[i].windowEnd == if 9 < |p.uops| then 9 else |p.uops|
    {
      lanes, stack := [], [];
      new;
      if |p.uops| > 1 {
        for i := 0 to if n < 128 then n else 128
          invariant stack == [] && |lanes| == i && forall j :: 0 <= j < i ==> lanes[j] == FirstLane(p, regs)
        {
          lanes := lanes + [FirstLane(p, regs)];
        }
      }
    }

    /** Looking up a lane's operation, refilling its window if need be. */
    method FetchEntry(p: Program, i: nat) returns (k: int)
      requires Valid(p, Now()) && i < |lanes|
      modifies this`lanes
      ensures k == old(Fetch(p, lanes[i])) && (k < 0 || 1 <= k < |p.uops|)
      ensures lanes == old(lanes[i := Refilled(p, lanes[i])]) && Valid(p, Now())
    {
      var l := lanes[i];
      k := Search(p, l.core.pc, l.windowStart, l.windowEnd);
      if k < 0 {
        k := Search(p, l.core.pc, 1, |p.uops|);
        if k >= 0 {
          l := l.(windowStart := k, windowEnd := WindowEnd(p, k));
        }
      }
      RefillValid(p, Now(), i);
      lanes := lanes[i := l];
    }

    /** `resumeSourceLane`: one lane alone; without the guard of the source nothing happens. */
    method ResumeSourceLane(p: Program, lane: nat, destination: int, value: int, budget: nat) returns (steps: nat)
      requires Valid(p, Now())
      modifies this`lanes
      ensures Valid(p, Now()) && steps <= budget
      ensures |p.uops| <= 1 || !old(Accepts(Now(), lane, budget)) ==> lanes == old(lanes)
      ensures |p.uops| > 1 && old(Accepts(Now(), lane, budget)) ==>
                && lanes == old(lanes)[lane := OwnSteps(p, Sourced(old(lanes[lane]), destination, value), steps)]
                && (steps == budget || !lanes[lane].core.active)
    {
      steps := 0;
      if |p.uops| <= 1 || lane >= |lanes| || !lanes[lane].core.active || budget == 0 {
        return;
      }
      lanes := lanes[lane := lanes[lane].(core := WithSource(lanes[lane].core, destination, value))];
      steps := StepLanes(p, lane, budget);
    }

    method StepLanes(p: Program, lane: nat, budget: nat) returns (steps: nat)
      requires Valid(p, Now()) && lane < |lanes| && WindowValid(p, lanes[lane])
      modifies this`lanes
      ensures Valid(p, Now()) && steps <= budget
      ensures lanes == old(lanes)[lane := OwnSteps(p, old(lanes[lane]), steps)] && (steps == budget || !lanes[lane].core.active)
    {
      hide *;
      ghost var before, start := lanes, lanes[lane];
      steps := 0;
      OwnNothing(p, start);
      while steps < budget && lanes[lane].core.active
        invariant Valid(p, Now()) && lane < |before| && lanes == before[lane := OwnSteps(p, start, steps)] && steps <= budget
        decreases budget - steps
      {
        OwnMore(p, start, steps);
        StepLane(p, lane);
        steps := steps + 1;
      }
    }

    /** One iteration of its loop. */
    method StepLane(p: Program, lane: nat)
      requires Valid(p, Now()) && lane < |lanes| && lanes[lane].core.active
      modifies this`lanes
      ensures Valid(p, Now()) && lanes == old(lanes[lane := OwnStep(p, lanes[lane])])
    {
      ghost var before := lanes[lane];
      var k := FetchEntry(p, lane);
      var c := lanes[lane].core;
      if k < 0 {
        RefilledNothing(p, before);
        c := c.(active := false);
      } else {
        c := CoreStep(p, k, c);
      }
      hide CoreStep, Fetch, Refilled;
      lanes := lanes[lane := lanes[lane].(core := c)];
    }

    /** Resuming the lanes of the top entry when their path is due. */
    method PopReconverged()
      modifies this
      ensures Now() == Popped(old(Now()))
    {
      if |stack| == 0 {
        return;
      }
      var top := stack[|stack| - 1];
      var alive, at := false, false;
      for i := 0 to |lanes|
        invariant alive <==> exists j :: 0 <= j < i && Selected(lanes[j])
        invariant at <==> exists j :: 0 <= j < i && Selected(lanes[j]) && lanes[j].core.pc == top.pc
      {
        if Selected(lanes[i]) {
          alive := true;
          at := at || lanes[i].core.pc == top.pc;
        }
      }
      if at || !alive {
        for i := 0 to |lanes|
          invariant |lanes| == old(|lanes|) && stack == old(stack)
          invariant forall j :: 0 <= j < |lanes| ==> lanes[j] == if j < i then Release(old(lanes[j]), j, top) else old(lanes[j])
        {
          lanes := lanes[i := Release(lanes[i], i, top)];
        }
        stack := stack[..|stack| - 1];
      }
    }

    method IssueGroup(p: Program, k: nat) returns (o: Outcome)
      requires k < |p.uops| && exists i :: 0 <= i < |lanes| && Selected(lanes[i]) && lanes[i].core.pc == p.uops[k].pc
      modifies this
      ensures (Now(), o) == Issue(p, k, old(Now()))
    {
      hide MustWait, Diverges, AllIssued, FirstTakes, Takes, Deferred, DeferredPC;
      if p.uops[k].conditional {
        var ready := BranchReady(p, k, lanes);
        if !ready {
          return Waiting;
        }
      }
      NoWait(p, k, lanes);
      var after, taken, diverges, first := IssueLanes(p, k, lanes);
      ghost var before := lanes;
      lanes := after;
      if diverges {
        if |stack| >= MaxStack {
          return Overflow;
        }
        var entry;
        lanes, entry := ParkLanes(p, k, first, taken, before, after);
        assert lanes == Park(p, k, before, stack).lanes;
        stack := stack + [entry];
      }
      return Continue;
    }

    /** One iteration of the loop of `resumeSourceLanes`. */
    method StepGroup(p: Program) returns (o: Outcome)
      requires Valid(p, Now())
      modifies this
      ensures Valid(p, Now()) && |lanes| == old(|lanes|)
      ensures (Now(), o) == Step(p, old(Now()))
    {
      StepValid(p, Now());
      PoppedValid(p, Now());
      ghost var s := Now();
      PopReconverged();
      ghost var t := Now();
      assert t == Popped(s);
      var i := 0;
      while i < |lanes| && !Selected(lanes[i])
        invariant i <= |lanes| && Leader(lanes, 0) == Leader(lanes, i) && Now() == t
      {
        i := i + 1;
      }
      hide Popped, Drop, Issue, Leader, Refilled;
      if i == |lanes| {
        assert |t.lanes| == |s.lanes|;
        assert Step(p, s) == (t, Drained);
        return Drained;
      }
      var k := FetchEntry(p, i);
      if k < 0 {
        RefilledNothing(p, t.lanes[i]);
        assert lanes == t.lanes;
        DropSelected();
        assert (Now(), Drained) == Step(p, s);
        return Drained;
      }
      assert Selected(lanes[i]) && lanes[i].core.pc == p.uops[k].pc;
      o := IssueGroup(p, k);
      assert (Now(), o) == Step(p, s);
    }

    /** `resumeSourceLanes`: a response makes one lane ready; ready lanes are issued in groups. */
    method ResumeSourceLanes(p: Program, lane: nat, destination: int, value: int, budget: nat)
      requires Valid(p, Now())
      modifies this
      ensures Valid(p, Now())
      ensures Now() == if |p.uops| <= 1 then old(Now()) else Resume(p, old(Now()), lane, destination, value, budget)
    {
      if |p.uops| <= 1 || lane >= |lanes| || !lanes[lane].core.active || budget == 0 {
        return;
      }
      lanes := lanes[lane := lanes[lane].(core := WithSource(lanes[lane].core, destination, value), ready := true)];
      assert Now() == Answered(old(Now()), lane, destination, value);
      RunGroup(p, budget);
    }

    method RunGroup(p: Program, budget: nat)
      requires Valid(p, Now())
      modifies this
      ensures Valid(p, Now()) && Now() == Run(p, old(Now()), budget)
    {
      hide *;
      ghost var s := Now();
      for steps := 0 to budget
        invariant Valid(p, Now()) && Run(p, s, budget) == Run(p, Now(), budget - steps)
      {
        RunUnfolds(p, Now(), budget - steps - 1);
        var o := StepGroup(p);
        if !o.Continue? {
          return;
        }
      }
      RunNothing(p, Now());
    }

    /** The operation of the first selected lane cannot be found. */
    method DropSelected()
      modifies this`lanes
      ensures Now() == Drop(old(Now()))
    {
      for i := 0 to |lanes|
        invariant |lanes| == old(|lanes|) && stack == old(stack)
        invariant forall j :: 0 <= j < |lanes| ==> lanes[j] == if j < i then Dropped(old(lanes[j])) else old(lanes[j])
      {
        lanes := lanes[i := Dropped(lanes[i])];
      }
    }
  }

  lemma NoWait(p: Program, k: nat, lanes: seq<Lane>)
    requires k < |p.uops|
    ensures !p.uops[k].conditional ==> !MustWait(p, k, lanes)
  {
  }

  lemma RefilledNothing(p: Program, l: Lane)
    requires WindowValid(p, l) && Fetch(p, l) < 0
    ensures Refilled(p, l) == l
  {
  }

  lemma RunNothing(p: Program, s: State)
    requires Valid(p, s)
    ensures Run(p, s, 0) == s
  {
  }

  lemma RunUnfolds(p: Program, s: State, budget: nat)
    requires Valid(p, s)
    ensures Valid(p, Step(p, s).0)
    ensures Run(p, s, budget + 1) == if Step(p, s).1.Continue? then Run(p, Step(p, s).0, budget) else Step(p, s).0
  {
    StepValid(p, s);
  }

  /** Lanes do not part at a branch as long as one of those that stand there has no source value. */
  method BranchReady(p: Program, k: nat, lanes: seq<Lane>) returns (ready: bool)
    requires k < |p.uops| && p.uops[k].conditional
    requires exists i :: 0 <= i < |lanes| && Selected(lanes[i]) && lanes[i].core.pc == p.uops[k].pc
    ensures ready <==> !MustWait(p, k, lanes)
  {
    var pc := p.uops[k].pc;
    var count, all := 0, true;
    for i := 0 to |lanes|
      invariant all <==> !exists j :: 0 <= j < i && AwaitsValue(lanes[j], pc)
      invariant count == 0 ==> forall j :: 0 <= j < i ==> !(lanes[j].core.active && !lanes[j].blocked && lanes[j].core.pc == pc)
    {
      var l := lanes[i];
      if l.core.active && !l.blocked && l.core.pc == pc {
        count := count + 1;
        all := all && l.ready;
      }
    }
    ready := !(count == 0 || !all);
  }

  /** All lanes at the PC of entry `k` execute it; for a branch, who takes it and where the first one goes. */
  method IssueLanes(p: Program, k: nat, lanes: seq<Lane>) returns (after: seq<Lane>, taken: seq<bool>, diverges: bool, first: bool)
    requires k < |p.uops|
    ensures after == AllIssued(p, k, lanes) && (diverges <==> Diverges(p, k, lanes))
    ensures |taken| == |lanes| && (diverges ==> first == FirstTakes(p, k, lanes, 0))
    ensures diverges ==> forall i :: 0 <= i < |lanes| ==> taken[i] == Takes(p, k, lanes[i])
  {
    hide CoreStep, TakesBranch;
    var op := p.uops[k];
    after, taken := [], [];
    var hasTaken, hasFallthrough, firstSet := false, false, false;
    first := false;
    for i := 0 to |lanes|
      invariant |after| == |taken| == i
      invariant forall j :: 0 <= j < i ==> after[j] == Issued(p, k, lanes[j])
      invariant op.conditional ==> forall j :: 0 <= j < i ==> taken[j] == Takes(p, k, lanes[j])
      invariant hasTaken <==> op.conditional && exists j :: 0 <= j < i && Takes(p, k, lanes[j])
      invariant hasFallthrough <==> op.conditional && exists j :: 0 <= j < i && Issues(lanes[j], op.pc) && !Takes(p, k, lanes[j])
      invariant op.conditional ==> FirstTakes(p, k, lanes, 0) == if firstSet then first else FirstTakes(p, k, lanes, i)
      invariant hasTaken || hasFallthrough ==> firstSet
    {
      var l := lanes[i];
      var takes := false;
      if Issues(l, op.pc) && op.conditional {
        takes := TakesBranch(p, k, l.core);
        if !firstSet {
          first, firstSet := takes, true;
        }
        hasTaken, hasFallthrough := hasTaken || takes, hasFallthrough || !takes;
      }
      after := after + [Issued(p, k, l)];
      taken := taken + [takes];
    }
    diverges := hasTaken && hasFallthrough;
  }

  /** Parking the lanes that leave the path of the first one. */
  method ParkLanes(p: Program, k: nat, first: bool, taken: seq<bool>, ghost before: seq<Lane>, after: seq<Lane>)
    returns (parked: seq<Lane>, entry: Entry)
    requires k < |p.uops| && |taken| == |before| == |after|
    requires forall i :: 0 <= i < |before| ==> taken[i] == Takes(p, k, before[i])
    ensures |parked| == |after|
    ensures entry == Entry(Deferred(p, k, first, before, after), DeferredPC(p, k, first, before, after, |after|), Reconvergence(p.uops[k]))
    ensures forall i :: 0 <= i < |after| ==> parked[i] == Parked(after[i], i, entry.deferred)
  {
    hide Takes;
    parked := after;
    var deferred: set<nat>, deferredPC := {}, 0;
    for i := 0 to |after|
      invariant |parked| == |after|
      invariant deferred == set j: nat | j < i && Defers(p, k, first, before[j], after[j])
      invariant deferredPC == DeferredPC(p, k, first, before, after, i)
      invariant forall j :: 0 <= j < |after| ==> parked[j] == if j < i then Parked(after[j], j, deferred) else after[j]
    {
      if after[i].core.active && after[i].ready && after[i].core.pc != 0 && taken[i] != first {
        deferred := deferred + {i};
        deferredPC := after[i].core.pc;
        parked := parked[i := after[i].(blocked := true)];
      }
    }
    entry := Entry(deferred, deferredPC, Reconvergence(p.uops[k]));
  }

  method Search(p: Program, pc: nat, lo: nat, hi: nat) returns (k: int)
    requires hi <= |p.uops|
    ensures k == Find(p, pc, lo, hi)
  {
    var j := lo;
    while j < hi && p.uops[j].pc != pc
      invariant lo <= j && (j <= hi || j == lo) && Find(p, pc, lo, hi) == Find(p, pc, j, hi)
    {
      j := j + 1;
    }
    k := if j < hi then j else -1;
  }
}
