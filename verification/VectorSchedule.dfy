/**
 One iteration of the group executor said from outside: which lanes are resumed, who leads, what is fetched, who
 waits, who executes, who is parked and where all of them meet again. Every call is a sequence of such iterations.
 */
module VectorSchedule {
  import opened Wrappers
  import opened VectorExecutor
  import opened VectorDataflow

  ghost predicate Alive(l: Lane) { l.core.active && l.ready && !l.blocked }

  ghost predicate NoneAlive(s: State) { forall i :: 0 <= i < |s.lanes| ==> !Alive(s.lanes[i]) }

  ghost predicate SomeAliveAt(s: State, pc: nat) { exists i :: 0 <= i < |s.lanes| && Alive(s.lanes[i]) && s.lanes[i].core.pc == pc }

  /** The top entry is resumed if a living lane has come to its PC, or if there is no living lane. */
  ghost predicate Resumes(s: State, u: State) {
    var n := |s.stack|;
    if n > 0 && (SomeAliveAt(s, s.stack[n - 1].pc) || NoneAlive(s)) then
      && |u.lanes| == |s.lanes| && u.stack == s.stack[..n - 1]
      && forall i :: 0 <= i < |s.lanes| ==> IsResumed(s.lanes[i], u.lanes[i], i in s.stack[n - 1].deferred, s.stack[n - 1].deferredPC)
    else u == s
  }

  /** A lane that waited goes on where the entry says; all others stay as they are. */
  ghost predicate IsResumed(l: Lane, m: Lane, waited: bool, pc: nat) {
    if waited then
      && m.core.pc == pc && !m.blocked && m.core.regs == l.core.regs && m.core.active == l.core.active && m.ready == l.ready
      && m.windowStart == l.windowStart && m.windowEnd == l.windowEnd
    else m == l
  }

  ghost predicate IsLeader(u: State, i: nat) { i < |u.lanes| && Alive(u.lanes[i]) && forall j :: 0 <= j < i ==> !Alive(u.lanes[j]) }

  /** Nothing is captured at the PC of the leader: all living lanes end. */
  ghost predicate AllEnd(u: State, t: State) {
    && |t.lanes| == |u.lanes| && t.stack == u.stack
    && forall j :: 0 <= j < |u.lanes| ==>
         if Alive(u.lanes[j]) then t.lanes[j] == u.lanes[j].(core := u.lanes[j].core.(active := false), ready := false) else t.lanes[j] == u.lanes[j]
  }

  /** The leader has refilled its window; nothing else has changed. */
  ghost predicate LeaderFetched(p: Program, u: State, v: State, i: nat, k: nat) {
    && i < |u.lanes| && |v.lanes| == |u.lanes| && v.stack == u.stack && Refills(p, u.lanes[i], k, v.lanes[i])
    && v.lanes[i].core == u.lanes[i].core && v.lanes[i].ready == u.lanes[i].ready && v.lanes[i].blocked == u.lanes[i].blocked
    && forall j :: 0 <= j < |u.lanes| && j != i ==> v.lanes[j] == u.lanes[j]
  }

  /** A lane that is not parked stands at the PC without its source value. */
  ghost predicate SomeLacksValue(v: State, pc: nat) {
    exists j :: 0 <= j < |v.lanes| && v.lanes[j].core.active && !v.lanes[j].ready && !v.lanes[j].blocked && v.lanes[j].core.pc == pc
  }

  /** Lanes with a source value that stand at the PC execute, parked or not. */
  ghost predicate Executes(l: Lane, pc: nat) { l.core.active && l.ready && l.core.pc == pc }

  ghost predicate HasExecuted(p: Program, k: nat, l: Lane, m: Lane)
    requires k < |p.uops|
  {
    if Executes(l, p.uops[k].pc) then
      m.core == CoreStep(p, k, l.core) && m.ready == m.core.active && m.blocked == l.blocked && m.windowStart == l.windowStart && m.windowEnd == l.windowEnd
    else m == l
  }

  ghost predicate AllExecuted(p: Program, k: nat, v: State, lanes: seq<Lane>)
    requires k < |p.uops|
  {
    |lanes| == |v.lanes| && forall j :: 0 <= j < |lanes| ==> HasExecuted(p, k, v.lanes[j], lanes[j])
  }

  /** A lane executes and takes the branch. */
  ghost predicate Jumps(p: Program, k: nat, l: Lane)
    requires k < |p.uops|
  {
    Executes(l, p.uops[k].pc) && TakesBranch(p, k, l.core)
  }

  ghost predicate BothWays(p: Program, k: nat, v: State)
    requires k < |p.uops|
  {
    && p.uops[k].conditional && (exists j :: 0 <= j < |v.lanes| && Jumps(p, k, v.lanes[j]))
    && exists j :: 0 <= j < |v.lanes| && Executes(v.lanes[j], p.uops[k].pc) && !Jumps(p, k, v.lanes[j])
  }

  /** The first lane that executes. */
  ghost predicate IsFirst(p: Program, k: nat, v: State, f: nat)
    requires k < |p.uops|
  {
    f < |v.lanes| && Executes(v.lanes[f], p.uops[k].pc) && forall j :: 0 <= j < f ==> !Executes(v.lanes[j], p.uops[k].pc)
  }

  /** The lane is alive after the branch, or parked and alive, and did not go the way of the first one. */
  ghost predicate Leaves(p: Program, k: nat, v: State, lanes: seq<Lane>, f: nat, j: nat)
    requires k < |p.uops| && f < |v.lanes| == |lanes|
  {
    j < |lanes| && lanes[j].core.active && lanes[j].ready && lanes[j].core.pc != 0 && Jumps(p, k, v.lanes[j]) != Jumps(p, k, v.lanes[f])
  }

  /** Exactly the lanes that leave are parked, in one new entry with the PC of the last of them. */
  ghost predicate Parts(p: Program, k: nat, v: State, lanes: seq<Lane>, f: nat, t: State)
    requires k < |p.uops| && f < |v.lanes| == |lanes|
  {
    && |t.lanes| == |lanes| && |t.stack| == |v.stack| + 1 && t.stack[..|v.stack|] == v.stack
    && (forall j :: 0 <= j < |lanes| ==> t.lanes[j] == lanes[j].(blocked := lanes[j].blocked || Leaves(p, k, v, lanes, f, j)))
    && var e := t.stack[|v.stack|];
       && (forall j: nat :: j in e.deferred <==> Leaves(p, k, v, lanes, f, j))
       && (forall j: nat :: IsLast(e.deferred, j) && j < |lanes| ==> e.deferredPC == lanes[j].core.pc)
       && e.pc == if p.uops[k].reconvergence == 0 then p.uops[k].fallthrough else p.uops[k].reconvergence
  }

  ghost predicate IsLast(s: set<nat>, j: nat) { j in s && forall i :: i in s ==> i <= j }

  /** The issue of entry `k` to all lanes at its PC. */
  ghost predicate IssueMeans(p: Program, k: nat, v: State, t: State, o: Outcome)
    requires k < |p.uops|
  {
    if p.uops[k].conditional && SomeLacksValue(v, p.uops[k].pc) then t == v && o == Waiting
    else if !BothWays(p, k, v) then AllExecuted(p, k, v, t.lanes) && t.stack == v.stack && o == Continue
    else if |v.stack| >= 8 then AllExecuted(p, k, v, t.lanes) && t.stack == v.stack && o == Overflow
    else
      && o == Continue
      && exists lanes, f :: AllExecuted(p, k, v, lanes) && IsFirst(p, k, v, f) && Parts(p, k, v, lanes, f, t)
  }

  /** From the resumed lanes on. */
  ghost predicate Goes(p: Program, u: State, t: State, o: Outcome) {
    if NoneAlive(u) then t == u && o == Drained
    else
      exists i: nat :: IsLeader(u, i) &&
        if forall k :: 1 <= k < |p.uops| ==> p.uops[k].pc != u.lanes[i].core.pc then AllEnd(u, t) && o == Drained
        else exists k, v :: Fetches(p, u.lanes[i], k) && LeaderFetched(p, u, v, i, k) && IssueMeans(p, k, v, t, o)
  }

  /** One iteration. */
  ghost predicate StepMeans(p: Program, s: State, t: State, o: Outcome) { exists u :: Resumes(s, u) && Goes(p, u, t, o) }

  // ----- the executor does this -----

  lemma ResumesIs(s: State)
    ensures Resumes(s, Popped(s))
  {
    assert MustPop(s) <==> |s.stack| > 0 && (SomeAliveAt(s, s.stack[|s.stack| - 1].pc) || NoneAlive(s)) by {
      assert forall l :: Selected(l) <==> Alive(l);
    }
  }

  lemma AllExecutedIs(p: Program, k: nat, v: State)
    requires k < |p.uops|
    ensures AllExecuted(p, k, v, AllIssued(p, k, v.lanes))
  {
    hide CoreStep;
  }

  lemma {:induction false} FirstIs(p: Program, k: nat, v: State, from: nat) returns (f: nat)
    requires k < |p.uops| && from <= |v.lanes|
    requires exists j :: from <= j < |v.lanes| && Executes(v.lanes[j], p.uops[k].pc)
    ensures from <= f < |v.lanes| && Executes(v.lanes[f], p.uops[k].pc) && forall j :: from <= j < f ==> !Executes(v.lanes[j], p.uops[k].pc)
    ensures FirstTakes(p, k, v.lanes, from) == Jumps(p, k, v.lanes[f])
    decreases |v.lanes| - from
  {
    hide TakesBranch;
    f := from;
    if !Executes(v.lanes[from], p.uops[k].pc) { f := FirstIs(p, k, v, from + 1); }
  }

  lemma {:induction false} LastIs(p: Program, k: nat, first: bool, before: seq<Lane>, after: seq<Lane>, n: nat, j: nat)
    requires k < |p.uops| && |before| == |after| && n <= |after| && j < n
    requires Defers(p, k, first, before[j], after[j]) && forall i :: j < i < n ==> !Defers(p, k, first, before[i], after[i])
    ensures DeferredPC(p, k, first, before, after, n) == after[j].core.pc
  {
    hide Defers;
    if j < n - 1 { LastIs(p, k, first, before, after, n - 1, j); }
  }

  lemma DefersIs(p: Program, k: nat, v: State, lanes: seq<Lane>, f: nat, first: bool, j: nat)
    requires k < |p.uops| && f < |v.lanes| == |lanes| && j < |lanes| && first == Jumps(p, k, v.lanes[f])
    ensures Defers(p, k, first, v.lanes[j], lanes[j]) <==> Leaves(p, k, v, lanes, f, j)
  {
    hide TakesBranch;
  }

  lemma PartsIs(p: Program, k: nat, v: State, f: nat)
    requires k < |p.uops| && IsFirst(p, k, v, f) && FirstTakes(p, k, v.lanes, 0) == Jumps(p, k, v.lanes[f])
    ensures f < |v.lanes| && Parts(p, k, v, AllIssued(p, k, v.lanes), f, Park(p, k, v.lanes, v.stack))
  {
    var lanes, t, first := AllIssued(p, k, v.lanes), Park(p, k, v.lanes, v.stack), Jumps(p, k, v.lanes[f]);
    forall j: nat | j < |lanes| ensures Defers(p, k, first, v.lanes[j], lanes[j]) <==> Leaves(p, k, v, lanes, f, j) {
      DefersIs(p, k, v, lanes, f, first, j);
    }
    var e := t.stack[|v.stack|];
    hide Defers, Jumps, AllIssued, FirstTakes, DeferredPC;
    assert forall j: nat :: j in e.deferred <==> Leaves(p, k, v, lanes, f, j);
    forall j: nat | IsLast(e.deferred, j) && j < |lanes| ensures e.deferredPC == lanes[j].core.pc {
      LastIs(p, k, first, v.lanes, lanes, |lanes|, j);
    }
  }

  lemma BothWaysIs(p: Program, k: nat, v: State)
    requires k < |p.uops|
    ensures Diverges(p, k, v.lanes) <==> BothWays(p, k, v)
    ensures MustWait(p, k, v.lanes) <==> p.uops[k].conditional && SomeLacksValue(v, p.uops[k].pc)
    ensures BothWays(p, k, v) ==> exists j :: 0 <= j < |v.lanes| && Executes(v.lanes[j], p.uops[k].pc)
  {
    hide TakesBranch;
    assert forall l :: Takes(p, k, l) <==> Jumps(p, k, l);
    assert forall l, pc :: VectorExecutor.Issues(l, pc) <==> Executes(l, pc);
    assert forall l, pc :: AwaitsValue(l, pc) <==> l.core.active && !l.ready && !l.blocked && l.core.pc == pc;
    hide Takes, Jumps, VectorExecutor.Issues, Executes, AwaitsValue;
  }

  lemma IssueIs(p: Program, k: nat, v: State)
    requires k < |p.uops|
    ensures IssueMeans(p, k, v, Issue(p, k, v).0, Issue(p, k, v).1)
  {
    BothWaysIs(p, k, v);
    AllExecutedIs(p, k, v);
    hide Diverges, BothWays, MustWait, SomeLacksValue, AllExecuted, Parts, AllIssued, Park, FirstTakes;
    if BothWays(p, k, v) {
      var f := FirstIs(p, k, v, 0);
      PartsIs(p, k, v, f);
    }
  }

  /** Every iteration of the group executor is the one described. */
  lemma StepIs(p: Program, s: State)
    requires Valid(p, s)
    ensures StepMeans(p, s, Step(p, s).0, Step(p, s).1)
  {
    ResumesIs(s);
    PoppedValid(p, s);
    var u := Popped(s);
    GoesIs(p, s, u);
    hide Popped, Resumes, Goes, Step;
  }

  lemma GoesIs(p: Program, s: State, u: State)
    requires Valid(p, s) && u == Popped(s) && Valid(p, u)
    ensures Goes(p, u, Step(p, s).0, Step(p, s).1)
  {
    var i := Leader(u.lanes, 0);
    StepUnfolds(p, s, u, i);
    hide *;
    if i < |u.lanes| {
      FetchIs(p, u.lanes[i]);
      if Fetch(p, u.lanes[i]) < 0 {
        EndsIs(p, u, i);
      } else {
        IssuedGoes(p, u, i, Fetch(p, u.lanes[i]));
      }
    } else {
      NobodyGoes(p, u);
    }
  }

  lemma StepUnfolds(p: Program, s: State, u: State, i: nat)
    requires Valid(p, s) && u == Popped(s) && Valid(p, u) && i == Leader(u.lanes, 0)
    ensures i < |u.lanes| ==> WindowValid(p, u.lanes[i]) && Fetch(p, u.lanes[i]) < |p.uops| && IsLeader(u, i)
    ensures i >= |u.lanes| ==> NoneAlive(u)
    ensures Step(p, s) == if i >= |u.lanes| then (u, Drained) else if Fetch(p, u.lanes[i]) < 0 then (Drop(u), Drained)
                          else Issue(p, Fetch(p, u.lanes[i]), u.(lanes := u.lanes[i := Refilled(p, u.lanes[i])]))
  {
    if i < |u.lanes| { FetchInside(p, u.lanes[i]); }
    assert forall l :: Selected(l) <==> Alive(l);
    hide Popped, Issue, Fetch, Refilled, Drop, WindowValid, Selected, Alive;
  }

  lemma NobodyGoes(p: Program, u: State)
    requires NoneAlive(u)
    ensures Goes(p, u, u, Drained)
  {
    hide NoneAlive;
  }

  lemma EndsIs(p: Program, u: State, i: nat)
    requires IsLeader(u, i) && forall k :: 1 <= k < |p.uops| ==> p.uops[k].pc != u.lanes[i].core.pc
    ensures Goes(p, u, Drop(u), Drained)
  {
    assert AllEnd(u, Drop(u));
    hide AllEnd, Drop;
  }

  lemma IssuedGoes(p: Program, u: State, i: nat, k: nat)
    requires IsLeader(u, i) && WindowValid(p, u.lanes[i]) && k < |p.uops| && Fetches(p, u.lanes[i], k) && Refills(p, u.lanes[i], k, Refilled(p, u.lanes[i]))
    ensures var (t, o) := Issue(p, k, u.(lanes := u.lanes[i := Refilled(p, u.lanes[i])])); Goes(p, u, t, o)
  {
    var v := u.(lanes := u.lanes[i := Refilled(p, u.lanes[i])]);
    IssueIs(p, k, v);
    hide Refilled, Refills, Issue, IssueMeans;
    assert LeaderFetched(p, u, v, i, k);
    assert p.uops[k].pc == u.lanes[i].core.pc && 1 <= k;
    hide LeaderFetched, Fetches;
  }

  // ----- calls -----

  /** A call goes through iterations until its budget is used up, or one of them does not continue. */
  ghost predicate IsRun(p: Program, ss: seq<State>, os: seq<Outcome>, budget: nat) {
    && |ss| == |os| + 1 && |os| <= budget
    && (forall k :: 0 <= k < |os| ==> StepMeans(p, ss[k], ss[k + 1], os[k]))
    && (forall k :: 0 <= k < |os| - 1 ==> os[k] == Continue)
    && (|os| == budget || (|os| > 0 && os[|os| - 1] != Continue))
  }

  lemma {:induction false} RunIs(p: Program, s: State, budget: nat) returns (ss: seq<State>, os: seq<Outcome>)
    requires Valid(p, s)
    ensures IsRun(p, ss, os, budget) && ss[0] == s && ss[|os|] == Run(p, s, budget)
    decreases budget
  {
    hide Step, StepMeans, Valid;
    if budget == 0 {
      ss, os := [s], [];
    } else {
      StepIs(p, s);
      RunUnfolds(p, s, budget - 1);
      var t, o := Step(p, s).0, Step(p, s).1;
      if o == Continue {
        var ts, ps := RunIs(p, t, budget - 1);
        ss, os := [s] + ts, [o] + ps;
      } else {
        ss, os := [s, t], [o];
      }
    }
  }

  /** A response: the lane gets its value and is ready, and a run begins, if it is active and there is a budget. */
  lemma ResumeIs(p: Program, s: State, lane: nat, destination: int, value: int, budget: nat) returns (ss: seq<State>, os: seq<Outcome>)
    requires Valid(p, s)
    ensures lane >= |s.lanes| || !s.lanes[lane].core.active || budget == 0 ==> Resume(p, s, lane, destination, value, budget) == s
    ensures lane < |s.lanes| && s.lanes[lane].core.active && budget > 0 ==>
              && IsRun(p, ss, os, budget) && ss[|os|] == Resume(p, s, lane, destination, value, budget)
              && ss[0].stack == s.stack && |ss[0].lanes| == |s.lanes| && (forall j :: 0 <= j < |s.lanes| && j != lane ==> ss[0].lanes[j] == s.lanes[j])
              && IsAnswered(s.lanes[lane], ss[0].lanes[lane], destination, value)
  {
    ss, os := [], [];
    if Accepts(s, lane, budget) {
      ss, os := RunIs(p, Answered(s, lane, destination, value), budget);
      hide IsRun, Run;
    }
  }

  ghost predicate IsAnswered(l: Lane, m: Lane, destination: int, value: int) {
    && m == l.(ready := true, core := l.core.(regs := m.core.regs)) && |m.core.regs| == |l.core.regs|
    && forall r :: 0 <= r < |m.core.regs| ==> m.core.regs[r] == if r == destination then value else l.core.regs[r]
  }
}
