/**
 The vector taint tracker of src/cpu/o3/pre.cc (`DVRVectorTaintTracker`): which integer registers
 depend on the trigger load, updated speculatively at dispatch and rolled back on a squash.
 A taint mask is the set of its bits.
 */
module TaintTracker {
  datatype RegId = RegId(isInt: bool, index: nat)

  /** A dispatched instruction, with the memory cells its accesses resolve to. */
  datatype Inst = Inst(pc: nat, isLoad: bool, sources: seq<RegId>, dests: seq<RegId>, loads: seq<nat>, stores: seq<nat>)

  datatype Status = Status(taint: set<nat>, finalLoadPC: nat)

  datatype Observation = Observation(tainted: bool, dependentLoad: bool)

  predicate Tracked(r: RegId) { r.isInt && r.index < 32 }

  predicate IsTainted(t: set<nat>, r: RegId) { Tracked(r) && r.index in t }

  predicate SourceTainted(t: set<nat>, inst: Inst) {
    exists i :: 0 <= i < |inst.sources| && IsTainted(t, inst.sources[i])
  }

  function SetTainted(t: set<nat>, r: RegId, value: bool): set<nat> {
    if !Tracked(r) then t else if value then t + {r.index} else t - {r.index}
  }

  function SetDests(t: set<nat>, dests: seq<RegId>, k: nat, value: bool): set<nat>
    requires k <= |dests|
  {
    if k == 0 then t else SetTainted(SetDests(t, dests, k - 1, value), dests[k - 1], value)
  }

  predicate DependentLoad(t: set<nat>, inst: Inst) { inst.isLoad && SourceTainted(t, inst) }

  function Observed(s: Status, inst: Inst): Status {
    Status(SetDests(s.taint, inst.dests, |inst.dests|, SourceTainted(s.taint, inst)),
           if DependentLoad(s.taint, inst) then inst.pc else s.finalLoadPC)
  }

  // ----- instructions that survive -----

  datatype Dispatched = Dispatched(inst: Inst, sequence: nat)

  /** The status after the first `k` instructions, were they the only ones. */
  function Replayed(start: Status, path: seq<Dispatched>, k: nat): Status
    requires k <= |path|
  {
    if k == 0 then start else Observed(Replayed(start, path, k - 1), path[k - 1].inst)
  }

  /** The instructions older than a squash. */
  function Survivors(path: seq<Dispatched>, squash: nat): seq<Dispatched> {
    if path == [] then []
    else
      var rest := Survivors(path[..|path| - 1], squash);
      if path[|path| - 1].sequence < squash then rest + [path[|path| - 1]] else rest
  }

  ghost predicate InOrder(path: seq<Dispatched>) {
    forall i, j :: 0 <= i < j < |path| ==> path[i].sequence < path[j].sequence
  }

  /** In dispatch order the survivors are a prefix. */
  lemma {:induction false} SurvivorsOfPrefix(path: seq<Dispatched>, squash: nat, n: nat)
    requires n <= |path| && (forall i :: 0 <= i < n ==> path[i].sequence < squash)
    requires forall i :: n <= i < |path| ==> path[i].sequence >= squash
    ensures Survivors(path, squash) == path[..n]
    decreases |path|
  {
    if path != [] {
      var last := |path| - 1;
      SurvivorsOfPrefix(path[..last], squash, if n == |path| then last else n);
      assert n == |path| ==> path[..n] == path[..last] + [path[last]];
      assert n < |path| ==> path[..last][..n] == path[..n];
    }
  }

  lemma {:induction false} ReplayOfPrefix(start: Status, path: seq<Dispatched>, n: nat, k: nat)
    requires k <= n <= |path|
    ensures Replayed(start, path[..n], k) == Replayed(start, path, k)
  {
    if k > 0 { ReplayOfPrefix(start, path, n, k - 1); }
  }

  lemma ReplayOfAppend(start: Status, path: seq<Dispatched>, d: Dispatched, k: nat)
    requires k <= |path|
    ensures Replayed(start, path + [d], k) == Replayed(start, path, k)
  {
    assert (path + [d])[..|path|] == path;
    ReplayOfPrefix(start, path + [d], |path|, k);
  }

  // ----- the tracker -----

  datatype Saved = Saved(sequence: nat, taint: set<nat>, finalLoadPC: nat)

  class Tracker {
    var taint: set<nat>
    var finalLoadPC: nat
    var history: seq<Saved>
    ghost var start: Status
    ghost var path: seq<Dispatched>

    /** The tracker is where the surviving instructions alone would have taken it. */
    ghost predicate Valid() reads this {
      && InOrder(path) && |history| == |path|
      && Status(taint, finalLoadPC) == Replayed(start, path, |path|)
      && forall i :: 0 <= i < |path| ==> SavedBefore(start, path, i, history[i])
    }

    constructor ()
      ensures Valid() && path == [] && start == Status({}, 0)
    {
      taint, finalLoadPC, history := {}, 0, [];
      start, path := Status({}, 0), [];
    }

    method Reset()
      modifies this
      ensures Valid() && path == [] && start == Status({}, 0)
    {
      taint, finalLoadPC, history := {}, 0, [];
      start, path := Status({}, 0), [];
    }

    /** Only the destinations of the trigger load are tainted. */
    method Begin(load: Inst)
      modifies this
      ensures Valid() && path == []
      ensures start == Status(SetDests({}, load.dests, |load.dests|, true), 0)
      ensures forall n :: n in start.taint <==> WritesReg(load, n)
    {
      forall n: nat ensures n in SetDests({}, load.dests, |load.dests|, true) <==> WritesReg(load, n) { DestsMean({}, load.dests, |load.dests|, true, n); }
      hide WritesReg;
      Reset();
      for k := 0 to |load.dests|
        invariant taint == SetDests({}, load.dests, k, true) && finalLoadPC == 0 && history == [] && path == []
      {
        taint := SetTainted(taint, load.dests[k], true);
      }
      start := Status(taint, 0);
    }

    method Classify(inst: Inst) returns (o: Observation)
      ensures o == Observation(SourceTainted(taint, inst), DependentLoad(taint, inst))
      ensures (o.tainted <==> ReadsOneOf(inst, taint)) && (o.dependentLoad <==> inst.isLoad && ReadsOneOf(inst, taint))
    {
      SourceTaintedMeans(taint, inst);
      hide ReadsOneOf;
      var tainted := false;
      var k := 0;
      while k < |inst.sources| && !tainted
        invariant 0 <= k <= |inst.sources|
        invariant tainted <==> exists i :: 0 <= i < k && IsTainted(taint, inst.sources[i])
      {
        tainted := IsTainted(taint, inst.sources[k]);
        k := k + 1;
      }
      o := Observation(tainted, inst.isLoad && tainted);
    }

    method Observe(inst: Inst) returns (o: Observation)
      modifies this`taint, this`finalLoadPC
      ensures Status(taint, finalLoadPC) == Observed(old(Status(taint, finalLoadPC)), inst)
      ensures o == Observation(SourceTainted(old(taint), inst), DependentLoad(old(taint), inst))
      ensures o.tainted <==> ReadsOneOf(inst, old(taint))
      ensures forall n :: n in taint <==> if WritesReg(inst, n) then o.tainted else n in old(taint)
      ensures finalLoadPC == if inst.isLoad && o.tainted then inst.pc else old(finalLoadPC)
    {
      forall n: nat ensures n in Observed(Status(taint, finalLoadPC), inst).taint <==> if WritesReg(inst, n) then ReadsOneOf(inst, taint) else n in taint {
        ObservedMeans(Status(taint, finalLoadPC), inst, n);
      }
      hide WritesReg, ReadsOneOf;
      o := Classify(inst);
      if o.dependentLoad {
        finalLoadPC := inst.pc;
      }
      for k := 0 to |inst.dests|
        invariant taint == SetDests(old(taint), inst.dests, k, o.tainted)
        invariant finalLoadPC == if o.dependentLoad then inst.pc else old(finalLoadPC)
      {
        taint := SetTainted(taint, inst.dests[k], o.tainted);
      }
    }

    /** Dispatch, in sequence order. */
    method ObserveSpeculative(inst: Inst, sequence: nat) returns (o: Observation)
      requires Valid() && (path == [] || path[|path| - 1].sequence < sequence)
      modifies this
      ensures Valid() && start == old(start) && path == old(path) + [Dispatched(inst, sequence)]
      ensures o == Observation(SourceTainted(old(taint), inst), DependentLoad(old(taint), inst))
    {
      ghost var d := Dispatched(inst, sequence);
      OrderOfAppend(path, d);
      hide InOrder, Observed, SourceTainted;
      forall k | 0 <= k <= |path| ensures Replayed(start, path + [d], k) == Replayed(start, path, k) {
        ReplayOfAppend(start, path, d, k);
      }
      history := history + [Saved(sequence, taint, finalLoadPC)];
      o := Observe(inst);
      path := path + [d];
    }

    method Undo()
      requires Valid() && |history| > 0
      modifies this
      ensures Valid() && start == old(start) && |history| == old(|history|) - 1 && path == old(path[..|history| - 1])
    {
      var back := history[|history| - 1];
      assert SavedBefore(start, path, |path| - 1, back);
      DropLast(start, path, history);
      hide InOrder, Replayed;
      taint, finalLoadPC := back.taint, back.finalLoadPC;
      history := history[..|history| - 1];
      path := path[..|path| - 1];
    }

    /** A squash leaves exactly the effect of the instructions older than it. */
    method Squash(squash: nat)
      requires Valid()
      modifies this
      ensures Valid() && start == old(start) && path == Survivors(old(path), squash) && AreOlder(old(path), squash, path)
    {
      ghost var all := path;
      hide InOrder, Replayed, Survivors;
      while |history| > 0 && history[|history| - 1].sequence >= squash
        invariant Valid() && start == old(start) && |path| <= |all| && path == all[..|path|]
        invariant forall i :: |path| <= i < |all| ==> all[i].sequence >= squash
        decreases |history|
      {
        ghost var n := |path| - 1;
        assert SavedBefore(start, path, n, history[n]) && all[n] == path[n];
        Undo();
        assert all[..n] == path;
      }
      OlderThan(start, path, history, squash);
      SurvivorsOfPrefix(all, squash, |path|);
    }
  }

  ghost predicate SavedBefore(start: Status, path: seq<Dispatched>, i: nat, s: Saved)
    requires i < |path|
  {
    s.sequence == path[i].sequence && Status(s.taint, s.finalLoadPC) == Replayed(start, path, i)
  }

  lemma OrderOfAppend(path: seq<Dispatched>, d: Dispatched)
    requires InOrder(path) && (path == [] || path[|path| - 1].sequence < d.sequence)
    ensures InOrder(path + [d])
  {
  }

  lemma DropLast(start: Status, path: seq<Dispatched>, history: seq<Saved>)
    requires InOrder(path) && |history| == |path| > 0
    requires forall i :: 0 <= i < |path| ==> SavedBefore(start, path, i, history[i])
    ensures var n := |path| - 1;
            && InOrder(path[..n]) && Replayed(start, path[..n], n) == Replayed(start, path, n)
            && forall i :: 0 <= i < n ==> SavedBefore(start, path[..n], i, history[..n][i])
  {
    var n := |path| - 1;
    forall k | 0 <= k <= n ensures Replayed(start, path[..n], k) == Replayed(start, path, k) {
      ReplayOfPrefix(start, path, n, k);
    }
    forall i | 0 <= i < n ensures SavedBefore(start, path[..n], i, history[..n][i]) {
      assert SavedBefore(start, path, i, history[i]);
    }
  }

  lemma OlderThan(start: Status, path: seq<Dispatched>, history: seq<Saved>, squash: nat)
    requires InOrder(path) && |history| == |path|
    requires forall i :: 0 <= i < |path| ==> SavedBefore(start, path, i, history[i])
    requires |history| == 0 || history[|history| - 1].sequence < squash
    ensures forall i :: 0 <= i < |path| ==> path[i].sequence < squash
  {
    if |path| > 0 { assert SavedBefore(start, path, |path| - 1, history[|path| - 1]); }
  }

  // ----- what taint means -----

  /** An integer register of the architecture: only these have a taint bit. */
  predicate IsIntReg(r: RegId, n: nat) { r.isInt && r.index == n && n < 32 }

  /** The instruction writes integer register `n`. */
  ghost predicate WritesReg(inst: Inst, n: nat) { exists i :: 0 <= i < |inst.dests| && IsIntReg(inst.dests[i], n) }

  /** The instruction reads an integer register with a bit in `t`. */
  ghost predicate ReadsOneOf(inst: Inst, t: set<nat>) {
    exists i, n :: 0 <= i < |inst.sources| && IsIntReg(inst.sources[i], n) && n in t
  }

  /** The last of the first `k` instructions that writes register `n`. */
  ghost predicate IsLastWriter(path: seq<Dispatched>, k: nat, n: nat, j: nat) {
    && j < k <= |path| && WritesReg(path[j].inst, n)
    && forall i :: j < i < k ==> !WritesReg(path[i].inst, n)
  }

  lemma SourceTaintedMeans(t: set<nat>, inst: Inst)
    ensures SourceTainted(t, inst) <==> ReadsOneOf(inst, t)
  {
    if SourceTainted(t, inst) {
      var i :| 0 <= i < |inst.sources| && IsTainted(t, inst.sources[i]);
      assert IsIntReg(inst.sources[i], inst.sources[i].index);
    }
  }

  lemma {:induction false} DestsMean(t: set<nat>, dests: seq<RegId>, k: nat, value: bool, n: nat)
    requires k <= |dests|
    ensures n in SetDests(t, dests, k, value) <==> if exists i :: 0 <= i < k && IsIntReg(dests[i], n) then value else n in t
  {
    if k > 0 { DestsMean(t, dests, k - 1, value, n); }
  }

  lemma ObservedMeans(s: Status, inst: Inst, n: nat)
    ensures n in Observed(s, inst).taint <==> if WritesReg(inst, n) then ReadsOneOf(inst, s.taint) else n in s.taint
    ensures Observed(s, inst).finalLoadPC == if inst.isLoad && ReadsOneOf(inst, s.taint) then inst.pc else s.finalLoadPC
  {
    DestsMean(s.taint, inst.dests, |inst.dests|, SourceTainted(s.taint, inst), n);
    SourceTaintedMeans(s.taint, inst);
  }

  /**
   A register is tainted exactly if the last instruction that wrote it read a tainted one, or if nothing wrote it
   and it was tainted at the start.
   */
  lemma {:induction false} TaintMeans(start: Status, path: seq<Dispatched>, k: nat, n: nat)
    requires k <= |path|
    ensures forall j :: 0 <= j < k && IsLastWriter(path, k, n, j) ==>
              (n in Replayed(start, path, k).taint <==> ReadsOneOf(path[j].inst, Replayed(start, path, j).taint))
    ensures (forall j :: 0 <= j < k ==> !WritesReg(path[j].inst, n)) ==> (n in Replayed(start, path, k).taint <==> n in start.taint)
  {
    if k > 0 {
      TaintMeans(start, path, k - 1, n);
      ObservedMeans(Replayed(start, path, k - 1), path[k - 1].inst, n);
      hide WritesReg, ReadsOneOf, Observed;
      forall j | 0 <= j < k && IsLastWriter(path, k, n, j)
        ensures n in Replayed(start, path, k).taint <==> ReadsOneOf(path[j].inst, Replayed(start, path, j).taint)
      {
        if j < k - 1 { assert IsLastWriter(path, k - 1, n, j) && !WritesReg(path[k - 1].inst, n); }
      }
    }
  }

  /** The final load register holds the PC of the last load that read a tainted register, or what it held at the start. */
  lemma {:induction false} FinalLoadMeans(start: Status, path: seq<Dispatched>, k: nat)
    requires k <= |path|
    ensures forall j :: 0 <= j < k && IsLastDependent(start, path, k, j) ==> Replayed(start, path, k).finalLoadPC == path[j].inst.pc
    ensures (forall j :: 0 <= j < k ==> !Depends(start, path, j)) ==> Replayed(start, path, k).finalLoadPC == start.finalLoadPC
  {
    hide Depends;
    if k > 0 {
      FinalLoadMeans(start, path, k - 1);
      FinalLoadStep(start, path, k);
      hide Replayed;
      if forall j :: 0 <= j < k ==> !Depends(start, path, j) { assert !Depends(start, path, k - 1); }
      forall j | 0 <= j < k && IsLastDependent(start, path, k, j) ensures Replayed(start, path, k).finalLoadPC == path[j].inst.pc {
        if j < k - 1 { assert IsLastDependent(start, path, k - 1, j) && !Depends(start, path, k - 1); }
      }
    }
  }

  lemma FinalLoadStep(start: Status, path: seq<Dispatched>, k: nat)
    requires 1 <= k <= |path|
    ensures Replayed(start, path, k).finalLoadPC == if Depends(start, path, k - 1) then path[k - 1].inst.pc else Replayed(start, path, k - 1).finalLoadPC
  {
    ObservedMeans(Replayed(start, path, k - 1), path[k - 1].inst, 0);
    hide Observed, ReadsOneOf;
  }

  ghost predicate Depends(start: Status, path: seq<Dispatched>, j: nat)
    requires j < |path|
  {
    path[j].inst.isLoad && ReadsOneOf(path[j].inst, Replayed(start, path, j).taint)
  }

  ghost predicate IsLastDependent(start: Status, path: seq<Dispatched>, k: nat, j: nat) {
    j < k <= |path| && Depends(start, path, j) && forall i :: j < i < k ==> !Depends(start, path, i)
  }

  /** In dispatch order the survivors are the instructions before the first one that is not older. */
  ghost predicate AreOlder(all: seq<Dispatched>, squash: nat, rest: seq<Dispatched>) {
    && |rest| <= |all| && rest == all[..|rest|] && (forall i :: 0 <= i < |rest| ==> rest[i].sequence < squash)
    && forall i :: |rest| <= i < |all| ==> all[i].sequence >= squash
  }

  /** The final load register is the last dependent load. */
  lemma {:induction false} FinalLoadIsLast(start: Status, path: seq<Dispatched>, n: nat, i: nat)
    requires i < n <= |path| && DependentLoad(Replayed(start, path, i).taint, path[i].inst)
    requires forall j :: i < j < n ==> !DependentLoad(Replayed(start, path, j).taint, path[j].inst)
    ensures Replayed(start, path, n).finalLoadPC == path[i].inst.pc
  {
    if i < n - 1 { FinalLoadIsLast(start, path, n - 1, i); }
  }

  // ----- what really depends on the trigger load -----

  /** Everything an instruction can read or write. */
  datatype Loc = Reg(reg: RegId) | Cell(address: nat)

  function Regs(rs: seq<RegId>, k: nat): seq<Loc>
    requires k <= |rs|
  {
    if k == 0 then [] else Regs(rs, k - 1) + [Reg(rs[k - 1])]
  }

  function Cells(cs: seq<nat>, k: nat): seq<Loc>
    requires k <= |cs|
  {
    if k == 0 then [] else Cells(cs, k - 1) + [Cell(cs[k - 1])]
  }

  function Reads(inst: Inst): seq<Loc> { Regs(inst.sources, |inst.sources|) + Cells(inst.loads, |inst.loads|) }

  function Writes(inst: Inst): seq<Loc> { Regs(inst.dests, |inst.dests|) + Cells(inst.stores, |inst.stores|) }

  predicate ReadsTainted(full: set<Loc>, inst: Inst) {
    exists i :: 0 <= i < |Reads(inst)| && Reads(inst)[i] in full
  }

  /** Taint of all registers and of memory. */
  function FullStep(full: set<Loc>, inst: Inst): set<Loc> {
    var writes := set l | l in Writes(inst);
    if ReadsTainted(full, inst) then full + writes else full - writes
  }

  function Full(start: set<Loc>, path: seq<Dispatched>, k: nat): set<Loc>
    requires k <= |path|
  {
    if k == 0 then start else FullStep(Full(start, path, k - 1), path[k - 1].inst)
  }

  // ----- executions of the path -----

  type Store = Loc -> int

  /** What instruction number `n` computes for its `k`-th written location from what it reads: anything. */
  type Semantics = (nat, seq<int>, nat) -> int

  function Values(m: Store, ls: seq<Loc>, k: nat): (s: seq<int>)
    requires k <= |ls|
    ensures |s| == k
  {
    if k == 0 then [] else Values(m, ls, k - 1) + [m(ls[k - 1])]
  }

  function Written(sem: Semantics, m: Store, n: nat, ls: seq<Loc>, values: seq<int>, k: nat): Store
    requires k <= |ls|
  {
    if k == 0 then m
    else
      var before := Written(sem, m, n, ls, values, k - 1);
      l => if l == ls[k - 1] then sem(n, values, k - 1) else before(l)
  }

  function Executed(sem: Semantics, m: Store, n: nat, inst: Inst): Store {
    Written(sem, m, n, Writes(inst), Values(m, Reads(inst), |Reads(inst)|), |Writes(inst)|)
  }

  /** The machine after the first `k` instructions. */
  function Machine(sem: Semantics, m: Store, path: seq<Dispatched>, k: nat): Store
    requires k <= |path|
  {
    if k == 0 then m else Executed(sem, Machine(sem, m, path, k - 1), k - 1, path[k - 1].inst)
  }

  /** The two executions differ at most in these locations. */
  ghost predicate Agree(full: set<Loc>, a: Store, b: Store) { forall l :: l !in full ==> a(l) == b(l) }

  // ----- full taint is sound -----

  lemma {:induction false} SameValues(full: set<Loc>, a: Store, b: Store, ls: seq<Loc>, k: nat)
    requires Agree(full, a, b) && k <= |ls| && forall i :: 0 <= i < |ls| ==> ls[i] !in full
    ensures Values(a, ls, k) == Values(b, ls, k)
  {
    if k > 0 { SameValues(full, a, b, ls, k - 1); }
  }

  /** A written location has a value that is written, any other keeps its own. */
  lemma {:induction false} WrittenAt(sem: Semantics, m: Store, n: nat, ls: seq<Loc>, values: seq<int>, k: nat, l: Loc)
    requires k <= |ls|
    ensures l !in ls[..k] ==> Written(sem, m, n, ls, values, k)(l) == m(l)
    ensures l in ls[..k] ==> exists j :: 0 <= j < k && ls[j] == l && Written(sem, m, n, ls, values, k)(l) == sem(n, values, j)
  {
    if k > 0 {
      WrittenAt(sem, m, n, ls, values, k - 1, l);
      assert ls[..k] == ls[..k - 1] + [ls[k - 1]];
    }
  }

  lemma {:induction false} SameWritten(sem: Semantics, a: Store, b: Store, n: nat, ls: seq<Loc>, values: seq<int>, k: nat, l: Loc)
    requires k <= |ls| && (l in ls[..k] || a(l) == b(l))
    ensures Written(sem, a, n, ls, values, k)(l) == Written(sem, b, n, ls, values, k)(l)
  {
    if k > 0 && l != ls[k - 1] {
      assert ls[..k] == ls[..k - 1] + [ls[k - 1]];
      SameWritten(sem, a, b, n, ls, values, k - 1, l);
    }
  }

  lemma StepAgrees(sem: Semantics, full: set<Loc>, a: Store, b: Store, n: nat, inst: Inst)
    requires Agree(full, a, b)
    ensures Agree(FullStep(full, inst), Executed(sem, a, n, inst), Executed(sem, b, n, inst))
  {
    var ins, writes := Reads(inst), Writes(inst);
    var va, vb := Values(a, ins, |ins|), Values(b, ins, |ins|);
    if !ReadsTainted(full, inst) { SameValues(full, a, b, ins, |ins|); }
    assert writes[..|writes|] == writes;
    hide Values, Reads, Writes, ReadsTainted;
    forall l | l !in FullStep(full, inst) ensures Executed(sem, a, n, inst)(l) == Executed(sem, b, n, inst)(l) {
      if l in writes {
        SameWritten(sem, a, b, n, writes, va, |writes|, l);
      } else {
        WrittenAt(sem, a, n, writes, va, |writes|, l);
        WrittenAt(sem, b, n, writes, vb, |writes|, l);
      }
    }
  }

  /** Whatever the instructions compute, locations without full taint do not depend on the trigger load. */
  lemma {:induction false} FullTaintIsSound(sem: Semantics, start: set<Loc>, path: seq<Dispatched>, k: nat, a: Store, b: Store)
    requires k <= |path| && Agree(start, a, b)
    ensures Agree(Full(start, path, k), Machine(sem, a, path, k), Machine(sem, b, path, k))
  {
    if k > 0 {
      FullTaintIsSound(sem, start, path, k - 1, a, b);
      StepAgrees(sem, Full(start, path, k - 1), Machine(sem, a, path, k - 1), Machine(sem, b, path, k - 1), k - 1, path[k - 1].inst);
    }
  }

  // ----- full taint is exact -----

  function Sum(s: seq<int>, k: nat): int
    requires k <= |s|
  {
    if k == 0 then 0 else Sum(s, k - 1) + s[k - 1]
  }

  /** Every instruction adds up what it reads. */
  function Adding(): Semantics { (n, values: seq<int>, k) => Sum(values, |values|) }

  /** Positive exactly on `full`. */
  ghost predicate Marks(m: Store, full: set<Loc>) { forall l :: m(l) >= 0 && (m(l) > 0 <==> l in full) }

  lemma {:induction false} SumMeans(m: Store, full: set<Loc>, ls: seq<Loc>, k: nat)
    requires Marks(m, full) && k <= |ls|
    ensures var s := Sum(Values(m, ls, |ls|), k); s >= 0 && (s > 0 <==> exists i :: 0 <= i < k && ls[i] in full)
  {
    if k > 0 {
      SumMeans(m, full, ls, k - 1);
      ValuesAt(m, ls, |ls|, k - 1);
    }
  }

  lemma {:induction false} ValuesAt(m: Store, ls: seq<Loc>, k: nat, i: nat)
    requires i < k <= |ls|
    ensures Values(m, ls, k)[i] == m(ls[i])
  {
    if i < k - 1 { ValuesAt(m, ls, k - 1, i); }
  }

  lemma StepMarks(m: Store, full: set<Loc>, n: nat, inst: Inst)
    requires Marks(m, full)
    ensures Marks(Executed(Adding(), m, n, inst), FullStep(full, inst))
  {
    var ins, writes := Reads(inst), Writes(inst);
    var values := Values(m, ins, |ins|);
    SumMeans(m, full, ins, |ins|);
    var sum := Sum(values, |values|);
    assert sum > 0 <==> ReadsTainted(full, inst);
    assert writes[..|writes|] == writes;
    hide Values, Reads, Writes, Sum, ReadsTainted;
    forall l ensures Executed(Adding(), m, n, inst)(l) == if l in writes then sum else m(l) {
      WrittenAt(Adding(), m, n, writes, values, |writes|, l);
    }
  }

  lemma PathStep(sem: Semantics, start: set<Loc>, path: seq<Dispatched>, k: nat, m: Store)
    requires k < |path|
    ensures Machine(sem, m, path, k + 1) == Executed(sem, Machine(sem, m, path, k), k, path[k].inst)
    ensures Full(start, path, k + 1) == FullStep(Full(start, path, k), path[k].inst)
  {
  }

  lemma PathStart(sem: Semantics, start: set<Loc>, path: seq<Dispatched>, m: Store)
    ensures Machine(sem, m, path, 0) == m && Full(start, path, 0) == start
  {
  }

  lemma {:induction false} MachineMarks(start: set<Loc>, path: seq<Dispatched>, k: nat, m: Store)
    requires k <= |path| && Marks(m, start)
    ensures Marks(Machine(Adding(), m, path, k), Full(start, path, k))
  {
    hide *;
    if k == 0 {
      PathStart(Adding(), start, path, m);
    } else {
      MachineMarks(start, path, k - 1, m);
      PathStep(Adding(), start, path, k - 1, m);
      StepMarks(Machine(Adding(), m, path, k - 1), Full(start, path, k - 1), k - 1, path[k - 1].inst);
    }
  }

  function Zero(): Store { l => 0 }

  function Mark(start: set<Loc>): Store { l => if l in start then 1 else 0 }

  /** A location with full taint does depend on it: adding instructions tell the two values apart. */
  lemma FullTaintIsExact(start: set<Loc>, path: seq<Dispatched>, k: nat, l: Loc)
    requires k <= |path| && l in Full(start, path, k)
    ensures Agree(start, Zero(), Mark(start))
    ensures Machine(Adding(), Zero(), path, k)(l) != Machine(Adding(), Mark(start), path, k)(l)
  {
    assert Marks(Mark(start), start);
    MachineMarks(start, path, k, Mark(start));
    assert Marks(Zero(), {});
    MachineMarks({}, path, k, Zero());
    NothingTainted(path, k);
  }

  lemma {:induction false} NothingTainted(path: seq<Dispatched>, k: nat)
    requires k <= |path|
    ensures Full({}, path, k) == {}
  {
    if k > 0 { NothingTainted(path, k - 1); }
  }

  // ----- the tracker against it -----

  /** Every tracked register that really depends on the trigger load is tainted. */
  ghost predicate Covers(t: set<nat>, full: set<Loc>) { forall r :: Tracked(r) && Reg(r) in full ==> r.index in t }

  /** Registers without taint have the same value for every value of the trigger load, whatever is computed. */
  ghost predicate Independent(t: set<nat>, start: set<Loc>, path: seq<Dispatched>, k: nat)
    requires k <= |path|
  {
    forall sem: Semantics, a: Store, b: Store, r {:trigger Machine(sem, a, path, k)(Reg(r)), Machine(sem, b, path, k)(Reg(r))} ::
      Agree(start, a, b) && Tracked(r) && r.index !in t ==> Machine(sem, a, path, k)(Reg(r)) == Machine(sem, b, path, k)(Reg(r))
  }

  /**
   Main result, for every path with all its loads and stores: registers without taint are independent
   of the trigger load if and only if the tracker covers the full taint of the path.
   */
  lemma UntaintedIsIndependentIff(s: Status, start: set<Loc>, path: seq<Dispatched>, k: nat)
    requires k <= |path|
    ensures Independent(Replayed(s, path, k).taint, start, path, k) <==> Covers(Replayed(s, path, k).taint, Full(start, path, k))
  {
    var t, full := Replayed(s, path, k).taint, Full(start, path, k);
    if Covers(t, full) {
      forall sem: Semantics, a: Store, b: Store, r | Agree(start, a, b) && Tracked(r) && r.index !in t
        ensures Machine(sem, a, path, k)(Reg(r)) == Machine(sem, b, path, k)(Reg(r))
      {
        FullTaintIsSound(sem, start, path, k, a, b);
      }
    } else {
      var r :| Tracked(r) && Reg(r) in full && r.index !in t;
      FullTaintIsExact(start, path, k, Reg(r));
      assert Machine(Adding(), Zero(), path, k)(Reg(r)) != Machine(Adding(), Mark(start), path, k)(Reg(r));
    }
  }

  /** The start of a discovery: the destinations of the trigger load. */
  ghost predicate Begins(t: set<nat>, start: set<Loc>) {
    && (forall l :: l in start ==> l.Reg?)
    && forall r :: Tracked(r) ==> (r.index in t <==> Reg(r) in start)
  }

  lemma {:induction false} RegsMean(rs: seq<RegId>, k: nat, l: Loc)
    requires k <= |rs|
    ensures |Regs(rs, k)| == k && forall i :: 0 <= i < k ==> Regs(rs, k)[i] == Reg(rs[i])
    ensures l in Regs(rs, k) <==> l.Reg? && l.reg in rs[..k]
  {
    if k > 0 {
      RegsMean(rs, k - 1, l);
      assert rs[..k] == rs[..k - 1] + [rs[k - 1]];
    }
  }

  lemma {:induction false} CellsMean(cs: seq<nat>, k: nat, l: Loc)
    requires k <= |cs|
    ensures |Cells(cs, k)| == k && forall i :: 0 <= i < k ==> Cells(cs, k)[i] == Cell(cs[i])
    ensures l in Cells(cs, k) ==> l.Cell?
  {
    if k > 0 { CellsMean(cs, k - 1, l); }
  }

  lemma {:induction false} SetDestsMeans(t: set<nat>, dests: seq<RegId>, k: nat, value: bool, r: RegId)
    requires k <= |dests| && Tracked(r)
    ensures r.index in SetDests(t, dests, k, value) <==> if r in dests[..k] then value else r.index in t
  {
    if k > 0 {
      SetDestsMeans(t, dests, k - 1, value, r);
      assert dests[..k] == dests[..k - 1] + [dests[k - 1]];
    }
  }

  /** What an instruction writes, among the registers. */
  lemma WritesMean(inst: Inst, r: RegId)
    ensures Reg(r) in Writes(inst) <==> r in inst.dests
  {
    RegsMean(inst.dests, |inst.dests|, Reg(r));
    CellsMean(inst.stores, |inst.stores|, Reg(r));
    assert inst.dests[..|inst.dests|] == inst.dests;
  }

  /** The tracker sees a part of what an instruction reads. */
  lemma SourceIsRead(t: set<nat>, full: set<Loc>, inst: Inst)
    requires SourceTainted(t, inst) && forall r :: Tracked(r) && r.index in t ==> Reg(r) in full
    ensures ReadsTainted(full, inst)
  {
    var i :| 0 <= i < |inst.sources| && IsTainted(t, inst.sources[i]);
    RegsMean(inst.sources, |inst.sources|, Reg(inst.sources[i]));
    assert Reads(inst)[i] == Reg(inst.sources[i]);
  }

  /** What is tainted is fully tainted: the tracker never taints too much. */
  lemma {:induction false} TaintIsPrecise(s: Status, start: set<Loc>, path: seq<Dispatched>, k: nat, r: RegId)
    requires Begins(s.taint, start) && k <= |path| && Tracked(r) && r.index in Replayed(s, path, k).taint
    ensures Reg(r) in Full(start, path, k)
  {
    if k > 0 {
      var t, full, inst := Replayed(s, path, k - 1).taint, Full(start, path, k - 1), path[k - 1].inst;
      forall q | Tracked(q) && q.index in t ensures Reg(q) in full { TaintIsPrecise(s, start, path, k - 1, q); }
      SetDestsMeans(t, inst.dests, |inst.dests|, SourceTainted(t, inst), r);
      assert inst.dests[..|inst.dests|] == inst.dests;
      WritesMean(inst, r);
      if SourceTainted(t, inst) { SourceIsRead(t, full, inst); }
      hide SourceTainted, ReadsTainted, Writes, SetDests;
    }
  }

  /** An instruction through which taint is lost: it reads full taint, but no tainted register. */
  ghost predicate Loses(s: Status, start: set<Loc>, path: seq<Dispatched>, k: nat)
    requires k < |path|
  {
    ReadsTainted(Full(start, path, k), path[k].inst) && !SourceTainted(Replayed(s, path, k).taint, path[k].inst)
  }

  /** Taint goes wrong only at such an instruction. */
  lemma {:induction false} CoversWithoutLoss(s: Status, start: set<Loc>, path: seq<Dispatched>, k: nat)
    requires Begins(s.taint, start) && k <= |path| && forall j :: 0 <= j < k ==> !Loses(s, start, path, j)
    ensures Covers(Replayed(s, path, k).taint, Full(start, path, k))
  {
    if k > 0 {
      CoversWithoutLoss(s, start, path, k - 1);
      assert !Loses(s, start, path, k - 1);
      var t, full, inst := Replayed(s, path, k - 1).taint, Full(start, path, k - 1), path[k - 1].inst;
      assert inst.dests[..|inst.dests|] == inst.dests;
      hide SourceTainted, ReadsTainted, Writes, SetDests;
      forall r | Tracked(r) && Reg(r) in Full(start, path, k) ensures r.index in Replayed(s, path, k).taint {
        SetDestsMeans(t, inst.dests, |inst.dests|, SourceTainted(t, inst), r);
        WritesMean(inst, r);
      }
    }
  }

  /** At the first loss the destinations are missed, if there are any: it does go wrong there. */
  lemma LossMissesDestination(s: Status, start: set<Loc>, path: seq<Dispatched>, k: nat, r: RegId)
    requires k < |path| && Loses(s, start, path, k) && Tracked(r) && r in path[k].inst.dests
    ensures !Covers(Replayed(s, path, k + 1).taint, Full(start, path, k + 1))
  {
    var t, inst := Replayed(s, path, k).taint, path[k].inst;
    assert inst.dests[..|inst.dests|] == inst.dests;
    SetDestsMeans(t, inst.dests, |inst.dests|, SourceTainted(t, inst), r);
    WritesMean(inst, r);
    hide ReadsTainted, SourceTainted, Writes, SetDests;
    assert Reg(r) in Full(start, path, k + 1) && r.index !in Replayed(s, path, k + 1).taint;
  }

  // ----- two ways to lose it -----

  function Plain(source: seq<RegId>, dest: seq<RegId>, loads: seq<nat>, stores: seq<nat>): Inst {
    Inst(0, loads != [], source, dest, loads, stores)
  }

  lemma LosesAfterHiding(one: Inst, two: Inst, hidden: Loc, x5: RegId)
    requires Tracked(x5) && x5.index == 5 && Reg(x5) in Reads(one) && SourceTainted({5}, one)
    requires hidden in Writes(one) && hidden in Reads(two) && !SourceTainted({5}, two) && (forall r :: Tracked(r) ==> Reg(r) !in Writes(one))
    ensures var path := [Dispatched(one, 1), Dispatched(two, 2)];
            Loses(Status({5}, 0), {Reg(x5)}, path, 1)
  {
    var path := [Dispatched(one, 1), Dispatched(two, 2)];
    var s, start := Status({5}, 0), {Reg(x5)};
    var i :| 0 <= i < |Reads(one)| && Reads(one)[i] == Reg(x5);
    assert ReadsTainted(start, one);
    assert Full(start, path, 0) == start && Full(start, path, 1) == FullStep(start, one);
    assert hidden in Full(start, path, 1);
    var j :| 0 <= j < |Reads(two)| && Reads(two)[j] == hidden;
    assert ReadsTainted(Full(start, path, 1), two);
    NoTrackedDest({5}, one, |one.dests|);
    assert Replayed(s, path, 0) == s && Replayed(s, path, 1).taint == {5};
  }

  lemma {:induction false} NoTrackedDest(t: set<nat>, inst: Inst, k: nat)
    requires k <= |inst.dests| && forall r :: Tracked(r) ==> Reg(r) !in Writes(inst)
    ensures SetDests(t, inst.dests, k, true) == t
  {
    if k > 0 {
      NoTrackedDest(t, inst, k - 1);
      WritesMean(inst, inst.dests[k - 1]);
    }
  }

  /** Through a register that is not tracked: a copy to floating point and back. */
  lemma UntrackedRegisterLosesTaint()
    ensures var x5, x6, f0 := RegId(true, 5), RegId(true, 6), RegId(false, 0);
            var path := [Dispatched(Plain([x5], [f0], [], []), 1), Dispatched(Plain([f0], [x6], [], []), 2)];
            !Independent(Replayed(Status({5}, 0), path, 2).taint, {Reg(x5)}, path, 2)
  {
    var x5, x6, f0 := RegId(true, 5), RegId(true, 6), RegId(false, 0);
    var one, two := Plain([x5], [f0], [], []), Plain([f0], [x6], [], []);
    ReadsOf(one, x5);
    ReadsOf(two, f0);
    forall r | Tracked(r) ensures Reg(r) !in Writes(one) { WritesMean(one, r); }
    WritesMean(one, f0);
    assert IsTainted({5}, one.sources[0]);
    LostBySecond(one, two, Reg(f0), x5, x6);
  }

  /** Through memory, with tracked registers only: a store and a load of the same cell. */
  lemma StoreAndLoadLosesTaint(a: nat)
    ensures var x2, x5, x6 := RegId(true, 2), RegId(true, 5), RegId(true, 6);
            var path := [Dispatched(Plain([x5, x2], [], [], [a]), 1), Dispatched(Plain([x2], [x6], [a], []), 2)];
            !Independent(Replayed(Status({5}, 0), path, 2).taint, {Reg(x5)}, path, 2)
  {
    var x2, x5, x6 := RegId(true, 2), RegId(true, 5), RegId(true, 6);
    var one, two := Plain([x5, x2], [], [], [a]), Plain([x2], [x6], [a], []);
    ReadsOf(one, x5);
    CellsMean([a], 1, Cell(a));
    RegsMean([x2], 1, Reg(x2));
    assert Writes(one)[0] == Cell(a) by { assert Regs([], 0) == []; }
    assert Reads(two)[1] == Cell(a);
    forall r | Tracked(r) ensures Reg(r) !in Writes(one) { WritesMean(one, r); }
    assert IsTainted({5}, one.sources[0]);
    LostBySecond(one, two, Cell(a), x5, x6);
  }

  lemma ReadsOf(inst: Inst, r: RegId)
    requires |inst.sources| > 0 && inst.sources[0] == r
    ensures |Reads(inst)| > 0 && Reads(inst)[0] == Reg(r)
  {
    RegsMean(inst.sources, |inst.sources|, Reg(r));
  }

  lemma LostBySecond(one: Inst, two: Inst, hidden: Loc, x5: RegId, x6: RegId)
    requires Tracked(x5) && x5.index == 5 && Reg(x5) in Reads(one) && SourceTainted({5}, one)
    requires hidden in Writes(one) && hidden in Reads(two) && !SourceTainted({5}, two) && (forall r :: Tracked(r) ==> Reg(r) !in Writes(one))
    requires Tracked(x6) && x6 in two.dests
    ensures var path := [Dispatched(one, 1), Dispatched(two, 2)];
            !Independent(Replayed(Status({5}, 0), path, 2).taint, {Reg(x5)}, path, 2)
  {
    var path := [Dispatched(one, 1), Dispatched(two, 2)];
    LosesAfterHiding(one, two, hidden, x5);
    LossMissesDestination(Status({5}, 0), {Reg(x5)}, path, 1, x6);
    UntaintedIsIndependentIff(Status({5}, 0), {Reg(x5)}, path, 2);
  }
}
