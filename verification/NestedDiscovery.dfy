/**
 Nested discovery of src/cpu/o3/dvr_nested.cc: the search for the outer loop and the plan of its
 invocations (`DVRNestedDiscoveryMode`). Addresses and strides are 64-bit numbers; a stride is a
 difference modulo 2^64.
 */
module NestedDiscovery {
  import opened Arithmetic

  function Add(a: word, b: word): word { (a + b) % W }

  function Delta(a: word, b: word): word { (a - b) % W }

  /** `base` advanced `k` times. */
  function Advanced(base: word, stride: word, k: nat): word
  {
    if k == 0 then base else Add(Advanced(base, stride, k - 1), stride)
  }

  /** An arithmetic progression modulo 2^64. */
  ghost predicate Progression(s: seq<word>, stride: word) {
    forall k :: 0 < k < |s| ==> Follows(s, stride, k)
  }

  ghost predicate Follows(s: seq<word>, stride: word, k: nat)
    requires 0 < k < |s|
  {
    Delta(s[k], s[k - 1]) == stride
  }

  lemma DeltaAdd(a: word, b: word, d: word)
    ensures Delta(a, b) == d <==> a == Add(b, d)
  {
  }

  lemma {:induction false} ProgressionMeans(s: seq<word>, stride: word, k: nat)
    requires Progression(s, stride) && k < |s|
    ensures s[k] == Advanced(s[0], stride, k)
  {
    if k > 0 {
      ProgressionMeans(s, stride, k - 1);
      assert Follows(s, stride, k);
      DeltaAdd(s[k], s[k - 1], stride);
    }
  }

  lemma ProgressionAppend(s: seq<word>, stride: word, a: word)
    requires Progression(s, stride) && (s != [] ==> Delta(a, s[|s| - 1]) == stride)
    ensures Progression(s + [a], stride)
  {
    forall k | 0 < k < |s + [a]| ensures Follows(s + [a], stride, k) {
      assert k < |s| ==> Follows(s, stride, k);
    }
  }

  lemma {:induction false} ShiftedAdvance(base: word, start: word, stride: word, k: nat)
    ensures Add(start, Delta(Advanced(base, stride, k), base)) == Advanced(start, stride, k)
  {
    if k > 0 {
      ShiftedAdvance(base, start, stride, k - 1);
      ShiftOne(base, start, stride, Advanced(base, stride, k - 1));
    }
  }

  lemma ShiftOne(base: word, start: word, stride: word, at: word)
    ensures Add(start, Delta(Add(at, stride), base)) == Add(Add(start, Delta(at, base)), stride)
  {
    hide *;
    AddIs(at, stride);
    AddDelta(start, Add(at, stride), base);
    WrapsOnce(at + stride, start - base);
    AddDelta(start, at, base);
    AddIs(Add(start, Delta(at, base)), stride);
    WrapsOnce(start + at - base, stride);
  }

  function Wrapped(x: int): word { x % W }

  lemma AddIs(a: word, b: word)
    ensures Add(a, b) == Wrapped(a + b)
  {
  }

  lemma AddDelta(start: word, at: word, base: word)
    ensures Add(start, Delta(at, base)) == Wrapped(start + at - base)
  {
    WrapAdd(at - base, start);
  }

  lemma WrapsOnce(a: int, b: int)
    ensures Wrapped(Wrapped(a) + b) == Wrapped(a + b)
  {
    WrapAdd(a, b);
  }

  lemma WrapAdd(a: int, b: int)
    ensures (a % W + b) % W == (a + b) % W
  {
    assert a == W * (a / W) + a % W;
    var r, q := a % W + b, a / W;
    assert a + b == r + W * q;
    assert (r + W * q) % W == r % W;
  }

  // ----- the outer-loop plan -----

  datatype Mode = Idle | SeekingOuter | OuterFound | Vectorizing

  datatype Control = Control(valid: bool, branchPC: word, target: word, reconvergencePC: word, fallthroughMask: set<nat>)

  datatype Invocation = Invocation(outerBase: word, innerStart: word, lanes: nat, triggerPC: word, flrPC: word, stride: word, mask: set<nat>, reconvergencePC: word)

  /** `recent` holds the last addresses, latest first; a free probe has PC 0. */
  datatype Probe = Probe(pc: word, stride: word, samples: nat, recent: seq<word>)

  const MaxInvocations := 16

  function NoControl(): Control { Control(false, 0, 0, 0, {}) }

  function NoProbe(): Probe { Probe(0, 0, 0, [0, 0, 0]) }

  function Below(n: nat): set<nat> { if n == 0 then {} else Below(n - 1) + {n - 1} }

  lemma {:induction false} BelowMeans(n: nat)
    ensures forall x: nat :: x in Below(n) <==> x < n
  {
    if n > 0 { BelowMeans(n - 1); }
  }

  ghost predicate ProbeValid(p: Probe) {
    && |p.recent| == 3 && p.samples <= 2
    && (p.pc != 0 ==> p.samples >= 1 && p.recent[0] != 0)
    && (p.pc != 0 && p.samples == 2 ==> p.recent[1] != 0 && p.stride != 0 && Delta(p.recent[0], p.recent[1]) == p.stride)
  }

  // ----- the loads seen by a search -----

  datatype Load = Load(pc: word, address: word)

  /** The PCs of the loads, by their first appearance. */
  function Firsts(h: seq<Load>): seq<word> {
    if h == [] then []
    else
      var before, pc := Firsts(h[..|h| - 1]), h[|h| - 1].pc;
      if pc in before then before else before + [pc]
  }

  /** The addresses of one load, in order. */
  function AddressesOf(h: seq<Load>, pc: word): seq<word> {
    if h == [] then []
    else AddressesOf(h[..|h| - 1], pc) + if h[|h| - 1].pc == pc then [h[|h| - 1].address] else []
  }

  const MaxProbes := 8

  /** The load is one of the first eight, which hold the probes. */
  predicate HoldsProbe(h: seq<Load>, pc: word) { exists i :: 0 <= i < |Firsts(h)| && i < 8 && Firsts(h)[i] == pc }

  /** The last three addresses have two equal differences that are not zero. */
  predicate Strides(a: seq<word>) {
    |a| >= 3 && Delta(a[|a| - 1], a[|a| - 2]) == Delta(a[|a| - 2], a[|a| - 3]) != 0
  }

  /** What a probe has kept of the addresses of its load. */
  ghost predicate ProbeMeans(p: Probe, a: seq<word>) {
    && |p.recent| == 3 && a != [] && p.recent[0] == a[|a| - 1] && (p.samples == 1 || p.samples == 2)
    && (p.samples == 2 <==> |a| >= 2 && Delta(a[|a| - 1], a[|a| - 2]) != 0)
    && (p.samples == 2 ==> p.stride == Delta(a[|a| - 1], a[|a| - 2]) && p.recent[1] == a[|a| - 2])
  }

  /** Probe `i` is held by load number `i`, or free. */
  ghost predicate ProbeHeld(p: Probe, h: seq<Load>, i: nat) {
    if i < |Firsts(h)| then p.pc == Firsts(h)[i] && ProbeMeans(p, AddressesOf(h, p.pc)) else p.pc == 0
  }

  /** The probes show the loads seen. */
  ghost predicate ProbesMean(probes: seq<Probe>, h: seq<Load>) {
    |probes| == MaxProbes && (forall i :: 0 <= i < |probes| ==> ProbeHeld(probes[i], h, i)) && forall k :: 0 <= k < |h| ==> h[k].pc != 0
  }

  lemma OneMore(h: seq<Load>, l: Load)
    ensures Firsts(h + [l]) == if l.pc in Firsts(h) then Firsts(h) else Firsts(h) + [l.pc]
    ensures forall pc :: AddressesOf(h + [l], pc) == AddressesOf(h, pc) + if l.pc == pc then [l.address] else []
  {
    assert (h + [l])[..|h|] == h;
  }

  lemma {:induction false} FirstsMeans(h: seq<Load>, pc: word)
    ensures pc in Firsts(h) <==> AddressesOf(h, pc) != []
    ensures (forall k :: 0 <= k < |h| ==> h[k].pc != 0) ==> 0 !in Firsts(h)
    ensures forall i, j :: 0 <= i < j < |Firsts(h)| ==> Firsts(h)[i] != Firsts(h)[j]
  {
    if h != [] {
      FirstsMeans(h[..|h| - 1], pc);
      assert h[|h| - 1].pc != 0 || exists k :: 0 <= k < |h| && h[k].pc == 0;
    }
  }

  /** The probes in use are the first ones. */
  lemma HeldMeans(probes: seq<Probe>, h: seq<Load>)
    requires ProbesMean(probes, h)
    ensures forall j :: 0 <= j < |probes| ==> (probes[j].pc != 0 <==> j < |Firsts(h)|)
  {
    FirstsMeans(h, 0);
    hide Firsts, AddressesOf, ProbeMeans;
    forall j | 0 <= j < |probes| ensures probes[j].pc != 0 <==> j < |Firsts(h)| { assert ProbeHeld(probes[j], h, j); }
  }

  /** Another address of a load that holds a probe. */
  lemma SampledMeans(p: Probe, a: seq<word>, address: word)
    requires ProbeMeans(p, a)
    ensures ProbeMeans(Sampled(p, address), a + [address])
    ensures Delta(address, p.recent[0]) != 0 && p.samples != 1 && Delta(address, p.recent[0]) == p.stride <==> Strides(a + [address])
  {
    var b := a + [address];
    assert b[|b| - 1] == address && b[|b| - 2] == a[|a| - 1] && (|a| >= 2 ==> b[|b| - 3] == a[|a| - 2]);
    hide Delta;
  }

  lemma SampledProbes(probes: seq<Probe>, h: seq<Load>, i: nat, l: Load)
    requires ProbesMean(probes, h) && i < |probes| && probes[i].pc == l.pc != 0
    ensures |probes[i].recent| == 3 && ProbesMean(probes[i := Sampled(probes[i], l.address)], h + [l]) && HoldsProbe(h, l.pc)
    ensures ProbeMeans(probes[i], AddressesOf(h, l.pc))
  {
    hide *;
    ProbesUnfold(probes, h);
    HeldIs(probes[i], h, i);
    OneMore(h, l);
    FirstsMeans(h, l.pc);
    HeldMeans(probes, h);
    SampledMeans(probes[i], AddressesOf(h, l.pc), l.address);
    var g, next := h + [l], probes[i := Sampled(probes[i], l.address)];
    forall j | 0 <= j < |next| ensures ProbeHeld(next[j], g, j) {
      HeldIs(probes[j], h, j);
      HeldIs(next[j], g, j);
      if j == i {
        SampledPC(probes[i], l.address);
      } else if j < |Firsts(h)| {
        assert Firsts(h)[j] != Firsts(h)[i];
        assert AddressesOf(g, probes[j].pc) == AddressesOf(h, probes[j].pc);
      }
    }
    ProbesFold(next, g);
    HoldsIs(h, l.pc, i);
  }

  lemma SampledPC(p: Probe, address: word)
    requires |p.recent| == 3
    ensures Sampled(p, address).pc == p.pc
  {
    hide Delta;
  }

  lemma HeldIs(p: Probe, h: seq<Load>, i: nat)
    ensures ProbeHeld(p, h, i) <==> if i < |Firsts(h)| then p.pc == Firsts(h)[i] && ProbeMeans(p, AddressesOf(h, p.pc)) else p.pc == 0
    ensures ProbeMeans(p, AddressesOf(h, p.pc)) ==> |p.recent| == 3
  {
    hide Firsts, AddressesOf, Delta;
  }

  lemma HoldsIs(h: seq<Load>, pc: word, i: nat)
    requires i < |Firsts(h)| && i < MaxProbes && Firsts(h)[i] == pc
    ensures HoldsProbe(h, pc)
  {
    hide Firsts;
  }

  lemma ProbesUnfold(probes: seq<Probe>, h: seq<Load>)
    requires ProbesMean(probes, h)
    ensures |probes| == MaxProbes && (forall i :: 0 <= i < |probes| ==> ProbeHeld(probes[i], h, i)) && forall k :: 0 <= k < |h| ==> h[k].pc != 0
  {
    hide ProbeHeld;
  }

  lemma ProbesFold(probes: seq<Probe>, h: seq<Load>)
    requires |probes| == MaxProbes && (forall i :: 0 <= i < |probes| ==> ProbeHeld(probes[i], h, i)) && forall k :: 0 <= k < |h| ==> h[k].pc != 0
    ensures ProbesMean(probes, h)
  {
    hide ProbeHeld;
  }

  /** The first address of a load that gets a free probe. */
  lemma FreeProbe(probes: seq<Probe>, h: seq<Load>, i: nat, l: Load)
    requires ProbesMean(probes, h) && i < |probes| && probes[i].pc == 0 != l.pc
    requires (forall j :: 0 <= j < i ==> probes[j].pc != 0) && forall j :: 0 <= j < |probes| ==> probes[j].pc != l.pc
    ensures ProbesMean(probes[i := Probe(l.pc, 0, 1, [l.address, 0, 0])], h + [l]) && !HoldsProbe(h, l.pc)
  {
    OneMore(h, l);
    FirstsMeans(h, l.pc);
    forall j | 0 <= j < |probes| ensures ProbeHeld(probes[j], h, j) {}
    hide Firsts, AddressesOf, Delta;
    HeldMeans(probes, h);
    if i > 0 { assert probes[i - 1].pc != 0; }
    assert i == |Firsts(h)|;
    forall k | 0 <= k < |Firsts(h)| ensures Firsts(h)[k] != l.pc { assert ProbeHeld(probes[k], h, k); }
    var g, next := h + [l], probes[i := Probe(l.pc, 0, 1, [l.address, 0, 0])];
    forall j | 0 <= j < |next| ensures ProbeHeld(next[j], g, j) { assert ProbeHeld(probes[j], h, j); }
  }

  /** All probes are held by other loads. */
  lemma NoFreeProbe(probes: seq<Probe>, h: seq<Load>, l: Load)
    requires ProbesMean(probes, h) && l.pc != 0 && forall j :: 0 <= j < |probes| ==> probes[j].pc != l.pc && probes[j].pc != 0
    ensures ProbesMean(probes, h + [l]) && !HoldsProbe(h, l.pc)
  {
    OneMore(h, l);
    forall j | 0 <= j < |probes| ensures ProbeHeld(probes[j], h, j) {}
    hide Firsts, AddressesOf, ProbeMeans;
    forall k | 0 <= k < |Firsts(h)| && k < MaxProbes ensures Firsts(h)[k] != l.pc { assert ProbeHeld(probes[k], h, k); }
    forall j | 0 <= j < |probes| ensures ProbeHeld(probes[j], h + [l], j) { assert ProbeHeld(probes[j], h, j); }
  }

  lemma NothingSeen(probes: seq<Probe>, h: seq<Load>)
    requires FreshProbes(probes) && h == [] && |probes| == MaxProbes
    ensures ProbesMean(probes, h)
  {
  }

  // ----- the plan -----

  /** An invocation per base, each the first one moved along with its base. */
  ghost predicate Planned(invocations: seq<Invocation>, bases: seq<word>) {
    && |invocations| == |bases| >= 1
    && forall k :: 0 <= k < |bases| ==> PlannedAt(invocations, bases, k)
  }

  ghost predicate PlannedAt(invocations: seq<Invocation>, bases: seq<word>, k: nat)
    requires k < |bases| == |invocations|
  {
    invocations[k] == invocations[0].(outerBase := bases[k], innerStart := Add(invocations[0].innerStart, Delta(bases[k], bases[0])))
  }

  /** Once ready, invocation `k` starts `k` outer strides behind the first one, in both loops. */
  lemma PlanIsStrided(invocations: seq<Invocation>, bases: seq<word>, stride: word, k: nat)
    requires Planned(invocations, bases) && Progression(bases, stride) && k < |bases|
    ensures invocations[k].outerBase == Advanced(invocations[0].outerBase, stride, k)
    ensures invocations[k].innerStart == Advanced(invocations[0].innerStart, stride, k)
    ensures invocations[k].lanes == invocations[0].lanes && invocations[k].mask == invocations[0].mask
  {
    assert PlannedAt(invocations, bases, k) && PlannedAt(invocations, bases, 0);
    ProgressionMeans(bases, stride, k);
    ShiftedAdvance(bases[0], invocations[0].innerStart, stride, k);
  }

  class DiscoveryMode {
    const laneThreshold: nat
    const searchBudget: nat
    const collectionBudget: nat
    var mode: Mode
    var committed: nat
    var innerLoadPC: word
    var innerLanes: nat
    var outerLoadPC: word
    var outerAddress: word
    var outerStride: word
    var invocations: seq<Invocation>
    var probes: seq<Probe>
    var bases: seq<word>
    var consumed: nat
    var control: Control
    ghost var seen: seq<Load>

    function Budget(): nat reads this { if mode == SeekingOuter then searchBudget else collectionBudget }

    ghost predicate Valid() reads this {
      && 0 < searchBudget <= collectionBudget
      && committed < Budget()
      && (mode != Idle ==> innerLoadPC != 0 && 0 < innerLanes < laneThreshold)
      && (control.valid ==> control.fallthroughMask == Below(if innerLanes < 128 then innerLanes else 128))
      && PlanValid()
    }

    ghost predicate PlanValid() reads this {
      match mode
      case Idle => bases == [] && consumed == 0 && invocations == [] && FreshProbes(probes) && |probes| == MaxProbes
      case SeekingOuter => bases == [] && consumed == 0 && invocations == [] && ProbesValid(probes) && ProbesMean(probes, seen)
      case OuterFound => consumed == 0 && invocations == [] && PlanKnown(bases, outerStride, outerAddress)
      case Vectorizing => Planned(invocations, bases) && consumed == |bases| && PlanKnown(bases, outerStride, outerAddress)
    }

    /** Nothing is known. */
    ghost predicate Cleared() reads this {
      && mode == Idle && committed == 0 && innerLoadPC == 0 && innerLanes == 0 && outerLoadPC == 0 && outerAddress == 0 && outerStride == 0
      && invocations == [] && bases == [] && consumed == 0 && control == Control(false, 0, 0, 0, {}) && seen == []
      && |probes| == 8 && forall i :: 0 <= i < 8 ==> probes[i] == Probe(0, 0, 0, [0, 0, 0])
    }

    constructor (laneThreshold: nat, maxInstructions: nat)
      requires laneThreshold > 0 && maxInstructions > 0
      ensures Valid() && Cleared() && this.laneThreshold == laneThreshold
      ensures searchBudget == (if maxInstructions < 200 then maxInstructions else 200)
      ensures collectionBudget == (if maxInstructions > 200 then maxInstructions else 200) * 16
    {
      this.laneThreshold := laneThreshold;
      searchBudget := if maxInstructions < 200 then maxInstructions else 200;
      collectionBudget := (if maxInstructions > 200 then maxInstructions else 200) * 16;
      mode, committed, innerLoadPC, innerLanes, outerLoadPC, outerAddress, outerStride := Idle, 0, 0, 0, 0, 0, 0;
      invocations, probes, bases, consumed, control, seen := [], seq(MaxProbes, _ => NoProbe()), [], 0, NoControl(), [];
    }

    method Reset()
      requires Valid()
      modifies this
      ensures Valid() && Cleared()
    {
      mode, committed, innerLoadPC, innerLanes, outerLoadPC, outerAddress, outerStride := Idle, 0, 0, 0, 0, 0, 0;
      invocations, probes, bases, consumed, control, seen := [], seq(MaxProbes, _ => NoProbe()), [], 0, NoControl(), [];
    }

    /** An active search is not restarted; a ready plan survives for the next run of the same inner loop. */
    method Start(loadPC: word, lanes: nat) returns (started: bool)
      requires Valid()
      modifies this
      ensures Valid()
      ensures started <==> loadPC != 0 && 0 < lanes < laneThreshold && old(mode) != SeekingOuter && old(mode) != OuterFound
      ensures !started ==> mode == old(mode) && bases == old(bases) && invocations == old(invocations) && seen == old(seen)
      ensures started && old(mode) == Vectorizing && loadPC == old(innerLoadPC) ==>
                mode == Vectorizing && invocations == old(invocations) && bases == old(bases)
      ensures started && (old(mode) == Idle || loadPC != old(innerLoadPC)) ==> mode == SeekingOuter && bases == [] && seen == []
      ensures started ==> innerLoadPC == loadPC && innerLanes == lanes && committed == 0 && control == Control(false, 0, 0, 0, {})
      ensures !started ==> committed == old(committed) && control == old(control) && innerLoadPC == old(innerLoadPC) && innerLanes == old(innerLanes)
    {
      if loadPC == 0 || lanes == 0 || lanes >= laneThreshold {
        return false;
      }
      if mode == Vectorizing {
        if loadPC != innerLoadPC {
          Reset();
        } else {
          committed, innerLanes, control := 0, lanes, NoControl();
          return true;
        }
      }
      if mode != Idle {
        return false;
      }
      Reset();
      NothingSeen(probes, seen);
      mode, innerLoadPC, innerLanes := SeekingOuter, loadPC, lanes;
      return true;
    }

    /** The first inner back edge is inverted; its exit is the reconvergence point. */
    method ObserveInnerBranch(branchPC: word, target: word, fallthrough: word) returns (captured: bool)
      requires Valid()
      modifies this`control
      ensures Valid()
      ensures captured <==> old(mode) != Idle && branchPC > innerLoadPC && target <= innerLoadPC && target < branchPC && !old(control).valid
      ensures captured ==> control == Control(true, branchPC, target, fallthrough, control.fallthroughMask)
      ensures captured ==> forall n: nat :: n in control.fallthroughMask <==> n < innerLanes && n < 128
      ensures !captured ==> control == old(control)
    {
      if mode == Idle || branchPC <= innerLoadPC || target > innerLoadPC || target >= branchPC || control.valid {
        return false;
      }
      var active := if innerLanes < 128 then innerLanes else 128;
      BelowMeans(active);
      var mask: set<nat> := {};
      for lane := 0 to active
        invariant mask == Below(lane)
      {
        mask := mask + {lane};
      }
      control := Control(true, branchPC, target, fallthrough, mask);
      return true;
    }

    /** A striding load outside the inner loop has been found. */
    method AcceptOuter(pc: word, address: word, stride: word) returns (accepted: bool)
      requires Valid()
      modifies this
      ensures Valid() && control == old(control) && innerLoadPC == old(innerLoadPC) && seen == old(seen)
      ensures accepted <==> old(mode) == SeekingOuter && control.valid && pc != 0 && pc != innerLoadPC && stride != 0
      ensures accepted ==> mode == OuterFound && bases == [] && outerLoadPC == pc && outerAddress == address && outerStride == stride && committed == 0
      ensures !accepted ==> mode == old(mode) && bases == old(bases) && invocations == old(invocations)
    {
      if mode != SeekingOuter || !control.valid || pc == 0 || pc == innerLoadPC || stride == 0 {
        return false;
      }
      mode, outerLoadPC, outerAddress, outerStride, committed := OuterFound, pc, address, stride, 0;
      return true;
    }

    /** Another address of the accepted load joins the plan if it continues the stride. */
    method ContinuePlan(pc: word, address: word)
      requires Valid() && mode == OuterFound
      modifies this
      ensures Valid() && mode == OuterFound && invocations == [] && seen == old(seen)
      ensures var next := pc == outerLoadPC && Delta(address, old(outerAddress)) == outerStride;
              && bases == (if next && |old(bases)| < 16 then old(bases) + [address] else old(bases))
              && outerAddress == (if next then address else old(outerAddress)) && committed == (if next then 0 else old(committed))
      ensures outerLoadPC == old(outerLoadPC) && outerStride == old(outerStride) && control == old(control)
    {
      if pc == outerLoadPC && Delta(address, outerAddress) == outerStride {
        ContinuesPlan(bases, outerStride, outerAddress, address);
        hide PlanKnown;
        outerAddress := address;
        if |bases| < MaxInvocations {
          bases := bases + [address];
        }
        committed := 0;
      }
    }

    /** A load that the search looks at. */
    predicate LooksAt(pc: word, address: word)
      reads this
    {
      mode == SeekingOuter && control.valid && pc != 0 && pc != innerLoadPC && address != 0
    }

    /**
     A committed load: it is accepted exactly if it is one of the first eight the search looked at and its last
     three addresses have one stride; those three addresses start the plan.
     */
    method ObserveOuterLoad(pc: word, address: word) returns (accepted: bool)
      requires Valid()
      modifies this
      ensures Valid() && seen == old(seen) + if old(LooksAt(pc, address)) then [Load(pc, address)] else []
      ensures accepted <==> old(LooksAt(pc, address)) && HoldsProbe(old(seen), pc) && Strides(AddressesOf(old(seen), pc) + [address])
      ensures accepted ==> mode == OuterFound && outerLoadPC == pc && outerAddress == address
      ensures accepted ==> var a := AddressesOf(old(seen), pc);
                           |a| >= 2 && bases == [a[|a| - 2], a[|a| - 1], address] && outerStride == Delta(address, a[|a| - 1]) && Progression(bases, outerStride)
      ensures !accepted ==> mode == old(mode) && invocations == old(invocations)
      ensures !accepted && mode != OuterFound ==> bases == old(bases)
    {
      if !control.valid || pc == 0 || pc == innerLoadPC || address == 0 {
        return false;
      }
      if mode == OuterFound {
        ContinuePlan(pc, address);
        return false;
      }
      if mode != SeekingOuter {
        return false;
      }
      accepted := Probing(pc, address);
    }

    /** The load is looked up in the probes, and sampled. */
    method Probing(pc: word, address: word) returns (accepted: bool)
      requires Valid() && LooksAt(pc, address)
      modifies this
      ensures Valid() && seen == old(seen) + [Load(pc, address)]
      ensures accepted <==> HoldsProbe(old(seen), pc) && Strides(AddressesOf(old(seen), pc) + [address])
      ensures accepted ==> mode == OuterFound && outerLoadPC == pc && outerAddress == address
      ensures accepted ==> var a := AddressesOf(old(seen), pc);
                           |a| >= 2 && bases == [a[|a| - 2], a[|a| - 1], address] && outerStride == Delta(address, a[|a| - 1]) && Progression(bases, outerStride)
      ensures !accepted ==> mode == SeekingOuter && invocations == old(invocations) && bases == old(bases)
    {
      hide ProbesMean, HoldsProbe, Strides, AddressesOf, Delta, Progression, PlanKnown, Planned;
      var i := FindProbe(probes, pc);
      ghost var l := Load(pc, address);
      if i == |probes| {
        NoFreeProbe(probes, seen, l);
        seen := seen + [l];
        return false;
      }
      var p := probes[i];
      if p.pc == 0 {
        FreeProbe(probes, seen, i, l);
        NewProbeValid(pc, address);
        hide ProbeValid;
        probes := probes[i := Probe(pc, 0, 1, [address, 0, 0])];
        seen := seen + [l];
        return false;
      }
      assert ProbeValid(p);
      SampledProbes(probes, seen, i, l);
      SampledMeans(p, AddressesOf(seen, pc), address);
      SampledValid(p, address);
      var delta := Delta(address, p.recent[0]);
      var confirmed := delta != 0 && p.samples != 1 && delta == p.stride;
      var q := Sampled(p, address);
      if !confirmed {
        hide ProbeValid;
        probes := probes[i := q];
        seen := seen + [l];
        return false;
      }
      StrideAddresses(p, AddressesOf(seen, pc), address);
      ThreeAddresses(p, address);
      hide ProbeValid, ProbeMeans, Sampled;
      accepted := AcceptOuter(pc, address, p.stride);
      bases := [p.recent[1], p.recent[0], address];
      seen := seen + [l];
    }

    /** The first bounded inner run yields the whole plan, one invocation per base. */
    method RecordOuterInvocation(innerStart: word, lanes: nat, triggerPC: word, flrPC: word, stride: word) returns (recorded: bool)
      requires Valid()
      modifies this
      ensures Valid() && bases == old(bases) && control == old(control)
      ensures recorded <==> old(mode) == OuterFound && bases != [] && innerStart != 0 && lanes != 0 && triggerPC != 0 && flrPC != 0 && control.valid
      ensures !recorded ==> mode == old(mode) && invocations == old(invocations)
      ensures recorded ==> mode == Vectorizing && Planned(invocations, bases)
      ensures recorded ==> invocations[0] == Invocation(bases[0], innerStart, if lanes < 128 then lanes else 128, triggerPC, flrPC, stride,
                                                        control.fallthroughMask, control.reconvergencePC)
    {
      if (mode != OuterFound && mode != Vectorizing) || consumed >= |bases| || innerStart == 0 || lanes == 0 || triggerPC == 0 || flrPC == 0 || !control.valid {
        return false;
      }
      var seed := Invocation(bases[0], innerStart, if lanes < 128 then lanes else 128, triggerPC, flrPC, stride,
                             control.fallthroughMask, control.reconvergencePC);
      var plan := Materialize(seed, bases);
      hide Progression, Planned;
      invocations, consumed, mode, committed := plan, |bases|, Vectorizing, 0;
      return true;
    }

    method FinishVectorization()
      requires Valid()
      modifies this
      ensures Valid() && mode == (if old(mode) == Vectorizing then Idle else old(mode)) && (old(mode) == Vectorizing ==> Cleared())
    {
      if mode == Vectorizing {
        Reset();
      }
    }

    method Fallback()
      requires Valid()
      modifies this
      ensures Valid() && mode == Idle
    {
      if mode != Idle {
        Reset();
      }
    }

    /** One committed instruction: without progress every phase ends within its budget. */
    method ObserveCommit() returns (timedOut: bool)
      requires Valid()
      modifies this
      ensures Valid()
      ensures timedOut <==> old(mode) != Idle && old(committed) + 1 >= if old(mode) == SeekingOuter then searchBudget else collectionBudget
      ensures timedOut ==> Cleared()
      ensures !timedOut && old(mode) != Idle ==> mode == old(mode) && committed == old(committed) + 1 && bases == old(bases) && invocations == old(invocations)
      ensures !timedOut ==> seen == old(seen)
      ensures old(mode) == Idle ==> mode == Idle
    {
      if mode == Idle {
        return false;
      }
      if committed + 1 < Budget() {
        committed := committed + 1;
        return false;
      }
      Reset();
      return true;
    }
  }

  ghost predicate ProbesValid(probes: seq<Probe>) { forall i :: 0 <= i < |probes| ==> ProbeValid(probes[i]) }

  ghost predicate FreshProbes(probes: seq<Probe>) { forall i :: 0 <= i < |probes| ==> probes[i] == NoProbe() }

  /** The bases are an arithmetic progression of the outer stride that ends at the outer address. */
  ghost predicate PlanKnown(bases: seq<word>, stride: word, address: word) {
    && stride != 0 && |bases| <= MaxInvocations && Progression(bases, stride)
    && (0 < |bases| < MaxInvocations ==> bases[|bases| - 1] == address)
  }

  lemma ContinuesPlan(bases: seq<word>, stride: word, address: word, next: word)
    requires PlanKnown(bases, stride, address) && Delta(next, address) == stride
    ensures |bases| < MaxInvocations ==> PlanKnown(bases + [next], stride, next)
    ensures |bases| >= MaxInvocations ==> PlanKnown(bases, stride, next)
  {
    hide Delta;
    if |bases| < MaxInvocations { ProgressionAppend(bases, stride, next); }
  }

  /** The first probe of a load. */
  ghost predicate IsProbeOf(probes: seq<Probe>, i: nat, pc: word)
    requires i < |probes|
  {
    probes[i].pc == pc && forall j :: 0 <= j < i ==> probes[j].pc != pc
  }

  lemma NewProbeValid(pc: word, address: word)
    requires address != 0
    ensures ProbeValid(Probe(pc, 0, 1, [address, 0, 0]))
  {
  }

  /** The addresses behind a confirmed stride. */
  lemma StrideAddresses(p: Probe, a: seq<word>, address: word)
    requires ProbeMeans(p, a) && p.samples != 1 && Delta(address, p.recent[0]) == p.stride
    ensures |a| >= 2 && p.recent[1] == a[|a| - 2] && p.recent[0] == a[|a| - 1] && p.stride == Delta(address, a[|a| - 1])
  {
    hide Delta;
  }

  /** The probe of a PC, or the first free one, or none. */
  method FindProbe(probes: seq<Probe>, pc: word) returns (i: nat)
    requires pc != 0
    ensures i <= |probes| && (i < |probes| ==> probes[i].pc == pc || probes[i].pc == 0)
    ensures i < |probes| && probes[i].pc == pc ==> IsProbeOf(probes, i, pc)
    ensures i < |probes| && probes[i].pc != pc ==> forall j :: 0 <= j < |probes| ==> probes[j].pc != pc
    ensures i < |probes| && probes[i].pc != pc ==> forall j :: 0 <= j < i ==> probes[j].pc != 0
    ensures i == |probes| ==> forall j :: 0 <= j < |probes| ==> probes[j].pc != pc && probes[j].pc != 0
  {
    i := |probes|;
    for k := 0 to |probes|
      invariant i < k || i == |probes|
      invariant i < |probes| ==> probes[i].pc == 0 && forall j :: 0 <= j < i ==> probes[j].pc != 0
      invariant i == |probes| ==> forall j :: 0 <= j < k ==> probes[j].pc != 0
      invariant forall j :: 0 <= j < k ==> probes[j].pc != pc
    {
      if probes[k].pc == pc {
        return k;
      }
      if probes[k].pc == 0 && i == |probes| {
        i := k;
      }
    }
  }

  /** A probe after another address that does not confirm its stride. */
  function Sampled(p: Probe, address: word): Probe
    requires |p.recent| == 3
  {
    var delta := Delta(address, p.recent[0]);
    var recent := [address, p.recent[0], p.recent[1]];
    if delta == 0 then Probe(p.pc, 0, 1, recent) else Probe(p.pc, delta, 2, recent)
  }

  lemma SampledValid(p: Probe, address: word)
    requires ProbeValid(p) && p.pc != 0 && address != 0
    ensures ProbeValid(Sampled(p, address))
  {
    hide Delta;
  }

  lemma ThreeAddresses(p: Probe, address: word)
    requires ProbeValid(p) && p.pc != 0 && p.samples != 1 && Delta(address, p.recent[0]) == p.stride
    ensures var s := [p.recent[1], p.recent[0], address];
            Progression(s, p.stride) && PlanKnown(s, p.stride, address)
  {
    var s := [p.recent[1], p.recent[0], address];
    hide Delta;
    assert Follows(s, p.stride, 1) && Follows(s, p.stride, 2);
  }

  /** The first invocation, moved to the base of each other one. */
  method Materialize(seed: Invocation, bases: seq<word>) returns (plan: seq<Invocation>)
    requires bases != [] && seed.outerBase == bases[0]
    ensures Planned(plan, bases) && plan[0] == seed
  {
    plan := [seed];
    assert Add(seed.innerStart, Delta(bases[0], bases[0])) == seed.innerStart;
    hide Add, Delta;
    while |plan| < |bases|
      invariant 1 <= |plan| <= |bases| && plan[0] == seed
      invariant forall k :: 0 <= k < |plan| ==>
        plan[k] == seed.(outerBase := bases[k], innerStart := Add(seed.innerStart, Delta(bases[k], bases[0])))
      decreases |bases| - |plan|
    {
      var base := bases[|plan|];
      plan := plan + [seed.(outerBase := base, innerStart := Add(seed.innerStart, Delta(base, seed.outerBase)))];
    }
  }
}
