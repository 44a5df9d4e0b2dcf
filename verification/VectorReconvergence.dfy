/**
 The reconvergence policy of src/cpu/o3/pre.cc (`setReconvergencePC`) and exactly when it is safe for a
 slice that branches on loaded values at its entry: for every meaning of the operations, lanes and
 responses the group executor is right if and only if no side of the branch writes a register after it has
 met the start of the other and before the reconvergence PC.
 */
module VectorReconvergence {
  import opened Wrappers
  import opened VectorExecutor
  import opened VectorRefinement
  import opened VectorPrograms
  import opened VectorShapes
  import opened VectorMeeting
  import opened VectorSharing
  import opened VectorRewound

  // ----- the policy -----

  /** The last capture of the final load among the first `n`, or -1. */
  function FlrIndex(uops: seq<Uop>, flr: nat, n: nat): (k: int)
    requires n <= |uops|
    ensures -1 <= k < n
    ensures k >= 0 ==> uops[k].load && uops[k].pc == flr
    ensures forall j :: k < j < n ==> !(uops[j].load && uops[j].pc == flr)
  {
    if n == 0 then -1 else if uops[n - 1].load && uops[n - 1].pc == flr then n - 1 else FlrIndex(uops, flr, n - 1)
  }

  /** The first capture of the loop branch from `from` on, or the end. */
  function LcrIndex(uops: seq<Uop>, loopBranch: nat, from: nat): (k: nat)
    requires from <= |uops|
    ensures from <= k <= |uops|
    decreases |uops| - from
  {
    if from == |uops| || (loopBranch != 0 && uops[from].conditional && uops[from].pc == loopBranch) then from
    else LcrIndex(uops, loopBranch, from + 1)
  }

  function NewReconvergence(op: Uop, k: nat, flr: nat, loopBranch: nat, flrIndex: int, lcrIndex: nat): Uop {
    if !op.conditional then op
    else if k <= flrIndex then op.(reconvergence := flr)
    else if k < lcrIndex && loopBranch != 0 then op.(reconvergence := loopBranch)
    else op
  }

  /** The captured operations after the policy: an unknown final load changes nothing. */
  function Reconverged(uops: seq<Uop>, flr: nat, loopBranch: nat): (r: seq<Uop>)
    ensures |r| == |uops|
  {
    var flrIndex := FlrIndex(uops, flr, |uops|);
    if flr == 0 || flrIndex < 0 then uops
    else
      var lcrIndex := LcrIndex(uops, loopBranch, flrIndex + 1);
      seq(|uops|, k requires 0 <= k < |uops| => NewReconvergence(uops[k], k, flr, loopBranch, flrIndex, lcrIndex))
  }

  method SetReconvergencePC(uops: seq<Uop>, flr: nat, loopBranch: nat) returns (r: seq<Uop>)
    ensures r == Reconverged(uops, flr, loopBranch) && IsPolicy(uops, flr, loopBranch, r)
  {
    PolicyMeans(uops, flr, loopBranch);
    hide IsPolicy;
    r := uops;
    if flr == 0 {
      return;
    }
    var flrIndex := -1;
    for k := 0 to |uops|
      invariant flrIndex == FlrIndex(uops, flr, k)
    {
      if uops[k].load && uops[k].pc == flr {
        flrIndex := k;
      }
    }
    if flrIndex < 0 {
      return;
    }
    var lcrIndex := |uops|;
    if loopBranch != 0 {
      lcrIndex := flrIndex + 1;
      while lcrIndex < |uops| && !(uops[lcrIndex].conditional && uops[lcrIndex].pc == loopBranch)
        invariant flrIndex + 1 <= lcrIndex <= |uops| && LcrIndex(uops, loopBranch, flrIndex + 1) == LcrIndex(uops, loopBranch, lcrIndex)
      {
        lcrIndex := lcrIndex + 1;
      }
    } else {
      NoLoopBranch(uops, flrIndex + 1);
    }
    for k := 0 to |uops|
      invariant |r| == |uops|
      invariant forall j :: 0 <= j < |uops| ==> r[j] == if j < k then NewReconvergence(uops[j], j, flr, loopBranch, flrIndex, lcrIndex) else uops[j]
    {
      r := r[k := NewReconvergence(r[k], k, flr, loopBranch, flrIndex, lcrIndex)];
    }
  }

  // ----- what the policy means -----

  /** A capture of the final load. */
  predicate IsFinalLoad(op: Uop, flr: nat) { op.load && op.pc == flr }

  /** A capture of the loop branch. */
  predicate IsLoopBranch(op: Uop, loopBranch: nat) { op.conditional && op.pc == loopBranch }

  /** Entry `j` is the last capture of the final load. */
  ghost predicate IsLastFinalLoad(uops: seq<Uop>, flr: nat, j: nat) {
    j < |uops| && IsFinalLoad(uops[j], flr) && forall i :: j < i < |uops| ==> !IsFinalLoad(uops[i], flr)
  }

  /** Entry `k` is a branch with a capture of the final load at or behind it. */
  ghost predicate UpToFinalLoad(uops: seq<Uop>, flr: nat, k: nat)
    requires k < |uops|
  {
    uops[k].conditional && exists j :: k <= j < |uops| && IsFinalLoad(uops[j], flr)
  }

  /** Entry `k` is a branch behind all captures of the final load, and no loop branch comes between, itself included. */
  ghost predicate UpToLoopBranch(uops: seq<Uop>, flr: nat, loopBranch: nat, k: nat)
    requires k < |uops|
  {
    && uops[k].conditional && loopBranch != 0
    && exists j :: 0 <= j < k && IsLastFinalLoad(uops, flr, j) && forall i :: j < i <= k ==> !IsLoopBranch(uops[i], loopBranch)
  }

  /** The policy, said about the captures alone. */
  ghost predicate IsPolicy(uops: seq<Uop>, flr: nat, loopBranch: nat, r: seq<Uop>) {
    |r| == |uops| && forall k :: 0 <= k < |uops| ==> FollowsPolicy(uops, flr, loopBranch, r[k], k)
  }

  ghost predicate FollowsPolicy(uops: seq<Uop>, flr: nat, loopBranch: nat, op: Uop, k: nat)
    requires k < |uops|
  {
    && op == uops[k].(reconvergence := op.reconvergence)
    && (flr != 0 && UpToFinalLoad(uops, flr, k) ==> op.reconvergence == flr)
    && (flr != 0 && UpToLoopBranch(uops, flr, loopBranch, k) ==> op.reconvergence == loopBranch)
    && (flr == 0 || !(UpToFinalLoad(uops, flr, k) || UpToLoopBranch(uops, flr, loopBranch, k)) ==> op.reconvergence == uops[k].reconvergence)
  }

  lemma {:induction false} LcrMeans(uops: seq<Uop>, loopBranch: nat, from: nat, k: nat)
    requires from <= k < |uops| && loopBranch != 0
    ensures k < LcrIndex(uops, loopBranch, from) <==> forall i :: from <= i <= k ==> !IsLoopBranch(uops[i], loopBranch)
    decreases |uops| - from
  {
    if !IsLoopBranch(uops[from], loopBranch) && from < k { LcrMeans(uops, loopBranch, from + 1, k); }
  }

  lemma PolicyAt(uops: seq<Uop>, flr: nat, loopBranch: nat, k: nat)
    requires k < |uops|
    ensures FollowsPolicy(uops, flr, loopBranch, Reconverged(uops, flr, loopBranch)[k], k)
  {
    var last := FlrIndex(uops, flr, |uops|);
    if last >= 0 {
      assert IsLastFinalLoad(uops, flr, last) && forall j :: IsLastFinalLoad(uops, flr, j) ==> j == last;
      if last < k && loopBranch != 0 { LcrMeans(uops, loopBranch, last + 1, k); }
    } else {
      assert forall j :: 0 <= j < |uops| ==> !IsFinalLoad(uops[j], flr);
    }
    hide FlrIndex, LcrIndex;
  }

  /** The policy is the one described: it depends on where the final load and the loop branch were captured, and on nothing else. */
  lemma PolicyMeans(uops: seq<Uop>, flr: nat, loopBranch: nat)
    ensures IsPolicy(uops, flr, loopBranch, Reconverged(uops, flr, loopBranch))
  {
    hide FollowsPolicy, Reconverged;
    forall k | 0 <= k < |uops| ensures FollowsPolicy(uops, flr, loopBranch, Reconverged(uops, flr, loopBranch)[k], k) {
      PolicyAt(uops, flr, loopBranch, k);
    }
  }

  lemma {:induction false} NoLoopBranch(uops: seq<Uop>, from: nat)
    requires from <= |uops|
    ensures LcrIndex(uops, 0, from) == |uops|
    decreases |uops| - from
  {
    if from < |uops| { NoLoopBranch(uops, from + 1); }
  }

  /** A branch at or before the final load reconverges at the final load. */
  lemma EntryReconvergesAtFlr(uops: seq<Uop>, flr: nat, loopBranch: nat, k: nat)
    requires flr != 0 && 1 < |uops| && uops[1].conditional && 1 <= k < |uops| && uops[k].load && uops[k].pc == flr
    ensures VectorExecutor.Reconvergence(Reconverged(uops, flr, loopBranch)[1]) == flr
  {
  }

  // ----- what does not depend on meaning or policy -----

  function Bare(op: Uop): Uop { op.(semantic := Unsupported, reconvergence := 0) }

  /** The same operations up to what they compute and where they reconverge. */
  ghost predicate SameFlow(p: Program, q: Program) {
    && |p.uops| == |q.uops| && p.stopIndex == q.stopIndex && p.pastFlr == q.pastFlr
    && forall k :: 0 <= k < |p.uops| ==> Bare(p.uops[k]) == Bare(q.uops[k])
  }

  /** The same operations up to what they compute. */
  ghost predicate SameShape(p: Program, q: Program) {
    SameFlow(p, q) && forall k :: 0 <= k < |p.uops| ==> p.uops[k].reconvergence == q.uops[k].reconvergence
  }

  lemma FlowOf(p: Program, q: Program, k: nat)
    requires SameFlow(p, q) && k < |p.uops|
    ensures p.uops[k].pc == q.uops[k].pc && p.uops[k].conditional == q.uops[k].conditional && p.uops[k].control == q.uops[k].control
    ensures p.uops[k].tainted == q.uops[k].tainted && p.uops[k].target == q.uops[k].target && p.uops[k].writes == q.uops[k].writes
    ensures p.uops[k].source0 == q.uops[k].source0 && p.uops[k].destination == q.uops[k].destination
    ensures NextPC(p, k) == NextPC(q, k) && Hop(p, k) == Hop(q, k) && forall taken :: BranchPC(p, k, taken) == BranchPC(q, k, taken)
    ensures GoesOn(p, k) == GoesOn(q, k)
  {
    assert Bare(p.uops[k]) == Bare(q.uops[k]) && Bare(p.uops[0]) == Bare(q.uops[0]);
    if k + 1 < |p.uops| { assert Bare(p.uops[k + 1]) == Bare(q.uops[k + 1]); }
  }

  lemma {:induction false} SameFind(p: Program, q: Program, pc: nat, lo: nat, hi: nat)
    requires SameFlow(p, q) && hi <= |p.uops|
    ensures Find(p, pc, lo, hi) == Find(q, pc, lo, hi)
    decreases hi - lo
  {
    if lo < hi {
      assert Bare(p.uops[lo]) == Bare(q.uops[lo]);
      SameFind(p, q, pc, lo + 1, hi);
    }
  }

  lemma {:induction false} SamePath(p: Program, q: Program, from: nat, n: nat)
    requires SameFlow(p, q)
    ensures Path(p, from, n) == Path(q, from, n)
  {
    if n > 0 {
      SamePath(p, q, from, n - 1);
      var pc := Path(p, from, n - 1);
      SameFind(p, q, pc, 1, |p.uops|);
      var k := Find(p, pc, 1, |p.uops|);
      if k >= 0 { FlowOf(p, q, k); }
      hide SameFlow, Hop;
    }
  }

  lemma SameInside(p: Program, q: Program, pc: nat, least: nat)
    requires SameFlow(p, q) && |p.uops| > 1
    ensures Inside(p, pc, least) == Inside(q, pc, least)
  {
    SameFind(p, q, pc, 1, |p.uops|);
    FlowOf(p, q, 0);
  }

  lemma SameStraight(p: Program, q: Program, k: nat)
    requires SameFlow(p, q) && |p.uops| > 1 && 1 <= k < |p.uops|
    ensures Straight(p, k, 2) == Straight(q, k, 2) && LiveAt(p, p.uops[k].pc) == LiveAt(q, p.uops[k].pc)
  {
    FlowOf(p, q, k);
    SameInside(p, q, Hop(p, k), 2);
    SameFind(p, q, p.uops[k].pc, 1, |p.uops|);
    FlowOf(p, q, Find(p, p.uops[k].pc, 1, |p.uops|));
    if k + 1 < |p.uops| {
      FlowOf(p, q, k + 1);
      SameFind(p, q, p.uops[k + 1].pc, 1, |p.uops|);
    }
    hide SameFlow, Inside, Hop, GoesOn;
  }

  lemma SameLiveAt(p: Program, q: Program, pc: nat)
    requires SameFlow(p, q)
    ensures LiveAt(p, pc) == LiveAt(q, pc)
  {
    SameFind(p, q, pc, 1, |p.uops|);
    var k := Find(p, pc, 1, |p.uops|);
    if k >= 0 { FlowOf(p, q, k); }
  }

  lemma SameDiamondShape(p: Program, q: Program)
    requires SameFlow(p, q)
    ensures DiamondShape(p) == DiamondShape(q) && Distinct(p) == Distinct(q) && SidesExist(p) == SidesExist(q)
  {
    if |p.uops| > 1 {
      FlowOf(p, q, 0);
      FlowOf(p, q, 1);
      SameInside(p, q, BranchPC(p, 1, true), 2);
      SameInside(p, q, BranchPC(p, 1, false), 2);
    }
    forall k | 2 <= k < |p.uops| ensures Straight(p, k, 2) == Straight(q, k, 2) { SameStraight(p, q, k); }
    forall k | 0 <= k < |p.uops| ensures p.uops[k].pc == q.uops[k].pc { FlowOf(p, q, k); }
    hide SameFlow, Straight, Inside;
  }

  lemma SameForward(p: Program, q: Program)
    requires SameFlow(p, q) && Forward(p)
    ensures Forward(q)
  {
    forall k | 2 <= k < |q.uops| ensures Find(q, Hop(q, k), 1, |q.uops|) < 0 || Find(q, Hop(q, k), 1, |q.uops|) > k {
      FlowOf(p, q, k);
      SameFind(p, q, Hop(p, k), 1, |p.uops|);
    }
  }

  lemma SameLive(p: Program, q: Program, from: nat, n: nat)
    requires SameFlow(p, q) && Live(p, from, n)
    ensures Live(q, from, n)
  {
    forall m | 0 <= m < n ensures LiveAt(q, Path(q, from, m)) {
      assert LiveAt(p, Path(p, from, m));
      SamePath(p, q, from, m);
      SameLiveAt(p, q, Path(p, from, m));
    }
  }

  /** Separation is a matter of the flow and the reconvergence PC. */
  lemma SameApart(p: Program, q: Program, reconvergence: nat)
    requires SameFlow(p, q) && |p.uops| > 1 && SidesApart(p, reconvergence)
    ensures SidesApart(q, reconvergence)
  {
    FlowOf(p, q, 1);
    forall from, n: nat ensures Path(p, from, n) == Path(q, from, n) { SamePath(p, q, from, n); }
    hide Path, SameFlow, BranchPC;
    assert forall from, other :: Apart(p, from, reconvergence, other) ==> Apart(q, from, reconvergence, other);
  }

  // ----- operations that mark, for any flow -----

  /** The entry branch tests register `d`. */
  ghost predicate Tests(p: Program, d: nat) { |p.uops| > 1 && d < 32 && p.uops[1].tainted && p.uops[1].source0 == d }

  function Meaning(k: nat): Semantic {
    if k == 1 then Branch((a: int, b: int) => a != 0) else Compute((a: int, b: int) => Some(Mark))
  }

  function WithMarks(p: Program): Program {
    p.(uops := seq(|p.uops|, k requires 0 <= k < |p.uops| => p.uops[k].(semantic := Meaning(k))))
  }

  lemma MarkingShape(p: Program, d: nat)
    requires Tests(p, d)
    ensures SameShape(p, WithMarks(p)) && Marking(WithMarks(p), d)
  {
    var q := WithMarks(p);
    assert q.uops[1].semantic == Meaning(1);
    forall k | 2 <= k < |q.uops| ensures Marks(q.uops[k]) && HasResults(q.uops[k]) {
      assert q.uops[k].semantic == Meaning(k);
    }
  }

  // ----- safety for every meaning -----

  /** Every lane ends in a state of its own. */
  ghost predicate RightFor(q: Program, s: State, rs: seq<Response>, destination: int, budget: nat) {
    AtEntry(q, s) && Full(s) && Expected(s, rs) && budget > 0 ==> AllOwn(q, s, rs, destination, Serve(q, s, rs, destination, budget))
  }

  /** Whatever the operations compute, for all lanes, responses and budgets. */
  ghost predicate AlwaysRight(p: Program) {
    forall q, s, rs, destination, budget :: SameShape(p, q) ==> RightFor(q, s, rs, destination, budget)
  }

  lemma SameWrites(p: Program, q: Program, k: nat)
    requires SameFlow(p, q) && k < |p.uops|
    ensures |p.uops| == |q.uops| && Writes(p.uops[k]) == Writes(q.uops[k])
  {
    FlowOf(p, q, k);
  }

  lemma SameWritesAt(p: Program, q: Program, pc: nat)
    requires SameFlow(p, q)
    ensures WritesAt(p, pc) == WritesAt(q, pc)
  {
    SameFind(p, q, pc, 1, |p.uops|);
    var k := Find(p, pc, 1, |p.uops|);
    if k >= 0 { SameWrites(p, q, k); }
    hide Writes, SameFlow;
  }

  lemma SameQuiet(p: Program, q: Program, reconvergence: nat)
    requires SameFlow(p, q) && |p.uops| > 1 && SharesQuietly(p, reconvergence)
    ensures SharesQuietly(q, reconvergence)
  {
    FlowOf(p, q, 1);
    forall from, n: nat ensures Path(p, from, n) == Path(q, from, n) { SamePath(p, q, from, n); }
    forall pc: nat ensures WritesAt(p, pc) == WritesAt(q, pc) { SameWritesAt(p, q, pc); }
    hide Path, SameFlow, BranchPC, WritesAt;
    forall taken, m: nat, n: nat | Shares(q, taken, m, n, reconvergence) ensures !WritesAt(q, Path(q, BranchPC(q, 1, taken), n)) {
      assert Shares(p, taken, m, n, reconvergence);
    }
  }

  lemma SameReconvergence(p: Program, q: Program)
    requires SameShape(p, q) && |p.uops| > 1
    ensures VectorExecutor.Reconvergence(p.uops[1]) == VectorExecutor.Reconvergence(q.uops[1])
  {
    FlowOf(p, q, 1);
    assert Bare(p.uops[1]) == Bare(q.uops[1]);
  }

  /** One half: where nothing that the sides share writes a register, every meaning gives lane-wise results. */
  lemma QuietIsAlwaysRight(p: Program)
    requires QuietDiamond(p)
    ensures AlwaysRight(p)
  {
    hide *;
    forall q, s, rs, destination, budget | SameShape(p, q) ensures RightFor(q, s, rs, destination, budget) {
      SameQuietDiamond(p, q);
      QuietIsRightFor(q, s, rs, destination, budget);
    }
    AlwaysRightIs(p);
  }

  lemma AlwaysRightIs(p: Program)
    requires forall q, s, rs, destination, budget :: SameShape(p, q) ==> RightFor(q, s, rs, destination, budget)
    ensures AlwaysRight(p)
  {
    hide RightFor, SameShape;
  }

  lemma SameQuietDiamond(p: Program, q: Program)
    requires QuietDiamond(p) && SameShape(p, q)
    ensures QuietDiamond(q)
  {
    QuietDiamondMeans(p);
    ShapeIsFlow(p, q);
    SameDiamondShape(p, q);
    SameReconvergence(p, q);
    SameQuiet(p, q, VectorExecutor.Reconvergence(p.uops[1]));
    hide DiamondShape, SidesExist, Distinct, SharesQuietly, SameShape, SameFlow;
  }

  lemma QuietIsRightFor(q: Program, s: State, rs: seq<Response>, destination: int, budget: nat)
    requires QuietDiamond(q)
    ensures RightFor(q, s, rs, destination, budget)
  {
    hide QuietDiamond, Serve, AllOwn;
    if AtEntry(q, s) && Full(s) && Expected(s, rs) && budget > 0 {
      forall i | 0 <= i < |s.lanes| ensures Before(q, s.lanes[i]) {}
      QuietIsRight(q, s, rs, destination, budget);
    }
  }

  /** In particular where they stay apart. */
  lemma ApartIsRight(p: Program)
    requires DiamondShape(p) && SidesExist(p) && Distinct(p) && SidesApart(p, VectorExecutor.Reconvergence(p.uops[1]))
    ensures AlwaysRight(p)
  {
    var r := VectorExecutor.Reconvergence(p.uops[1]);
    hide DiamondShape, SidesExist, Distinct, Path, WritesAt, AlwaysRight, Shares, SidesApart;
    forall taken, m: nat, n: nat ensures !Shares(p, taken, m, n, r) { ApartSharesNothing(p, r, taken, m, n); }
    QuietIsAlwaysRight(p);
  }

  lemma ApartSharesNothing(p: Program, reconvergence: nat, taken: bool, m: nat, n: nat)
    requires |p.uops| > 1 && SidesApart(p, reconvergence)
    ensures !Shares(p, taken, m, n, reconvergence)
  {
    assert Apart(p, BranchPC(p, 1, taken), reconvergence, BranchPC(p, 1, !taken));
    hide Path, BranchPC;
  }

  /** A side meets the start of the other, and a write follows: then some meaning, two lanes and two responses are enough. */
  lemma MeetingIsWrong(p: Program, d: nat, star: nat, taken: bool, n: nat, end: nat, last: nat)
    requires DiamondShape(p) && SidesExist(p) && Distinct(p) && Forward(p) && Tests(p, d)
    requires Meets(p, taken, n) && Reconverges(p, taken, end, last, star) && 1 <= star < |p.uops| && Writes(p.uops[star])
    ensures !AlwaysRight(p)
  {
    hide *;
    var q := WithMarks(p);
    MarkingShape(p, d);
    ShapeIsFlow(p, q);
    SameDiamondShape(p, q);
    SameForward(p, q);
    SameMeeting(p, q, taken, n, end, last, star);
    SameWrites(p, q, star);
    var rs := [Response(0, LaneValue(taken)), Response(1, LaneValue(!taken))];
    BothExpected(q, rs, taken);
    MeetingShows(q, d, star, taken, n, end, last, 0);
    forall k: nat
      ensures Serve(q, TwoLanes(q), rs, d, n + end + 2).lanes[1].core != ScalarSteps(q, SecondCore(q, d, taken), k)
    {
      MeetingShows(q, d, star, taken, n, end, last, k);
    }
    NotRight(p, q, TwoLanes(q), rs, d, n + end + 2, SecondCore(q, d, taken));
  }

  lemma NotRight(p: Program, q: Program, s: State, rs: seq<Response>, d: nat, budget: nat, c: Core)
    requires SameShape(p, q) && AtEntry(q, s) && Full(s) && Expected(s, rs) && budget > 0 && |s.lanes| == 2 && Valid(q, s)
    requires c == StartOf(s.lanes[1], rs, 1, d).core && Serve(q, s, rs, d, budget).lanes[1].core.active
    requires forall k: nat :: Serve(q, s, rs, d, budget).lanes[1].core != ScalarSteps(q, c, k)
    ensures !AlwaysRight(p)
  {
    hide Serve, ScalarSteps, SameShape, AtEntry, Expected, Full;
    assert !OwnState(q, c, Serve(q, s, rs, d, budget).lanes[1].core);
    assert !AllOwn(q, s, rs, d, Serve(q, s, rs, d, budget));
    assert !RightFor(q, s, rs, d, budget);
  }

  lemma ShapeIsFlow(p: Program, q: Program)
    requires SameShape(p, q)
    ensures SameFlow(p, q) && |p.uops| == |q.uops|
  {
  }

  lemma BothExpected(q: Program, rs: seq<Response>, taken: bool)
    requires |q.uops| > 1 && rs == [Response(0, LaneValue(taken)), Response(1, LaneValue(!taken))]
    ensures AtEntry(q, TwoLanes(q)) && Full(TwoLanes(q)) && Expected(TwoLanes(q), rs) && |TwoLanes(q).lanes| == 2
    ensures forall d: nat :: StartOf(TwoLanes(q).lanes[1], rs, 1, d).core == SecondCore(q, d, taken)
  {
    assert rs[1..][0].lane == 1;
    assert ValueFor(rs, 1) == Some(LaneValue(!taken));
  }

  lemma SameEntry(p: Program, q: Program)
    requires SameShape(p, q) && |p.uops| > 1
    ensures SameFlow(p, q) && |q.uops| == |p.uops| && BranchPC(p, 1, true) == BranchPC(q, 1, true) && BranchPC(p, 1, false) == BranchPC(q, 1, false)
    ensures VectorExecutor.Reconvergence(p.uops[1]) == VectorExecutor.Reconvergence(q.uops[1])
  {
    FlowOf(p, q, 1);
    assert p.uops[1].fallthrough == q.uops[1].fallthrough by { assert Bare(p.uops[1]) == Bare(q.uops[1]); }
    hide BranchPC;
  }

  lemma SamePaths(p: Program, q: Program)
    requires SameFlow(p, q)
    ensures forall from, m: nat :: Path(p, from, m) == Path(q, from, m)
  {
    hide *;
    forall from, m: nat ensures Path(p, from, m) == Path(q, from, m) { SamePath(p, q, from, m); }
  }

  lemma SameMeets(p: Program, q: Program, taken: bool, n: nat)
    requires SameShape(p, q) && Meets(p, taken, n)
    ensures Meets(q, taken, n)
  {
    SameEntry(p, q);
    hide SameShape, SameFlow, Path, Live, BranchPC, VectorExecutor.Reconvergence;
    SameLive(p, q, BranchPC(p, 1, taken), n);
    SamePaths(p, q);
  }

  lemma SameMeeting(p: Program, q: Program, taken: bool, n: nat, end: nat, last: nat, star: nat)
    requires SameShape(p, q) && Meets(p, taken, n) && Reconverges(p, taken, end, last, star)
    ensures Meets(q, taken, n) && Reconverges(q, taken, end, last, star)
  {
    SameMeets(p, q, taken, n);
    SameEntry(p, q);
    hide Meets, SameShape, SameFlow, Path, Live, BranchPC, Find, VectorExecutor.Reconvergence;
    FlowOf(p, q, star);
    SameLive(p, q, BranchPC(p, 1, !taken), end);
    SameLive(p, q, BranchPC(p, 1, !taken), last + 1);
    SameFind(p, q, VectorExecutor.Reconvergence(p.uops[1]), 1, |p.uops|);
    SamePaths(p, q);
  }

  /** Both sides get to the reconvergence PC. */
  ghost predicate SidesJoin(p: Program) { (exists end :: Joins(p, true, end)) && exists end :: Joins(p, false, end) }

  /**
   Main result, for forward slices whose sides both reach the reconvergence PC: the group executor is right
   for every meaning of the operations, all lanes, responses and budgets if and only if no side writes a
   register after it has met the start of the other and before the reconvergence PC.
   */
  lemma DiamondIsSafeIff(p: Program, d: nat)
    requires DiamondShape(p) && SidesExist(p) && Distinct(p) && Forward(p) && Tests(p, d) && SidesJoin(p)
    ensures |p.uops| > 1 && (AlwaysRight(p) <==> SharesQuietly(p, VectorExecutor.Reconvergence(p.uops[1])))
  {
    hide *;
    TestsMeans(p, d);
    if SharesQuietly(p, VectorExecutor.Reconvergence(p.uops[1])) {
      QuietDiamondIs(p);
      QuietIsAlwaysRight(p);
    } else {
      var taken, n, end, last, star := HarmfulMeeting(p);
      MeetingIsWrong(p, d, star, taken, n, end, last);
    }
  }

  lemma QuietDiamondIs(p: Program)
    requires |p.uops| > 1 && DiamondShape(p) && SidesExist(p) && Distinct(p) && SharesQuietly(p, VectorExecutor.Reconvergence(p.uops[1]))
    ensures QuietDiamond(p)
  {
    hide DiamondShape, SidesExist, Distinct, SharesQuietly;
  }

  lemma TestsMeans(p: Program, d: nat)
    requires Tests(p, d)
    ensures |p.uops| > 1
  {
  }

  /** From the meeting on the two paths are one. */
  lemma {:induction false} PathShifts(p: Program, from: nat, m: nat, j: nat)
    ensures Path(p, from, m + j) == Path(p, Path(p, from, m), j)
  {
    if j > 0 { PathShifts(p, from, m, j - 1); }
  }

  lemma SideJoins(p: Program, taken: bool) returns (end: nat)
    requires SidesJoin(p)
    ensures Joins(p, taken, end)
  {
    hide Joins;
    end :| Joins(p, taken, end);
  }

  /** A shared write: where the sides meet, and what is written. */
  lemma HarmfulMeeting(p: Program) returns (taken: bool, n: nat, end: nat, last: nat, star: nat)
    requires |p.uops| > 1 && SidesJoin(p) && !SharesQuietly(p, VectorExecutor.Reconvergence(p.uops[1]))
    ensures Meets(p, taken, n) && Reconverges(p, taken, end, last, star) && 1 <= star < |p.uops| && Writes(p.uops[star])
  {
    var m: nat;
    taken, n, m := SharedWrite(p);
    var stop := SideJoins(p, taken);
    end := SideJoins(p, !taken);
    hide *;
    SharingMeets(p, taken, n, m, stop);
    last, star := SharingWrites(p, taken, n, m, end);
  }

  lemma SharedWrite(p: Program) returns (taken: bool, n: nat, m: nat)
    requires |p.uops| > 1 && !SharesQuietly(p, VectorExecutor.Reconvergence(p.uops[1]))
    ensures Shares(p, taken, n, m, VectorExecutor.Reconvergence(p.uops[1])) && WritesAt(p, Path(p, BranchPC(p, 1, taken), m))
  {
    hide Shares, WritesAt, Path;
    taken, n, m :| Shares(p, taken, n, m, VectorExecutor.Reconvergence(p.uops[1])) && WritesAt(p, Path(p, BranchPC(p, 1, taken), m));
  }

  lemma SharingMeets(p: Program, taken: bool, n: nat, m: nat, stop: nat)
    requires |p.uops| > 1 && Shares(p, taken, n, m, VectorExecutor.Reconvergence(p.uops[1])) && Joins(p, taken, stop)
    ensures Meets(p, taken, n)
  {
    hide Path, Find, BranchPC, Live;
    assert m < stop;
    LiveShorter(p, BranchPC(p, 1, taken), n, stop);
  }

  lemma SharingWrites(p: Program, taken: bool, n: nat, m: nat, end: nat) returns (last: nat, star: nat)
    requires |p.uops| > 1 && Shares(p, taken, n, m, VectorExecutor.Reconvergence(p.uops[1])) && Joins(p, !taken, end)
    requires WritesAt(p, Path(p, BranchPC(p, 1, taken), m))
    ensures Reconverges(p, taken, end, last, star) && 1 <= star < |p.uops| && Writes(p.uops[star])
  {
    var from, other := BranchPC(p, 1, taken), BranchPC(p, 1, !taken);
    hide Path, Find, BranchPC, Live, Writes, LiveAt;
    last, star := m - n, Find(p, Path(p, from, m), 1, |p.uops|);
    FoundPC(p, Path(p, from, m));
    BeforeEnd(p, from, other, n, m, end, VectorExecutor.Reconvergence(p.uops[1]));
    LiveShorter(p, other, last + 1, end);
  }

  lemma BeforeEnd(p: Program, from: nat, other: nat, n: nat, m: nat, end: nat, reconvergence: nat)
    requires n <= m && Path(p, from, n) == other && Path(p, other, end) == reconvergence
    requires forall j :: 0 <= j <= m ==> Path(p, from, j) != reconvergence
    ensures Path(p, other, m - n) == Path(p, from, m) && m - n < end
  {
    hide Path;
    PathShifts(p, from, n, m - n);
    PathShifts(p, from, n, end);
    assert Path(p, from, n + end) == reconvergence;
  }

  lemma FoundPC(p: Program, pc: nat)
    requires Find(p, pc, 1, |p.uops|) >= 0
    ensures var k := Find(p, pc, 1, |p.uops|); 1 <= k < |p.uops| && p.uops[k].pc == pc
  {
  }

  /** A program with the policy applied. */
  function WithPolicy(p: Program, flr: nat, loopBranch: nat): Program { p.(uops := Reconverged(p.uops, flr, loopBranch)) }

  lemma PolicyKeepsFlow(p: Program, flr: nat, loopBranch: nat)
    ensures SameFlow(p, WithPolicy(p, flr, loopBranch))
  {
  }

  /**
   The policy: for such slices with the final load behind the branch it is safe if and only if no side
   writes a register after it has met the start of the other and before the final load.
   */
  lemma PolicyIsSafeIff(p: Program, flr: nat, loopBranch: nat, k: nat, d: nat)
    requires flr != 0 && 1 <= k < |p.uops| && p.uops[k].load && p.uops[k].pc == flr
    requires DiamondShape(p) && SidesExist(p) && Distinct(p) && Forward(p) && Tests(p, d) && SidesJoin(WithPolicy(p, flr, loopBranch))
    ensures AlwaysRight(WithPolicy(p, flr, loopBranch)) <==> SharesQuietly(p, flr)
  {
    var q := WithPolicy(p, flr, loopBranch);
    PolicyKeepsFlow(p, flr, loopBranch);
    SameDiamondShape(p, q);
    SameForward(p, q);
    EntryReconvergesAtFlr(p.uops, flr, loopBranch, k);
    FlowBack(p, q);
    FlowOf(p, q, 1);
    hide DiamondShape, Distinct, Forward, SidesExist, SameFlow, SidesJoin, AlwaysRight, WithPolicy, SharesQuietly;
    DiamondIsSafeIff(q, d);
    if SharesQuietly(p, flr) { SameQuiet(p, q, flr); } else if SharesQuietly(q, flr) { SameQuiet(q, p, flr); }
  }

  lemma FlowBack(p: Program, q: Program)
    requires SameFlow(p, q)
    ensures SameFlow(q, p)
  {
    forall k | 0 <= k < |q.uops| ensures Bare(q.uops[k]) == Bare(p.uops[k]) { assert Bare(p.uops[k]) == Bare(q.uops[k]); }
  }

  // ----- an instance -----

  function PlainOp(pc: nat, load: bool, register: int): Uop {
    Uop(pc, load, false, false, true, false, register >= 0, 0, 0, 0, register, -1, register, Unsupported)
  }

  /** A branch on the loaded value skips entry 2; entry 3 accumulates; entry 4 is the final load. */
  function SkipSlice(): Program {
    Program([PlainOp(1, true, 0), Uop(2, false, true, true, true, false, false, 4, 3, 0, 0, -1, -1, Unsupported),
             PlainOp(3, false, -1), PlainOp(4, false, 1), PlainOp(5, true, -1)], 4, false)
  }

  lemma SkipFinds(q: Program, pc: nat)
    requires SameFlow(SkipSlice(), q) && 2 <= pc <= 5
    ensures |q.uops| == 5 && Find(q, pc, 1, 5) == pc - 1
  {
    SameFind(SkipSlice(), q, pc, 1, 5);
  }

  lemma SkipPath(q: Program)
    requires SameFlow(SkipSlice(), q)
    ensures Path(q, 3, 0) == 3 && Path(q, 3, 1) == 4 && Path(q, 3, 2) == 5 && Path(q, 4, 0) == 4 && Path(q, 4, 1) == 5
    ensures LiveAt(q, 3) && LiveAt(q, 4)
  {
    SkipFinds(q, 3);
    SkipFinds(q, 4);
    FlowOf(SkipSlice(), q, 2);
    FlowOf(SkipSlice(), q, 3);
    assert Hop(q, 2) == 4 && Hop(q, 3) == 5 && GoesOn(q, 2) && GoesOn(q, 3);
    hide SameFlow, Find, Hop, GoesOn;
    assert Path(q, 3, 0) == 3 && Path(q, 4, 0) == 4;
    assert Path(q, 3, 1) == 4;
  }

  lemma SkipHops(p: Program)
    requires p == SkipSlice()
    ensures forall k :: 2 <= k < 5 ==> Hop(p, k) == if k < 4 then k + 2 else 0
    ensures BranchPC(p, 1, true) == 4 && BranchPC(p, 1, false) == 3
    ensures forall k :: 0 <= k < 5 ==> p.uops[k].pc == k + 1 && p.uops[k].conditional == (k == 1) && (k != 1 ==> !p.uops[k].control)
  {
  }

  lemma SkipShape()
    ensures var p := SkipSlice(); DiamondShape(p) && SidesExist(p) && Distinct(p) && Forward(p) && BranchPC(p, 1, true) == 4 && BranchPC(p, 1, false) == 3
  {
    var p := SkipSlice();
    SkipFinds(p, 3);
    SkipFinds(p, 4);
    SkipFinds(p, 5);
    assert Find(p, 0, 1, 5) == -1;
    SkipHops(p);
    hide Find, SkipSlice, Hop, BranchPC;
  }

  /** The policy sends the branch to the final load, and there it is too late. */
  lemma PolicyMayBeWrong()
    ensures !AlwaysRight(WithPolicy(SkipSlice(), 5, 0))
  {
    var p := SkipSlice();
    var q := WithPolicy(p, 5, 0);
    SkipShape();
    PolicyKeepsFlow(p, 5, 0);
    EntryReconvergesAtFlr(p.uops, 5, 0, 4);
    SkipSides(q);
    SkipShares(p);
    assert Tests(p, 0);
    hide SharesQuietly, SkipSlice, DiamondShape, SidesExist, Distinct, Forward, SidesJoin, WithPolicy, AlwaysRight, Path, Tests, Shares, WritesAt;
    PolicyIsSafeIff(p, 5, 0, 4, 0);
  }

  /** The branch over one operation meets the other side at an operation that writes. */
  lemma SkipShares(p: Program)
    requires p == SkipSlice()
    ensures !SharesQuietly(p, 5)
  {
    SkipPath(p);
    SkipFinds(p, 4);
    SkipHops(p);
    assert Writes(p.uops[3]);
    hide Path, Find, BranchPC, Writes, SkipSlice;
    assert Shares(p, false, 1, 1, 5) && WritesAt(p, Path(p, 3, 1));
  }

  lemma SkipSides(q: Program)
    requires SameFlow(SkipSlice(), q) && VectorExecutor.Reconvergence(q.uops[1]) == 5
    ensures SidesJoin(q)
  {
    SkipPath(q);
    SkipFinds(q, 5);
    FlowOf(SkipSlice(), q, 1);
    FlowOf(SkipSlice(), q, 2);
    FlowOf(SkipSlice(), q, 3);
    FlowOf(SkipSlice(), q, 4);
    assert BranchPC(q, 1, true) == 4 && BranchPC(q, 1, false) == 3;
    hide Path, LiveAt, SameFlow, BranchPC, Find, SkipSlice;
    assert Live(q, 3, 2) && Live(q, 4, 1);
    assert Joins(q, false, 2) && Joins(q, true, 1);
  }
}
