/**
 Tools for programs whose captures of a PC act alike: a lane on its own is then a function of its
 core, and lanes that end on their own have a finite number of steps left.
 */
module VectorPrograms {
  import opened VectorExecutor
  import opened VectorRefinement

  // ----- repeated PCs -----

  ghost predicate SameAct(p: Program, j: nat, k: nat)
    requires j < |p.uops| && k < |p.uops|
  {
    forall c: Core :: c.pc == p.uops[j].pc ==> CoreStep(p, j, c) == CoreStep(p, k, c)
  }

  /** Entry `k` is what some window holds for its PC. */
  ghost predicate Shown(p: Program, k: nat) {
    k < |p.uops| && exists w :: Fills(p, w) && Find(p, p.uops[k].pc, w, WindowEnd(p, w)) == k
  }

  /** All captures of a PC that windows show act alike. */
  ghost predicate Coherent(p: Program) {
    forall j: nat, k: nat :: Shown(p, j) && Shown(p, k) && p.uops[j].pc == p.uops[k].pc ==> SameAct(p, j, k)
  }

  /** Whatever the windows, a lane issued by a leader at its PC does what it would have done alone. */
  ghost predicate WindowsDoNotMatter(p: Program) {
    forall a: Lane, b: Lane :: WindowValid(p, a) && WindowValid(p, b) && a.core.pc == b.core.pc ==> ActsAlone(p, Fetch(p, a), b)
  }

  lemma FetchIsShown(p: Program, l: Lane)
    requires WindowValid(p, l) && Fetch(p, l) >= 0
    ensures 1 <= Fetch(p, l) && Shown(p, Fetch(p, l)) && p.uops[Fetch(p, l)].pc == l.core.pc
  {
    var k := Fetch(p, l);
    if Find(p, l.core.pc, l.windowStart, l.windowEnd) < 0 {
      assert Fills(p, k) && Find(p, p.uops[k].pc, k, WindowEnd(p, k)) == k;
    }
  }

  lemma ShownInside(p: Program, k: nat)
    requires Shown(p, k)
    ensures 1 <= k < |p.uops|
  {
  }

  lemma FirstIsShown(p: Program, pc: nat)
    requires Find(p, pc, 1, |p.uops|) >= 0
    ensures Shown(p, Find(p, pc, 1, |p.uops|))
  {
    var k := Find(p, pc, 1, |p.uops|);
    assert Fills(p, k) && Find(p, p.uops[k].pc, k, WindowEnd(p, k)) == k;
  }

  /**
   The exact condition for issuing lanes together by PC: whatever windows and registers two lanes at the
   same PC have, the operation that one of them fetches does to the other what its own would have done,
   if and only if the captures of a PC that windows can show act alike.
   */
  lemma CoherentIff(p: Program)
    ensures Coherent(p) <==> WindowsDoNotMatter(p)
  {
    hide CoreStep;
    if Coherent(p) {
      forall a: Lane, b: Lane | WindowValid(p, a) && WindowValid(p, b) && a.core.pc == b.core.pc ensures ActsAlone(p, Fetch(p, a), b) {
        FetchFinds(p, a);
        FetchFinds(p, b);
        if Fetch(p, a) >= 0 {
          FetchIsShown(p, a);
          FetchActs(p, b, Fetch(p, a));
        }
      }
    }
    if WindowsDoNotMatter(p) {
      forall j: nat, k: nat | Shown(p, j) && Shown(p, k) && p.uops[j].pc == p.uops[k].pc ensures SameAct(p, j, k) {
        forall c: Core | c.pc == p.uops[j].pc ensures CoreStep(p, j, c) == CoreStep(p, k, c) {
          var a := LaneShowing(p, k, c);
          var b := LaneShowing(p, j, c);
          assert ActsAlone(p, Fetch(p, a), b);
        }
      }
    }
  }

  lemma LaneShowing(p: Program, k: nat, c: Core) returns (l: Lane)
    requires Shown(p, k) && c.pc == p.uops[k].pc
    ensures l.core == c && WindowValid(p, l) && Fetch(p, l) == k
  {
    var w :| Fills(p, w) && Find(p, p.uops[k].pc, w, WindowEnd(p, w)) == k;
    l := Lane(c, true, false, w, WindowEnd(p, w));
  }

  /** One step by PC alone. */
  function ScalarStep(p: Program, c: Core): Core {
    if !c.active then c
    else
      var k := Find(p, c.pc, 1, |p.uops|);
      if k < 0 then c.(active := false) else CoreStep(p, k, c)
  }

  function ScalarSteps(p: Program, c: Core, n: nat): Core {
    if n == 0 then c else ScalarStep(p, ScalarSteps(p, c, n - 1))
  }

  lemma FetchActs(p: Program, l: Lane, k: nat)
    requires Coherent(p) && WindowValid(p, l) && 1 <= k && Shown(p, k) && p.uops[k].pc == l.core.pc
    ensures Fetch(p, l) >= 1 && CoreStep(p, Fetch(p, l), l.core) == CoreStep(p, k, l.core) && ActsAlone(p, k, l)
  {
    hide CoreStep;
    FetchFinds(p, l);
    FetchIsShown(p, l);
    assert SameAct(p, Fetch(p, l), k);
  }

  lemma FetchFinds(p: Program, l: Lane)
    requires WindowValid(p, l)
    ensures Fetch(p, l) < 0 <==> Find(p, l.core.pc, 1, |p.uops|) < 0
    ensures Fetch(p, l) >= 0 ==> 1 <= Fetch(p, l) < |p.uops| && p.uops[Fetch(p, l)].pc == l.core.pc
  {
  }

  /** For coherent programs the window never changes what a lane does. */
  lemma OwnIsScalar(p: Program, l: Lane)
    requires Coherent(p) && WindowValid(p, l)
    ensures OwnStep(p, l).core == ScalarStep(p, l.core)
  {
    hide CoreStep;
    FetchFinds(p, l);
    var k := Find(p, l.core.pc, 1, |p.uops|);
    if k >= 0 {
      FirstIsShown(p, l.core.pc);
      FetchActs(p, l, k);
    }
  }

  lemma {:induction false} OwnStepsAreScalar(p: Program, l: Lane, n: nat)
    requires Coherent(p) && WindowValid(p, l)
    ensures OwnSteps(p, l, n).core == ScalarSteps(p, l.core, n)
  {
    hide OwnStep, ScalarStep, Coherent;
    if n > 0 {
      OwnStepsAreScalar(p, l, n - 1);
      OwnIsScalar(p, OwnSteps(p, l, n - 1));
    }
  }

  lemma AgreedByCoherence(p: Program, k: nat, s: State, own: seq<Lane>)
    requires Coherent(p) && 1 <= k && Shown(p, k) && Tracks(p, s, own)
    ensures Agreed(p, k, s, own)
  {
    hide CoreStep, Coherent;
    forall i | 0 <= i < |s.lanes| && Issues(s.lanes[i], p.uops[k].pc) ensures ActsAlone(p, k, own[i]) {
      FetchActs(p, own[i], k);
    }
  }

  // ----- finite lanes -----

  /** Steps until a lane ends, at most `n`. */
  function Rem(p: Program, c: Core, n: nat): nat
    decreases n
  {
    if n == 0 || !c.active then 0 else 1 + Rem(p, ScalarStep(p, c), n - 1)
  }

  /** The lane ends within `n` steps of its own. */
  predicate EndsWithin(p: Program, c: Core, n: nat) { !ScalarSteps(p, c, n).active }

  lemma {:induction false} StepsShift(p: Program, c: Core, n: nat)
    ensures ScalarSteps(p, ScalarStep(p, c), n) == ScalarSteps(p, c, n + 1)
  {
    hide ScalarStep;
    if n > 0 { StepsShift(p, c, n - 1); }
  }

  lemma {:induction false} EndedStays(p: Program, c: Core, n: nat)
    requires !c.active
    ensures ScalarSteps(p, c, n) == c
  {
    if n > 0 { EndedStays(p, c, n - 1); }
  }

  lemma {:induction false} StepsAdd(p: Program, c: Core, m: nat, n: nat)
    ensures ScalarSteps(p, ScalarSteps(p, c, m), n) == ScalarSteps(p, c, m + n)
  {
    hide ScalarStep;
    if n > 0 { StepsAdd(p, c, m, n - 1); }
  }

  /** A lane that has ended is where it ends. */
  lemma EndIsUnique(p: Program, c: Core, m: nat, n: nat)
    requires EndsWithin(p, c, m) && EndsWithin(p, c, n)
    ensures ScalarSteps(p, c, m) == ScalarSteps(p, c, n)
  {
    if m < n {
      StepsAdd(p, c, m, n - m);
      EndedStays(p, ScalarSteps(p, c, m), n - m);
    } else {
      StepsAdd(p, c, n, m - n);
      EndedStays(p, ScalarSteps(p, c, n), m - n);
    }
  }

  lemma EndsLater(p: Program, c: Core, m: nat, n: nat)
    requires EndsWithin(p, c, n)
    ensures EndsWithin(p, ScalarSteps(p, c, m), n)
  {
    StepsAdd(p, c, m, n);
    StepsAdd(p, c, n, m);
    EndedStays(p, ScalarSteps(p, c, n), m);
  }

  lemma {:induction false} RemStable(p: Program, c: Core, n: nat)
    requires EndsWithin(p, c, n)
    ensures Rem(p, c, n + 1) == Rem(p, c, n) <= n
    decreases n
  {
    hide ScalarStep;
    if c.active {
      assert n > 0;
      StepsShift(p, c, n - 1);
      RemStable(p, ScalarStep(p, c), n - 1);
    }
  }

  /** A step of a lane that is not at its end brings it one nearer. */
  lemma RemStep(p: Program, c: Core, n: nat)
    requires c.active && EndsWithin(p, c, n)
    ensures Rem(p, ScalarStep(p, c), n) + 1 == Rem(p, c, n) && EndsWithin(p, ScalarStep(p, c), n)
  {
    assert n > 0;
    StepsShift(p, c, n - 1);
    RemStable(p, ScalarStep(p, c), n - 1);
    EndsLater(p, c, 1, n);
    assert ScalarSteps(p, c, 0) == c && ScalarSteps(p, c, 1) == ScalarStep(p, c);
  }

  function Total(p: Program, lanes: seq<Lane>, n: nat, k: nat): nat
    requires k <= |lanes|
  {
    if k == 0 then 0 else Total(p, lanes, n, k - 1) + Rem(p, lanes[k - 1].core, n)
  }

  ghost predicate AllEnd(p: Program, lanes: seq<Lane>, n: nat) {
    forall i :: 0 <= i < |lanes| ==> EndsWithin(p, lanes[i].core, n)
  }

  /** Every lane stays or takes a step of its own. */
  ghost predicate StepsOf(p: Program, a: seq<Lane>, b: seq<Lane>) {
    |a| == |b| && forall i :: 0 <= i < |a| ==> b[i].core == a[i].core || b[i].core == ScalarStep(p, a[i].core)
  }

  lemma RemOfStep(p: Program, a: Core, b: Core, n: nat)
    requires EndsWithin(p, a, n) && (b == a || b == ScalarStep(p, a))
    ensures EndsWithin(p, b, n) && Rem(p, b, n) <= Rem(p, a, n) && (a.active && b == ScalarStep(p, a) ==> Rem(p, b, n) < Rem(p, a, n))
  {
    if a.active && b == ScalarStep(p, a) { RemStep(p, a, n); }
  }

  lemma {:induction false} TotalDrops(p: Program, a: seq<Lane>, b: seq<Lane>, n: nat, k: nat)
    requires k <= |a| && StepsOf(p, a, b) && AllEnd(p, a, n)
    ensures Total(p, b, n, k) <= Total(p, a, n, k)
    ensures (exists i :: 0 <= i < k && a[i].core.active && b[i].core == ScalarStep(p, a[i].core)) ==> Total(p, b, n, k) < Total(p, a, n, k)
  {
    hide ScalarStep, Rem, EndsWithin;
    if k > 0 {
      TotalDrops(p, a, b, n, k - 1);
      RemOfStep(p, a[k - 1].core, b[k - 1].core, n);
    }
  }

  lemma EndsKept(p: Program, a: seq<Lane>, b: seq<Lane>, n: nat)
    requires StepsOf(p, a, b) && AllEnd(p, a, n)
    ensures AllEnd(p, b, n)
  {
    hide ScalarStep, EndsWithin;
    forall i | 0 <= i < |b| ensures EndsWithin(p, b[i].core, n) { RemOfStep(p, a[i].core, b[i].core, n); }
  }

  lemma {:induction false} TotalBound(p: Program, lanes: seq<Lane>, n: nat, k: nat)
    requires k <= |lanes| && AllEnd(p, lanes, n)
    ensures Total(p, lanes, n, k) <= k * n
    ensures Total(p, lanes, n, k) == 0 ==> forall i :: 0 <= i < k ==> !lanes[i].core.active
  {
    hide ScalarStep;
    if k > 0 {
      TotalBound(p, lanes, n, k - 1);
      assert EndsWithin(p, lanes[k - 1].core, n);
      RemStable(p, lanes[k - 1].core, n);
      assert k * n == (k - 1) * n + n;
      assert Rem(p, lanes[k - 1].core, n) == 0 ==> !lanes[k - 1].core.active;
    }
  }
}
