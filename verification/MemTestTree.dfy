/**
 The cache tree of configs/example/memtest.py: the arithmetic count of testers against the
 recursive construction of the tree.
 */
module MemTestTree {
  /** How many subsystems at depth `e` lie below one at depth `d`. */
  function Fan(caches: seq<nat>, d: nat, e: nat): nat
    requires d <= e <= |caches|
    decreases e - d
  {
    if d == e then 1 else caches[d] * Fan(caches, d + 1, e)
  }

  /** Testers in the subtree of a subsystem at depth `d`. */
  function Subtree(caches: seq<nat>, testers: seq<nat>, d: nat): nat
    requires |testers| == |caches| + 1 && d <= |caches|
    decreases |caches| - d
  {
    testers[d] + if d == |caches| then 0 else caches[d] * Subtree(caches, testers, d + 1)
  }

  /** Testers at the depths from `lo` on, weighted by the fan-out from `d`. */
  function Weighted(caches: seq<nat>, testers: seq<nat>, d: nat, lo: nat): nat
    requires |testers| == |caches| + 1 && d <= lo <= |caches| + 1
    decreases |caches| + 1 - lo
  {
    if lo == |caches| + 1 then 0 else testers[lo] * Fan(caches, d, lo) + Weighted(caches, testers, d, lo + 1)
  }

  lemma {:induction false} FanSplits(caches: seq<nat>, d: nat, e: nat)
    requires d <= e < |caches|
    ensures Fan(caches, d, e + 1) == Fan(caches, d, e) * caches[e]
    decreases e - d
  {
    if d < e {
      FanSplits(caches, d + 1, e);
      var a, b, c := caches[d], Fan(caches, d + 1, e), caches[e];
      assert a * (b * c) == (a * b) * c;
    } else {
      assert Fan(caches, d, d + 1) == caches[d] * Fan(caches, d + 1, d + 1);
    }
  }

  lemma {:induction false} WeightedScales(caches: seq<nat>, testers: seq<nat>, d: nat, lo: nat)
    requires |testers| == |caches| + 1 && d + 1 <= lo <= |caches| + 1 && d < |caches|
    ensures Weighted(caches, testers, d, lo) == caches[d] * Weighted(caches, testers, d + 1, lo)
    decreases |caches| + 1 - lo
  {
    if lo <= |caches| {
      WeightedScales(caches, testers, d, lo + 1);
      var c, t, f, w := caches[d], testers[lo], Fan(caches, d + 1, lo), Weighted(caches, testers, d + 1, lo + 1);
      assert Fan(caches, d, lo) == c * f;
      Distribute(c, t, f, w);
    }
  }

  lemma Distribute(c: int, t: int, f: int, w: int)
    ensures t * (c * f) + c * w == c * (t * f + w)
  {
  }

  /** Counting level by level or subtree by subtree gives the same number. */
  lemma {:induction false} CountsAgree(caches: seq<nat>, testers: seq<nat>, d: nat)
    requires |testers| == |caches| + 1 && d <= |caches|
    ensures Weighted(caches, testers, d, d) == Subtree(caches, testers, d)
    decreases |caches| - d
  {
    assert Fan(caches, d, d) == 1;
    if d < |caches| {
      CountsAgree(caches, testers, d + 1);
      WeightedScales(caches, testers, d, d + 1);
    } else {
      assert Weighted(caches, testers, d, d + 1) == 0;
    }
  }

  lemma WeightedStep(caches: seq<nat>, testers: seq<nat>, e: nat, m: nat)
    requires |testers| == |caches| + 1 && e <= |caches| && m == Fan(caches, 0, e)
    ensures Weighted(caches, testers, 0, e) == testers[e] * m + Weighted(caches, testers, 0, e + 1)
  {
  }

  lemma FanNext(caches: seq<nat>, k: nat, m: nat)
    requires k < |caches| && m == Fan(caches, 0, k)
    ensures m * caches[k] == Fan(caches, 0, k + 1)
  {
    FanSplits(caches, 0, k);
  }

  lemma FanOfNone(caches: seq<nat>)
    ensures Fan(caches, 0, 0) == 1
  {
  }

  lemma WeightedEnd(caches: seq<nat>, testers: seq<nat>)
    requires |testers| == |caches| + 1
    ensures Weighted(caches, testers, 0, |testers|) == 0
  {
  }

  /** `numtesters`; the two lists are walked in parallel. */
  method NumTesters(caches: seq<nat>, testers: seq<nat>) returns (total: nat)
    requires |testers| == |caches| + 1
    ensures total == Subtree(caches, testers, 0)
  {
    hide Fan, Weighted, Subtree;
    FanOfNone(caches);
    var multiplier: seq<nat> := [1];
    for k := 0 to |caches|
      invariant |multiplier| == k + 1 && forall e :: 0 <= e <= k ==> multiplier[e] == Fan(caches, 0, e)
    {
      FanNext(caches, k, multiplier[k]);
      multiplier := multiplier + [multiplier[|multiplier| - 1] * caches[k]];
    }
    total := 0;
    for e := 0 to |testers|
      invariant total + Weighted(caches, testers, 0, e) == Weighted(caches, testers, 0, 0)
    {
      WeightedStep(caches, testers, e, multiplier[e]);
      total := total + testers[e] * multiplier[e];
    }
    WeightedEnd(caches, testers);
    CountsAgree(caches, testers, 0);
  }

  // ----- validation -----

  datatype Spec = Spec(caches: seq<nat>, testers: seq<nat>)

  datatype Checked = Accepted(spec: Spec) | Rejected

  ghost predicate ValidSpec(caches: seq<int>, testers: seq<int>) {
    && |caches| >= 1 && |testers| == |caches| + 1 && testers[|caches|] != 0
    && (forall i :: 0 <= i < |testers| ==> testers[i] >= 0)
    && (forall i :: 0 <= i < |caches| ==> caches[i] >= 1)
  }

  method ToNats(s: seq<int>, least: nat) returns (ok: bool, r: seq<nat>)
    ensures ok <==> forall i :: 0 <= i < |s| ==> s[i] >= least
    ensures ok ==> |r| == |s| && forall i :: 0 <= i < |s| ==> r[i] == s[i]
  {
    r := [];
    for i := 0 to |s|
      invariant |r| == i && forall j :: 0 <= j < i ==> s[j] >= least && r[j] == s[j]
    {
      if s[i] < least {
        return false, [];
      }
      r := r + [s[i]];
    }
    return true, r;
  }

  /** The checks on the command line; there is room for 64 testers. */
  method Check(caches: seq<int>, testers: seq<int>) returns (r: Checked)
    ensures r.Accepted? ==> ValidSpec(caches, testers) && r.spec == Spec(caches, testers) && Subtree(r.spec.caches, r.spec.testers, 0) <= 64
    ensures r.Rejected? ==> (ValidSpec(caches, testers) ==> Subtree(caches, testers, 0) > 64)
  {
    if |caches| < 1 || |caches| != |testers| - 1 || testers[|testers| - 1] == 0 {
      return Rejected;
    }
    var okT, t := ToNats(testers, 0);
    if !okT {
      return Rejected;
    }
    var okC, c := ToNats(caches, 1);
    if !okC {
      return Rejected;
    }
    assert c == caches && t == testers;
    var total := NumTesters(c, t);
    if total > 64 {
      return Rejected;
    }
    return Accepted(Spec(c, t));
  }

  // ----- construction -----

  /** Cache prototypes, scaled from the first-level cache; the one farthest from the testers comes first. */
  method Prototypes(caches: seq<nat>, size: nat) returns (protos: seq<nat>)
    requires |caches| >= 1
    ensures |protos| == |caches|
    ensures forall i :: 0 <= i < |protos| ==> protos[i] == size * Fan(caches, 0, |protos| - 1 - i)
  {
    protos := [size];
    for k := 0 to |caches| - 1
      invariant |protos| == k + 1
      invariant forall i :: 0 <= i <= k ==> protos[i] == size * Fan(caches, 0, k - i)
    {
      FanSplits(caches, 0, k);
      var next := protos[0] * caches[k];
      assert next == size * Fan(caches, 0, k + 1) by { Associate(size, Fan(caches, 0, k), caches[k]); }
      protos := [next] + protos;
    }
  }

  lemma Associate(a: int, b: int, c: int)
    ensures (a * b) * c == a * (b * c)
  {
  }

  /** How many subsystems of level `l` the subtree of a subsystem at depth `d` has. */
  ghost function Below(caches: seq<nat>, d: nat, l: nat): nat
    requires d <= |caches| && l <= |caches|
  {
    if l <= |caches| - d then Fan(caches, d, |caches| - l) else 0
  }

  lemma BelowUnfolds(caches: seq<nat>, d: nat, l: nat)
    requires d < |caches| && l <= |caches|
    ensures Below(caches, d, l) == (if l == |caches| - d then 1 else 0) + caches[d] * Below(caches, d + 1, l)
  {
    if l == |caches| - d {
      assert Below(caches, d + 1, l) == 0;
    }
  }

  lemma OneMore(j: int, x: int)
    ensures (j + 1) * x == j * x + x
  {
  }

  class System {
    const caches: seq<nat>
    const testers: seq<nat>
    /** For each level, the next subsystem index to use. */
    var nextIndex: seq<nat>
    /** The subsystems made so far, as (level, index), and the number of testers in them. */
    var subsystems: set<(nat, nat)>
    var made: nat

    /** The names in use are those with an index below the next one. */
    ghost predicate Valid() reads this {
      && |testers| == |caches| + 1 && testers[|caches|] > 0 && |nextIndex| == |caches| + 1
      && forall l: nat, i: nat :: (l, i) in subsystems <==> l < |nextIndex| && i < nextIndex[l]
    }

    constructor (spec: Spec)
      requires |spec.testers| == |spec.caches| + 1 && spec.testers[|spec.caches|] > 0
      ensures Valid() && caches == spec.caches && testers == spec.testers && made == 0 && subsystems == {}
      ensures forall l :: 0 <= l < |nextIndex| ==> nextIndex[l] == 0
    {
      caches, testers := spec.caches, spec.testers;
      nextIndex, subsystems, made := seq(|spec.caches| + 1, _ => 0), {}, 0;
    }

    /** One subsystem with its testers, under a name not used before. */
    method AddSubsystem(level: nat) returns (ntesters: nat)
      requires Valid() && level <= |caches|
      modifies this
      ensures Valid() && nextIndex == old(nextIndex)[level := old(nextIndex)[level] + 1]
      ensures ntesters == testers[|caches| - level] && made == old(made) + ntesters
      ensures (level, old(nextIndex)[level]) !in old(subsystems)
    {
      var index := nextIndex[level];
      nextIndex := nextIndex[level := index + 1];
      subsystems := subsystems + {(level, index)};
      ntesters := testers[|caches| - level];
      made := made + ntesters;
    }

    /**
     `make_cache_level`: the subtree of one subsystem. False stands for the error of a top level
     without a cache below it.
     */
    method MakeCacheLevel(ncaches: seq<nat>, prototypes: seq<nat>, level: nat, hasCache: bool) returns (ok: bool)
      requires Valid() && level <= |caches| && ncaches == caches[|caches| - level..] && |prototypes| == level
      modifies this
      ensures Valid() && (ok <==> level > 0 || hasCache)
      ensures ok ==> forall l :: 0 <= l <= |caches| ==> nextIndex[l] == old(nextIndex)[l] + Below(caches, |caches| - level, l)
      ensures ok ==> made == old(made) + Subtree(caches, testers, |caches| - level)
      decreases level
    {
      ghost var d := |caches| - level;
      ghost var start, before := nextIndex, made;
      var ntesters := AddSubsystem(level);
      if level == 0 {
        if !hasCache {
          return false;
        }
        assert ntesters >= 1;
        return true;
      }
      assert ncaches[0] == caches[d];
      for j := 0 to ncaches[0]
        invariant Valid()
        invariant forall l :: 0 <= l <= |caches| ==>
          nextIndex[l] == start[l] + (if l == level then 1 else 0) + j * Below(caches, d + 1, l)
        invariant made == before + ntesters + j * Subtree(caches, testers, d + 1)
      {
        hide Below, Subtree;
        ghost var was := nextIndex;
        var done := MakeCacheLevel(ncaches[1..], prototypes[1..], level - 1, true);
        forall l | 0 <= l <= |caches|
          ensures nextIndex[l] == start[l] + (if l == level then 1 else 0) + (j + 1) * Below(caches, d + 1, l)
        {
          OneMore(j, Below(caches, d + 1, l));
        }
        OneMore(j, Subtree(caches, testers, d + 1));
      }
      forall l | 0 <= l <= |caches|
        ensures Below(caches, d, l) == (if l == level then 1 else 0) + caches[d] * Below(caches, d + 1, l)
      {
        BelowUnfolds(caches, d, l);
      }
      hide Below;
      return true;
    }

    /** The whole hierarchy: as many testers as counted, and each level its product of fan-outs. */
    method Build(prototypes: seq<nat>)
      requires Valid() && |caches| >= 1 && |prototypes| == |caches| && made == 0 && forall l :: 0 <= l < |nextIndex| ==> nextIndex[l] == 0
      modifies this
      ensures Valid() && made == Subtree(caches, testers, 0)
      ensures forall l :: 0 <= l <= |caches| ==> nextIndex[l] == Fan(caches, 0, |caches| - l)
    {
      assert caches[0..] == caches;
      var ok := MakeCacheLevel(caches, prototypes, |caches|, false);
    }
  }
}
