/**
 The demand-only shadow cache of src/cpu/o3/dvr_quality.cc (`ShadowCache`): per set a list of
 lines, most recently used first. It is shown to hold exactly the lines that a cache with
 least-recently-used replacement must hold.
 */
module ShadowCache {
  type Line = nat

  function SetOf(line: Line, lineBytes: nat, sets: nat): (x: nat)
    requires lineBytes > 0 && sets > 0
    ensures x < sets
  {
    (line / lineBytes) % sets
  }

  // ----- one set -----

  function Without(s: seq<Line>, line: Line): seq<Line> {
    if s == [] then [] else if s[0] == line then s[1..] else [s[0]] + Without(s[1..], line)
  }

  function Touched(s: seq<Line>, line: Line, ways: nat): seq<Line> {
    if line in s then [line] + Without(s, line)
    else if |s| + 1 > ways then ([line] + s)[..|s|]
    else [line] + s
  }

  // ----- the reference: distinct lines since the last access -----

  /** The lines of the set accessed since `line` was, by the accesses `h[..n]` of its set. */
  function Since(h: seq<Line>, n: nat, line: Line): set<Line>
    requires n <= |h|
  {
    if n == 0 || h[n - 1] == line then {} else Since(h, n - 1, line) + {h[n - 1]}
  }

  lemma {:induction false} SinceMeans(h: seq<Line>, n: nat, line: Line, other: Line)
    requires n <= |h|
    ensures other in Since(h, n, line) <==> exists j :: 0 <= j < n && h[j] == other && forall k :: j <= k < n ==> h[k] != line
  {
    if n > 0 && h[n - 1] != line {
      SinceMeans(h, n - 1, line, other);
      if other in Since(h, n - 1, line) {
        var j :| 0 <= j < n - 1 && h[j] == other && forall k :: j <= k < n - 1 ==> h[k] != line;
        assert forall k :: j <= k < n ==> h[k] != line;
      }
      assert h[n - 1] == other ==> forall k :: n - 1 <= k < n ==> h[k] != line;
    }
  }

  /** The elements in front of position `k`. */
  function Front(s: seq<Line>, k: nat): set<Line>
    requires k <= |s|
  {
    if k == 0 then {} else Front(s, k - 1) + {s[k - 1]}
  }

  ghost predicate Distinct(s: seq<Line>) { forall i, j :: 0 <= i < j < |s| ==> s[i] != s[j] }

  lemma {:induction false} FrontMeans(s: seq<Line>, k: nat, x: Line)
    requires k <= |s|
    ensures x in Front(s, k) <==> exists i :: 0 <= i < k && s[i] == x
  {
    if k > 0 { FrontMeans(s, k - 1, x); }
  }

  lemma {:induction false} FrontCount(s: seq<Line>, k: nat)
    requires k <= |s| && Distinct(s)
    ensures |Front(s, k)| == k
  {
    if k > 0 {
      FrontCount(s, k - 1);
      FrontMeans(s, k - 1, s[k - 1]);
    }
  }

  /** `s` holds the lines of the set, ordered by their last access, as far as the ways reach. */
  ghost predicate Lru(s: seq<Line>, h: seq<Line>, ways: nat) {
    && |s| <= ways && Distinct(s)
    && (forall k :: 0 <= k < |s| ==> At(s, h, k))
    && (forall line :: line in h && line !in s ==> Gone(h, line, ways))
  }

  ghost predicate At(s: seq<Line>, h: seq<Line>, k: nat)
    requires k < |s|
  {
    s[k] in h && Since(h, |h|, s[k]) == Front(s, k)
  }

  ghost predicate Gone(h: seq<Line>, line: Line, ways: nat) { |Since(h, |h|, line)| >= ways }

  /** The cache contains a line exactly if fewer than `ways` other lines of its set came since. */
  lemma ContainsIff(s: seq<Line>, h: seq<Line>, ways: nat, line: Line)
    requires Lru(s, h, ways)
    ensures line in s <==> line in h && |Since(h, |h|, line)| < ways
  {
    if line in s {
      var k :| 0 <= k < |s| && s[k] == line;
      assert At(s, h, k);
      FrontCount(s, k);
    }
  }

  lemma {:induction false} SinceOfAppend(h: seq<Line>, a: Line, n: nat, line: Line)
    requires n <= |h|
    ensures Since(h + [a], n, line) == Since(h, n, line)
  {
    if n > 0 { SinceOfAppend(h, a, n - 1, line); }
  }

  lemma SinceAfter(h: seq<Line>, a: Line, line: Line)
    ensures Since(h + [a], |h| + 1, line) == if a == line then {} else Since(h, |h|, line) + {a}
  {
    SinceOfAppend(h, a, |h|, line);
  }

  /** Removing a line that is at position `p`. */
  lemma {:induction false} WithoutAt(s: seq<Line>, line: Line, p: nat)
    requires p < |s| && s[p] == line && forall i :: 0 <= i < p ==> s[i] != line
    ensures Without(s, line) == s[..p] + s[p + 1..]
  {
    if p > 0 {
      WithoutAt(s[1..], line, p - 1);
      assert s[1..][..p - 1] == s[1..p] && s[1..][p..] == s[p + 1..];
      assert [s[0]] + (s[1..p] + s[p + 1..]) == s[..p] + s[p + 1..];
    }
  }

  /** A list with `line` in front and the elements of `s` behind it in their order. */
  ghost predicate MovedFront(t: seq<Line>, s: seq<Line>, line: Line, p: nat) {
    && p <= |s| && 1 <= |t| <= |s| + 1 && t[0] == line
    && forall k :: 1 <= k < |t| ==> MovedAt(t, s, p, k)
  }

  ghost predicate MovedAt(t: seq<Line>, s: seq<Line>, p: nat, k: nat)
    requires 1 <= k < |t| <= |s| + 1
  {
    if k <= p then t[k] == s[k - 1] else k < |s| && t[k] == s[k]
  }

  lemma InMoved(t: seq<Line>, s: seq<Line>, line: Line, p: nat, j: nat)
    requires MovedFront(t, s, line, p) && j < |s| && ((j < p && j + 1 < |t|) || p < j < |t|)
    ensures s[j] in t
  {
    assert MovedAt(t, s, p, if j < p then j + 1 else j);
  }

  lemma {:induction false} FrontOfMoved(t: seq<Line>, s: seq<Line>, line: Line, p: nat, k: nat)
    requires MovedFront(t, s, line, p) && 1 <= k <= |t| && (p < |s| ==> s[p] == line)
    ensures k <= p + 1 ==> Front(t, k) == Front(s, k - 1) + {line}
    ensures k > p + 1 ==> k <= |s| && Front(t, k) == Front(s, k)
  {
    if k == 1 {
      assert Front(t, 1) == Front(t, 0) + {t[0]};
    } else {
      FrontOfMoved(t, s, line, p, k - 1);
      assert MovedAt(t, s, p, k - 1);
      if k > p + 1 {
        assert Front(s, p + 1) == Front(s, p) + {line};
      }
    }
  }

  /** Where each line of the set is after a touch. */
  lemma TouchedIsMoved(s: seq<Line>, line: Line, ways: nat) returns (p: nat)
    requires Distinct(s) && |s| <= ways && ways > 0
    ensures MovedFront(Touched(s, line, ways), s, line, p) && (p < |s| ==> s[p] == line) && (p == |s| <==> line !in s)
    ensures p < |s| ==> |Touched(s, line, ways)| == |s|
    ensures p == |s| ==> |Touched(s, line, ways)| == if |s| < ways then |s| + 1 else |s|
  {
    if line in s {
      p :| 0 <= p < |s| && s[p] == line;
      FirstPlace(s, p);
      WithoutAt(s, line, p);
      hide *;
      PresentIsMoved(s, line, p);
      TouchedPresent(s, line, ways);
    } else {
      p := |s|;
      hide *;
      AbsentIsMoved(s, line);
      TouchedAbsent(s, line, ways);
    }
  }

  lemma FirstPlace(s: seq<Line>, p: nat)
    requires Distinct(s) && p < |s|
    ensures forall i :: 0 <= i < p ==> s[i] != s[p]
  {
  }

  lemma PresentIsMoved(s: seq<Line>, line: Line, p: nat)
    requires p < |s|
    ensures MovedFront([line] + (s[..p] + s[p + 1..]), s, line, p)
  {
  }

  lemma AbsentIsMoved(s: seq<Line>, line: Line)
    ensures MovedFront([line] + s, s, line, |s|) && (s != [] ==> MovedFront(([line] + s)[..|s|], s, line, |s|))
  {
  }

  lemma TouchedPresent(s: seq<Line>, line: Line, ways: nat)
    requires line in s
    ensures Touched(s, line, ways) == [line] + Without(s, line)
  {
  }

  lemma TouchedAbsent(s: seq<Line>, line: Line, ways: nat)
    requires line !in s
    ensures Touched(s, line, ways) == if |s| + 1 > ways then ([line] + s)[..|s|] else [line] + s
  {
  }

  lemma TouchKeepsOrder(s: seq<Line>, h: seq<Line>, ways: nat, a: Line, t: seq<Line>, p: nat, k: nat)
    requires Lru(s, h, ways) && MovedFront(t, s, a, p) && (p < |s| ==> s[p] == a) && (p == |s| <==> a !in s) && k < |t|
    ensures At(t, h + [a], k)
  {
    SinceAfter(h, a, t[k]);
    if k > 0 {
      FrontOfMoved(t, s, a, p, k);
      assert MovedAt(t, s, p, k);
      var j := if k <= p then k - 1 else k;
      assert At(s, h, j) && t[k] == s[j];
      assert a != s[j];
      if k > p + 1 {
        FrontMeans(s, k, a);
        assert a in Front(s, k);
      } else if k == p + 1 {
        assert Front(s, k) == Front(s, p) + {a};
      }
    }
  }

  lemma TouchKeepsGone(s: seq<Line>, h: seq<Line>, ways: nat, a: Line, t: seq<Line>, p: nat, line: Line)
    requires Lru(s, h, ways) && MovedFront(t, s, a, p) && (p < |s| ==> s[p] == a && |t| == |s|)
    requires p == |s| ==> a !in s && |t| == if |s| < ways then |s| + 1 else |s|
    requires line in h + [a] && line !in t
    ensures Gone(h + [a], line, ways)
  {
    SinceAfter(h, a, line);
    assert line != a && line in h;
    if line in s {
      var j :| 0 <= j < |s| && s[j] == line;
      assert At(s, h, j);
      if (j < p && j + 1 < |t|) || p < j < |t| { InMoved(t, s, a, p, j); }
      FrontMeans(s, j, a);
      FrontCount(s, j);
      assert a !in Front(s, j);
    } else {
      assert Gone(h, line, ways);
      Grows(Since(h, |h|, line), a);
    }
  }

  lemma Grows(x: set<Line>, a: Line)
    ensures |x + {a}| >= |x|
  {
    if a in x { assert x + {a} == x; }
  }

  lemma MovedIsDistinct(t: seq<Line>, s: seq<Line>, a: Line, p: nat)
    requires MovedFront(t, s, a, p) && Distinct(s) && (p < |s| ==> s[p] == a) && (p == |s| <==> a !in s)
    ensures Distinct(t)
  {
    forall i, j | 0 <= i < j < |t| ensures t[i] != t[j] {
      var y := if j <= p then j - 1 else j;
      assert MovedAt(t, s, p, j);
      assert t[j] == s[y] && s[y] != a;
      if i > 0 {
        var x := if i <= p then i - 1 else i;
        assert MovedAt(t, s, p, i);
        assert t[i] == s[x] && x < y;
      }
    }
  }

  /** An access keeps the set in least-recently-used order. */
  lemma TouchKeepsLru(s: seq<Line>, h: seq<Line>, ways: nat, a: Line)
    requires Lru(s, h, ways) && ways > 0
    ensures Lru(Touched(s, a, ways), h + [a], ways)
  {
    var t := Touched(s, a, ways);
    var p := TouchedIsMoved(s, a, ways);
    MovedIsDistinct(t, s, a, p);
    hide Touched;
    forall k | 0 <= k < |t| ensures At(t, h + [a], k) { TouchKeepsOrder(s, h, ways, a, t, p, k); }
    forall line | line in h + [a] && line !in t ensures Gone(h + [a], line, ways) {
      TouchKeepsGone(s, h, ways, a, t, p, line);
    }
  }

  // ----- the cache -----

  /** The accesses that fall into set `x`. */
  function Accesses(h: seq<Line>, x: nat, lineBytes: nat, sets: nat): seq<Line>
    requires lineBytes > 0 && sets > 0
  {
    if h == [] then []
    else
      var a := h[|h| - 1];
      var rest := Accesses(h[..|h| - 1], x, lineBytes, sets);
      if SetOf(a, lineBytes, sets) == x then rest + [a] else rest
  }

  class Cache {
    var sets: seq<seq<Line>>
    const ways: nat
    const lineBytes: nat
    ghost var history: seq<Line>

    ghost predicate Valid() reads this {
      && |sets| > 0 && ways > 0 && lineBytes > 0
      && forall x :: 0 <= x < |sets| ==> Lru(sets[x], Accesses(history, x, lineBytes, |sets|), ways)
    }

    constructor (setCount: nat, ways: nat, lineBytes: nat)
      requires setCount > 0 && ways > 0 && lineBytes > 0
      ensures Valid() && history == [] && |sets| == setCount && this.ways == ways && this.lineBytes == lineBytes
    {
      this.ways, this.lineBytes := ways, lineBytes;
      sets := seq(setCount, _ => []);
      history := [];
    }

    /** The line is present exactly if fewer than `ways` lines of its set were accessed since it was. */
    method Contains(line: Line) returns (present: bool)
      requires Valid()
      ensures var h := Accesses(history, SetOf(line, lineBytes, |sets|), lineBytes, |sets|);
              present <==> line in h && |Since(h, |h|, line)| < ways
    {
      var x := SetOf(line, lineBytes, |sets|);
      ContainsIff(sets[x], Accesses(history, x, lineBytes, |sets|), ways, line);
      present := false;
      for k := 0 to |sets[x]|
        invariant !present && line !in sets[x][..k]
      {
        if sets[x][k] == line {
          return true;
        }
      }
    }

    method Access(line: Line) returns (hit: bool)
      requires Valid()
      modifies this
      ensures Valid() && history == old(history) + [line] && |sets| == old(|sets|)
      ensures var h := old(Accesses(history, SetOf(line, lineBytes, |sets|), lineBytes, |sets|));
              hit <==> line in h && |Since(h, |h|, line)| < ways
    {
      var x := SetOf(line, lineBytes, |sets|);
      ghost var before := sets;
      hit := Contains(line);
      ContainsIff(sets[x], Accesses(history, x, lineBytes, |sets|), ways, line);
      TouchKeepsLru(sets[x], Accesses(history, x, lineBytes, |sets|), ways, line);
      assert (history + [line])[..|history|] == history;
      hide Lru, Touched;
      if hit {
        sets := sets[x := [line] + Without(sets[x], line)];
      } else {
        var set' := [line] + sets[x];
        if |set'| > ways {
          set' := set'[..|set'| - 1];
        }
        sets := sets[x := set'];
      }
      TouchedMeans(before[x], line, ways);
      assert sets[x] == Touched(before[x], line, ways);
      history := history + [line];
    }
  }

  lemma TouchedMeans(s: seq<Line>, line: Line, ways: nat)
    ensures line in s ==> Touched(s, line, ways) == [line] + Without(s, line)
    ensures line !in s ==> Touched(s, line, ways) == if |s| + 1 > ways then ([line] + s)[..|s|] else [line] + s
  {
  }
}
