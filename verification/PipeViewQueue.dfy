/**
 The reorder buffer of the O3 pipeline viewer (util/o3-pipeview.py).

 Instructions reach the viewer in retire order.  They are parked in a queue; when
 the queue grows past `maxThreshold` it is sorted by sequence number and its front
 is popped until `minThreshold` instructions are left.  At the end of the trace the
 queue is flushed completely.  The module proves exactly when the concatenation of
 all these flushes is sorted, for every stream and every pair of thresholds.
 */
module PipeViewQueue {
  import opened Arithmetic

  /** The part of an instruction record that the queue looks at. */
  datatype Inst = Inst(sn: int, fetch: int, retire: int)

  /** The boundaries that `print_insts` applies to every popped instruction. */
  datatype Bounds = Bounds(snStart: int, snStop: int, tickStart: int, tickStop: int, onlyCommitted: bool)

  datatype Thresholds = Thresholds(max: nat, min: nat) {
    ghost predicate Valid() { min <= max }
  }

  /** The two thresholds the script is shipped with. */
  const DEFAULT_THRESHOLDS := Thresholds(2000, 1000)

  // ----- the stable sort of Python's list.sort(key = sn) -----

  ghost predicate Sorted(s: seq<Inst>) {
    forall i, j :: 0 <= i < j < |s| ==> s[i].sn <= s[j].sn
  }

  /** Places `x` behind every element that is not larger. */
  function Insert(x: Inst, s: seq<Inst>): (r: seq<Inst>)
    ensures |r| == |s| + 1
  {
    if s == [] || s[|s| - 1].sn <= x.sn then s + [x]
    else Insert(x, s[..|s| - 1]) + [s[|s| - 1]]
  }

  lemma {:induction false} InsertPermutes(x: Inst, s: seq<Inst>)
    ensures multiset(Insert(x, s)) == multiset(s) + multiset{x}
  {
    if s != [] && s[|s| - 1].sn > x.sn {
      InsertPermutes(x, s[..|s| - 1]);
      assert s == s[..|s| - 1] + [s[|s| - 1]];
    }
  }

  lemma {:induction false} InsertSorts(x: Inst, s: seq<Inst>)
    requires Sorted(s)
    ensures Sorted(Insert(x, s))
  {
    if s != [] && s[|s| - 1].sn > x.sn {
      var init, last := s[..|s| - 1], s[|s| - 1];
      InsertSorts(x, init);
      InsertPermutes(x, init);
      var r := Insert(x, init);
      forall i | 0 <= i < |r| ensures r[i].sn <= last.sn {
        assert r[i] in multiset(r);
        assert r[i] == x || r[i] in init;
      }
    }
  }

  function StableSort(s: seq<Inst>): (r: seq<Inst>)
    ensures |r| == |s|
  {
    if s == [] then [] else Insert(s[|s| - 1], StableSort(s[..|s| - 1]))
  }

  lemma {:induction false} SortSorts(s: seq<Inst>)
    ensures Sorted(StableSort(s)) && multiset(StableSort(s)) == multiset(s)
  {
    if s != [] {
      var init, last := s[..|s| - 1], s[|s| - 1];
      SortSorts(init);
      InsertSorts(last, StableSort(init));
      InsertPermutes(last, StableSort(init));
      assert s == init + [last];
    }
  }

  function WithSn(s: seq<Inst>, k: int): (r: seq<Inst>)
  {
    if s == [] then []
    else WithSn(s[..|s| - 1], k) + if s[|s| - 1].sn == k then [s[|s| - 1]] else []
  }

  lemma {:induction false} InsertIsStable(x: Inst, s: seq<Inst>, k: int)
    ensures WithSn(Insert(x, s), k) == WithSn(s + [x], k)
  {
    assert (s + [x])[..|s|] == s;
    if s != [] && s[|s| - 1].sn > x.sn {
      var init, last := s[..|s| - 1], s[|s| - 1];
      InsertIsStable(x, init, k);
      assert (init + [x])[..|init|] == init;
      var r := Insert(x, init);
      assert (r + [last])[..|r|] == r;
    }
  }

  /** Instructions with equal sequence numbers keep their arrival order. */
  lemma {:induction false} SortIsStable(s: seq<Inst>, k: int)
    ensures WithSn(StableSort(s), k) == WithSn(s, k)
  {
    if s != [] {
      var init, last := s[..|s| - 1], s[|s| - 1];
      SortIsStable(init, k);
      InsertIsStable(last, StableSort(init), k);
      var t := StableSort(init);
      assert (t + [last])[..|t|] == t;
    }
  }

  // ----- the queue as a state machine -----

  datatype State = State(queue: seq<Inst>, popped: seq<Inst>)

  /** `print_insts`: sort, then pop from the front down to `lower`. */
  function Flush(st: State, lower: nat): State {
    var q := StableSort(st.queue);
    var k := if |q| <= lower then 0 else |q| - lower;
    State(q[k..], st.popped + q[..k])
  }

  /** `queue_inst`: append, and flush when the queue has grown past the maximum. */
  function Enqueue(st: State, x: Inst, t: Thresholds): State {
    var next := State(st.queue + [x], st.popped);
    if |next.queue| > t.max then Flush(next, t.min) else next
  }

  function Run(xs: seq<Inst>, t: Thresholds): State {
    if xs == [] then State([], []) else Enqueue(Run(xs[..|xs| - 1], t), xs[|xs| - 1], t)
  }

  /** Everything popped for a whole stream, the final flush included. */
  function Output(xs: seq<Inst>, t: Thresholds): seq<Inst> {
    Flush(Run(xs, t), 0).popped
  }

  predicate Keeps(b: Bounds, x: Inst) {
    && !(b.snStart > 0 && x.sn < b.snStart)
    && !(b.snStop > 0 && x.sn > b.snStop)
    && !(b.tickStart > 0 && x.fetch < b.tickStart)
    && !(b.tickStop > 0 && x.fetch > b.tickStop)
    && !(b.onlyCommitted && x.retire == 0)
  }

  function Kept(b: Bounds, s: seq<Inst>): seq<Inst> {
    if s == [] then [] else Kept(b, s[..|s| - 1]) + if Keeps(b, s[|s| - 1]) then [s[|s| - 1]] else []
  }

  lemma KeptSnoc(b: Bounds, s: seq<Inst>, x: Inst)
    ensures Kept(b, s + [x]) == Kept(b, s) + if Keeps(b, x) then [x] else []
  {
    assert (s + [x])[..|s|] == s;
  }

  lemma {:induction false} KeptMembers(b: Bounds, s: seq<Inst>, x: Inst)
    ensures x in Kept(b, s) <==> x in s && Keeps(b, x)
  {
    if s != [] {
      KeptMembers(b, s[..|s| - 1], x);
      assert s == s[..|s| - 1] + [s[|s| - 1]];
    }
  }

  lemma {:induction false} KeptSorted(b: Bounds, s: seq<Inst>)
    requires Sorted(s)
    ensures Sorted(Kept(b, s))
  {
    if s != [] {
      KeptSorted(b, s[..|s| - 1]);
      var r := Kept(b, s[..|s| - 1]);
      forall i | 0 <= i < |r| ensures r[i].sn <= s[|s| - 1].sn {
        assert r[i] in r;
        KeptMembers(b, s[..|s| - 1], r[i]);
      }
    }
  }

  // ----- conservation -----

  /** What a flush does: `front` leaves the queue, in order, and nothing else moves. */
  lemma FlushFacts(st: State, lower: nat) returns (front: seq<Inst>)
    ensures var r := Flush(st, lower);
            && r.popped == st.popped + front
            && multiset(front) + multiset(r.queue) == multiset(st.queue)
            && |r.queue| == (if |st.queue| <= lower then |st.queue| else lower)
            && |front| + |r.queue| == |st.queue|
            && Sorted(front + r.queue)
  {
    var q := StableSort(st.queue);
    SortSorts(st.queue);
    var k := if |q| <= lower then 0 else |q| - lower;
    front := q[..k];
    assert q == front + q[k..];
  }

  lemma EnqueueConserves(st: State, x: Inst, t: Thresholds)
    ensures var r := Enqueue(st, x, t);
            && multiset(r.popped) + multiset(r.queue) == multiset(st.popped) + multiset(st.queue) + multiset{x}
            && |r.popped| + |r.queue| == |st.popped| + |st.queue| + 1
  {
    var full := State(st.queue + [x], st.popped);
    assert multiset(full.queue) == multiset(st.queue) + multiset{x};
    if |full.queue| > t.max {
      var front := FlushFacts(full, t.min);
      var r := Flush(full, t.min);
      var p, q, f := multiset(st.popped), multiset(r.queue), multiset(front);
      assert multiset(r.popped) == p + f;
      assert p + f + q == p + (f + q);
      assert p + multiset(st.queue) + multiset{x} == p + multiset(full.queue);
    } else {
      assert multiset(st.popped) + multiset(st.queue) + multiset{x} == multiset(st.popped) + multiset(full.queue);
    }
  }

  lemma MultisetCancel(a: multiset<Inst>, b: multiset<Inst>, c: multiset<Inst>)
    requires c + a == c + b
    ensures a == b
  {
    assert a == c + a - c;
    assert b == c + b - c;
  }

  lemma {:induction false} RunConserves(xs: seq<Inst>, t: Thresholds)
    ensures var st := Run(xs, t);
            && multiset(st.popped) + multiset(st.queue) == multiset(xs)
            && |st.popped| + |st.queue| == |xs|
  {
    if xs != [] {
      var init, x := xs[..|xs| - 1], xs[|xs| - 1];
      RunConserves(init, t);
      assert xs == init + [x];
      EnqueueConserves(Run(init, t), x, t);
    }
  }

  /** Whatever the stream, the popped instructions are a permutation of the queued ones. */
  lemma OutputIsPermutation(xs: seq<Inst>, t: Thresholds)
    ensures multiset(Output(xs, t)) == multiset(xs)
    ensures |Output(xs, t)| == |xs|
  {
    RunConserves(xs, t);
    var front := FlushFacts(Run(xs, t), 0);
  }

  // ----- when flushes happen -----

  /** Closed form of the queue length after `n` arrivals. */
  function QueueLength(n: nat, t: Thresholds): nat
    requires t.Valid()
  {
    if n <= t.max then n else t.min + (n - t.max - 1) % (t.max - t.min + 1)
  }

  /** The arrivals that trigger a partial flush. */
  ghost predicate FlushPoint(n: int, t: Thresholds)
    requires t.Valid()
  {
    n > t.max && (n - t.max - 1) % (t.max - t.min + 1) == 0
  }

  lemma ModStep(a: nat, m: nat)
    requires m > 0
    ensures (a + 1) % m == if a % m + 1 == m then 0 else a % m + 1
  {
    var q, r := a / m, a % m;
    assert a == q * m + r;
    if r + 1 == m {
      assert a + 1 == (q + 1) * m;
      ModUnique(a + 1, q + 1, 0, m);
    } else {
      ModUnique(a + 1, q, r + 1, m);
    }
  }

  lemma ModUnique(a: nat, q: nat, r: nat, m: nat)
    requires m > 0 && r < m && a == q * m + r
    ensures a % m == r
  {
    var q', r' := a / m, a % m;
    assert a == q' * m + r';
    assert (q - q') * m == r' - r;
    MultipleBound(q - q', m);
  }

  lemma QueueLengthStep(n: nat, t: Thresholds)
    requires t.Valid()
    ensures QueueLength(n, t) <= t.max
    ensures QueueLength(n + 1, t) == if QueueLength(n, t) == t.max then t.min else QueueLength(n, t) + 1
    ensures FlushPoint(n + 1, t) <==> QueueLength(n, t) == t.max
  {
    if n > t.max {
      ModStep(n - t.max - 1, t.max - t.min + 1);
    }
  }

  lemma {:induction false} RunLength(xs: seq<Inst>, t: Thresholds)
    requires t.Valid()
    ensures |Run(xs, t).queue| == QueueLength(|xs|, t)
  {
    if xs != [] {
      var init, x := xs[..|xs| - 1], xs[|xs| - 1];
      RunLength(init, t);
      QueueLengthStep(|init|, t);
      var st := Run(init, t);
      var front := FlushFacts(State(st.queue + [x], st.popped), t.min);
    }
  }

  /** As shipped, the 2001st instruction and then every 1001st one makes the queue shrink to 1000. */
  lemma DefaultLength(xs: seq<Inst>)
    ensures |Run(xs, DEFAULT_THRESHOLDS).queue| == if |xs| <= 2000 then |xs| else 1000 + (|xs| - 2001) % 1001
  {
    RunLength(xs, DEFAULT_THRESHOLDS);
  }

  // ----- counting -----

  function CountLe(s: seq<Inst>, k: int): (c: nat)
    ensures c <= |s|
  {
    if s == [] then 0 else CountLe(s[..|s| - 1], k) + if s[|s| - 1].sn <= k then 1 else 0
  }

  lemma {:induction false} CountLeConcat(a: seq<Inst>, b: seq<Inst>, k: int)
    ensures CountLe(a + b, k) == CountLe(a, k) + CountLe(b, k)
  {
    if b == [] {
      assert a + b == a;
    } else {
      CountLeConcat(a, b[..|b| - 1], k);
      assert (a + b)[..|a + b| - 1] == a + b[..|b| - 1];
    }
  }

  lemma CountLeRemove(b: seq<Inst>, i: nat, k: int)
    requires i < |b|
    ensures CountLe(b, k) == CountLe(b[..i] + b[i + 1..], k) + if b[i].sn <= k then 1 else 0
  {
    var x := b[i];
    assert b == (b[..i] + [x]) + b[i + 1..];
    CountLeConcat(b[..i] + [x], b[i + 1..], k);
    CountLeConcat(b[..i], b[i + 1..], k);
    assert (b[..i] + [x])[..i] == b[..i];
  }

  lemma MultisetRemove(a: seq<Inst>, b: seq<Inst>, i: nat)
    requires a != [] && multiset(a) == multiset(b) && i < |b| && b[i] == a[|a| - 1]
    ensures multiset(a[..|a| - 1]) == multiset(b[..i] + b[i + 1..])
  {
    var init, x, c := a[..|a| - 1], a[|a| - 1], b[..i] + b[i + 1..];
    assert a == init + [x];
    assert b == b[..i] + [x] + b[i + 1..];
    assert multiset{x} + multiset(init) == multiset(a);
    assert multiset{x} + multiset(c) == multiset(b);
    MultisetCancel(multiset(init), multiset(c), multiset{x});
  }

  lemma {:induction false} CountLePermutation(a: seq<Inst>, b: seq<Inst>, k: int)
    requires multiset(a) == multiset(b)
    ensures CountLe(a, k) == CountLe(b, k)
    decreases |a|
  {
    if a == [] {
      assert |multiset(b)| == |b|;
    } else {
      assert a[|a| - 1] in multiset(b);
      var i :| 0 <= i < |b| && b[i] == a[|a| - 1];
      MultisetRemove(a, b, i);
      CountLePermutation(a[..|a| - 1], b[..i] + b[i + 1..], k);
      CountLeRemove(b, i, k);
    }
  }

  lemma {:induction false} CountLeAll(s: seq<Inst>, k: int)
    requires forall x :: x in s ==> x.sn <= k
    ensures CountLe(s, k) == |s|
  {
    if s != [] { CountLeAll(s[..|s| - 1], k); }
  }

  lemma {:induction false} CountLeNone(s: seq<Inst>, k: int)
    requires forall x :: x in s ==> x.sn > k
    ensures CountLe(s, k) == 0
  {
    if s != [] { CountLeNone(s[..|s| - 1], k); }
  }

  lemma {:induction false} CountLeMonotone(s: seq<Inst>, k: int, k': int)
    requires k <= k'
    ensures CountLe(s, k) <= CountLe(s, k')
  {
    if s != [] { CountLeMonotone(s[..|s| - 1], k, k'); }
  }

  // ----- exactly when the whole output is sorted -----

  /**
   What the input must satisfy: whenever a partial flush happens after `n` arrivals, each
   later arrival is preceded, in sequence-number order, by all but `min` of those `n`.
   */
  ghost predicate OnTime(xs: seq<Inst>, t: Thresholds)
    requires t.Valid()
  {
    forall n, j :: FlushPoint(n, t) && n <= j < |xs| ==> CountLe(xs[..n], xs[j].sn) >= n - t.min
  }

  /** No element of `a` exceeds an element of `b`. */
  ghost predicate Below(a: seq<Inst>, b: seq<Inst>) {
    forall x, y :: x in a && y in b ==> x.sn <= y.sn
  }

  /** The invariant behind the sorted output: popped <= parked, popped <= still to come. */
  ghost predicate Ordered(st: State, future: seq<Inst>) {
    Sorted(st.popped) && Below(st.popped, st.queue) && Below(st.popped, future)
  }

  lemma FlushOrdered(st: State, lower: nat)
    requires Sorted(st.popped) && Below(st.popped, st.queue)
    ensures var r := Flush(st, lower); Sorted(r.popped) && Below(r.popped, r.queue)
  {
    var front := FlushFacts(st, lower);
    var rest := Flush(st, lower).queue;
    SortedConcat(st.popped, st.queue, front, rest);
  }

  lemma SortedConcat(popped: seq<Inst>, queue: seq<Inst>, front: seq<Inst>, rest: seq<Inst>)
    requires Sorted(popped) && Below(popped, queue)
    requires Sorted(front + rest) && multiset(front) + multiset(rest) == multiset(queue)
    ensures Sorted(popped + front) && Below(popped + front, rest)
  {
    var q := front + rest;
    forall x | x in q ensures x in queue {
      assert x in multiset(front) + multiset(rest);
    }
    forall i, j | 0 <= i < |popped| && 0 <= j < |q| ensures popped[i].sn <= q[j].sn {
      assert popped[i] in popped && q[j] in q;
    }
    forall i, j | 0 <= i < j < |popped + front| ensures (popped + front)[i].sn <= (popped + front)[j].sn {
      if i < |popped| <= j {
        assert q[j - |popped|] == (popped + front)[j];
      } else if |popped| <= i {
        assert q[i - |popped|].sn <= q[j - |popped|].sn;
      }
    }
    forall x, y | x in popped + front && y in rest ensures x.sn <= y.sn {
      var j :| 0 <= j < |rest| && rest[j] == y;
      assert q[|front| + j] == y;
      if x in popped {
        var i :| 0 <= i < |popped| && popped[i] == x;
      } else {
        var i :| 0 <= i < |front| && front[i] == x;
        assert q[i] == x;
      }
    }
  }

  /** If some popped element exceeds `y`, fewer than |popped| arrivals are at most `y`. */
  lemma TooFewBelow(popped: seq<Inst>, queue: seq<Inst>, y: int)
    requires Sorted(popped) && Below(popped, queue)
    requires popped != [] && popped[|popped| - 1].sn > y
    ensures CountLe(popped + queue, y) < |popped|
  {
    var init, last := popped[..|popped| - 1], popped[|popped| - 1];
    assert popped == init + [last];
    assert last in popped;
    CountLeNone(queue, y);
    CountLeConcat(popped, queue, y);
    CountLeConcat(init, [last], y);
    CountLeNone([last], y);
  }

  /** A flush that leaves `popped` and `queue` of the first `n` arrivals is not ahead of arrival `y`. */
  lemma EnoughBelow(xs: seq<Inst>, popped: seq<Inst>, queue: seq<Inst>, y: int)
    requires Sorted(popped) && Below(popped, queue)
    requires multiset(popped) + multiset(queue) == multiset(xs)
    requires CountLe(xs, y) >= |popped|
    ensures forall p :: p in popped ==> p.sn <= y
  {
    if popped != [] {
      var all := popped + queue;
      assert multiset(all) == multiset(xs);
      CountLePermutation(all, xs, y);
      if popped[|popped| - 1].sn > y {
        TooFewBelow(popped, queue, y);
        assert false;
      }
    }
  }

  lemma FlushStaysBelowFuture(xs: seq<Inst>, n: nat, t: Thresholds)
    requires t.Valid() && OnTime(xs, t) && 0 < n <= |xs| && FlushPoint(n, t)
    requires var st := Run(xs[..n], t); Sorted(st.popped) && Below(st.popped, st.queue)
    ensures Below(Run(xs[..n], t).popped, xs[n..])
  {
    var st := Run(xs[..n], t);
    RunLength(xs[..n], t);
    RunConserves(xs[..n], t);
    forall y | y in xs[n..] ensures forall p :: p in st.popped ==> p.sn <= y.sn {
      var j :| 0 <= j < |xs[n..]| && xs[n..][j] == y;
      assert y == xs[n + j];
      EnoughBelow(xs[..n], st.popped, st.queue, y.sn);
    }
  }

  lemma EnqueueOrdered(st: State, x: Inst, t: Thresholds)
    requires Sorted(st.popped) && Below(st.popped, st.queue)
    requires forall p :: p in st.popped ==> p.sn <= x.sn
    ensures var r := Enqueue(st, x, t); Sorted(r.popped) && Below(r.popped, r.queue)
    ensures |st.queue| < t.max ==> Enqueue(st, x, t).popped == st.popped
  {
    var full := State(st.queue + [x], st.popped);
    assert Below(full.popped, full.queue);
    FlushOrdered(full, t.min);
  }

  lemma {:induction false} OnTimeKeepsOrder(xs: seq<Inst>, n: nat, t: Thresholds)
    requires t.Valid() && OnTime(xs, t) && n <= |xs|
    ensures Ordered(Run(xs[..n], t), xs[n..])
  {
    if n > 0 {
      OnTimeKeepsOrder(xs, n - 1, t);
      assert xs[..n][..n - 1] == xs[..n - 1];
      var before, x := Run(xs[..n - 1], t), xs[n - 1];
      assert xs[n - 1..] == [x] + xs[n..];
      assert x in xs[n - 1..];
      EnqueueOrdered(before, x, t);
      RunLength(xs[..n - 1], t);
      QueueLengthStep(n - 1, t);
      if FlushPoint(n, t) {
        FlushStaysBelowFuture(xs, n, t);
      } else {
        assert Run(xs[..n], t).popped == before.popped;
      }
    }
  }

  lemma {:induction false} PoppedIsPrefix(xs: seq<Inst>, n: nat, t: Thresholds)
    requires n <= |xs|
    ensures Run(xs[..n], t).popped <= Run(xs, t).popped
    decreases |xs|
  {
    if n == |xs| {
      assert xs[..n] == xs;
    } else {
      var init := xs[..|xs| - 1];
      PoppedIsPrefix(init, n, t);
      assert init[..n] == xs[..n];
    }
  }

  /** A later arrival is output behind everything that an earlier flush has popped. */
  lemma LaterArrivalIsBehind(xs: seq<Inst>, n: nat, j: nat, t: Thresholds)
    requires n <= j < |xs|
    ensures var p := Run(xs[..n], t).popped;
            p <= Output(xs, t) && xs[j] in Output(xs, t)[|p|..]
  {
    var early, out := Run(xs[..n], t), Output(xs, t);
    PoppedIsPrefix(xs, n, t);
    OutputIsPermutation(xs, t);
    RunConserves(xs[..n], t);
    assert early.popped <= out;
    SuffixHolds(xs, n, j, early.popped, early.queue, out);
  }

  lemma SuffixHolds(xs: seq<Inst>, n: nat, j: nat, popped: seq<Inst>, queue: seq<Inst>, out: seq<Inst>)
    requires n <= j < |xs| && popped <= out
    requires multiset(out) == multiset(xs)
    requires multiset(popped) + multiset(queue) == multiset(xs[..n])
    ensures xs[j] in out[|popped|..]
  {
    var rest := out[|popped|..];
    assert out == popped + rest;
    assert xs == xs[..n] + xs[n..];
    assert multiset(out) == multiset(popped) + multiset(rest);
    assert multiset(xs) == multiset(xs[..n]) + multiset(xs[n..]);
    var p, q, r := multiset(popped), multiset(queue), multiset(xs[n..]);
    assert p + (q + r) == p + q + r;
    MultisetCancel(multiset(rest), q + r, p);
    assert xs[j] == xs[n..][j - n];
    assert xs[j] in multiset(rest);
  }

  lemma SortedOutputIsOnTime(xs: seq<Inst>, t: Thresholds, n: nat, j: nat)
    requires t.Valid() && Sorted(Output(xs, t)) && FlushPoint(n, t) && n <= j < |xs|
    ensures CountLe(xs[..n], xs[j].sn) >= n - t.min
  {
    hide *;
    PoppedIsBefore(xs, t, n, j);
    PoppedAreCounted(xs, t, n, xs[j].sn);
  }

  /** If the output is sorted, what was popped before an instruction arrives is not behind it. */
  lemma PoppedIsBefore(xs: seq<Inst>, t: Thresholds, n: nat, j: nat)
    requires t.Valid() && Sorted(Output(xs, t)) && FlushPoint(n, t) && n <= j < |xs|
    ensures forall x :: x in Run(xs[..n], t).popped ==> x.sn <= xs[j].sn
  {
    var popped, out := Run(xs[..n], t).popped, Output(xs, t);
    LaterArrivalIsBehind(xs, n, j, t);
    hide Run, Output;
    forall x | x in popped ensures x.sn <= xs[j].sn {
      var i :| 0 <= i < |popped| && popped[i] == x;
      var k :| |popped| <= k < |out| && out[k] == xs[j];
      assert out[i] == x;
    }
  }

  /** What was popped by a flush counts among the smaller numbers that have arrived. */
  lemma PoppedAreCounted(xs: seq<Inst>, t: Thresholds, n: nat, sn: int)
    requires t.Valid() && FlushPoint(n, t) && n <= |xs| && forall x :: x in Run(xs[..n], t).popped ==> x.sn <= sn
    ensures CountLe(xs[..n], sn) >= n - t.min
  {
    var st := Run(xs[..n], t);
    RunConserves(xs[..n], t);
    RunLength(xs[..n], t);
    assert |st.popped| >= n - t.min;
    hide *;
    CountLeAll(st.popped, sn);
    CountLeConcat(st.popped, st.queue, sn);
    CountLePermutation(st.popped + st.queue, xs[..n], sn);
  }

  /** Main result: the concatenated flushes are sorted exactly for the streams that are on time. */
  lemma OutputSortedIff(xs: seq<Inst>, t: Thresholds)
    requires t.Valid()
    ensures Sorted(Output(xs, t)) <==> OnTime(xs, t)
  {
    if OnTime(xs, t) {
      OnTimeKeepsOrder(xs, |xs|, t);
      assert xs[..|xs|] == xs;
      FlushOrdered(Run(xs, t), 0);
    }
    if Sorted(Output(xs, t)) {
      forall n, j | FlushPoint(n, t) && n <= j < |xs|
        ensures CountLe(xs[..n], xs[j].sn) >= n - t.min
      {
        SortedOutputIsOnTime(xs, t, n, j);
      }
    }
  }

  // ----- the assumption written at the top of the script -----

  ghost predicate Before(xs: seq<Inst>, i: nat, j: nat)
    requires i < |xs| && j < |xs|
  {
    xs[i].sn < xs[j].sn || (xs[i].sn == xs[j].sn && i < j)
  }

  /** How many of the first `m` arrivals precede arrival `j` in sequence-number order. */
  ghost function Rank(xs: seq<Inst>, j: nat, m: nat): nat
    requires j < |xs| && m <= |xs|
  {
    if m == 0 then 0 else Rank(xs, j, m - 1) + if Before(xs, m - 1, j) then 1 else 0
  }

  /** No instruction arrives more than `min` places later than its rank. */
  ghost predicate BoundedDisplacement(xs: seq<Inst>, t: Thresholds) {
    forall j :: 0 <= j < |xs| ==> j - Rank(xs, j, |xs|) <= t.min
  }

  lemma {:induction false} EarliestFrom(xs: seq<Inst>, n: nat, j: nat) returns (e: nat)
    requires n <= j < |xs|
    ensures n <= e <= j
    ensures forall i :: n <= i <= j && i != e ==> !Before(xs, i, e)
  {
    if j == n {
      e := n;
    } else {
      var d := EarliestFrom(xs, n, j - 1);
      e := if Before(xs, j, d) then j else d;
      forall i | n <= i <= j && i != e ensures !Before(xs, i, e) {
        assert i == d || i == j || !Before(xs, i, d);
      }
    }
  }

  lemma {:induction false} RankIsCount(xs: seq<Inst>, e: nat, n: nat, m: nat)
    requires n <= e < |xs| && m <= |xs|
    requires forall i :: n <= i < |xs| && i != e ==> !Before(xs, i, e)
    ensures Rank(xs, e, m) == CountLe(xs[..if m <= n then m else n], xs[e].sn)
  {
    if m > 0 {
      RankIsCount(xs, e, n, m - 1);
      if m <= n {
        assert xs[..m][..m - 1] == xs[..m - 1];
      }
    }
  }

  /** The documented assumption is enough for sorted output, and for sorted printed lines. */
  lemma BoundedDisplacementSorts(xs: seq<Inst>, t: Thresholds, b: Bounds)
    requires t.Valid() && BoundedDisplacement(xs, t)
    ensures Sorted(Output(xs, t)) && Sorted(Kept(b, Output(xs, t)))
  {
    forall n, j | FlushPoint(n, t) && n <= j < |xs|
      ensures CountLe(xs[..n], xs[j].sn) >= n - t.min
    {
      var e := EarliestFrom(xs, n, |xs| - 1);
      RankIsCount(xs, e, n, |xs|);
      assert e == j || !Before(xs, j, e);
      CountLeMonotone(xs[..n], xs[e].sn, xs[j].sn);
    }
    OutputSortedIff(xs, t);
    KeptSorted(b, Output(xs, t));
  }

  /** The assumption is not necessary: a trace that never fills the queue is always sorted. */
  lemma ShortStreamSorts(xs: seq<Inst>, t: Thresholds)
    requires t.Valid() && |xs| <= t.max + 1
    ensures Sorted(Output(xs, t))
  {
    OutputSortedIff(xs, t);
  }

  // ----- the script's own objects -----

  /** One line of an O3PipeView trace, as far as the queue depends on it. */
  datatype Line = Fetch(sn: int, tick: int) | Retire(tick: int) | Other

  /** The early stop of `process_trace`, checked at every fetch line. */
  predicate Stops(l: Line, b: Bounds, drift: int, t: Thresholds) {
    l.Fetch? && ((b.tickStop > 0 && l.tick > b.tickStop + drift) || (b.snStop > 0 && l.sn > b.snStop + t.max))
  }

  /** The instructions that a trace makes `process_trace` queue, in queueing order. */
  function Queued(lines: seq<Line>, cur: Inst, b: Bounds, drift: int, t: Thresholds): seq<Inst> {
    if lines == [] || Stops(lines[0], b, drift, t) then []
    else match lines[0]
      case Fetch(sn, tick) => Queued(lines[1..], cur.(sn := sn, fetch := tick), b, drift, t)
      case Retire(tick) => [cur.(retire := tick)] + Queued(lines[1..], cur.(retire := tick), b, drift, t)
      case Other => Queued(lines[1..], cur, b, drift, t)
  }

  // ----- the same, said about the lines -----

  /** The instruction is inside the boundaries that are set; 0 stands for none. */
  ghost predicate InBounds(b: Bounds, x: Inst) {
    && (b.snStart <= 0 || b.snStart <= x.sn) && (b.snStop <= 0 || x.sn <= b.snStop)
    && (b.tickStart <= 0 || b.tickStart <= x.fetch) && (b.tickStop <= 0 || x.fetch <= b.tickStop)
    && (b.onlyCommitted ==> x.retire != 0)
  }

  lemma KeptIsInBounds(b: Bounds, s: seq<Inst>)
    ensures forall x :: x in Kept(b, s) <==> x in s && InBounds(b, x)
  {
    forall x ensures x in Kept(b, s) <==> x in s && InBounds(b, x) { KeptMembers(b, s, x); }
  }

  /** A fetch beyond the last tick or the last sequence number, with what may still come late. */
  ghost predicate IsBeyond(l: Line, b: Bounds, drift: int, t: Thresholds) {
    l.Fetch? && ((b.tickStop > 0 && b.tickStop + drift < l.tick) || (b.snStop > 0 && b.snStop + t.max < l.sn))
  }

  /** Line `n` is the first one beyond the region, or the end of the trace. */
  ghost predicate IsEnd(lines: seq<Line>, b: Bounds, drift: int, t: Thresholds, n: nat) {
    n <= |lines| && (n < |lines| ==> IsBeyond(lines[n], b, drift, t)) && forall k :: 0 <= k < n ==> !IsBeyond(lines[k], b, drift, t)
  }

  /** How many of the first `k` lines retire an instruction. */
  function Retires(lines: seq<Line>, k: nat): (r: nat)
    requires k <= |lines|
  {
    if k == 0 then 0 else Retires(lines, k - 1) + if lines[k - 1].Retire? then 1 else 0
  }

  lemma {:induction false} RetiresTail(lines: seq<Line>, k: nat)
    requires 1 <= k <= |lines|
    ensures Retires(lines, k) == (if lines[0].Retire? then 1 else 0) + Retires(lines[1..], k - 1)
  {
    if k > 1 { RetiresTail(lines, k - 1); } else { assert Retires(lines, 0) == 0; }
  }

  /** Line `f` is the last fetch before line `k`. */
  ghost predicate IsLastFetch(lines: seq<Line>, f: nat, k: nat) {
    f < k <= |lines| && lines[f].Fetch? && forall j :: f < j < k ==> !lines[j].Fetch?
  }

  ghost predicate NoFetch(lines: seq<Line>, k: nat) { k <= |lines| && forall j :: 0 <= j < k ==> !lines[j].Fetch? }

  /** The instruction that line `k` retires. */
  ghost predicate IsRetired(lines: seq<Line>, cur: Inst, k: nat, x: Inst)
    requires k < |lines| && lines[k].Retire?
  {
    && x.retire == lines[k].tick && (forall f :: 0 <= f < k && IsLastFetch(lines, f, k) ==> lines[f].Fetch? && x.sn == lines[f].sn && x.fetch == lines[f].tick)
    && (NoFetch(lines, k) ==> x.sn == cur.sn && x.fetch == cur.fetch)
  }

  function Fed(cur: Inst, l: Line): (r: Inst)
    ensures r.sn == (if l.Fetch? then l.sn else cur.sn) && r.fetch == (if l.Fetch? then l.tick else cur.fetch)
    ensures r.retire == if l.Retire? then l.tick else cur.retire
  {
    match l
    case Fetch(sn, tick) => cur.(sn := sn, fetch := tick)
    case Retire(tick) => cur.(retire := tick)
    case Other => cur
  }

  lemma QueuedUnfolds(lines: seq<Line>, cur: Inst, b: Bounds, drift: int, t: Thresholds)
    requires lines != [] && !IsBeyond(lines[0], b, drift, t)
    ensures Queued(lines, cur, b, drift, t)
         == (if lines[0].Retire? then [Fed(cur, lines[0])] else []) + Queued(lines[1..], Fed(cur, lines[0]), b, drift, t)
  {
  }

  /** Entry `k` is a retirement whose instruction is queued behind those retired before it. */
  ghost predicate IsQueued(lines: seq<Line>, cur: Inst, k: nat, q: seq<Inst>)
    requires k < |lines| && lines[k].Retire?
  {
    Retires(lines, k) < |q| && IsRetired(lines, cur, k, q[Retires(lines, k)])
  }

  /** The queued instructions are those that the lines of the region retire, each with the fetch before it. */
  lemma {:induction false} QueuedMeans(lines: seq<Line>, cur: Inst, b: Bounds, drift: int, t: Thresholds, n: nat)
    requires IsEnd(lines, b, drift, t, n)
    ensures |Queued(lines, cur, b, drift, t)| == Retires(lines, n)
    ensures forall k :: 0 <= k < n && lines[k].Retire? ==> IsQueued(lines, cur, k, Queued(lines, cur, b, drift, t))
  {
    if n > 0 {
      hide *;
      EndLater(lines, b, drift, t, n);
      QueuedMeans(lines[1..], Fed(cur, lines[0]), b, drift, t, n - 1);
      RetiresTail(lines, n);
      QueuedUnfolds(lines, cur, b, drift, t);
      forall k | 0 <= k < n && lines[k].Retire? ensures IsQueued(lines, cur, k, Queued(lines, cur, b, drift, t)) {
        QueuedLater(lines, cur, k, Queued(lines[1..], Fed(cur, lines[0]), b, drift, t));
      }
    }
  }

  lemma EndLater(lines: seq<Line>, b: Bounds, drift: int, t: Thresholds, n: nat)
    requires IsEnd(lines, b, drift, t, n) && n > 0
    ensures lines != [] && !IsBeyond(lines[0], b, drift, t) && IsEnd(lines[1..], b, drift, t, n - 1)
  {
    assert forall k :: 0 <= k < |lines| - 1 ==> lines[1..][k] == lines[k + 1];
  }

  lemma QueuedLater(lines: seq<Line>, cur: Inst, k: nat, q: seq<Inst>)
    requires k < |lines| && lines[k].Retire?
    requires k > 0 ==> lines[1..][k - 1] == lines[k] && IsQueued(lines[1..], Fed(cur, lines[0]), k - 1, q)
    ensures IsQueued(lines, cur, k, (if lines[0].Retire? then [Fed(cur, lines[0])] else []) + q)
  {
    hide IsRetired, Retires;
    if k > 0 {
      RetiresTail(lines, k);
      RetiredLater(lines, cur, k, q[Retires(lines[1..], k - 1)]);
    } else {
      RetiredFirst(lines, cur);
    }
  }

  lemma RetiredFirst(lines: seq<Line>, cur: Inst)
    requires lines != [] && lines[0].Retire?
    ensures Retires(lines, 0) == 0 && IsRetired(lines, cur, 0, Fed(cur, lines[0]))
  {
  }

  lemma RetiredLater(lines: seq<Line>, cur: Inst, k: nat, x: Inst)
    requires 1 <= k < |lines| && lines[k].Retire? && IsRetired(lines[1..], Fed(cur, lines[0]), k - 1, x)
    ensures IsRetired(lines, cur, k, x)
  {
    var rest := lines[1..];
    assert forall j :: 0 <= j < |rest| ==> rest[j] == lines[j + 1];
    forall f | 0 <= f < k && IsLastFetch(lines, f, k) ensures x.sn == lines[f].sn && x.fetch == lines[f].tick {
      if f > 0 { assert IsLastFetch(rest, f - 1, k - 1); } else { assert NoFetch(rest, k - 1); }
    }
    if NoFetch(lines, k) { assert NoFetch(rest, k - 1); }
  }

  class Viewer {
    const t: Thresholds
    const bounds: Bounds
    var queue: seq<Inst>
    var printed: seq<Inst>
    ghost var popped: seq<Inst>

    ghost function Abs(): State reads this { State(queue, popped) }

    ghost predicate Valid() reads this { printed == Kept(bounds, popped) }

    constructor (t: Thresholds, bounds: Bounds)
      ensures Valid() && Abs() == State([], []) && this.t == t && this.bounds == bounds
    {
      this.t, this.bounds := t, bounds;
      queue, printed, popped := [], [], [];
    }

    method PrintInsts(lower: nat)
      requires Valid()
      modifies this
      ensures Valid() && Abs() == Flush(old(Abs()), lower)
    {
      queue := StableSort(queue);
      ghost var q, p := queue, popped;
      PopDown(lower);
      ghost var k := |q| - |queue|;
      assert queue == (p + q)[|p| + k..] == q[k..];
      assert popped == (p + q)[..|p| + k] == p + q[..k];
    }

    /** The popping loop of `print_insts`, with its boundary filter. */
    method PopDown(lower: nat)
      requires Valid()
      modifies this
      ensures Valid() && popped + queue == old(popped + queue)
      ensures |queue| == if |old(queue)| <= lower then |old(queue)| else lower
    {
      while |queue| > lower
        invariant popped + queue == old(popped + queue)
        invariant |queue| == |old(queue)| || lower <= |queue| <= |old(queue)|
        invariant Valid()
      {
        var item := queue[0];
        KeptSnoc(bounds, popped, item);
        assert popped + queue == popped + [item] + queue[1..];
        queue, popped := queue[1..], popped + [item];
        if Keeps(bounds, item) {
          printed := printed + [item];
        }
      }
    }

    method QueueInst(x: Inst)
      requires Valid()
      modifies this
      ensures Valid() && Abs() == Enqueue(old(Abs()), x, t)
    {
      queue := queue + [x];
      if |queue| > t.max {
        PrintInsts(t.min);
      }
    }

    /** The region-of-interest loop of `process_trace`. */
    method ProcessTrace(lines: seq<Line>, drift: int)
      requires Valid() && Abs() == State([], [])
      requires lines != [] ==> lines[0].Fetch?
      modifies this
      ensures Valid() && queue == []
      ensures popped == Output(Queued(lines, Inst(0, 0, 0), bounds, drift, t), t)
      ensures printed == Kept(bounds, popped) && forall x :: x in printed <==> x in popped && InBounds(bounds, x)
    {
      var i, cur := 0, Inst(0, 0, 0);
      ghost var done: seq<Inst> := [];
      ghost var all := Queued(lines, cur, bounds, drift, t);
      while i < |lines| && !Stops(lines[i], bounds, drift, t)
        invariant i <= |lines| && Valid()
        invariant all == done + Queued(lines[i..], cur, bounds, drift, t)
        invariant Abs() == Run(done, t)
      {
        match lines[i] {
          case Fetch(sn, tick) => cur := cur.(sn := sn, fetch := tick);
          case Retire(tick) =>
            cur := cur.(retire := tick);
            QueueInst(cur);
            assert (done + [cur])[..|done|] == done;
            done := done + [cur];
          case Other =>
        }
        assert lines[i..][1..] == lines[i + 1..];
        i := i + 1;
      }
      assert all == done;
      PrintInsts(0);
      KeptIsInBounds(bounds, popped);
    }
  }
}
