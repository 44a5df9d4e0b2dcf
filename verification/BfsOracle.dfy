/**
 The software BFS oracle (scripts/bfs_oracle_trace.py).

 A level-synchronous breadth-first search updates a parent array in place and emits, for
 every adjacency slot it looks at, one "lane" of trace events.  The module proves, for every
 finite graph (cycles, self-loops and repeated neighbours included), that the search finds
 shortest paths, and that the trace accounts for every slot and every discovered vertex.
 */
module BfsOracle {

  type Graph = seq<seq<nat>>

  ghost predicate WellFormed(adj: Graph) {
    forall u, i :: 0 <= u < |adj| && 0 <= i < |adj[u]| ==> adj[u][i] < |adj|
  }

  // ----- walks and distances: the reference the search is measured against -----

  /** Some walk along the edges leads from `s` to `v` in exactly `k` steps. */
  ghost predicate Walk(adj: Graph, s: nat, v: nat, k: nat)
    decreases k
  {
    if k == 0 then v == s
    else exists u: nat :: u < |adj| && v in adj[u] && Walk(adj, s, u, k - 1)
  }

  ghost predicate IsDistance(adj: Graph, s: nat, v: nat, d: nat) {
    Walk(adj, s, v, d) && forall k: nat :: k < d ==> !Walk(adj, s, v, k)
  }

  ghost predicate Reachable(adj: Graph, s: nat, v: nat) {
    exists k: nat :: Walk(adj, s, v, k)
  }

  /** Following `parent` from `v` reaches `s` along graph edges in exactly `d` steps. */
  ghost predicate ParentChain(adj: Graph, s: nat, parent: seq<int>, v: nat, d: nat)
    decreases d
  {
    if d == 0 then v == s
    else && v != s && v < |parent| && 0 <= parent[v] < |adj| && v in adj[parent[v]]
         && ParentChain(adj, s, parent, parent[v], d - 1)
  }

  // ----- the trace -----

  datatype Kind = QueueLoad | IndexLoad | IndexBegin | NeighborLoad | ParentLoad | ParentCas
  datatype Request = Request(kind: Kind, address: nat, value: int)

  /** One call of `lane`: the adjacency slot it is for, and the parent value it loaded. */
  datatype Lane = Lane(invocation: nat, qidx: nat, u: nat, bound: nat, vidx: nat, v: nat, loaded: int)
  {
    predicate Active() { loaded < 0 }
  }

  datatype Event =
    | StrideDetection(invocation: nat, lane: nat, trigger: nat, stride: int, detected: bool)
    | DiscoveryChain(invocation: nat, lane: nat, trigger: nat, chain: seq<Kind>)
    | Flr(invocation: nat, lane: nat, flr: Kind, valid: bool)
    | LoopBound(invocation: nat, lane: nat, begin: nat, end: nat, valid: bool)
    | LaneGeneration(invocation: nat, lane: nat, value: nat, active: bool)
    | BranchMask(invocation: nat, lane: nat, active: bool, maskBit: int)
    | MemoryRequest(invocation: nat, lane: nat, request: Request, active: bool)
    | Summary(nodes: nat, invocations: nat, visited: nat, parent: seq<int>)

  /** The dependence chain every lane reports; its last member is the FLR. */
  const CHAIN: seq<Kind> := [QueueLoad, IndexLoad, NeighborLoad, ParentLoad]

  function Requests(l: Lane): seq<Request> {
    [Request(QueueLoad, l.qidx, l.u), Request(IndexBegin, l.u, 0), Request(NeighborLoad, l.vidx, l.v),
     Request(ParentLoad, l.v, l.loaded)] + if l.Active() then [Request(ParentCas, l.v, l.u)] else []
  }

  /** The events of one lane, in emission order. */
  function Emit(l: Lane): seq<Event> {
    [StrideDetection(l.invocation, l.vidx, l.u, 1, true),
     DiscoveryChain(l.invocation, l.vidx, l.u, CHAIN),
     Flr(l.invocation, l.vidx, CHAIN[|CHAIN| - 1], true),
     LoopBound(l.invocation, l.vidx, 0, l.bound, 0 <= l.vidx < l.bound),
     LaneGeneration(l.invocation, l.vidx, l.u, l.Active()),
     BranchMask(l.invocation, l.vidx, l.Active(), if l.Active() then 1 else 0)]
    + seq(|Requests(l)|, i requires 0 <= i < |Requests(l)| =>
                           MemoryRequest(l.invocation, l.vidx, Requests(l)[i], l.Active()))
  }

  function Trace(lanes: seq<Lane>): seq<Event> {
    if lanes == [] then [] else Trace(lanes[..|lanes| - 1]) + Emit(lanes[|lanes| - 1])
  }

  /** The source, then the vertices claimed by the `parent_cas` requests of a trace, in trace order. */
  function Claims(s: nat, lanes: seq<Lane>): seq<nat> {
    if lanes == [] then [s]
    else Claims(s, lanes[..|lanes| - 1]) + if lanes[|lanes| - 1].Active() then [lanes[|lanes| - 1].v] else []
  }

  /** `order` is `Claims(s, lanes)`, said without building a sequence. */
  ghost predicate Claimed(s: nat, lanes: seq<Lane>, order: seq<nat>) {
    if lanes == [] then |order| == 1 && order[0] == s
    else if lanes[|lanes| - 1].Active() then
      order != [] && order[|order| - 1] == lanes[|lanes| - 1].v && Claimed(s, lanes[..|lanes| - 1], order[..|order| - 1])
    else Claimed(s, lanes[..|lanes| - 1], order)
  }

  lemma {:induction false} ClaimedIsClaims(s: nat, lanes: seq<Lane>, order: seq<nat>)
    requires Claimed(s, lanes, order)
    ensures order == Claims(s, lanes)
  {
    if lanes == [] {
    } else if lanes[|lanes| - 1].Active() {
      ClaimedIsClaims(s, lanes[..|lanes| - 1], order[..|order| - 1]);
    } else {
      ClaimedIsClaims(s, lanes[..|lanes| - 1], order);
    }
  }

  /**
   The lanes are, in this order and each exactly once, all adjacency slots of the first `h`
   vertices of `order` and the first `i` slots of the next one.
   */
  ghost predicate Covers(adj: Graph, lanes: seq<Lane>, order: seq<nat>, h: nat, i: nat)
    requires h <= |order| && (i > 0 ==> h < |order|)
    decreases h, i
  {
    if i > 0 then
      && lanes != [] && order[h] < |adj| && i <= |adj[order[h]]|
      && IsSlot(adj, lanes[|lanes| - 1], order[h], i - 1)
      && Covers(adj, lanes[..|lanes| - 1], order, h, i - 1)
    else if h > 0 then Covers(adj, lanes, order, h - 1, Degree(adj, order[h - 1]))
    else lanes == []
  }

  /** `l` is the lane of slot `i` of vertex `u`. */
  ghost predicate IsSlot(adj: Graph, l: Lane, u: nat, i: nat)
    requires u < |adj| && i < |adj[u]|
  {
    l.u == u && l.vidx == i && l.v == adj[u][i] && l.bound == |adj[u]|
  }

  /** The number of adjacency slots of the vertices of `order`. */
  function SlotCount(adj: Graph, order: seq<nat>, h: nat): nat
    requires h <= |order|
  {
    if h == 0 then 0 else SlotCount(adj, order, h - 1) + Degree(adj, order[h - 1])
  }

  lemma {:induction false} CoversCount(adj: Graph, lanes: seq<Lane>, order: seq<nat>, h: nat, i: nat)
    requires h <= |order| && (i > 0 ==> h < |order|) && Covers(adj, lanes, order, h, i)
    ensures |lanes| == SlotCount(adj, order, h) + i
    decreases h, i
  {
    if i > 0 {
      CoversCount(adj, lanes[..|lanes| - 1], order, h, i - 1);
    } else if h > 0 {
      CoversCount(adj, lanes, order, h - 1, Degree(adj, order[h - 1]));
    }
  }

  function Degree(adj: Graph, u: nat): nat {
    if u < |adj| then |adj[u]| else 0
  }

  lemma {:induction false} TraceLength(s: nat, lanes: seq<Lane>)
    ensures |Trace(lanes)| == 10 * |lanes| + |Claims(s, lanes)| - 1
  {
    if lanes != [] { TraceLength(s, lanes[..|lanes| - 1]); }
  }

  // ----- the search as a state machine -----

  /**
   `level` is the number of the round a vertex was found in, -1 for an unseen vertex; `order`
   lists the seen vertices as they were found.  The search has expanded a prefix of `order`; the
   rest of it is the remaining frontier followed by the next one.
   */
  datatype State = State(parent: seq<int>, level: seq<int>, order: seq<nat>, lanes: seq<Lane>)

  /** `order'` starts with `order`. */
  ghost predicate Extends(order: seq<nat>, order': seq<nat>) {
    |order| <= |order'| && forall k :: 0 <= k < |order| ==> order'[k] == order[k]
  }

  /** One adjacency slot, with the lane it gives rise to. */
  function Look(st: State, l: Lane): State
    requires l.v < |st.parent| == |st.level|
  {
    if l.Active() then
      State(st.parent[l.v := l.u], st.level[l.v := l.invocation + 1], st.order + [l.v], st.lanes + [l])
    else
      st.(lanes := st.lanes + [l])
  }

  ghost predicate Distinct(s: seq<nat>) {
    s == [] || (s[|s| - 1] !in s[..|s| - 1] && Distinct(s[..|s| - 1]))
  }

  /** A seen vertex is the source or hangs below a vertex of the previous level. */
  ghost predicate Linked(adj: Graph, s: nat, parent: seq<int>, level: seq<int>, v: nat)
    requires v < |parent| == |level| == |adj|
  {
    var p := parent[v];
    if level[v] < 0 then level[v] == -1 && p == -1
    else if v == s then p == s && level[v] == 0
    else 0 <= p < |adj| && v in adj[p] && 0 <= level[p] == level[v] - 1
  }

  ghost predicate Tree(adj: Graph, s: nat, parent: seq<int>, level: seq<int>) {
    && |parent| == |level| == |adj| && s < |adj| && level[s] == 0
    && forall v: nat :: v < |adj| ==> Linked(adj, s, parent, level, v)
  }

  /** The first `i` neighbours of `u` have been seen, at most one level below `u`. */
  ghost predicate Closed(adj: Graph, level: seq<int>, u: nat, i: nat) {
    && u < |adj| == |level| && i <= |adj[u]|
    && forall k :: 0 <= k < i ==> adj[u][k] < |level| && 0 <= level[adj[u][k]] <= level[u] + 1
  }

  ghost predicate ClosedVertex(adj: Graph, level: seq<int>, u: nat) {
    u < |adj| && Closed(adj, level, u, |adj[u]|)
  }

  /** What a lane promises about the tree. */
  ghost predicate LaneHolds(parent: seq<int>, level: seq<int>, l: Lane) {
    && l.u < |level| == |parent| && l.v < |level|
    && level[l.u] == l.invocation
    && (l.Active() ==> parent[l.v] == l.u && level[l.v] == l.invocation + 1)
    && (!l.Active() ==> parent[l.v] == l.loaded)
  }

  /** `order` lists the seen vertices without repetition. */
  ghost predicate Enumerates(level: seq<int>, order: seq<nat>) {
    && Distinct(order)
    && (forall v: nat :: v < |level| && level[v] >= 0 ==> v in order)
    && (forall k :: 0 <= k < |order| ==> order[k] < |level| && level[order[k]] >= 0)
  }

  /** `x` was found in round `inv`. */
  ghost predicate FoundIn(level: seq<int>, x: nat, inv: int) {
    x < |level| && level[x] == inv
  }

  /** Round `inv` expands `order[b..m]`, has done so up to `h`, and has found `order[m..]`. */
  ghost predicate InRounds(adj: Graph, level: seq<int>, order: seq<nat>, inv: nat, b: nat, h: nat, m: nat) {
    && b <= h <= m <= |order|
    && (forall k {:trigger ClosedVertex(adj, level, order[k])} :: 0 <= k < h ==> ClosedVertex(adj, level, order[k]))
    && (forall k :: 0 <= k < b ==> order[k] < |level| && level[order[k]] < inv)
    && (forall k :: b <= k < m ==> FoundIn(level, order[k], inv))
    && (forall k :: m <= k < |order| ==> FoundIn(level, order[k], inv + 1))
  }

  /** The invariant of the search, `i` slots into the row of vertex `order[h]`. */
  ghost predicate Searching(adj: Graph, s: nat, st: State, inv: nat, b: nat, h: nat, i: nat, m: nat) {
    && WellFormed(adj) && Tree(adj, s, st.parent, st.level)
    && Enumerates(st.level, st.order) && InRounds(adj, st.level, st.order, inv, b, h, m)
    && (forall l :: l in st.lanes ==> LaneHolds(st.parent, st.level, l))
    && (i > 0 ==> h < m && Closed(adj, st.level, st.order[h], i))
  }

  /**
   The lane reports the place of its vertex in the frontier: the vertices found just before it were found in
   the same round, as many as it says, and the one before them in an earlier round.
   */
  ghost predicate QueueHolds(level: seq<int>, order: seq<nat>, l: Lane) {
    exists k :: 0 <= k < |order| && order[k] == l.u && QueuePlace(level, order, k, l.qidx, l.invocation)
  }

  ghost predicate QueuePlace(level: seq<int>, order: seq<nat>, k: nat, q: nat, inv: int) {
    && q <= k < |order| && (forall j :: k - q <= j <= k ==> FoundIn(level, order[j], inv))
    && (k > q ==> order[k - q - 1] < |level| && level[order[k - q - 1]] < inv)
  }

  ghost predicate Queued(st: State) { forall l :: l in st.lanes ==> QueueHolds(st.level, st.order, l) }

  /** What is found later does not change the places in the queue. */
  lemma QueueStays(level: seq<int>, order: seq<nat>, level': seq<int>, order': seq<nat>, l: Lane)
    requires QueueHolds(level, order, l) && Extends(order, order') && |level'| == |level|
    requires forall x :: 0 <= x < |level| && level[x] >= 0 ==> level'[x] == level[x]
    requires forall k :: 0 <= k < |order| ==> order[k] < |level| && level[order[k]] >= 0
    ensures QueueHolds(level', order', l)
  {
    var k :| 0 <= k < |order| && order[k] == l.u && QueuePlace(level, order, k, l.qidx, l.invocation);
    forall j | 0 <= j <= k ensures order'[j] == order[j] && level'[order'[j]] == level[order[j]] {}
    forall j | k - l.qidx <= j <= k ensures FoundIn(level', order'[j], l.invocation) { assert FoundIn(level, order[j], l.invocation); }
    assert QueuePlace(level', order', k, l.qidx, l.invocation);
  }

  /** The lane of the vertex that is expanded. */
  lemma QueueBegins(adj: Graph, level: seq<int>, order: seq<nat>, inv: nat, b: nat, h: nat, m: nat, l: Lane)
    requires InRounds(adj, level, order, inv, b, h, m) && h < m && l.u == order[h] && l.qidx == h - b && l.invocation == inv
    ensures QueueHolds(level, order, l)
  {
    assert QueuePlace(level, order, h, l.qidx, inv);
  }

  /** The invariant of the trace at the same point. */
  ghost predicate Recorded(adj: Graph, s: nat, st: State, h: nat, i: nat) {
    && h <= |st.order| && (i > 0 ==> h < |st.order|)
    && Claimed(s, st.lanes, st.order) && Covers(adj, st.lanes, st.order, h, i)
  }

  // ----- each slot keeps the invariant -----

  lemma ClaimKeepsTree(adj: Graph, s: nat, parent: seq<int>, level: seq<int>, u: nat, v: nat)
    requires Tree(adj, s, parent, level) && u < |adj| && v in adj[u] && v < |adj| && level[u] >= 0 && level[v] < 0
    ensures Tree(adj, s, parent[v := u], level[v := level[u] + 1])
  {
    assert Linked(adj, s, parent, level, v);
    var parent', level' := parent[v := u], level[v := level[u] + 1];
    forall w: nat | w < |adj| ensures Linked(adj, s, parent', level', w) {
      assert Linked(adj, s, parent, level, w);
    }
  }

  lemma ClaimKeepsEnumeration(level: seq<int>, order: seq<nat>, v: nat, x: nat)
    requires Enumerates(level, order) && v < |level| && level[v] < 0
    ensures Enumerates(level[v := x], order + [v])
    ensures forall k :: 0 <= k < |order| ==> order[k] != v
  {
    var order' := order + [v];
    assert order'[..|order|] == order;
    forall w: nat | w < |level| && level[v := x][w] >= 0 ensures w in order' {
      assert w == v || w in order;
    }
  }

  lemma ClaimKeepsClosed(adj: Graph, level: seq<int>, u: nat, i: nat, v: nat, x: nat)
    requires Closed(adj, level, u, i) && v < |level| && level[v] < 0 && u != v
    ensures Closed(adj, level[v := x], u, i)
  {
  }

  lemma ClaimKeepsRounds(adj: Graph, level: seq<int>, order: seq<nat>, inv: nat, b: nat, h: nat, m: nat, v: nat)
    requires InRounds(adj, level, order, inv, b, h, m) && v < |level| && level[v] < 0
    requires forall k :: 0 <= k < |order| ==> order[k] != v
    ensures InRounds(adj, level[v := inv + 1], order + [v], inv, b, h, m)
  {
    var level', order' := level[v := inv + 1], order + [v];
    forall k | 0 <= k < h ensures ClosedVertex(adj, level', order'[k]) {
      assert ClosedVertex(adj, level, order[k]);
      ClaimKeepsClosed(adj, level, order[k], |adj[order[k]]|, v, inv + 1);
    }
    forall k | b <= k < m ensures FoundIn(level', order'[k], inv) {
      assert FoundIn(level, order[k], inv);
    }
    forall k | m <= k < |order'| ensures FoundIn(level', order'[k], inv + 1) {
      assert k == |order| || FoundIn(level, order[k], inv + 1);
    }
  }

  lemma {:induction false} CoversPrefix(adj: Graph, lanes: seq<Lane>, order: seq<nat>, order': seq<nat>, h: nat, i: nat)
    requires h <= |order| && (i > 0 ==> h < |order|) && Extends(order, order') && Covers(adj, lanes, order, h, i)
    ensures Covers(adj, lanes, order', h, i)
    decreases h, i
  {
    if i > 0 {
      CoversPrefix(adj, lanes[..|lanes| - 1], order, order', h, i - 1);
    } else if h > 0 {
      CoversPrefix(adj, lanes, order, order', h - 1, Degree(adj, order[h - 1]));
    }
  }

  lemma LookIsRecorded(adj: Graph, s: nat, st: State, st': State, h: nat, i: nat, l: Lane)
    requires Recorded(adj, s, st, h, i) && h < |st.order| && st.order[h] < |adj| && i < |adj[st.order[h]]|
    requires IsSlot(adj, l, st.order[h], i)
    requires st'.lanes == st.lanes + [l] && st'.order == st.order + if l.Active() then [l.v] else []
    ensures Recorded(adj, s, st', h, i + 1)
  {
    assert st'.lanes[..|st.lanes|] == st.lanes;
    if l.Active() {
      assert st'.order[..|st.order|] == st.order;
    } else {
      assert st'.order == st.order;
    }
    CoversPrefix(adj, st.lanes, st.order, st'.order, h, i);
  }

  lemma ClaimKeepsLanes(lanes: seq<Lane>, l: Lane, parent: seq<int>, level: seq<int>, parent': seq<int>, level': seq<int>)
    requires |parent| == |level| && l.u < |level| && l.v < |level| && l.Active()
    requires level[l.v] == -1 == parent[l.v] && level[l.u] == l.invocation
    requires parent' == parent[l.v := l.u] && level' == level[l.v := l.invocation + 1]
    requires forall x :: x in lanes ==> LaneHolds(parent, level, x)
    ensures forall x :: x in lanes + [l] ==> LaneHolds(parent', level', x)
  {
    forall x | x in lanes + [l] ensures LaneHolds(parent', level', x) {
      assert x == l || LaneHolds(parent, level, x);
    }
  }

  lemma ClaimCloses(adj: Graph, level: seq<int>, level': seq<int>, u: nat, i: nat, v: nat, inv: nat)
    requires Closed(adj, level, u, i) && i < |adj[u]| && v == adj[u][i] && v < |level| && level[v] < 0
    requires level[u] == inv && level' == level[v := inv + 1]
    ensures Closed(adj, level', u, i + 1)
  {
  }

  /** One slot takes the invariant from `i` to `i + 1`; the slot claims an unseen vertex. */
  lemma LookClaims(adj: Graph, s: nat, st: State, st': State, inv: nat, b: nat, h: nat, i: nat, m: nat, u: nat, v: nat, l: Lane)
    requires Searching(adj, s, st, inv, b, h, i, m) && h < m && u == st.order[h] && i < |adj[u]| && v == adj[u][i]
    requires l == Lane(inv, l.qidx, u, |adj[u]|, i, v, st.parent[v]) && st.parent[v] < 0
    requires st' == State(st.parent[v := u], st.level[v := inv + 1], st.order + [v], st.lanes + [l])
    ensures Searching(adj, s, st', inv, b, h, i + 1, m)
  {
    assert Linked(adj, s, st.parent, st.level, v);
    assert FoundIn(st.level, st.order[h], inv) && Closed(adj, st.level, u, i);
    hide Tree, Enumerates, InRounds, Closed, LaneHolds;
    ClaimKeepsTree(adj, s, st.parent, st.level, u, v);
    ClaimKeepsEnumeration(st.level, st.order, v, inv + 1);
    ClaimKeepsRounds(adj, st.level, st.order, inv, b, h, m, v);
    ClaimCloses(adj, st.level, st'.level, u, i, v, inv);
    ClaimKeepsLanes(st.lanes, l, st.parent, st.level, st'.parent, st'.level);
  }

  /** The same for a slot whose vertex has been seen before. */
  lemma LookPasses(adj: Graph, s: nat, st: State, st': State, inv: nat, b: nat, h: nat, i: nat, m: nat, u: nat, v: nat, l: Lane)
    requires Searching(adj, s, st, inv, b, h, i, m) && h < m && u == st.order[h] && i < |adj[u]| && v == adj[u][i]
    requires l == Lane(inv, l.qidx, u, |adj[u]|, i, v, st.parent[v]) && st.parent[v] >= 0
    requires st' == st.(lanes := st.lanes + [l])
    ensures Searching(adj, s, st', inv, b, h, i + 1, m)
  {
    assert Linked(adj, s, st.parent, st.level, v);
    assert Closed(adj, st.level, u, i);
    var k :| 0 <= k < |st.order| && st.order[k] == v;
    assert st.level[v] <= inv + 1;
  }

  lemma EndRow(adj: Graph, s: nat, st: State, inv: nat, b: nat, h: nat, h': nat, m: nat, u: nat)
    requires h < m <= |st.order| && h' == h + 1 && u == st.order[h] && u < |adj|
    requires Invariant(adj, s, st, inv, b, h, |adj[u]|, m)
    ensures Invariant(adj, s, st, inv, b, h', 0, m)
  {
    assert Closed(adj, st.level, u, |adj[u]|);
    assert ClosedVertex(adj, st.level, st.order[h]);
  }

  lemma EndRound(adj: Graph, s: nat, st: State, inv: nat, b: nat, m: nat)
    requires Searching(adj, s, st, inv, b, m, 0, m)
    ensures Searching(adj, s, st, inv + 1, m, m, 0, |st.order|)
    ensures b < m ==> st.level[st.order[m - 1]] == inv
  {
  }

  lemma InitiallySearching(adj: Graph, s: nat, st: State)
    requires WellFormed(adj) && s < |adj|
    requires st == State(seq(|adj|, _ => -1)[s := s], seq(|adj|, _ => -1)[s := 0], [s], [])
    ensures Searching(adj, s, st, 0, 0, 0, 0, 1) && Recorded(adj, s, st, 0, 0)
  {
    forall v: nat | v < |adj| ensures Linked(adj, s, st.parent, st.level, v) {}
  }

  // ----- counting -----

  function Elements(s: seq<nat>): set<nat> {
    set x | x in s
  }

  function Below(n: nat): (r: set<nat>)
    ensures forall x: nat :: x in r <==> x < n
    ensures |r| == n
  {
    if n == 0 then {} else Below(n - 1) + {n - 1}
  }

  lemma {:induction false} DistinctSize(s: seq<nat>)
    requires Distinct(s)
    ensures |Elements(s)| == |s|
  {
    if s != [] {
      var init, last := s[..|s| - 1], s[|s| - 1];
      DistinctSize(init);
      assert last !in Elements(init);
      assert Elements(s) == Elements(init) + {last};
    }
  }

  lemma SubsetSize(a: set<nat>, b: set<nat>)
    requires a <= b
    ensures |a| <= |b|
  {
    assert b == a + (b - a);
  }

  lemma DistinctFits(s: seq<nat>, n: nat)
    requires Distinct(s) && forall k :: 0 <= k < |s| ==> s[k] < n
    ensures |s| <= n
  {
    DistinctSize(s);
    SubsetSize(Elements(s), Below(n));
  }

  function Seen(parent: seq<int>, n: nat): set<nat>
    requires n <= |parent|
  {
    set v: nat | v < n && parent[v] >= 0
  }

  /** How many vertices have a parent. */
  function CountSeen(parent: seq<int>, n: nat): nat
    requires n <= |parent|
  {
    if n == 0 then 0 else CountSeen(parent, n - 1) + if parent[n - 1] >= 0 then 1 else 0
  }

  lemma {:induction false} CountIsSize(parent: seq<int>, n: nat)
    requires n <= |parent|
    ensures CountSeen(parent, n) == |Seen(parent, n)|
  {
    if n > 0 {
      CountIsSize(parent, n - 1);
      assert Seen(parent, n) == Seen(parent, n - 1) + if parent[n - 1] >= 0 then {n - 1} else {};
    }
  }

  // ----- levels are distances -----

  /** The search is over: everything seen is expanded. */
  ghost predicate Finished(adj: Graph, s: nat, st: State, inv: nat) {
    Searching(adj, s, st, inv, |st.order|, |st.order|, 0, |st.order|)
  }

  lemma {:induction false} LevelIsWalk(adj: Graph, s: nat, parent: seq<int>, level: seq<int>, v: nat)
    requires Tree(adj, s, parent, level) && v < |adj| && level[v] >= 0
    ensures Walk(adj, s, v, level[v]) && ParentChain(adj, s, parent, v, level[v])
    decreases level[v]
  {
    assert Linked(adj, s, parent, level, v);
    if v != s {
      LevelIsWalk(adj, s, parent, level, parent[v]);
    }
  }

  /** Everything seen is closed. */
  ghost predicate AllClosed(adj: Graph, s: nat, level: seq<int>) {
    && WellFormed(adj) && |level| == |adj| && s < |adj| && level[s] == 0
    && forall u: nat :: u < |adj| && level[u] >= 0 ==> Closed(adj, level, u, |adj[u]|)
  }

  lemma FinishedCloses(adj: Graph, s: nat, st: State, inv: nat)
    requires Finished(adj, s, st, inv)
    ensures AllClosed(adj, s, st.level)
  {
    forall u: nat | u < |adj| && st.level[u] >= 0 ensures Closed(adj, st.level, u, |adj[u]|) {
      var k :| 0 <= k < |st.order| && st.order[k] == u;
      assert ClosedVertex(adj, st.level, st.order[k]);
    }
  }

  lemma {:induction false} WalkBoundsLevel(adj: Graph, s: nat, level: seq<int>, v: nat, k: nat)
    requires AllClosed(adj, s, level) && Walk(adj, s, v, k)
    ensures v < |adj| && 0 <= level[v] <= k
    decreases k
  {
    if k > 0 {
      var u: nat :| u < |adj| && v in adj[u] && Walk(adj, s, u, k - 1);
      WalkBoundsLevel(adj, s, level, u, k - 1);
      var i :| 0 <= i < |adj[u]| && adj[u][i] == v;
      assert Closed(adj, level, u, |adj[u]|);
    }
  }

  lemma LevelIsDistance(adj: Graph, s: nat, parent: seq<int>, level: seq<int>, v: nat)
    requires Tree(adj, s, parent, level) && AllClosed(adj, s, level) && v < |adj|
    ensures level[v] >= 0 ==> IsDistance(adj, s, v, level[v]) && ParentChain(adj, s, parent, v, level[v])
    ensures level[v] < 0 ==> !Reachable(adj, s, v)
    ensures parent[v] >= 0 <==> level[v] >= 0
  {
    assert Linked(adj, s, parent, level, v);
    if level[v] >= 0 {
      LevelIsWalk(adj, s, parent, level, v);
    }
    forall k: nat | Walk(adj, s, v, k) ensures 0 <= level[v] <= k {
      WalkBoundsLevel(adj, s, level, v, k);
    }
  }

  lemma DistanceIsUnique(adj: Graph, s: nat, v: nat, d: nat, e: nat)
    requires IsDistance(adj, s, v, d) && IsDistance(adj, s, v, e)
    ensures d == e
  {
  }

  // ----- what the search promises -----

  ghost predicate ShortestPathTree(adj: Graph, s: nat, parent: seq<int>) {
    |parent| == |adj| && forall v: nat :: v < |adj| ==> IsShortest(adj, s, parent, v)
  }

  /** `v` has a parent exactly if it is reachable, and its parent chain is a shortest path. */
  ghost predicate IsShortest(adj: Graph, s: nat, parent: seq<int>, v: nat)
    requires v < |parent|
  {
    && (parent[v] >= 0 <==> Reachable(adj, s, v))
    && forall d: nat :: IsDistance(adj, s, v, d) ==> ParentChain(adj, s, parent, v, d)
  }

  /** The source's eccentricity: the largest distance of a reachable vertex. */
  ghost predicate IsEccentricity(adj: Graph, s: nat, e: nat) {
    && (exists v: nat :: v < |adj| && IsDistance(adj, s, v, e))
    && (forall v: nat, d: nat :: v < |adj| && IsDistance(adj, s, v, d) ==> d <= e)
  }

  /**
   `order` are the reachable vertices, each once, in the order of discovery; the lanes are their
   adjacency slots, each once, in that order; and the `parent_cas` requests claim every vertex but
   the source exactly once.
   */
  ghost predicate Accounts(adj: Graph, s: nat, parent: seq<int>, lanes: seq<Lane>, order: seq<nat>) {
    && Distinct(order) && order == Claims(s, lanes)
    && (forall v: nat :: v in order <==> v < |adj| && Reachable(adj, s, v))
    && Covers(adj, lanes, order, |order|, 0)
    && (forall l :: l in lanes ==> LaneIsSound(adj, s, parent, l))
  }

  /**
   A lane of round k looks out of a vertex at distance k; if the parent it loaded was negative it
   claims a vertex at distance k + 1, otherwise the parent it loaded is final.
   */
  ghost predicate LaneIsSound(adj: Graph, s: nat, parent: seq<int>, l: Lane) {
    && l.u < |adj| && l.v < |adj| == |parent|
    && IsDistance(adj, s, l.u, l.invocation)
    && (l.Active() ==> parent[l.v] == l.u && IsDistance(adj, s, l.v, l.invocation + 1))
    && (!l.Active() ==> parent[l.v] == l.loaded)
  }

  lemma FinishedTree(adj: Graph, s: nat, st: State, inv: nat)
    requires Finished(adj, s, st, inv)
    ensures ShortestPathTree(adj, s, st.parent)
  {
    FinishedCloses(adj, s, st, inv);
    forall v: nat | v < |adj| ensures IsShortest(adj, s, st.parent, v) {
      LevelIsDistance(adj, s, st.parent, st.level, v);
      forall d: nat | IsDistance(adj, s, v, d) ensures ParentChain(adj, s, st.parent, v, d) {
        assert Reachable(adj, s, v);
        DistanceIsUnique(adj, s, v, d, st.level[v]);
      }
    }
  }

  lemma FinishedAccounts(adj: Graph, s: nat, st: State, inv: nat)
    requires Finished(adj, s, st, inv) && Recorded(adj, s, st, |st.order|, 0)
    ensures Accounts(adj, s, st.parent, st.lanes, st.order)
  {
    ClaimedIsClaims(s, st.lanes, st.order);
    FinishedCloses(adj, s, st, inv);
    forall v: nat ensures v in st.order <==> v < |adj| && Reachable(adj, s, v) {
      if v < |adj| { LevelIsDistance(adj, s, st.parent, st.level, v); }
    }
    forall l | l in st.lanes ensures LaneIsSound(adj, s, st.parent, l) {
      assert LaneHolds(st.parent, st.level, l);
      LevelIsDistance(adj, s, st.parent, st.level, l.u);
      LevelIsDistance(adj, s, st.parent, st.level, l.v);
    }
  }

  lemma FinishedEccentricity(adj: Graph, s: nat, st: State, inv: nat)
    requires Finished(adj, s, st, inv) && inv > 0 && |st.order| > 0
    requires st.level[st.order[|st.order| - 1]] == inv - 1
    ensures IsEccentricity(adj, s, inv - 1)
  {
    FinishedCloses(adj, s, st, inv);
    LevelIsDistance(adj, s, st.parent, st.level, st.order[|st.order| - 1]);
    forall v: nat, d: nat | v < |adj| && IsDistance(adj, s, v, d) ensures d <= inv - 1 {
      LevelIsDistance(adj, s, st.parent, st.level, v);
      assert Reachable(adj, s, v);
      DistanceIsUnique(adj, s, v, d, st.level[v]);
      assert v in st.order;
    }
  }

  lemma VisitedCount(adj: Graph, s: nat, parent: seq<int>, lanes: seq<Lane>, order: seq<nat>)
    requires ShortestPathTree(adj, s, parent) && Accounts(adj, s, parent, lanes, order)
    ensures CountSeen(parent, |parent|) == |order|
  {
    CountIsSize(parent, |parent|);
    DistinctSize(order);
    forall v: nat ensures v in Seen(parent, |parent|) <==> v in Elements(order) {
      if v < |adj| { assert IsShortest(adj, s, parent, v); }
    }
    assert Seen(parent, |parent|) == Elements(order);
  }

  // ----- what the trace says -----

  /** Vertex `order[k]` is number `q` of the vertices at its distance. */
  ghost predicate IsFrontierPlace(adj: Graph, s: nat, order: seq<nat>, k: nat, q: nat, d: nat) {
    && q <= k < |order| && (forall j :: k - q <= j <= k ==> IsDistance(adj, s, order[j], d))
    && (k > q ==> IsNearer(adj, s, order[k - q - 1], d))
  }

  ghost predicate IsNearer(adj: Graph, s: nat, v: nat, d: nat) { exists e: nat :: e < d && IsDistance(adj, s, v, e) }

  /** Event `e` is a memory request of this lane. */
  predicate IsRequest(e: Event, inv: nat, i: nat, kind: Kind, address: nat, value: int, active: bool) {
    e == MemoryRequest(inv, i, Request(kind, address, value), active)
  }

  /**
   The events of slot `i` of vertex `u`, which is at distance `d` and number `q` of its frontier. The lane is active
   exactly if it loads a negative parent, and then the next request claims the neighbour for `u`.
   */
  ghost predicate IsLane(adj: Graph, parent: seq<int>, es: seq<Event>, u: nat, i: nat, d: nat, q: nat, loaded: int)
    requires u < |adj| && i < |adj[u]|
  {
    var v, active := adj[u][i], loaded < 0;
    && |es| == (if active then 11 else 10) && v < |parent|
    && es[0] == StrideDetection(d, i, u, 1, true)
    && es[1] == DiscoveryChain(d, i, u, [QueueLoad, IndexLoad, NeighborLoad, ParentLoad])
    && es[2] == Flr(d, i, ParentLoad, true)
    && es[3] == LoopBound(d, i, 0, |adj[u]|, true)
    && es[4] == LaneGeneration(d, i, u, active)
    && es[5] == BranchMask(d, i, active, if active then 1 else 0)
    && IsRequest(es[6], d, i, QueueLoad, q, u, active)
    && IsRequest(es[7], d, i, IndexBegin, u, 0, active)
    && IsRequest(es[8], d, i, NeighborLoad, i, v, active)
    && IsRequest(es[9], d, i, ParentLoad, v, loaded, active)
    && (active ==> parent[v] == u && IsRequest(es[10], d, i, ParentCas, v, u, active))
    && (!active ==> parent[v] == loaded)
  }

  /** Events that are those of some slot. */
  ghost predicate IsLaneOf(adj: Graph, s: nat, parent: seq<int>, order: seq<nat>, es: seq<Event>, h: nat, i: nat)
    requires h < |order| && order[h] < |adj| && i < |adj[order[h]]|
  {
    exists d, q, loaded :: IsFrontierPlace(adj, s, order, h, q, d) && IsLane(adj, parent, es, order[h], i, d, q, loaded)
  }

  /** The events are those of all slots of the first `h` vertices of `order` and of the first `i` slots of the next one, in this order. */
  ghost predicate Laid(adj: Graph, s: nat, parent: seq<int>, order: seq<nat>, es: seq<Event>, h: nat, i: nat)
    requires h <= |order| && (i > 0 ==> h < |order|)
    decreases h, i
  {
    if i > 0 then
      && order[h] < |adj| && i <= |adj[order[h]]|
      && exists n :: 0 <= n <= |es| && IsLaneOf(adj, s, parent, order, es[n..], h, i - 1) && Laid(adj, s, parent, order, es[..n], h, i - 1)
    else if h > 0 then Laid(adj, s, parent, order, es, h - 1, Degree(adj, order[h - 1]))
    else es == []
  }

  /** What a lane of the search says about its vertex. */
  ghost predicate LaneIsPlaced(adj: Graph, s: nat, order: seq<nat>, l: Lane) {
    exists k :: 0 <= k < |order| && order[k] == l.u && IsFrontierPlace(adj, s, order, k, l.qidx, l.invocation)
  }

  lemma PlacedByLevel(adj: Graph, s: nat, st: State, inv: nat, l: Lane)
    requires Finished(adj, s, st, inv) && QueueHolds(st.level, st.order, l)
    ensures LaneIsPlaced(adj, s, st.order, l)
  {
    FinishedCloses(adj, s, st, inv);
    var k :| 0 <= k < |st.order| && st.order[k] == l.u && QueuePlace(st.level, st.order, k, l.qidx, l.invocation);
    forall j | 0 <= j <= k ensures st.order[j] < |adj| && st.level[st.order[j]] >= 0 && IsDistance(adj, s, st.order[j], st.level[st.order[j]]) {
      LevelIsDistance(adj, s, st.parent, st.level, st.order[j]);
    }
    hide IsDistance, Finished;
    forall j | k - l.qidx <= j <= k ensures IsDistance(adj, s, st.order[j], l.invocation) { assert FoundIn(st.level, st.order[j], l.invocation); }
    assert IsFrontierPlace(adj, s, st.order, k, l.qidx, l.invocation);
  }

  /** The events of a lane of the search. */
  lemma EmitIsLane(adj: Graph, s: nat, parent: seq<int>, l: Lane, u: nat, i: nat)
    requires u < |adj| && i < |adj[u]| && IsSlot(adj, l, u, i) && LaneIsSound(adj, s, parent, l)
    ensures IsLane(adj, parent, Emit(l), u, i, l.invocation, l.qidx, l.loaded)
  {
    hide IsDistance;
    var es, rs := Emit(l), Requests(l);
    assert |rs| == if l.Active() then 5 else 4;
    assert forall k :: 0 <= k < |rs| ==> es[6 + k] == MemoryRequest(l.invocation, l.vidx, rs[k], l.Active());
    assert es[6] == MemoryRequest(l.invocation, l.vidx, rs[0], l.Active()) && es[7] == MemoryRequest(l.invocation, l.vidx, rs[1], l.Active());
    assert es[8] == MemoryRequest(l.invocation, l.vidx, rs[2], l.Active()) && es[9] == MemoryRequest(l.invocation, l.vidx, rs[3], l.Active());
    if l.Active() { assert es[10] == MemoryRequest(l.invocation, l.vidx, rs[4], l.Active()); }
  }

  /** A vertex has one place in the order. */
  lemma {:induction false} OnePlace(order: seq<nat>, j: nat, k: nat)
    requires Distinct(order) && j < k < |order|
    ensures order[j] != order[k]
  {
    var n := |order| - 1;
    if k < n {
      OnePlace(order[..n], j, k);
    } else {
      assert order[..n][j] == order[j];
    }
  }

  lemma LaneOf(adj: Graph, s: nat, parent: seq<int>, order: seq<nat>, l: Lane, h: nat, i: nat)
    requires Distinct(order) && h < |order| && order[h] < |adj| && i < |adj[order[h]]| && IsSlot(adj, l, order[h], i)
    requires LaneIsSound(adj, s, parent, l) && LaneIsPlaced(adj, s, order, l)
    ensures IsLaneOf(adj, s, parent, order, Emit(l), h, i)
  {
    EmitIsLane(adj, s, parent, l, order[h], i);
    var k :| 0 <= k < |order| && order[k] == l.u && IsFrontierPlace(adj, s, order, k, l.qidx, l.invocation);
    if k < h { OnePlace(order, k, h); } else if h < k { OnePlace(order, h, k); }
    hide IsLane, IsFrontierPlace, Emit, LaneIsSound, Distinct;
  }

  /** The trace is laid out by the slots. */
  lemma {:induction false} TraceIsLaid(adj: Graph, s: nat, parent: seq<int>, lanes: seq<Lane>, order: seq<nat>, h: nat, i: nat)
    requires Distinct(order) && h <= |order| && (i > 0 ==> h < |order|) && Covers(adj, lanes, order, h, i)
    requires forall l :: l in lanes ==> LaneIsSound(adj, s, parent, l) && LaneIsPlaced(adj, s, order, l)
    ensures Laid(adj, s, parent, order, Trace(lanes), h, i)
    decreases h, i
  {
    hide LaneIsSound, LaneIsPlaced, Distinct, Emit, IsLaneOf;
    if i > 0 {
      var init, last := lanes[..|lanes| - 1], lanes[|lanes| - 1];
      assert last in lanes && forall l :: l in init ==> l in lanes;
      TraceIsLaid(adj, s, parent, init, order, h, i - 1);
      LaneOf(adj, s, parent, order, last, h, i - 1);
      var n, es := |Trace(init)|, Trace(lanes);
      assert es == Trace(init) + Emit(last);
      assert es[..n] == Trace(init) && es[n..] == Emit(last);
    } else if h > 0 {
      TraceIsLaid(adj, s, parent, lanes, order, h - 1, Degree(adj, order[h - 1]));
    }
  }

  // ----- conservation laws of the trace -----

  predicate IsOf(e: Event, kind: Kind) { e.MemoryRequest? && e.request.kind == kind }

  /** The requests of one kind, in order. */
  function Loads(es: seq<Event>, kind: Kind): seq<Request> {
    if es == [] then [] else Loads(es[..|es| - 1], kind) + if IsOf(es[|es| - 1], kind) then [es[|es| - 1].request] else []
  }

  lemma {:induction false} LoadsConcat(a: seq<Event>, b: seq<Event>, kind: Kind)
    ensures Loads(a + b, kind) == Loads(a, kind) + Loads(b, kind)
  {
    if b == [] {
      assert a + b == a;
    } else {
      LoadsConcat(a, b[..|b| - 1], kind);
      assert (a + b)[..|a + b| - 1] == a + b[..|b| - 1];
    }
  }

  lemma {:induction false} LoadsNone(es: seq<Event>, kind: Kind)
    requires forall k :: 0 <= k < |es| ==> !IsOf(es[k], kind)
    ensures Loads(es, kind) == []
  {
    if es != [] { LoadsNone(es[..|es| - 1], kind); }
  }

  /** Exactly one request of a kind. */
  lemma LoadsOne(es: seq<Event>, kind: Kind, at: nat)
    requires at < |es| && IsOf(es[at], kind) && forall k :: 0 <= k < |es| && k != at ==> !IsOf(es[k], kind)
    ensures Loads(es, kind) == [es[at].request]
  {
    var a, b, c := es[..at], [es[at]], es[at + 1..];
    assert es == a + b + c;
    assert Loads(b, kind) == Loads([], kind) + [es[at].request] by { assert b[..0] == []; }
    LoadsNone(a, kind);
    LoadsNone(c, kind);
    hide Loads;
    LoadsConcat(a + b, c, kind);
    LoadsConcat(a, b, kind);
  }

  /** All slots of the first `h` vertices and the first `i` slots of the next one, as loads. */
  function SlotLoads(adj: Graph, order: seq<nat>, h: nat, i: nat): seq<Request>
    requires h <= |order| && (i > 0 ==> h < |order| && order[h] < |adj| && i <= |adj[order[h]]|)
    decreases h, i
  {
    if i > 0 then SlotLoads(adj, order, h, i - 1) + [Request(NeighborLoad, i - 1, adj[order[h]][i - 1])]
    else if h > 0 then SlotLoads(adj, order, h - 1, Degree(adj, order[h - 1]))
    else []
  }

  lemma LaidUnfolds(adj: Graph, s: nat, parent: seq<int>, order: seq<nat>, es: seq<Event>, h: nat, i: nat) returns (n: nat)
    requires h < |order| && i > 0 && Laid(adj, s, parent, order, es, h, i)
    ensures order[h] < |adj| && i <= |adj[order[h]]| && n <= |es| && es == es[..n] + es[n..]
    ensures IsLaneOf(adj, s, parent, order, es[n..], h, i - 1) && Laid(adj, s, parent, order, es[..n], h, i - 1)
  {
    hide IsLaneOf;
    n :| 0 <= n <= |es| && IsLaneOf(adj, s, parent, order, es[n..], h, i - 1) && Laid(adj, s, parent, order, es[..n], h, i - 1);
  }

  lemma LaidRow(adj: Graph, s: nat, parent: seq<int>, order: seq<nat>, es: seq<Event>, h: nat)
    requires h <= |order| && Laid(adj, s, parent, order, es, h, 0)
    ensures h == 0 ==> es == []
    ensures h > 0 ==> Laid(adj, s, parent, order, es, h - 1, Degree(adj, order[h - 1]))
  {
    hide IsLaneOf;
  }

  /** What the events of one slot say. */
  lemma LaneTells(adj: Graph, s: nat, parent: seq<int>, order: seq<nat>, es: seq<Event>, h: nat, i: nat)
    requires h < |order| && order[h] < |adj| && i < |adj[order[h]]| && IsLaneOf(adj, s, parent, order, es, h, i)
    ensures Loads(es, NeighborLoad) == [Request(NeighborLoad, i, adj[order[h]][i])] && ClaimsAfterLoads(es)
  {
    hide IsFrontierPlace, Loads;
    var d, q, loaded :| IsFrontierPlace(adj, s, order, h, q, d) && IsLane(adj, parent, es, order[h], i, d, q, loaded);
    LoadsOne(es, NeighborLoad, 8);
  }

  /** The neighbour loads are the adjacency slots of the reachable vertices, each once, in the order of discovery. */
  lemma {:induction false} LaidNeighbors(adj: Graph, s: nat, parent: seq<int>, order: seq<nat>, es: seq<Event>, h: nat, i: nat)
    requires h <= |order| && (i > 0 ==> h < |order| && order[h] < |adj| && i <= |adj[order[h]]|) && Laid(adj, s, parent, order, es, h, i)
    ensures Loads(es, NeighborLoad) == SlotLoads(adj, order, h, i)
    decreases h, i
  {
    hide IsLaneOf, Laid, Loads;
    if i > 0 {
      var n := LaidUnfolds(adj, s, parent, order, es, h, i);
      LaidNeighbors(adj, s, parent, order, es[..n], h, i - 1);
      LaneTells(adj, s, parent, order, es[n..], h, i - 1);
      LoadsConcat(es[..n], es[n..], NeighborLoad);
    } else {
      LaidRow(adj, s, parent, order, es, h);
      if h > 0 { LaidNeighbors(adj, s, parent, order, es, h - 1, Degree(adj, order[h - 1])); } else { LoadsNone(es, NeighborLoad); }
    }
  }

  /** A claim stands directly behind the load of a negative parent of the same vertex. */
  ghost predicate ClaimsAfterLoads(es: seq<Event>) {
    forall k :: 0 <= k < |es| && IsOf(es[k], ParentCas) ==> k > 0 && LoadsUnclaimed(es[k - 1], es[k].request.address)
  }

  predicate LoadsUnclaimed(e: Event, v: nat) { IsOf(e, ParentLoad) && e.request.address == v && e.request.value < 0 }

  lemma ClaimsConcat(a: seq<Event>, b: seq<Event>)
    requires ClaimsAfterLoads(a) && ClaimsAfterLoads(b)
    ensures ClaimsAfterLoads(a + b)
  {
    var es := a + b;
    forall k | 0 <= k < |es| && IsOf(es[k], ParentCas) ensures k > 0 && LoadsUnclaimed(es[k - 1], es[k].request.address) {
      if k >= |a| {
        assert es[k] == b[k - |a|];
        assert k - |a| > 0 && es[k - 1] == b[k - |a| - 1];
      }
    }
  }

  lemma {:induction false} LaidClaims(adj: Graph, s: nat, parent: seq<int>, order: seq<nat>, es: seq<Event>, h: nat, i: nat)
    requires h <= |order| && (i > 0 ==> h < |order|) && Laid(adj, s, parent, order, es, h, i)
    ensures ClaimsAfterLoads(es)
    decreases h, i
  {
    hide IsLaneOf, Laid, Loads;
    if i > 0 {
      var n := LaidUnfolds(adj, s, parent, order, es, h, i);
      LaidClaims(adj, s, parent, order, es[..n], h, i - 1);
      LaneTells(adj, s, parent, order, es[n..], h, i - 1);
      ClaimsConcat(es[..n], es[n..]);
    } else {
      LaidRow(adj, s, parent, order, es, h);
      if h > 0 { LaidClaims(adj, s, parent, order, es, h - 1, Degree(adj, order[h - 1])); }
    }
  }

  /** The claims are those of the vertices found, the source apart, each for its parent. */
  ghost predicate AreClaims(cas: seq<Request>, order: seq<nat>, parent: seq<int>) {
    |cas| + 1 == |order| && forall k :: 0 <= k < |cas| ==> IsClaim(cas[k], order[k + 1], parent)
  }

  ghost predicate IsClaim(r: Request, v: nat, parent: seq<int>) { v < |parent| && r == Request(ParentCas, v, parent[v]) }

  lemma {:induction false} TraceClaims(adj: Graph, s: nat, parent: seq<int>, lanes: seq<Lane>)
    requires forall l :: l in lanes ==> LaneIsSound(adj, s, parent, l)
    ensures AreClaims(Loads(Trace(lanes), ParentCas), Claims(s, lanes), parent)
  {
    if lanes != [] {
      var init, last := lanes[..|lanes| - 1], lanes[|lanes| - 1];
      assert last in lanes && forall l :: l in init ==> l in lanes;
      TraceClaims(adj, s, parent, init);
      EmitClaims(last);
      assert LaneIsSound(adj, s, parent, last);
      hide Emit, IsDistance, Loads, AreClaims;
      LoadsConcat(Trace(init), Emit(last), ParentCas);
      assert Trace(lanes) == Trace(init) + Emit(last);
      if last.Active() {
        ClaimsMore(Loads(Trace(init), ParentCas), Claims(s, init), parent, last.v);
      } else {
        assert Loads(Trace(lanes), ParentCas) == Loads(Trace(init), ParentCas) && Claims(s, lanes) == Claims(s, init);
      }
    }
  }

  lemma ClaimsMore(cas: seq<Request>, order: seq<nat>, parent: seq<int>, v: nat)
    requires AreClaims(cas, order, parent) && v < |parent|
    ensures AreClaims(cas + [Request(ParentCas, v, parent[v])], order + [v], parent)
  {
    var cas', order' := cas + [Request(ParentCas, v, parent[v])], order + [v];
    forall k | 0 <= k < |cas'| ensures IsClaim(cas'[k], order'[k + 1], parent) {
      if k < |cas| { assert IsClaim(cas[k], order[k + 1], parent); }
    }
  }

  lemma EmitClaims(l: Lane)
    ensures Loads(Emit(l), ParentCas) == if l.Active() then [Request(ParentCas, l.v, l.u)] else []
  {
    var es, rs := Emit(l), Requests(l);
    assert |rs| == if l.Active() then 5 else 4;
    assert |es| == 6 + |rs| && forall k :: 6 <= k < |es| ==> es[k] == MemoryRequest(l.invocation, l.vidx, rs[k - 6], l.Active());
    assert forall k :: 0 <= k < 4 ==> rs[k].kind != ParentCas;
    if l.Active() {
      LoadsOne(es, ParentCas, 10);
    } else {
      LoadsNone(es, ParentCas);
    }
  }

  /** Everything the trace says about the graph, read off the events alone. */
  ghost predicate Tells(adj: Graph, s: nat, parent: seq<int>, order: seq<nat>, es: seq<Event>) {
    && Laid(adj, s, parent, order, es, |order|, 0)
    && Loads(es, NeighborLoad) == SlotLoads(adj, order, |order|, 0)
    && AreClaims(Loads(es, ParentCas), order, parent) && ClaimsAfterLoads(es)
  }

  lemma TraceTells(adj: Graph, s: nat, st: State, inv: nat)
    requires Finished(adj, s, st, inv) && Queued(st) && Accounts(adj, s, st.parent, st.lanes, st.order)
    ensures Tells(adj, s, st.parent, st.order, Trace(st.lanes))
  {
    forall l | l in st.lanes ensures LaneIsSound(adj, s, st.parent, l) && LaneIsPlaced(adj, s, st.order, l) {
      PlacedByLevel(adj, s, st, inv, l);
    }
    var es := Trace(st.lanes);
    hide Finished, Queued, LaneIsSound, LaneIsPlaced, Trace, Laid, AreClaims, ClaimsAfterLoads, Loads, SlotLoads;
    TraceIsLaid(adj, s, st.parent, st.lanes, st.order, |st.order|, 0);
    LaidNeighbors(adj, s, st.parent, st.order, es, |st.order|, 0);
    LaidClaims(adj, s, st.parent, st.order, es, |st.order|, 0);
    TraceClaims(adj, s, st.parent, st.lanes);
  }

  // ----- the script's loops -----

  /**
   The script's variables show the state: `nxt` is what was found behind `order[..m]`, and `lanes`
   are the calls of `lane` made so far.  The output stream is append-only, so what has been written
   to it is `Trace(lanes)`.
   */
  ghost predicate Shows(parent: seq<int>, nxt: seq<nat>, lanes: seq<Lane>, st: State, m: nat) {
    parent == st.parent && m <= |st.order| && nxt == st.order[m..] && lanes == st.lanes
  }

  /** The parts of the invariant. */
  ghost predicate Invariant(adj: Graph, s: nat, st: State, inv: nat, b: nat, h: nat, i: nat, m: nat) {
    Searching(adj, s, st, inv, b, h, i, m) && Recorded(adj, s, st, h, i) && Queued(st)
  }

  lemma LookKeeps(adj: Graph, s: nat, st: State, st': State, inv: nat, b: nat, h: nat, i: nat, m: nat, u: nat, v: nat, l: Lane)
    requires Invariant(adj, s, st, inv, b, h, i, m) && h < m && u == st.order[h] && i < |adj[u]| && v == adj[u][i]
    requires v < |st.parent| && b <= h && l == Lane(inv, h - b, u, |adj[u]|, i, v, st.parent[v])
    requires st' == Look(st, l)
    ensures Invariant(adj, s, st', inv, b, h, i + 1, m) && Extends(st.order, st'.order)
  {
    LookQueues(adj, s, st, st', inv, b, h, i, m, l);
    hide Queued;
    if st.parent[v] < 0 {
      LookClaims(adj, s, st, st', inv, b, h, i, m, u, v, l);
    } else {
      LookPasses(adj, s, st, st', inv, b, h, i, m, u, v, l);
    }
    LookIsRecorded(adj, s, st, st', h, i, l);
  }

  lemma LookQueues(adj: Graph, s: nat, st: State, st': State, inv: nat, b: nat, h: nat, i: nat, m: nat, l: Lane)
    requires Searching(adj, s, st, inv, b, h, i, m) && Queued(st) && h < m && l.u == st.order[h] && l.qidx == h - b && l.invocation == inv
    requires l.v < |st.parent| == |st.level| && l.loaded == st.parent[l.v] && st' == Look(st, l)
    ensures Queued(st')
  {
    assert Linked(adj, s, st.parent, st.level, l.v);
    QueueBegins(adj, st.level, st.order, inv, b, h, m, l);
    assert Extends(st.order, st'.order) && forall x :: 0 <= x < |st.level| && st.level[x] >= 0 ==> st'.level[x] == st.level[x];
    assert Enumerates(st.level, st.order);
    hide Searching, InRounds, Linked, QueueHolds, Look;
    forall x | x in st'.lanes ensures QueueHolds(st'.level, st'.order, x) {
      assert x == l || x in st.lanes by { LookLanes(st, l); }
      QueueStays(st.level, st.order, st'.level, st'.order, x);
    }
  }

  lemma LookLanes(st: State, l: Lane)
    requires l.v < |st.parent| == |st.level|
    ensures Look(st, l).lanes == st.lanes + [l]
  {
  }

  /** One lane. */
  method LookAt(adj: Graph, parent: array<int>, inv: nat, qidx: nat, u: nat, vidx: nat, nxt0: seq<nat>, lanes0: seq<Lane>,
                ghost s: nat, ghost st0: State, ghost b: nat, ghost h: nat, ghost m: nat)
    returns (nxt: seq<nat>, lanes: seq<Lane>, ghost st: State)
    requires h < m <= |st0.order| && u == st0.order[h] && u < |adj| && vidx < |adj[u]| && h == b + qidx
    requires Invariant(adj, s, st0, inv, b, h, vidx, m)
    requires Shows(parent[..], nxt0, lanes0, st0, m)
    modifies parent
    ensures Invariant(adj, s, st, inv, b, h, vidx + 1, m) && Extends(st0.order, st.order)
    ensures Shows(parent[..], nxt, lanes, st, m)
  {
    nxt := nxt0;
    ghost var p := parent[..];
    var v := adj[u][vidx];
    var l := Lane(inv, qidx, u, |adj[u]|, vidx, v, parent[v]);
    st := Look(st0, l);
    LookKeeps(adj, s, st0, st, inv, b, h, vidx, m, u, v, l);
    LookShows(p, nxt0, lanes0, st0, l, m);
    lanes := lanes0 + [l];
    if parent[v] < 0 {
      parent[v] := u;
      nxt := nxt + [v];
      assert parent[..] == p[v := u];
    }
  }

  lemma LookShows(p: seq<int>, nxt: seq<nat>, lanes: seq<Lane>, st: State, l: Lane, m: nat)
    requires Shows(p, nxt, lanes, st, m) && l.v < |st.parent| == |st.level|
    ensures l.Active() ==> Shows(p[l.v := l.u], nxt + [l.v], lanes + [l], Look(st, l), m)
    ensures !l.Active() ==> Shows(p, nxt, lanes + [l], Look(st, l), m)
  {
    assert (st.order + [l.v])[m..] == st.order[m..] + [l.v];
  }

  /** The vertex at `qidx` of the frontier is the next one of the order. */
  lemma FrontierVertex(order: seq<nat>, order': seq<nat>, b: nat, m: nat, frontier: seq<nat>, qidx: nat)
    requires Extends(order, order') && m == |order| && b <= m && frontier == order[b..] && qidx < |frontier|
    ensures b + qidx < m <= |order'| && frontier[qidx] == order'[b + qidx]
  {
    assert frontier[qidx] == order[b + qidx];
  }

  /** The loop over the neighbours of one frontier vertex. */
  method ExpandVertex(adj: Graph, parent: array<int>, inv: nat, qidx: nat, u: nat, nxt0: seq<nat>, lanes0: seq<Lane>,
                      ghost s: nat, ghost st0: State, ghost b: nat, ghost h: nat, ghost m: nat)
    returns (nxt: seq<nat>, lanes: seq<Lane>, ghost st: State)
    requires h < m <= |st0.order| && u == st0.order[h] && h == b + qidx
    requires Invariant(adj, s, st0, inv, b, h, 0, m)
    requires Shows(parent[..], nxt0, lanes0, st0, m)
    modifies parent
    ensures Invariant(adj, s, st, inv, b, h + 1, 0, m) && Extends(st0.order, st.order)
    ensures Shows(parent[..], nxt, lanes, st, m)
  {
    nxt, lanes, st := nxt0, lanes0, st0;
    assert FoundIn(st.level, st.order[h], inv);
    hide Invariant;
    for vidx := 0 to |adj[u]|
      invariant Invariant(adj, s, st, inv, b, h, vidx, m) && Extends(st0.order, st.order)
      invariant Shows(parent[..], nxt, lanes, st, m)
    {
      nxt, lanes, st := LookAt(adj, parent, inv, qidx, u, vidx, nxt, lanes, s, st, b, h, m);
    }
    EndRow(adj, s, st, inv, b, h, h + 1, m, u);
  }

  /** The loop over one frontier, `order[b..m]`. */
  method ExpandFrontier(adj: Graph, parent: array<int>, inv: nat, frontier: seq<nat>, lanes0: seq<Lane>,
                        ghost s: nat, ghost st0: State, ghost b: nat, ghost m: nat)
    returns (nxt: seq<nat>, lanes: seq<Lane>, ghost st: State)
    requires b <= m == |st0.order| && frontier == st0.order[b..]
    requires Invariant(adj, s, st0, inv, b, b, 0, m)
    requires Shows(parent[..], [], lanes0, st0, m)
    modifies parent
    ensures Invariant(adj, s, st, inv, b, m, 0, m)
    ensures Shows(parent[..], nxt, lanes, st, m)
  {
    hide Invariant;
    nxt, lanes, st := [], lanes0, st0;
    ghost var h: nat := b;
    for qidx := 0 to |frontier|
      invariant h == b + qidx && Invariant(adj, s, st, inv, b, h, 0, m) && Extends(st0.order, st.order)
      invariant Shows(parent[..], nxt, lanes, st, m)
    {
      FrontierVertex(st0.order, st.order, b, m, frontier, qidx);
      nxt, lanes, st := ExpandVertex(adj, parent, inv, qidx, frontier[qidx], nxt, lanes, s, st, b, h, m);
      h := h + 1;
    }
    assert h == m;
  }

  /** What one round does to the invariant. */
  lemma NextRound(adj: Graph, s: nat, st: State, inv: nat, b: nat, m: nat)
    requires Invariant(adj, s, st, inv, b, m, 0, m) && b < m
    ensures AtRound(adj, s, st, inv + 1, m) && m <= |adj|
  {
    EndRound(adj, s, st, inv, b, m);
    DistinctFits(st.order, |adj|);
  }

  /** The invariant of the loop over the rounds. */
  ghost predicate AtRound(adj: Graph, s: nat, st: State, inv: nat, b: nat) {
    && Invariant(adj, s, st, inv, b, b, 0, |st.order|)
    && (if b == 0 then inv == 0 else inv > 0 && FoundIn(st.level, st.order[b - 1], inv - 1))
    && |st.order| > 0
  }

  /** The loop over the rounds. */
  method Search(adj: Graph, source: nat)
    returns (parent: array<int>, invocations: nat, lanes: seq<Lane>, ghost st: State)
    requires WellFormed(adj) && source < |adj|
    ensures parent[..] == st.parent && lanes == st.lanes
    ensures AtRound(adj, source, st, invocations, |st.order|)
  {
    hide Searching, Recorded;
    var n := |adj|;
    parent := new int[n](_ => -1);
    parent[source] := source;
    var frontier := [source];
    lanes, invocations := [], 0;
    st := State(seq(n, _ => -1)[source := source], seq(n, _ => -1)[source := 0], [source], []);
    ghost var b: nat := 0;
    InitiallySearching(adj, source, st);
    assert parent[..] == st.parent;
    while frontier != []
      invariant AtRound(adj, source, st, invocations, b)
      invariant b <= |st.order| && frontier == st.order[b..]
      invariant Shows(parent[..], [], lanes, st, |st.order|)
      decreases n - b
    {
      ghost var m := |st.order|;
      frontier, lanes, st := ExpandFrontier(adj, parent, invocations, frontier, lanes, source, st, b, m);
      NextRound(adj, source, st, invocations, b, m);
      b := m;
      invocations := invocations + 1;
    }
  }

  /** `run`: the whole search, with the trace it writes. */
  method Run(adj: Graph, source: nat)
    returns (parent: array<int>, invocations: nat, visited: nat, out: seq<Event>, ghost lanes: seq<Lane>, ghost order: seq<nat>)
    requires WellFormed(adj) && source < |adj|
    ensures ShortestPathTree(adj, source, parent[..])
    ensures invocations > 0 && IsEccentricity(adj, source, invocations - 1)
    ensures Accounts(adj, source, parent[..], lanes, order)
    ensures visited == |order|
    ensures out == Trace(lanes) + [Summary(|adj|, invocations, visited, parent[..])]
    ensures out[|out| - 1] == Summary(|adj|, invocations, visited, parent[..]) && Tells(adj, source, parent[..], order, out[..|out| - 1])
    ensures |lanes| == SlotCount(adj, order, |order|)
    ensures |out| == 10 * |lanes| + (visited - 1) + 1
  {
    ghost var st;
    var calls;
    parent, invocations, calls, st := Search(adj, source);
    lanes, order := calls, st.order;
    FinishedTree(adj, source, st, invocations);
    FinishedAccounts(adj, source, st, invocations);
    TraceTells(adj, source, st, invocations);
    FinishedEccentricity(adj, source, st, invocations);
    VisitedCount(adj, source, parent[..], lanes, order);
    TraceLength(source, lanes);
    CoversCount(adj, lanes, order, |order|, 0);
    visited := CountSeen(parent[..], |parent[..]|);
    out := Trace(calls) + [Summary(|adj|, invocations, visited, parent[..])];
    assert out[..|out| - 1] == Trace(calls);
  }
}
