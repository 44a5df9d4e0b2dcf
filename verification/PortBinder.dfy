/**
 The port binder of configs/example/read_config.py (`ConfigManager.bind_ports`): one greedy pass
 over a connection list that names every connection in both directions, with a counter per port.
 The order of the pass is a parameter, so nothing here depends on how connections are sorted.
 */
module PortBinder {
  import opened Text

  datatype Port = Port(owner: string, name: string)

  datatype End = End(port: Port, index: nat)

  datatype Connection = Connection(from: End, to: End)

  datatype Result = Bound(made: seq<Connection>) | UnknownPort(port: Port) | CannotBeOrdered

  function Swap(c: Connection): Connection { Connection(c.to, c.from) }

  predicate Touches(c: Connection, e: End) { c.from == e || c.to == e }

  // ----- the greedy pass -----

  /** How many ends of the selected connections are at port `p`: the counter of `p`. */
  function Uses(made: seq<Connection>, p: Port): nat {
    if made == [] then 0
    else
      var c := made[|made| - 1];
      Uses(made[..|made| - 1], p) + (if c.from.port == p then 1 else 0) + (if c.to.port == p then 1 else 0)
  }

  /** The connections selected among the first `k` of the pass. */
  function Made(order: seq<Connection>, k: nat): seq<Connection>
    requires k <= |order|
    decreases k, 0
  {
    if k == 0 then []
    else if Fits(order, k - 1) then Made(order, k - 1) + [order[k - 1]]
    else Made(order, k - 1)
  }

  predicate EndFits(made: seq<Connection>, e: End) { Uses(made, e.port) == e.index }

  /** The connection at position `i` of the pass is selected. */
  predicate Fits(order: seq<Connection>, i: nat)
    requires i < |order|
    decreases i, 1
  {
    EndFits(Made(order, i), order[i].from) && EndFits(Made(order, i), order[i].to)
  }

  // ----- connection lists -----

  /** Both directions of every connection, no connection twice and none from an end to itself. */
  ghost predicate WellFormed(order: seq<Connection>) {
    && (forall i :: 0 <= i < |order| ==> Swap(order[i]) in order)
    && (forall i, j :: 0 <= i < j < |order| ==> order[i] != order[j])
    && (forall i :: 0 <= i < |order| ==> order[i].from != order[i].to)
  }

  /** An end of some connection selected before position `k`. */
  ghost predicate Taken(order: seq<Connection>, k: nat, e: End)
    requires k <= |order|
  {
    exists i :: 0 <= i < k && Fits(order, i) && Touches(order[i], e)
  }

  // ----- what the pass guarantees -----

  lemma UsesOfAppend(made: seq<Connection>, c: Connection, p: Port)
    ensures Uses(made + [c], p) == Uses(made, p) + (if c.from.port == p then 1 else 0) + (if c.to.port == p then 1 else 0)
  {
    assert (made + [c])[..|made|] == made;
  }

  lemma TakenStep(order: seq<Connection>, k: nat, e: End)
    requires k < |order|
    ensures Taken(order, k + 1, e) <==> Taken(order, k, e) || (Fits(order, k) && Touches(order[k], e))
  {
    if Taken(order, k, e) {
      var i :| 0 <= i < k && Fits(order, i) && Touches(order[i], e);
      assert Taken(order, k + 1, e);
    }
  }

  /** The counter of a port is the first index not taken there. */
  lemma {:induction false} CounterMeans(order: seq<Connection>, k: nat, e: End)
    requires k <= |order| && WellFormed(order)
    ensures Taken(order, k, e) <==> e.index < Uses(Made(order, k), e.port)
  {
    hide *;
    if k == 0 {
      NothingTaken(order, e);
    } else {
      CounterMeans(order, k - 1, e);
      TakenStep(order, k - 1, e);
      EndsDiffer(order, k - 1);
      PassStep(order, k - 1);
      UsesOfAppend(Made(order, k - 1), order[k - 1], e.port);
      if Fits(order, k - 1) {
        FitsAt(order, k - 1, Made(order, k - 1));
        OneMore(Uses(Made(order, k - 1), e.port), Made(order, k - 1), order[k - 1], e);
      }
    }
  }

  lemma NothingTaken(order: seq<Connection>, e: End)
    ensures !Taken(order, 0, e) && Uses(Made(order, 0), e.port) == 0
  {
  }

  lemma EndsDiffer(order: seq<Connection>, i: nat)
    requires WellFormed(order) && i < |order|
    ensures order[i].from != order[i].to
  {
  }

  /** A selected connection takes the next free index of its ports. */
  lemma OneMore(n: nat, made: seq<Connection>, c: Connection, e: End)
    requires n == Uses(made, e.port) && EndFits(made, c.from) && EndFits(made, c.to) && c.from != c.to
    ensures e.index < n || Touches(c, e) <==> e.index < n + (if c.from.port == e.port then 1 else 0) + if c.to.port == e.port then 1 else 0
  {
    hide Uses;
  }

  /** At every port the bindings are selected in index order, without gaps. */
  lemma IndexOrder(order: seq<Connection>, i: nat, e: End, m: nat)
    requires i < |order| && WellFormed(order) && Fits(order, i) && Touches(order[i], e)
    ensures Taken(order, i, End(e.port, m)) <==> m < e.index
  {
    CounterMeans(order, i, End(e.port, m));
  }

  /** No end is bound twice. */
  lemma EndsBoundOnce(order: seq<Connection>, i: nat, j: nat, e: End)
    requires i < |order| && j < |order| && WellFormed(order) && Fits(order, i) && Fits(order, j)
    requires Touches(order[i], e) && Touches(order[j], e)
    ensures i == j
  {
    if i < j {
      IndexOrder(order, j, e, e.index);
    } else if j < i {
      IndexOrder(order, i, e, e.index);
    }
  }

  /** At most one direction of each connection is selected. */
  lemma OneDirection(order: seq<Connection>, i: nat, j: nat)
    requires i < |order| && j < |order| && WellFormed(order) && order[j] == Swap(order[i])
    ensures !(Fits(order, i) && Fits(order, j))
  {
    if Fits(order, i) && Fits(order, j) {
      EndsBoundOnce(order, i, j, order[i].from);
    }
  }

  // ----- counting the selected connections -----

  ghost function Selected(order: seq<Connection>, k: nat): set<nat>
    requires k <= |order|
  {
    set i: nat | i < k && Fits(order, i)
  }

  lemma SelectedStep(order: seq<Connection>, k: nat)
    requires k < |order|
    ensures |Selected(order, k + 1)| == |Selected(order, k)| + if Fits(order, k) then 1 else 0
  {
    hide Fits, Made;
    assert Selected(order, k + 1) == Selected(order, k) + if Fits(order, k) then {k} else {};
  }

  lemma NothingMade(order: seq<Connection>)
    ensures Made(order, 0) == [] && Selected(order, 0) == {}
  {
  }

  /** As many connections are made as positions are selected ... */
  lemma {:induction false} MadeCount(order: seq<Connection>, k: nat)
    requires k <= |order|
    ensures |Made(order, k)| == |Selected(order, k)|
  {
    hide *;
    if k == 0 {
      NothingMade(order);
    } else {
      MadeCount(order, k - 1);
      PassStep(order, k - 1);
      SelectedStep(order, k - 1);
    }
  }

  /** ... and they are the connections at those positions. */
  lemma {:induction false} MadeMembers(order: seq<Connection>, k: nat, c: Connection)
    requires k <= |order|
    ensures c in Made(order, k) <==> exists i :: 0 <= i < k && Fits(order, i) && order[i] == c
  {
    if k > 0 {
      MadeMembers(order, k - 1, c);
      PassStep(order, k - 1);
      hide *;
    }
  }

  ghost function Mate(order: seq<Connection>, i: nat): (j: nat)
    requires WellFormed(order) && i < |order|
    ensures j < |order| && order[j] == Swap(order[i])
  {
    var j: nat :| j < |order| && order[j] == Swap(order[i]); j
  }

  lemma MateIsInvolution(order: seq<Connection>, i: nat)
    requires WellFormed(order) && i < |order|
    ensures Mate(order, Mate(order, i)) == i && Mate(order, i) != i
  {
  }

  ghost function Mates(order: seq<Connection>, s: set<nat>): set<nat>
    requires WellFormed(order) && forall i :: i in s ==> i < |order|
  {
    set i | i in s :: Mate(order, i)
  }

  lemma {:induction false} MatesCount(order: seq<Connection>, s: set<nat>)
    requires WellFormed(order) && forall i :: i in s ==> i < |order|
    ensures |Mates(order, s)| == |s|
    decreases |s|
  {
    if s != {} {
      var x :| x in s;
      var rest := s - {x};
      MatesCount(order, rest);
      assert Mates(order, s) == Mates(order, rest) + {Mate(order, x)};
      if Mate(order, x) in Mates(order, rest) {
        var y :| y in rest && Mate(order, y) == Mate(order, x);
        MateIsInvolution(order, x);
        MateIsInvolution(order, y);
      }
    }
  }

  ghost function Positions(n: nat): set<nat> {
    if n == 0 then {} else Positions(n - 1) + {n - 1}
  }

  lemma {:induction false} PositionsMeans(n: nat)
    ensures |Positions(n)| == n && forall i: nat :: i in Positions(n) <==> i < n
  {
    if n > 0 {
      PositionsMeans(n - 1);
    }
  }

  lemma FullSubset(a: set<nat>, b: set<nat>)
    requires a <= b
    ensures |a| == |b| <==> a == b
  {
    assert b == a + (b - a);
  }

  /** Some direction of the connection at `i` is selected. */
  ghost predicate Covered(order: seq<Connection>, i: nat)
    requires WellFormed(order) && i < |order|
  {
    Fits(order, i) || Fits(order, Mate(order, i))
  }

  lemma SelectedAndMates(order: seq<Connection>, i: nat)
    requires WellFormed(order) && i < |order|
    ensures var s := Selected(order, |order|);
            !(i in s && i in Mates(order, s)) && (Covered(order, i) <==> i in s || i in Mates(order, s))
  {
    var s := Selected(order, |order|);
    var j := Mate(order, i);
    MateIsInvolution(order, i);
    OneDirection(order, i, j);
    assert j in s ==> i in Mates(order, s);
    if i in Mates(order, s) {
      var k :| k in s && Mate(order, k) == i;
      MateIsInvolution(order, k);
    }
  }

  lemma Pigeonhole(n: nat, s: set<nat>, t: set<nat>)
    requires s !! t && |s| == |t| && forall i :: i in s || i in t ==> i < n
    ensures 2 * |s| == n <==> forall i: nat :: i < n ==> i in s || i in t
  {
    PositionsMeans(n);
    hide Positions;
    var all := Positions(n);
    assert |s + t| == 2 * |s|;
    FullSubset(s + t, all);
  }

  /** Half the list is selected exactly when one direction of every connection is: a pigeonhole argument. */
  lemma HalfIffCovered(order: seq<Connection>)
    requires WellFormed(order)
    ensures 2 * |Made(order, |order|)| == |order| <==> forall i :: 0 <= i < |order| ==> Covered(order, i)
  {
    var n := |order|;
    var s := Selected(order, n);
    var t := Mates(order, s);
    MadeCount(order, n);
    MatesCount(order, s);
    hide Made, Fits, Uses, Covered, Touches, WellFormed;
    forall i: nat | i < n ensures !(i in s && i in t) && (Covered(order, i) <==> i in s || i in t) {
      SelectedAndMates(order, i);
    }
    assert forall i :: i in s || i in t ==> i < n;
    hide Selected, Mates;
    Pigeonhole(n, s, t);
  }

  // ----- when the pass succeeds -----

  /**
   `pick` chooses one direction of each connection such that at every port the ends are chosen one
   after the other: an end of index `n` only after ends of the indices below `n`.
   */
  ghost predicate Schedule(order: seq<Connection>, pick: set<nat>) {
    && (forall i :: i in pick ==> i < |order|)
    && (forall i: nat, j: nat :: i < |order| && j < |order| && order[j] == Swap(order[i]) ==> (i in pick <==> j !in pick))
    && (forall i, j, e :: i in pick && j in pick && Touches(order[i], e) && Touches(order[j], e) ==> i == j)
    && (forall i, e, m: nat :: i in pick && Touches(order[i], e) && m < e.index ==> PickedBefore(order, pick, i, End(e.port, m)))
  }

  ghost predicate PickedBefore(order: seq<Connection>, pick: set<nat>, i: nat, e: End) {
    exists j :: j in pick && j < i && j < |order| && Touches(order[j], e)
  }

  /** The greedy pass is never behind any schedule. */
  lemma {:induction false} GreedyKeepsUp(order: seq<Connection>, pick: set<nat>, i: nat)
    requires WellFormed(order) && Schedule(order, pick) && i in pick
    ensures Fits(order, i) || (Mate(order, i) < i && Fits(order, Mate(order, i)))
    decreases i
  {
    var j := Mate(order, i);
    MateIsInvolution(order, i);
    if !(j < i && Fits(order, j)) {
      EndIsNext(order, pick, i, order[i].from);
      EndIsNext(order, pick, i, order[i].to);
    }
  }

  lemma {:induction false} EndIsNext(order: seq<Connection>, pick: set<nat>, i: nat, e: End)
    requires WellFormed(order) && Schedule(order, pick) && i in pick && Touches(order[i], e)
    requires !(Mate(order, i) < i && Fits(order, Mate(order, i)))
    ensures Uses(Made(order, i), e.port) == e.index
    decreases i, 0
  {
    if 0 < e.index {
      var below := End(e.port, e.index - 1);
      assert PickedBefore(order, pick, i, below);
      var j :| j in pick && j < i && Touches(order[j], below);
      GreedyKeepsUp(order, pick, j);
      assert Touches(order[Mate(order, j)], below);
      assert Taken(order, i, below);
      CounterMeans(order, i, below);
    }
    NotTakenYet(order, pick, i, e);
    CounterMeans(order, i, e);
  }

  lemma NotTakenYet(order: seq<Connection>, pick: set<nat>, i: nat, e: End)
    requires WellFormed(order) && Schedule(order, pick) && i in pick && Touches(order[i], e)
    requires !(Mate(order, i) < i && Fits(order, Mate(order, i)))
    ensures !Taken(order, i, e)
  {
    if Taken(order, i, e) {
      var k :| 0 <= k < i && Fits(order, k) && Touches(order[k], e);
      MateIsInvolution(order, k);
      assert Touches(order[Mate(order, k)], e);
    }
  }

  /** The pass succeeds exactly when some schedule exists for its order. */
  lemma SucceedsIff(order: seq<Connection>)
    requires WellFormed(order)
    ensures 2 * |Made(order, |order|)| == |order| <==> exists pick :: Schedule(order, pick)
  {
    HalfIffCovered(order);
    if pick :| Schedule(order, pick) {
      forall i | 0 <= i < |order| ensures Covered(order, i) {
        MateIsInvolution(order, i);
        GreedyKeepsUp(order, pick, if i in pick then i else Mate(order, i));
      }
    }
    if forall i :: 0 <= i < |order| ==> Covered(order, i) {
      SelectionIsSchedule(order);
    }
  }

  lemma SelectionIsSchedule(order: seq<Connection>)
    requires WellFormed(order) && forall i :: 0 <= i < |order| ==> Covered(order, i)
    ensures Schedule(order, Selected(order, |order|))
  {
    hide Made, Uses, Fits;
    var pick := Selected(order, |order|);
    forall i: nat, j: nat | i < |order| && j < |order| && order[j] == Swap(order[i])
      ensures i in pick <==> j !in pick
    {
      OneDirection(order, i, j);
      assert Covered(order, i);
    }
    forall i, j, e | i in pick && j in pick && Touches(order[i], e) && Touches(order[j], e) ensures i == j {
      EndsBoundOnce(order, i, j, e);
    }
    forall i, e, m: nat | i in pick && Touches(order[i], e) && m < e.index
      ensures PickedBefore(order, pick, i, End(e.port, m))
    {
      IndexOrder(order, i, e, m);
      var j :| 0 <= j < i && Fits(order, j) && Touches(order[j], End(e.port, m));
      assert j in pick;
    }
  }

  // ----- the method -----

  function Ports(connections: seq<Connection>, k: nat): set<Port>
    requires k <= |connections|
  {
    if k == 0 then {} else Ports(connections, k - 1) + {connections[k - 1].from.port}
  }

  lemma {:induction false} PortsMeans(connections: seq<Connection>, k: nat, p: Port)
    requires k <= |connections|
    ensures p in Ports(connections, k) <==> exists i :: 0 <= i < k && connections[i].from.port == p
  {
    if k > 0 { PortsMeans(connections, k - 1, p); }
  }

  /** Position `k` looks up a port that no connection starts from. */
  ghost predicate LooksUpUnknown(ports: set<Port>, order: seq<Connection>, k: nat)
    requires k < |order|
  {
    EndFits(Made(order, k), order[k].from) && order[k].to.port !in ports
  }

  /** `counters` counts, for each known port, the ends selected so far. */
  ghost predicate Counts(counters: map<Port, nat>, ports: set<Port>, made: seq<Connection>) {
    counters.Keys == ports && forall p :: p in ports ==> counters[p] == Uses(made, p)
  }

  lemma CountUp(counters: map<Port, nat>, ports: set<Port>, made: seq<Connection>, c: Connection)
    requires Counts(counters, ports, made) && c.from.port in ports && c.to.port in ports
    ensures var once := counters[c.from.port := counters[c.from.port] + 1];
            Counts(once[c.to.port := once[c.to.port] + 1], ports, made + [c])
  {
    forall p | p in ports ensures Uses(made + [c], p) == Uses(made, p) + (if c.from.port == p then 1 else 0) + (if c.to.port == p then 1 else 0) {
      UsesOfAppend(made, c, p);
    }
  }

  lemma SameMembers(a: seq<Connection>, b: seq<Connection>, i: nat)
    requires multiset(a) == multiset(b) && i < |a|
    ensures |a| == |b| && a[i] in b && a[i].from.port in Ports(b, |b|)
  {
    assert |a| == |multiset(a)| && |b| == |multiset(b)|;
    assert a[i] in multiset(a);
    PortsMeans(b, |b|, a[i].from.port);
  }

  /** Setting every counter to 0. */
  method ClearCounters(connections: seq<Connection>) returns (counters: map<Port, nat>)
    ensures Counts(counters, Ports(connections, |connections|), [])
  {
    counters := map[];
    for k := 0 to |connections|
      invariant Counts(counters, Ports(connections, k), [])
    {
      counters := counters[connections[k].from.port := 0];
    }
  }

  /**
   `bind_ports`, with `order` for `sorted(connections)`. An unknown port is the KeyError of a list
   that does not have both directions of every connection.
   */
  method BindPorts(connections: seq<Connection>, order: seq<Connection>) returns (r: Result)
    requires multiset(order) == multiset(connections)
    ensures var ports := Ports(connections, |connections|);
            r.UnknownPort? <==> exists k :: 0 <= k < |order| && LooksUpUnknown(ports, order, k)
    ensures r.Bound? ==> r.made == Made(order, |order|)
    ensures !r.UnknownPort? ==> (r.Bound? <==> 2 * |Made(order, |order|)| == |order|)
  {
    assert |order| == |multiset(order)| && |connections| == |multiset(connections)|;
    hide Uses, Made, Ports;
    var counters := ClearCounters(connections);
    ghost var ports := Ports(connections, |connections|);
    var made := [];
    StartPass(order);
    for k := 0 to |order|
      invariant made == Made(order, k) && Counts(counters, ports, made)
      invariant forall i :: 0 <= i < k ==> !LooksUpUnknown(ports, order, i)
    {
      var c := order[k];
      SameMembers(order, connections, k);
      PassStep(order, k);
      if counters[c.from.port] == c.from.index {
        if c.to.port !in counters {
          assert LooksUpUnknown(ports, order, k);
          return UnknownPort(c.to.port);
        }
        if counters[c.to.port] == c.to.index {
          CountUp(counters, ports, made, c);
          made := made + [c];
          counters := counters[c.from.port := counters[c.from.port] + 1];
          counters := counters[c.to.port := counters[c.to.port] + 1];
        }
      }
    }
    if 2 * |made| != |connections| {
      return CannotBeOrdered;
    }
    return Bound(made);
  }

  lemma StartPass(order: seq<Connection>)
    ensures Made(order, 0) == []
  {
  }

  lemma PassStep(order: seq<Connection>, k: nat)
    requires k < |order|
    ensures Made(order, k + 1) == if Fits(order, k) then Made(order, k) + [order[k]] else Made(order, k)
  {
  }

  /** A list with both directions of every connection never looks up an unknown port. */
  lemma NoUnknownPort(connections: seq<Connection>, order: seq<Connection>, k: nat)
    requires WellFormed(order) && multiset(order) == multiset(connections) && k < |order|
    ensures !LooksUpUnknown(Ports(connections, |connections|), order, k)
  {
    var j := Mate(order, k);
    SameMembers(order, connections, j);
  }

  // ----- sorting the connections is not enough -----

  predicate PortLess(a: Port, b: Port) { StringLess(a.owner, b.owner) || (a.owner == b.owner && StringLess(a.name, b.name)) }

  /** The order in which the source sorts: by owner, port name and index. */
  predicate EndLess(a: End, b: End) { PortLess(a.port, b.port) || (a.port == b.port && a.index < b.index) }

  predicate Less(a: Connection, b: Connection) { EndLess(a.from, b.from) || (a.from == b.from && EndLess(a.to, b.to)) }

  lemma EndsCompare(a: End, b: End)
    ensures EndLess(a, b) ==> a != b && !EndLess(b, a)
    ensures a != b ==> EndLess(a, b) || EndLess(b, a)
  {
    StringsCompare(a.port.owner, b.port.owner);
    StringsCompare(a.port.name, b.port.name);
  }

  /** Sorting has one result: of two different connections exactly one is less. */
  lemma ConnectionsCompare(a: Connection, b: Connection)
    ensures Less(a, b) ==> a != b && !Less(b, a)
    ensures a != b ==> Less(a, b) || Less(b, a)
  {
    EndsCompare(a.from, b.from);
    EndsCompare(a.to, b.to);
  }

  ghost predicate Sorted(order: seq<Connection>) { forall i :: 0 < i < |order| ==> Less(order[i - 1], order[i]) }

  /** Three connections, b[0]-d[1], b[1]-c[0] and d[0]-e[0], listed in sorted order. */
  function SortedList(b: Port, c: Port, d: Port, e: Port): seq<Connection> {
    [Connection(End(b, 0), End(d, 1)), Connection(End(b, 1), End(c, 0)), Connection(End(c, 0), End(b, 1)),
     Connection(End(d, 0), End(e, 0)), Connection(End(d, 1), End(b, 0)), Connection(End(e, 0), End(d, 0))]
  }

  function ReversedList(b: Port, c: Port, d: Port, e: Port): seq<Connection> {
    var s := SortedList(b, c, d, e);
    [s[5], s[4], s[3], s[2], s[1], s[0]]
  }

  ghost predicate Different(b: Port, c: Port, d: Port, e: Port) {
    b != c && b != d && b != e && c != d && c != e && d != e
  }

  lemma UsesOfUpTo(a: Connection, b: Connection, p: Port)
    ensures Uses([], p) == 0
    ensures Uses([a], p) == (if a.from.port == p then 1 else 0) + (if a.to.port == p then 1 else 0)
    ensures Uses([a, b], p) == Uses([a], p) + (if b.from.port == p then 1 else 0) + (if b.to.port == p then 1 else 0)
  {
    UsesOfAppend([], a, p);
    UsesOfAppend([a], b, p);
    assert [] + [a] == [a] && [a] + [b] == [a, b];
  }

  lemma SortedListIsWellFormed(b: Port, c: Port, d: Port, e: Port)
    requires Different(b, c, d, e)
    ensures WellFormed(SortedList(b, c, d, e))
  {
    var s := SortedList(b, c, d, e);
    assert s[0] == Connection(End(b, 0), End(d, 1)) && s[1] == Connection(End(b, 1), End(c, 0)) && s[2] == Swap(s[1]);
    assert s[3] == Connection(End(d, 0), End(e, 0)) && s[4] == Swap(s[0]) && s[5] == Swap(s[3]) && |s| == 6;
    hide SortedList;
    forall i, j | 0 <= i < j < |s| ensures s[i] != s[j] {
      assert s[i].from != s[j].from;
    }
    forall i | 0 <= i < |s| ensures Swap(s[i]) in s && s[i].from != s[i].to {
      var mate := [4, 2, 1, 5, 0, 3];
      assert Swap(s[i]) == s[mate[i]];
    }
  }

  lemma SortedPassBindsTwo(b: Port, c: Port, d: Port, e: Port)
    requires Different(b, c, d, e)
    ensures |Made(SortedList(b, c, d, e), 6)| == 2
  {
    var s := SortedList(b, c, d, e);
    PassSteps(s);
    forall p ensures Uses([], p) == 0 && Uses([s[3]], p) == (if p == d || p == e then 1 else 0) {
      UsesOfUpTo(s[3], s[4], p);
    }
    UsesOfUpTo(s[3], s[4], e);
    hide Made, Uses, Fits;
    FitsAt(s, 0, []);
    FitsAt(s, 1, []);
    FitsAt(s, 2, []);
    FitsAt(s, 3, []);
    FitsAt(s, 4, [s[3]]);
    FitsAt(s, 5, [s[3], s[4]]);
  }

  lemma ReversedPassSucceeds(b: Port, c: Port, d: Port, e: Port)
    requires Different(b, c, d, e)
    ensures |Made(ReversedList(b, c, d, e), 6)| == 3
  {
    var t := ReversedList(b, c, d, e);
    PassSteps(t);
    var m := [t[0], t[1]];
    forall p ensures Uses([], p) == 0 && Uses([t[0]], p) == (if p == d || p == e then 1 else 0) {
      UsesOfUpTo(t[0], t[1], p);
    }
    forall p ensures Uses(m, p) == if p == d then 2 else if p == b || p == e then 1 else 0 {
      UsesOfUpTo(t[0], t[1], p);
    }
    UsesOfAppend(m, t[3], b);
    hide Made, Uses, Fits;
    FitsAt(t, 0, []);
    FitsAt(t, 1, [t[0]]);
    FitsAt(t, 2, m);
    FitsAt(t, 3, m);
    FitsAt(t, 4, m + [t[3]]);
    FitsAt(t, 5, m + [t[3]]);
  }

  lemma FitsAt(order: seq<Connection>, k: nat, made: seq<Connection>)
    requires k < |order| && made == Made(order, k)
    ensures Fits(order, k) <==> EndFits(made, order[k].from) && EndFits(made, order[k].to)
  {
  }

  lemma ListIsSorted(b: Port, c: Port, d: Port, e: Port)
    requires PortLess(b, c) && PortLess(c, d) && PortLess(d, e)
    ensures Sorted(SortedList(b, c, d, e))
  {
    var s := SortedList(b, c, d, e);
    assert |s| == 6 && s[0].from == End(b, 0) && s[1].from == End(b, 1) && s[2].from == End(c, 0);
    assert s[3].from == End(d, 0) && s[4].from == End(d, 1) && s[5].from == End(e, 0);
    hide SortedList, PortLess;
  }

  /**
   A sorted, well-formed list of which the pass does not bind every connection, so that the source gives
   up, although the pass binds all of the same connections in another order.
   */
  lemma SortedPassMayFail(b: Port, c: Port, d: Port, e: Port)
    requires Different(b, c, d, e) && PortLess(b, c) && PortLess(c, d) && PortLess(d, e)
    ensures var s, t := SortedList(b, c, d, e), ReversedList(b, c, d, e);
            && Sorted(s) && WellFormed(s) && 2 * |Made(s, |s|)| != |s|
            && multiset(t) == multiset(s) && 2 * |Made(t, |t|)| == |t|
  {
    SortedListIsWellFormed(b, c, d, e);
    ListIsSorted(b, c, d, e);
    SortedPassBindsTwo(b, c, d, e);
    ReversedPassSucceeds(b, c, d, e);
    SameConnections(b, c, d, e);
    assert |SortedList(b, c, d, e)| == 6 == |ReversedList(b, c, d, e)|;
    hide SortedList, ReversedList, Made, Sorted, WellFormed;
  }

  lemma SameConnections(b: Port, c: Port, d: Port, e: Port)
    ensures multiset(ReversedList(b, c, d, e)) == multiset(SortedList(b, c, d, e))
  {
    SameBackwards(SortedList(b, c, d, e), ReversedList(b, c, d, e));
  }

  lemma {:induction false} SameBackwards(s: seq<Connection>, t: seq<Connection>)
    requires |s| == |t| && forall i :: 0 <= i < |s| ==> t[i] == s[|s| - 1 - i]
    ensures multiset(t) == multiset(s)
  {
    if s != [] {
      var n := |s| - 1;
      SameBackwards(s[1..], t[..n]);
      assert s == [s[0]] + s[1..] && t == t[..n] + [t[n]];
    }
  }

  lemma PassSteps(order: seq<Connection>)
    ensures Made(order, 0) == []
    ensures forall k: nat {:trigger Fits(order, k)} :: k < |order| ==>
              Made(order, k + 1) == if Fits(order, k) then Made(order, k) + [order[k]] else Made(order, k)
  {
  }
}
