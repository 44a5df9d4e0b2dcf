/**
 Prefetch quality accounting of src/cpu/o3/dvr_quality.cc (`DVRQualityTracker`): the counters are
 related to each other by conservation laws that every event keeps. Counters are unbounded here.
 */
module PrefetchQuality {
  import opened ShadowCache
  import opened PrefetchEvents

  datatype Request = Request(line: Line, bytes: nat, issuedAt: nat)

  datatype Prefetched = Prefetched(filledAt: nat, used: bool)

  datatype Victim = NoVictim | Evicted(line: Line, origin: Origin)

  datatype Counters = Counters(
    generated: nat, issued: nat, issuedBytes: nat, completed: nat, completedBytes: nat, fills: nat, redundantFills: nat,
    usefulTimely: nat, usefulLate: nat, coveredMisses: nat, unusedEvictions: nat, demandAccesses: nat,
    actualDemandMisses: nat, shadowDemandMisses: nat, pollutionEvictions: nat, pollutionMisses: nat, leadTime: int)

  // ----- sums over the outstanding requests -----

  ghost function Bytes(m: map<RequestId, Request>): nat
    decreases |m|
  {
    if m == map[] then 0 else var id :| id in m; m[id].bytes + Bytes(m - {id})
  }

  lemma {:induction false} BytesWithout(m: map<RequestId, Request>, id: RequestId)
    requires id in m
    ensures Bytes(m) == m[id].bytes + Bytes(m - {id})
    decreases |m|
  {
    var x :| x in m && Bytes(m) == m[x].bytes + Bytes(m - {x});
    if x != id {
      BytesWithout(m - {x}, id);
      BytesWithout(m - {id}, x);
      assert m - {x} - {id} == m - {id} - {x};
    }
  }

  ghost function Index(m: map<RequestId, Request>): set<(Line, RequestId)> {
    set id | id in m :: (m[id].line, id)
  }

  ghost function Unused(m: map<Line, Prefetched>): set<Line> {
    set line | line in m && !m[line].used
  }

  // ----- the tracker's data and its events -----

  datatype Ledger = Ledger(
    counts: Counters, outstanding: map<RequestId, Request>, outstandingByLine: set<(Line, RequestId)>,
    prefetched: map<Line, Prefetched>, lateReported: set<Line>, pollutionVictims: set<Line>)

  function Bit(b: bool): nat { if b then 1 else 0 }

  function Erase(s: set<Line>, x: Line): set<Line> { s - {x} }

  function Insert(s: set<Line>, x: Line, doit: bool): set<Line> { if doit then s + {x} else s }

  function Issue(l: Ledger, id: RequestId, r: Request): Ledger {
    l.(outstanding := l.outstanding[id := r], outstandingByLine := l.outstandingByLine + {(r.line, id)},
       counts := l.counts.(issued := l.counts.issued + 1, issuedBytes := l.counts.issuedBytes + r.bytes))
  }

  function Drop(l: Ledger, id: RequestId): Ledger
    requires id in l.outstanding
  {
    l.(outstanding := l.outstanding - {id}, outstandingByLine := l.outstandingByLine - {(l.outstanding[id].line, id)})
  }

  function Complete(l: Ledger, id: RequestId): Ledger
    requires id in l.outstanding
  {
    Drop(l, id).(counts := l.counts.(completed := l.counts.completed + 1,
                                     completedBytes := l.counts.completedBytes + l.outstanding[id].bytes))
  }

  /** The lookup is the first use of a prefetched line. */
  predicate FirstUse(l: Ledger, line: Line, hit: bool) { hit && line in l.prefetched && !l.prefetched[line].used }

  /** The line is on its way, and that was not reported yet. */
  predicate TooLate(l: Ledger, line: Line, hit: bool) {
    !hit && (exists p :: p in l.outstandingByLine && p.0 == line) && line !in l.lateReported
  }

  function LookUp(l: Ledger, line: Line, hit: bool, shadowHit: bool, now: nat): Ledger {
    var first, late := FirstUse(l, line, hit), TooLate(l, line, hit);
    var c := l.counts;
    l.(prefetched := if first then l.prefetched[line := l.prefetched[line].(used := true)] else l.prefetched,
       lateReported := Insert(l.lateReported, line, late),
       pollutionVictims := Erase(l.pollutionVictims, line),
       counts := c.(
         demandAccesses := c.demandAccesses + 1,
         actualDemandMisses := c.actualDemandMisses + Bit(!hit),
         shadowDemandMisses := c.shadowDemandMisses + Bit(!shadowHit),
         usefulTimely := c.usefulTimely + Bit(first),
         coveredMisses := c.coveredMisses + Bit(first && !shadowHit),
         leadTime := c.leadTime + if first then now - l.prefetched[line].filledAt else 0,
         usefulLate := c.usefulLate + Bit(late),
         pollutionMisses := c.pollutionMisses + Bit(!hit && shadowHit && line in l.pollutionVictims)))
  }

  predicate UnusedLine(l: Ledger, line: Line) { line in l.prefetched && !l.prefetched[line].used }

  /** A line leaves the cache; `polluting` if a prefetch displaced a demand line that the shadow still holds. */
  function Evict(l: Ledger, line: Line, polluting: bool): Ledger {
    l.(prefetched := l.prefetched - {line},
       pollutionVictims := Insert(Erase(l.pollutionVictims, line), line, polluting),
       counts := l.counts.(unusedEvictions := l.counts.unusedEvictions + Bit(UnusedLine(l, line)),
                           pollutionEvictions := l.counts.pollutionEvictions + Bit(polluting)))
  }

  function FillByDvr(l: Ledger, line: Line, now: nat): Ledger {
    l.(lateReported := Erase(l.lateReported, line),
       prefetched := if line in l.prefetched then l.prefetched else l.prefetched[line := Prefetched(now, line in l.lateReported)],
       counts := l.counts.(fills := l.counts.fills + 1, redundantFills := l.counts.redundantFills + Bit(line in l.prefetched)))
  }

  function FillByDemand(l: Ledger, line: Line): Ledger {
    l.(prefetched := l.prefetched - {line}, pollutionVictims := Erase(l.pollutionVictims, line))
  }

  function Remove(l: Ledger, line: Line, origin: Origin): Ledger {
    var kept := if origin == Dvr then Evict(l, line, false) else l;
    kept.(pollutionVictims := Erase(l.pollutionVictims, line), lateReported := Erase(l.lateReported, line))
  }

  // ----- the conservation laws -----

  /** Events that happen without being counted. */
  datatype Uncounted = Uncounted(dropped: nat, droppedBytes: nat, lateFills: nat, overwritten: nat)

  /** Every issued request is outstanding, completed or dropped. */
  ghost predicate Requests(l: Ledger, u: Uncounted) {
    && l.outstandingByLine == Index(l.outstanding)
    && l.counts.issued == l.counts.completed + u.dropped + |l.outstanding|
    && l.counts.issuedBytes == l.counts.completedBytes + u.droppedBytes + Bytes(l.outstanding)
  }

  /** Every filled line was redundant, is unused so far, was used in time or too late, evicted unused or overwritten. */
  ghost predicate Lines(l: Ledger, u: Uncounted) {
    var c := l.counts;
    && c.fills == c.redundantFills + u.lateFills + c.usefulTimely + c.unusedEvictions + u.overwritten + |Unused(l.prefetched)|
    && c.coveredMisses <= c.usefulTimely && c.coveredMisses <= c.shadowDemandMisses
    && c.shadowDemandMisses <= c.demandAccesses
    && c.usefulTimely + c.actualDemandMisses <= c.demandAccesses
    && c.usefulLate <= c.actualDemandMisses
    && c.pollutionMisses + |l.pollutionVictims| <= c.pollutionEvictions
  }

  ghost predicate Balanced(l: Ledger, u: Uncounted) { Requests(l, u) && Lines(l, u) }

  /** Nothing has happened yet. */
  predicate Empty(l: Ledger) {
    && l.outstanding == map[] && l.outstandingByLine == {} && l.prefetched == map[] && l.lateReported == {} && l.pollutionVictims == {}
    && l.counts == Counters(0, 0, 0, 0, 0, 0, 0, 0, 0, 0, 0, 0, 0, 0, 0, 0, 0)
  }

  method NewLedger() returns (l: Ledger)
    ensures Empty(l)
  {
    l := Ledger(Counters(0, 0, 0, 0, 0, 0, 0, 0, 0, 0, 0, 0, 0, 0, 0, 0, 0), map[], {}, map[], {}, {});
  }

  lemma EmptyIsBalanced(l: Ledger)
    requires Empty(l)
    ensures Balanced(l, Uncounted(0, 0, 0, 0))
  {
    EmptyMaps();
    hide Index, Unused, Bytes;
  }

  lemma EmptyMaps()
    ensures Index(map[]) == {} && Unused(map[]) == {} && Bytes(map[]) == 0
  {
  }

  lemma Remember(m: map<RequestId, Request>, id: RequestId, r: Request)
    requires id !in m
    ensures Index(m[id := r]) == Index(m) + {(r.line, id)}
    ensures Bytes(m[id := r]) == Bytes(m) + r.bytes && |m[id := r]| == |m| + 1
  {
    var n := m[id := r];
    assert n - {id} == m && n[id] == r;
    Forget(n, id);
    hide Bytes;
    forall p ensures p in Index(n) <==> p in Index(m) || p == (r.line, id) {
      if p in Index(m) { assert p.1 in m && p == (n[p.1].line, p.1); }
      assert id in n && (n[id].line, id) == (r.line, id);
    }
  }

  lemma Forget(m: map<RequestId, Request>, id: RequestId)
    requires id in m
    ensures Index(m - {id}) == Index(m) - {(m[id].line, id)}
    ensures |m| == |m - {id}| + 1 && Bytes(m) == m[id].bytes + Bytes(m - {id})
  {
    BytesWithout(m, id);
    hide Bytes;
    assert m.Keys == (m - {id}).Keys + {id};
  }

  lemma IssueKeeps(l: Ledger, u: Uncounted, id: RequestId, r: Request)
    requires Balanced(l, u) && id !in l.outstanding
    ensures Balanced(Issue(l, id, r), u)
  {
    Remember(l.outstanding, id, r);
    hide Index, Bytes, Unused;
  }

  lemma DropKeeps(l: Ledger, u: Uncounted, id: RequestId)
    requires Balanced(l, u) && id in l.outstanding
    ensures Balanced(Drop(l, id), u.(dropped := u.dropped + 1, droppedBytes := u.droppedBytes + l.outstanding[id].bytes))
    ensures Balanced(Complete(l, id), u)
  {
    Forget(l.outstanding, id);
    hide Index, Bytes, Unused;
  }

  lemma UnusedWithout(m: map<Line, Prefetched>, line: Line)
    ensures |Unused(m - {line})| == |Unused(m)| - Bit(line in m && !m[line].used)
  {
    assert Unused(m) == Unused(m - {line}) + if line in m && !m[line].used then {line} else {};
  }

  lemma UnusedWith(m: map<Line, Prefetched>, line: Line, p: Prefetched)
    ensures |Unused(m[line := p])| == |Unused(m - {line})| + Bit(!p.used)
  {
    assert Unused(m[line := p]) == Unused(m - {line}) + if p.used then {} else {line};
  }

  lemma Counted(s: set<Line>, x: Line, doit: bool)
    ensures |Erase(s, x)| == |s| - Bit(x in s) && |Insert(Erase(s, x), x, doit)| == |Erase(s, x)| + Bit(doit)
  {
    if x !in s { assert s - {x} == s; }
  }

  lemma LookUpKeeps(l: Ledger, u: Uncounted, line: Line, hit: bool, shadowHit: bool, now: nat)
    requires Balanced(l, u)
    ensures Balanced(LookUp(l, line, hit, shadowHit, now), u)
  {
    LookUpRequests(l, u, line, hit, shadowHit, now);
    LookUpLines(l, u, line, hit, shadowHit, now);
    hide LookUp, Requests, Lines;
  }

  lemma LookUpRequests(l: Ledger, u: Uncounted, line: Line, hit: bool, shadowHit: bool, now: nat)
    requires Requests(l, u)
    ensures Requests(LookUp(l, line, hit, shadowHit, now), u)
  {
    hide Index, Bytes, FirstUse, TooLate, Erase, Insert;
  }

  lemma LookUpLines(l: Ledger, u: Uncounted, line: Line, hit: bool, shadowHit: bool, now: nat)
    requires Lines(l, u)
    ensures Lines(LookUp(l, line, hit, shadowHit, now), u)
  {
    Counted(l.pollutionVictims, line, false);
    if FirstUse(l, line, hit) {
      UnusedWithout(l.prefetched, line);
      UnusedWith(l.prefetched, line, l.prefetched[line].(used := true));
    }
    hide Unused, TooLate, Erase, Insert;
  }

  lemma EvictKeeps(l: Ledger, u: Uncounted, line: Line, polluting: bool)
    requires Balanced(l, u)
    ensures Balanced(Evict(l, line, polluting), u)
  {
    Counted(l.pollutionVictims, line, polluting);
    UnusedWithout(l.prefetched, line);
    hide Index, Bytes, Unused, Erase, Insert;
  }

  lemma FillKeeps(l: Ledger, u: Uncounted, line: Line, now: nat)
    requires Balanced(l, u)
    ensures Balanced(FillByDvr(l, line, now), u.(lateFills := u.lateFills + Bit(line in l.lateReported && line !in l.prefetched)))
    ensures Balanced(FillByDemand(l, line), u.(overwritten := u.overwritten + Bit(UnusedLine(l, line))))
  {
    Counted(l.pollutionVictims, line, false);
    UnusedWithout(l.prefetched, line);
    UnusedWith(l.prefetched, line, Prefetched(now, line in l.lateReported));
    hide Index, Bytes, Unused, Erase, Insert;
  }

  lemma RemoveKeeps(l: Ledger, u: Uncounted, line: Line, origin: Origin)
    requires Balanced(l, u)
    ensures Balanced(Remove(l, line, origin), u)
  {
    Counted(l.pollutionVictims, line, false);
    if origin == Dvr {
      EvictKeeps(l, u, line, false);
      hide Index, Bytes, Unused, Erase, UnusedLine;
    } else {
      hide Index, Bytes, Unused, Erase, Evict;
    }
  }

  // ----- ratios -----

  /** A quotient, or 0 without a divisor. */
  function Ratio(n: nat, d: nat): (r: real)
    ensures n <= d ==> 0.0 <= r <= 1.0 && r * d as real == n as real
  {
    if d == 0 then 0.0 else n as real / d as real
  }

  /** Accuracy per fill, coverage and timeliness are proportions after every run. */
  lemma RatiosAreProportions(l: Ledger, u: Uncounted)
    requires Balanced(l, u)
    ensures 0.0 <= Ratio(l.counts.usefulTimely, l.counts.fills) <= 1.0
    ensures 0.0 <= Ratio(l.counts.coveredMisses, l.counts.shadowDemandMisses) <= 1.0
    ensures 0.0 <= Ratio(l.counts.usefulTimely, l.counts.usefulTimely + l.counts.usefulLate) <= 1.0
    ensures l.counts.completed <= l.counts.issued && l.counts.pollutionMisses <= l.counts.pollutionEvictions
  {
    hide Ratio, Index, Bytes, Unused;
  }

  lemma RatioIff(n: nat, d: nat)
    ensures Ratio(n, d) <= 1.0 <==> d == 0 || n <= d
  {
    if d > 0 && n as real / d as real <= 1.0 {
      assert n as real == n as real / d as real * d as real <= d as real;
    }
  }

  /** What an event does to the ledger; unknown and duplicate ids are refused. */
  function Happens(l: Ledger, e: Event): Ledger {
    match e
    case Issuing(id, line, bytes, now) => if id in l.outstanding then l else Issue(l, id, Request(line, bytes, now))
    case Completion(id) => if id in l.outstanding then Complete(l, id) else l
    case Loss(id) => if id in l.outstanding then Drop(l, id) else l
    case Reference(line, hit, shadowHit, now) => LookUp(l, line, hit, shadowHit, now)
    case PrefetchFill(line, now) => FillByDvr(l, line, now)
    case DemandFill(line) => FillByDemand(l, line)
    case Eviction(line, polluting) => Evict(l, line, polluting)
    case Removal(line, origin) => Remove(l, line, origin)
  }

  /** Nothing is issued and no prefetch fills the cache. */
  predicate Passive(e: Event) { !e.Issuing? && !e.PrefetchFill? }

  ghost predicate AllPassive(es: seq<Event>) { forall k :: 0 <= k < |es| ==> Passive(es[k]) }

  function AllHappen(l: Ledger, es: seq<Event>): Ledger
    decreases |es|
  {
    if es == [] then l else AllHappen(Happens(l, es[0]), es[1..])
  }

  /** Fills that were used in time, or still can be. */
  ghost function Usable(l: Ledger): nat { l.counts.usefulTimely + |Unused(l.prefetched)| }

  /** No event makes more fills usable. */
  lemma UsableShrinks(l: Ledger, e: Event)
    requires Passive(e)
    ensures Usable(Happens(l, e)) <= Usable(l) && Happens(l, e).counts.issued == l.counts.issued
  {
    if !e.Completion? && !e.Loss? {
      UnusedWithout(l.prefetched, e.line);
      if e.Reference? && FirstUse(l, e.line, e.hit) { UnusedWith(l.prefetched, e.line, l.prefetched[e.line].(used := true)); }
    }
    hide Unused, TooLate, Erase, Insert;
  }

  lemma {:induction false} UsableBounds(l: Ledger, es: seq<Event>)
    requires AllPassive(es)
    ensures var r := AllHappen(l, es); r.counts.usefulTimely <= Usable(l) && r.counts.issued == l.counts.issued
    decreases |es|
  {
    hide Happens, Unused;
    if es != [] {
      assert Passive(es[0]);
      UsableShrinks(l, es[0]);
      UsableBounds(Happens(l, es[0]), es[1..]);
    }
  }

  /** The first use of a line makes it useful. */
  lemma UsedOnce(l: Ledger, line: Line)
    requires UnusedLine(l, line)
    ensures var r := Happens(l, Reference(line, true, false, 0));
            r.counts.usefulTimely == l.counts.usefulTimely + 1 && |Unused(r.prefetched)| == |Unused(l.prefetched)| - 1
  {
    UnusedWithout(l.prefetched, line);
    UnusedWith(l.prefetched, line, l.prefetched[line].(used := true));
    hide Unused, TooLate, Erase, Insert;
  }

  /** Looking up every line that is still unused reaches the bound. */
  lemma {:induction false} UseAll(l: Ledger) returns (es: seq<Event>)
    ensures AllPassive(es) && AllHappen(l, es).counts.usefulTimely == Usable(l)
    decreases |Unused(l.prefetched)|
  {
    es := [];
    if Unused(l.prefetched) != {} {
      var line :| line in Unused(l.prefetched);
      var e := Reference(line, true, false, 0);
      UsedOnce(l, line);
      hide Happens, Unused;
      var rest := UseAll(Happens(l, e));
      es := [e] + rest;
      assert es[1..] == rest;
    }
  }

  ghost predicate StaysProportion(l: Ledger) {
    forall es :: AllPassive(es) ==> Ratio(AllHappen(l, es).counts.usefulTimely, AllHappen(l, es).counts.issued) <= 1.0
  }

  /**
   Accuracy per issued request is a proportion, whatever happens before the next request or prefetch fill, if
   and only if the fills that were used or still can be are no more than the requests issued.
   */
  lemma IssuedAccuracyIff(l: Ledger)
    ensures StaysProportion(l) <==> l.counts.issued == 0 || Usable(l) <= l.counts.issued
  {
    hide Ratio, AllHappen, Usable;
    if l.counts.issued == 0 || Usable(l) <= l.counts.issued {
      forall es | AllPassive(es) ensures Ratio(AllHappen(l, es).counts.usefulTimely, AllHappen(l, es).counts.issued) <= 1.0 {
        UsableBounds(l, es);
        RatioIff(AllHappen(l, es).counts.usefulTimely, l.counts.issued);
      }
    }
    if StaysProportion(l) {
      var es := UseAll(l);
      UsableBounds(l, es);
      RatioIff(AllHappen(l, es).counts.usefulTimely, l.counts.issued);
    }
  }

  /** One issued request, two fills, both used: the accuracy per issued request is 2. */
  lemma IssuedAccuracyExceedsOne(empty: Ledger, a: Line, b: Line)
    requires Empty(empty) && a != b
    ensures var l := FillByDvr(FillByDvr(Issue(empty, 0, Request(a, 64, 0)), a, 1), b, 1);
            Ratio(LookUp(LookUp(l, a, true, false, 2), b, true, false, 2).counts.usefulTimely, l.counts.issued) == 2.0
  {
    hide TooLate;
  }

  // ----- what the ledger means -----

  /** A prefetched line that was used, or asked for before it came. */
  ghost predicate Spent(h: History, line: Line, p: nat) { p <= |h| && (UsedSince(h, line, p) || Late(h[..p], line)) }

  ghost predicate LineMeans(m: map<Line, Prefetched>, h: History, line: Line) {
    && (line in m ==> exists p :: 0 <= p < |h| && Brought(h, line, p))
    && (forall p :: 0 <= p < |h| && Brought(h, line, p) ==> line in m && m[line] == Prefetched(h[p].now, Spent(h, line, p)))
  }

  ghost predicate WayMeans(m: map<RequestId, Request>, h: History) {
    && (forall id :: id in m ==> exists i :: 0 <= i < |h| && OnItsWay(h, i) && h[i].id == id)
    && (forall i :: 0 <= i < |h| && OnItsWay(h, i) ==> h[i].id in m && m[h[i].id] == Request(h[i].line, h[i].bytes, h[i].now))
    && (forall i, j :: 0 <= i < j < |h| && OnItsWay(h, i) && OnItsWay(h, j) ==> h[i].id != h[j].id)
  }

  /** Every counter is the number of the events it counts. */
  ghost predicate CountsMean(c: Counters, h: History) {
    && c.issued == Number(h, Counter.Issued) && c.completed == Number(h, Counter.Completed) && c.fills == Number(h, Fills)
    && c.redundantFills == Number(h, RedundantFills) && c.usefulTimely == Number(h, UsefulTimely) && c.usefulLate == Number(h, UsefulLate)
    && c.coveredMisses == Number(h, CoveredMisses) && c.unusedEvictions == Number(h, UnusedEvictions)
    && c.demandAccesses == Number(h, DemandAccesses) && c.actualDemandMisses == Number(h, ActualMisses)
    && c.shadowDemandMisses == Number(h, ShadowMisses) && c.pollutionEvictions == Number(h, PollutionEvictions)
    && c.pollutionMisses == Number(h, PollutionMisses) && c.leadTime == TotalLead(h) && c.issuedBytes == TotalBytes(h)
  }

  /** The ledger shows the history. */
  ghost predicate Means(l: Ledger, h: History) {
    && (forall line :: LineMeans(l.prefetched, h, line)) && (forall line :: line in l.lateReported <==> Late(h, line))
    && (forall line :: line in l.pollutionVictims <==> Displaced(h, line)) && WayMeans(l.outstanding, h)
    && l.outstandingByLine == Index(l.outstanding) && CountsMean(l.counts, h)
  }

  lemma EmptyMeans(l: Ledger, h: History)
    requires Empty(l) && h == []
    ensures Means(l, h)
  {
    EmptyMaps();
    NothingCounted(l.counts, h);
    hide Number, TotalLead, TotalBytes, CountsMean, Index;
  }

  lemma NothingCounted(c: Counters, h: History)
    requires h == [] && c == Counters(0, 0, 0, 0, 0, 0, 0, 0, 0, 0, 0, 0, 0, 0, 0, 0, 0)
    ensures CountsMean(c, h)
  {
    forall k ensures Number(h, k) == 0 {}
    hide Number;
  }

  /** A line that can still become useful. */
  lemma UnspentIsUnused(l: Ledger, h: History, line: Line)
    requires LineMeans(l.prefetched, h, line)
    ensures Unspent(h, line) <==> UnusedLine(l, line)
    ensures line in l.prefetched <==> exists p :: 0 <= p < |h| && Brought(h, line, p)
  {
    hide Brought, UsedSince, Late;
    if UnusedLine(l, line) {
      var p :| 0 <= p < |h| && Brought(h, line, p);
    }
  }

  lemma LineStep(l: Ledger, h: History, e: Event, x: Line)
    requires LineMeans(l.prefetched, h, x) && (x in l.lateReported <==> Late(h, x))
    ensures LineMeans(Happens(l, e).prefetched, h + [e], x)
  {
    var g, m, n := h + [e], l.prefetched, Happens(l, e).prefetched;
    BroughtNow(h, e, x);
    LinePlaces(l, e, x);
    hide Happens;
    forall p | 0 <= p < |h| ensures Brought(g, x, p) <==> Brought(h, x, p) && !Clears(e, x) { BroughtStays(h, e, x, p); }
    forall p | 0 <= p < |h| ensures Spent(g, x, p) <==> Spent(h, x, p) || IsUse(e, x) {
      UsedMore(h, e, x, p);
      assert g[..p] == h[..p];
    }
    assert g[..|h|] == h && !UsedSince(g, x, |h|);
    assert forall p :: 0 <= p < |h| ==> g[p] == h[p];
    hide Brought, UsedSince, Late;
    if x in m {
      var p :| 0 <= p < |h| && Brought(h, x, p);
    }
    hide Clears, IsFill, IsUse;
    if x in n && x in m {
      var p :| 0 <= p < |h| && Brought(h, x, p);
      assert Brought(g, x, p);
    }
    forall p | 0 <= p < |g| && Brought(g, x, p) ensures x in n && n[x] == Prefetched(g[p].now, Spent(g, x, p)) {
      if p == |h| { assert Spent(g, x, p) <==> Late(h, x); }
    }
  }

  /** What an event does to the record of one line. */
  lemma LinePlaces(l: Ledger, e: Event, x: Line)
    ensures var m, n := l.prefetched, Happens(l, e).prefetched;
            && (Clears(e, x) ==> x !in n)
            && (!Clears(e, x) && x in m ==> x in n && n[x] == Prefetched(m[x].filledAt, m[x].used || IsUse(e, x)))
            && (!Clears(e, x) && x !in m ==> (x in n <==> IsFill(e, x)) && (x in n ==> n[x] == Prefetched(e.now, x in l.lateReported)))
  {
    hide TooLate, Erase, Insert;
  }

  lemma LateStep(l: Ledger, h: History, e: Event, x: Line)
    requires (x in l.lateReported <==> Late(h, x)) && WayMeans(l.outstanding, h) && l.outstandingByLine == Index(l.outstanding)
    ensures x in Happens(l, e).lateReported <==> Late(h + [e], x)
  {
    LateMore(h, e, x);
    ExpectedIs(l, h, x);
    hide Late, WayMeans, Expected, Index;
  }

  /** A request for the line is outstanding. */
  lemma ExpectedIs(l: Ledger, h: History, x: Line)
    requires WayMeans(l.outstanding, h) && l.outstandingByLine == Index(l.outstanding)
    ensures (exists p :: p in l.outstandingByLine && p.0 == x) <==> Expected(h, x)
  {
    if p :| p in l.outstandingByLine && p.0 == x {
      var i :| 0 <= i < |h| && OnItsWay(h, i) && h[i].id == p.1;
      assert h[i].line == x;
    }
    if Expected(h, x) {
      var i :| 0 <= i < |h| && OnItsWay(h, i) && h[i].line == x;
      assert (x, h[i].id) in Index(l.outstanding);
    }
  }

  lemma BlameStep(l: Ledger, h: History, e: Event, x: Line)
    requires x in l.pollutionVictims <==> Displaced(h, x)
    ensures x in Happens(l, e).pollutionVictims <==> Displaced(h + [e], x)
  {
    DisplacedMore(h, e, x);
    hide Displaced, TooLate;
  }

  lemma WayStep(l: Ledger, h: History, e: Event)
    requires WayMeans(l.outstanding, h) && (e.Issuing? ==> e.id !in l.outstanding)
    ensures WayMeans(Happens(l, e).outstanding, h + [e])
  {
    var g, m, n := h + [e], l.outstanding, Happens(l, e).outstanding;
    WayMore(h, e);
    WayPlaces(l, e);
    assert forall i :: 0 <= i < |h| ==> g[i] == h[i];
    hide Happens;
    forall id | id in n ensures exists i :: 0 <= i < |g| && OnItsWay(g, i) && g[i].id == id {
      if e.Issuing? && id == e.id {
        assert OnItsWay(g, |h|);
      } else {
        var i :| 0 <= i < |h| && OnItsWay(h, i) && h[i].id == id;
        assert OnItsWay(g, i);
      }
    }
    forall i | 0 <= i < |g| && OnItsWay(g, i) ensures g[i].id in n && n[g[i].id] == Request(g[i].line, g[i].bytes, g[i].now) {
      if i < |h| { assert OnItsWay(h, i); }
    }
    forall i, j | 0 <= i < j < |g| && OnItsWay(g, i) && OnItsWay(g, j) ensures g[i].id != g[j].id {
      assert OnItsWay(h, i);
    }
  }

  /** What an event does to the outstanding requests. */
  lemma WayPlaces(l: Ledger, e: Event)
    requires e.Issuing? ==> e.id !in l.outstanding
    ensures var m, n := l.outstanding, Happens(l, e).outstanding;
            forall id :: (id in n <==> (id in m && !Ends(e, id)) || (e.Issuing? && id == e.id)) &&
                         (id in n ==> n[id] == if e.Issuing? && id == e.id then Request(e.line, e.bytes, e.now) else m[id])
  {
    hide TooLate, Erase, Insert;
  }

  ghost function Adds(h: History, e: Event, k: Counter): nat { Bit(Counts(h, e, k)) }

  /** Uses, and misses that are somebody's fault. */
  ghost predicate UsesMore(c: Counters, c': Counters, h: History, e: Event) {
    && c'.usefulTimely == c.usefulTimely + Adds(h, e, UsefulTimely) && c'.usefulLate == c.usefulLate + Adds(h, e, UsefulLate) && c'.coveredMisses == c.coveredMisses + Adds(h, e, CoveredMisses)
    && c'.pollutionMisses == c.pollutionMisses + Adds(h, e, PollutionMisses)
    && c'.leadTime == c.leadTime + Lead(h, e)
  }

  ghost predicate AccessesMore(c: Counters, c': Counters, h: History, e: Event) {
    && c'.demandAccesses == c.demandAccesses + Adds(h, e, DemandAccesses) && c'.actualDemandMisses == c.actualDemandMisses + Adds(h, e, ActualMisses) && c'.shadowDemandMisses == c.shadowDemandMisses + Adds(h, e, ShadowMisses)
    && c'.pollutionEvictions == c.pollutionEvictions + Adds(h, e, PollutionEvictions)
  }

  ghost predicate LinesMore(c: Counters, c': Counters, h: History, e: Event) {
    && c'.issued == c.issued + Adds(h, e, Counter.Issued) && c'.completed == c.completed + Adds(h, e, Counter.Completed) && c'.fills == c.fills + Adds(h, e, Fills)
    && c'.redundantFills == c.redundantFills + Adds(h, e, RedundantFills) && c'.unusedEvictions == c.unusedEvictions + Adds(h, e, UnusedEvictions)
    && c'.issuedBytes == c.issuedBytes + if e.Issuing? then e.bytes else 0
  }

  /** Every counter goes up by one exactly if it counts the event. */
  ghost predicate CountsMore(c: Counters, c': Counters, h: History, e: Event) {
    UsesMore(c, c', h, e) && AccessesMore(c, c', h, e) && LinesMore(c, c', h, e)
  }

  lemma ReferenceUses(l: Ledger, h: History, e: Event)
    requires e.Reference?
    requires LineMeans(l.prefetched, h, e.line) && (e.line in l.lateReported <==> Late(h, e.line)) && (e.line in l.pollutionVictims <==> Displaced(h, e.line)) && WayMeans(l.outstanding, h) && l.outstandingByLine == Index(l.outstanding)
    ensures UsesMore(l.counts, Happens(l, e).counts, h, e)
  {
    UnspentIsUnused(l, h, e.line);
    ExpectedIs(l, h, e.line);
    LeadIs(l, h, e);
    hide Unspent, Expected, Late, Displaced, Brought, OnItsWay, LineMeans, WayMeans, Lead, Index, CountsMean, Erase, Insert;
  }

  lemma ReferenceAccesses(l: Ledger, h: History, e: Event)
    requires e.Reference?
    ensures AccessesMore(l.counts, Happens(l, e).counts, h, e)
  {
    hide Unspent, Expected, Late, Displaced, Brought, OnItsWay, LineMeans, WayMeans, Lead, Index, CountsMean, Erase, Insert;
  }

  lemma ReferenceLines(l: Ledger, h: History, e: Event)
    requires e.Reference?
    ensures LinesMore(l.counts, Happens(l, e).counts, h, e)
  {
    hide Unspent, Expected, Late, Displaced, Brought, OnItsWay, LineMeans, WayMeans, Lead, Index, CountsMean, Erase, Insert;
  }

  lemma FillUses(l: Ledger, h: History, e: Event)
    requires (e.PrefetchFill? || e.DemandFill?)
    requires LineMeans(l.prefetched, h, e.line)
    ensures UsesMore(l.counts, Happens(l, e).counts, h, e)
  {
    LeadIs(l, h, e);
    hide Unspent, Expected, Late, Displaced, Brought, OnItsWay, LineMeans, WayMeans, Lead, Index, CountsMean, Erase, Insert;
  }

  lemma FillAccesses(l: Ledger, h: History, e: Event)
    requires (e.PrefetchFill? || e.DemandFill?)
    ensures AccessesMore(l.counts, Happens(l, e).counts, h, e)
  {
    hide Unspent, Expected, Late, Displaced, Brought, OnItsWay, LineMeans, WayMeans, Lead, Index, CountsMean, Erase, Insert;
  }

  lemma FillLines(l: Ledger, h: History, e: Event)
    requires (e.PrefetchFill? || e.DemandFill?)
    requires LineMeans(l.prefetched, h, e.line)
    ensures LinesMore(l.counts, Happens(l, e).counts, h, e)
  {
    UnspentIsUnused(l, h, e.line);
    hide Unspent, Expected, Late, Displaced, Brought, OnItsWay, LineMeans, WayMeans, Lead, Index, CountsMean, Erase, Insert;
  }

  lemma DepartureUses(l: Ledger, h: History, e: Event)
    requires (e.Eviction? || e.Removal?)
    requires LineMeans(l.prefetched, h, e.line)
    ensures UsesMore(l.counts, Happens(l, e).counts, h, e)
  {
    LeadIs(l, h, e);
    hide Unspent, Expected, Late, Displaced, Brought, OnItsWay, LineMeans, WayMeans, Lead, Index, CountsMean, Erase, Insert;
  }

  lemma DepartureAccesses(l: Ledger, h: History, e: Event)
    requires (e.Eviction? || e.Removal?)
    ensures AccessesMore(l.counts, Happens(l, e).counts, h, e)
  {
    hide Unspent, Expected, Late, Displaced, Brought, OnItsWay, LineMeans, WayMeans, Lead, Index, CountsMean, Erase, Insert;
  }

  lemma DepartureLines(l: Ledger, h: History, e: Event)
    requires (e.Eviction? || e.Removal?)
    requires LineMeans(l.prefetched, h, e.line)
    ensures LinesMore(l.counts, Happens(l, e).counts, h, e)
  {
    UnspentIsUnused(l, h, e.line);
    hide Unspent, Expected, Late, Displaced, Brought, OnItsWay, LineMeans, WayMeans, Lead, Index, CountsMean, Erase, Insert;
  }

  lemma RequestUses(l: Ledger, h: History, e: Event)
    requires (e.Issuing? || e.Completion? || e.Loss?) && (e.Issuing? ==> e.id !in l.outstanding)
    ensures UsesMore(l.counts, Happens(l, e).counts, h, e)
  {
    hide Unspent, Expected, Late, Displaced, Brought, OnItsWay, LineMeans, WayMeans, Index, CountsMean;
  }

  lemma RequestAccesses(l: Ledger, h: History, e: Event)
    requires (e.Issuing? || e.Completion? || e.Loss?) && (e.Issuing? ==> e.id !in l.outstanding)
    ensures AccessesMore(l.counts, Happens(l, e).counts, h, e)
  {
    hide Unspent, Expected, Late, Displaced, Brought, OnItsWay, LineMeans, WayMeans, Index, CountsMean;
  }

  lemma RequestLines(l: Ledger, h: History, e: Event)
    requires (e.Issuing? || e.Completion? || e.Loss?) && (e.Issuing? ==> e.id !in l.outstanding)
    requires WayMeans(l.outstanding, h)
    ensures LinesMore(l.counts, Happens(l, e).counts, h, e)
  {
    KnownRequest(l, h, e.id);
    hide Unspent, Expected, Late, Displaced, Brought, OnItsWay, LineMeans, WayMeans, Index, CountsMean;
  }

  lemma CountsStay(c: Counters, c': Counters, h: History, e: Event)
    requires CountsMean(c, h) && CountsMore(c, c', h, e)
    ensures CountsMean(c', h + [e])
  {
    hide Number, TotalLead, TotalBytes, Counts, Lead;
    forall k ensures Number(h + [e], k) == Number(h, k) + Adds(h, e, k) { NumberMore(h, e, k); }
    NumberMore(h, e, Fills);
    hide Adds;
  }

  /** The events that are counted are those that the ledger counts. */
  lemma CountsStep(l: Ledger, h: History, e: Event)
    requires Means(l, h) && (e.Issuing? ==> e.id !in l.outstanding)
    ensures CountsMean(Happens(l, e).counts, h + [e])
  {
    if e.Reference? {
      ReferenceUses(l, h, e);
      ReferenceAccesses(l, h, e);
      ReferenceLines(l, h, e);
    } else if e.Issuing? || e.Completion? || e.Loss? {
      RequestUses(l, h, e);
      RequestAccesses(l, h, e);
      RequestLines(l, h, e);
    } else if e.PrefetchFill? || e.DemandFill? {
      FillUses(l, h, e);
      FillAccesses(l, h, e);
      FillLines(l, h, e);
    } else {
      DepartureUses(l, h, e);
      DepartureAccesses(l, h, e);
      DepartureLines(l, h, e);
    }
    hide Happens, UsesMore, AccessesMore, LinesMore, CountsMean, Means;
    CountsStay(l.counts, Happens(l, e).counts, h, e);
  }

  lemma KnownRequest(l: Ledger, h: History, id: RequestId)
    requires WayMeans(l.outstanding, h)
    ensures id in l.outstanding <==> exists i :: 0 <= i < |h| && OnItsWay(h, i) && h[i].id == id
  {
  }

  lemma LeadIs(l: Ledger, h: History, e: Event)
    requires !e.Completion? && !e.Loss? && LineMeans(l.prefetched, h, e.line)
    ensures Lead(h, e) == if e.Reference? && FirstUse(l, e.line, e.hit) then e.now - l.prefetched[e.line].filledAt else 0
  {
    UnspentIsUnused(l, h, e.line);
    hide UsedSince, Late;
    if TimelyUse(h, e) {
      var p :| 0 <= p < |h| && Brought(h, e.line, p) && !UsedSince(h, e.line, p) && !Late(h[..p], e.line) && Lead(h, e) == e.now - h[p].now;
      hide Brought;
    }
  }

  /** Every event keeps the ledger and the history together. */
  lemma MeansStep(l: Ledger, h: History, e: Event)
    requires Means(l, h) && (e.Issuing? ==> e.id !in l.outstanding)
    ensures Means(Happens(l, e), h + [e])
  {
    forall x ensures LineMeans(Happens(l, e).prefetched, h + [e], x) { LineStep(l, h, e, x); }
    forall x ensures x in Happens(l, e).lateReported <==> Late(h + [e], x) { LateStep(l, h, e, x); }
    forall x ensures x in Happens(l, e).pollutionVictims <==> Displaced(h + [e], x) { BlameStep(l, h, e, x); }
    WayStep(l, h, e);
    CountsStep(l, h, e);
    IndexStep(l, e);
    hide Happens, LineMeans, Late, Displaced, WayMeans, CountsMean, Index;
  }

  /** No id is issued again while its request is on its way. */
  ghost predicate Proper(l: Ledger, es: seq<Event>)
    decreases |es|
  {
    es == [] || ((es[0].Issuing? ==> es[0].id !in l.outstanding) && Proper(Happens(l, es[0]), es[1..]))
  }

  /** Every run: each counter is the number of the events it counts, and the sets of lines are those of the history. */
  lemma {:induction false} RunMeans(l: Ledger, h: History, es: seq<Event>)
    requires Means(l, h) && Proper(l, es)
    ensures Means(AllHappen(l, es), h + es)
    decreases |es|
  {
    hide Happens, Means;
    if es == [] {
      assert h + es == h;
    } else {
      MeansStep(l, h, es[0]);
      RunMeans(Happens(l, es[0]), h + [es[0]], es[1..]);
      assert h + [es[0]] + es[1..] == h + es;
    }
  }

  lemma IndexStep(l: Ledger, e: Event)
    requires l.outstandingByLine == Index(l.outstanding)
    ensures Happens(l, e).outstandingByLine == Index(Happens(l, e).outstanding)
  {
    if e.Issuing? {
      IssuingIndex(l, e);
    } else if e.Completion? || e.Loss? {
      EndingIndex(l, e);
    } else {
      hide Index, TooLate, Erase, Insert;
    }
  }

  lemma IssuingIndex(l: Ledger, e: Event)
    requires l.outstandingByLine == Index(l.outstanding) && e.Issuing?
    ensures Happens(l, e).outstandingByLine == Index(Happens(l, e).outstanding)
  {
    if e.id !in l.outstanding { Remember(l.outstanding, e.id, Request(e.line, e.bytes, e.now)); }
    hide Index;
  }

  lemma EndingIndex(l: Ledger, e: Event)
    requires l.outstandingByLine == Index(l.outstanding) && (e.Completion? || e.Loss?)
    ensures Happens(l, e).outstandingByLine == Index(Happens(l, e).outstanding)
  {
    if e.id in l.outstanding { Forget(l.outstanding, e.id); }
    hide Index;
  }

  // ----- the tracker -----

  class Tracker {
    var ledger: Ledger
    const shadow: Cache
    ghost var uncounted: Uncounted
    ghost var events: History

    ghost predicate Valid() reads this, shadow { shadow.Valid() && Balanced(ledger, uncounted) && Means(ledger, events) }

    constructor (setCount: nat, ways: nat, lineBytes: nat)
      requires setCount > 0 && ways > 0 && lineBytes > 0
      ensures Valid() && fresh(shadow)
      ensures Empty(ledger) && events == []
    {
      var start := NewLedger();
      EmptyIsBalanced(start);
      EmptyMeans(start, []);
      hide Balanced, Empty, Means;
      events := [];
      ledger := start;
      shadow := new Cache(setCount, ways, lineBytes);
      uncounted := Uncounted(0, 0, 0, 0);
    }

    /** False stands for the exception on a duplicate id. */
    method Issued(id: RequestId, line: Line, bytes: nat, now: nat) returns (ok: bool)
      requires Valid()
      modifies this
      ensures Valid() && (ok <==> id !in old(ledger).outstanding)
      ensures ledger == if ok then Issue(old(ledger), id, Request(line, bytes, now)) else old(ledger)
      ensures events == if ok then old(events) + [Issuing(id, line, bytes, now)] else old(events)
    {
      hide Balanced, Means, Cache.Valid;
      ok := id !in ledger.outstanding;
      if ok {
        IssueKeeps(ledger, uncounted, id, Request(line, bytes, now));
        MeansStep(ledger, events, Issuing(id, line, bytes, now));
        events := events + [Issuing(id, line, bytes, now)];
        var l, c := ledger, ledger.counts;
        l := l.(outstanding := l.outstanding[id := Request(line, bytes, now)]);
        l := l.(outstandingByLine := l.outstandingByLine + {(line, id)});
        c := c.(issued := c.issued + 1);
        c := c.(issuedBytes := c.issuedBytes + bytes);
        ledger := l.(counts := c);
      }
    }

    /** False stands for the exception on an unknown id. */
    method Completed(id: RequestId) returns (ok: bool)
      requires Valid()
      modifies this
      ensures Valid() && (ok <==> id in old(ledger).outstanding) && uncounted == old(uncounted)
      ensures ledger == if ok then Complete(old(ledger), id) else old(ledger)
      ensures events == if ok then old(events) + [Completion(id)] else old(events)
    {
      hide Balanced, Means, Cache.Valid;
      ok := id in ledger.outstanding;
      if ok {
        DropKeeps(ledger, uncounted, id);
        MeansStep(ledger, events, Completion(id));
        events := events + [Completion(id)];
        var request := ledger.outstanding[id];
        var l, c := ledger, ledger.counts;
        l := l.(outstandingByLine := l.outstandingByLine - {(request.line, id)});
        l := l.(outstanding := l.outstanding - {id});
        c := c.(completed := c.completed + 1);
        c := c.(completedBytes := c.completedBytes + request.bytes);
        ledger := l.(counts := c);
      }
    }

    method Dropped(id: RequestId)
      requires Valid()
      modifies this
      ensures Valid() && ledger == if id in old(ledger).outstanding then Drop(old(ledger), id) else old(ledger)
      ensures events == if id in old(ledger).outstanding then old(events) + [Loss(id)] else old(events)
    {
      hide Balanced, Means, Cache.Valid;
      if id in ledger.outstanding {
        DropKeeps(ledger, uncounted, id);
        MeansStep(ledger, events, Loss(id));
        events := events + [Loss(id)];
        var request := ledger.outstanding[id];
        uncounted := uncounted.(dropped := uncounted.dropped + 1, droppedBytes := uncounted.droppedBytes + request.bytes);
        ledger := ledger.(outstandingByLine := ledger.outstandingByLine - {(request.line, id)});
        ledger := ledger.(outstanding := ledger.outstanding - {id});
      }
    }

    /** A response completes every request for its line, and no other. */
    method CompletedLine(line: Line)
      requires Valid()
      modifies this
      ensures Valid() && ledger.outstanding == Except(old(ledger).outstanding, line, {})
      ensures OnlyCompleted(old(ledger), ledger) && uncounted == old(uncounted) && OnlyCompletions(old(events), events)
    {
      ghost var before := ledger;
      var ids := set p | p in ledger.outstandingByLine && p.0 == line :: p.1;
      BalancedIndex(ledger, uncounted);
      IdsOfLine(ledger.outstanding, line);
      ExceptNone(before.outstanding, line, ids);
      NothingCompleted(before);
      CompleteAll(before, line, ids);
    }

    method CompleteAll(ghost before: Ledger, line: Line, ids: set<RequestId>)
      requires Valid() && ledger == before && OnlyCompleted(before, before) && Except(before.outstanding, line, ids) == before.outstanding
      requires forall id :: id in ids <==> id in before.outstanding && before.outstanding[id].line == line
      modifies this
      ensures Valid() && ledger.outstanding == Except(before.outstanding, line, {})
      ensures OnlyCompleted(before, ledger) && uncounted == old(uncounted) && OnlyCompletions(old(events), events)
    {
      hide Balanced, Cache.Valid, Except, OnlyCompleted, Complete, Means;
      var todo := ids;
      while todo != {}
        invariant Valid() && todo <= ids && uncounted == old(uncounted)
        invariant ledger.outstanding == Except(before.outstanding, line, todo)
        invariant OnlyCompleted(before, ledger) && OnlyCompletions(old(events), events)
        decreases todo
      {
        var id :| id in todo;
        ExceptOne(before.outstanding, line, todo, id);
        CompleteOne(before, ledger, id);
        var ok := Completed(id);
        todo := todo - {id};
      }
    }

    /** A tag lookup by a demand access. */
    method DemandLookup(line: Line, hit: bool, now: nat) returns (shadowHit: bool)
      requires Valid()
      modifies this, shadow
      ensures Valid() && shadow.history == old(shadow.history) + [line]
      ensures ledger == LookUp(old(ledger), line, hit, shadowHit, now) && events == old(events) + [Reference(line, hit, shadowHit, now)]
      ensures var h := old(Accesses(shadow.history, SetOf(line, shadow.lineBytes, |shadow.sets|), shadow.lineBytes, |shadow.sets|));
              shadowHit <==> line in h && |Since(h, |h|, line)| < shadow.ways
    {
      hide Balanced, LookUp, Cache.Valid, Accesses, Since, Means;
      shadowHit := shadow.Access(line);
      LookUpKeeps(ledger, uncounted, line, hit, shadowHit, now);
      var l := CountLookup(ledger, line, hit, shadowHit, now);
      MeansStep(ledger, events, Reference(line, hit, shadowHit, now));
      events := events + [Reference(line, hit, shadowHit, now)];
      ledger := l;
    }

    /** A prefetch displaces a demand line that a cache without prefetches would still hold. */
    ghost predicate Pollutes(origin: Origin, victim: Victim)
      requires shadow.Valid()
      reads shadow
    {
      && origin == Dvr && victim.Evicted? && victim.origin == Demand
      && var h := Accesses(shadow.history, SetOf(victim.line, shadow.lineBytes, |shadow.sets|), shadow.lineBytes, |shadow.sets|);
         victim.line in h && |Since(h, |h|, victim.line)| < shadow.ways
    }

    method EvictVictim(origin: Origin, victim: Victim)
      requires Valid()
      modifies this
      ensures Valid() && ledger == if victim.Evicted? then Evict(old(ledger), victim.line, Pollutes(origin, victim)) else old(ledger)
      ensures events == old(events) + if victim.Evicted? then [Eviction(victim.line, Pollutes(origin, victim))] else []
    {
      hide Balanced, Evict, Cache.Valid, Accesses, Since, Means;
      if victim.Evicted? {
        var polluting := false;
        if origin == Dvr && victim.origin == Demand {
          polluting := shadow.Contains(victim.line);
        }
        EvictKeeps(ledger, uncounted, victim.line, polluting);
        MeansStep(ledger, events, Eviction(victim.line, polluting));
        var l := CountEviction(ledger, victim.line, polluting);
        events := events + [Eviction(victim.line, polluting)];
        ledger := l;
      }
    }

    /** A fill of the measured cache. */
    method CacheFill(line: Line, origin: Origin, now: nat, victim: Victim)
      requires Valid()
      modifies this
      ensures Valid()
      ensures var kept := if victim.Evicted? then Evict(old(ledger), victim.line, Pollutes(origin, victim)) else old(ledger);
              ledger == if origin == Dvr then FillByDvr(kept, line, now) else FillByDemand(kept, line)
      ensures events == old(events) + (if victim.Evicted? then [Eviction(victim.line, Pollutes(origin, victim))] else [])
                        + [if origin == Dvr then PrefetchFill(line, now) else DemandFill(line)]
    {
      hide Cache.Valid, Pollutes, Balanced, FillByDvr, FillByDemand, Evict, Means;
      EvictVictim(origin, victim);
      FillKeeps(ledger, uncounted, line, now);
      ghost var e := if origin == Dvr then PrefetchFill(line, now) else DemandFill(line);
      MeansStep(ledger, events, e);
      events := events + [e];
      if origin == Dvr {
        uncounted := uncounted.(lateFills := uncounted.lateFills + Bit(line in ledger.lateReported && line !in ledger.prefetched));
      } else {
        uncounted := uncounted.(overwritten := uncounted.overwritten + Bit(UnusedLine(ledger, line)));
      }
      var l := CountFill(ledger, line, origin, now);
      ledger := l;
    }

    /** A removal that is not a fill. */
    method CacheRemove(line: Line, origin: Origin)
      requires Valid()
      modifies this
      ensures Valid() && ledger == Remove(old(ledger), line, origin) && events == old(events) + [Removal(line, origin)]
    {
      hide Balanced, Remove, Means, Cache.Valid;
      RemoveKeeps(ledger, uncounted, line, origin);
      MeansStep(ledger, events, Removal(line, origin));
      events := events + [Removal(line, origin)];
      var l := CountRemoval(ledger, line, origin);
      ledger := l;
    }
  }

  /** The updates of a lookup in their order. */
  method CountLookup(ledger: Ledger, line: Line, hit: bool, shadowHit: bool, now: nat) returns (l: Ledger)
    ensures l == LookUp(ledger, line, hit, shadowHit, now)
  {
    l := ledger;
    var c := l.counts.(demandAccesses := l.counts.demandAccesses + 1);
    if !hit {
      c := c.(actualDemandMisses := c.actualDemandMisses + 1);
    }
    if !shadowHit {
      c := c.(shadowDemandMisses := c.shadowDemandMisses + 1);
    }
    if hit && line in l.prefetched && !l.prefetched[line].used {
      c := c.(usefulTimely := c.usefulTimely + 1);
      if !shadowHit {
        c := c.(coveredMisses := c.coveredMisses + 1);
      }
      c := c.(leadTime := c.leadTime + now - l.prefetched[line].filledAt);
      l := l.(prefetched := l.prefetched[line := l.prefetched[line].(used := true)]);
    } else if !hit && (exists p :: p in l.outstandingByLine && p.0 == line) && line !in l.lateReported {
      l := l.(lateReported := l.lateReported + {line});
      c := c.(usefulLate := c.usefulLate + 1);
    }
    if !hit && shadowHit && line in l.pollutionVictims {
      l := l.(pollutionVictims := l.pollutionVictims - {line});
      c := c.(pollutionMisses := c.pollutionMisses + 1);
    }
    l := l.(pollutionVictims := l.pollutionVictims - {line});
    l := l.(counts := c);
  }

  /** The updates of an eviction in their order. */
  method CountEviction(ledger: Ledger, line: Line, polluting: bool) returns (l: Ledger)
    ensures l == Evict(ledger, line, polluting)
  {
    l := ledger;
    var c := l.counts;
    if line in l.prefetched {
      if !l.prefetched[line].used {
        c := c.(unusedEvictions := c.unusedEvictions + 1);
      }
      l := l.(prefetched := l.prefetched - {line});
    }
    l := l.(pollutionVictims := l.pollutionVictims - {line});
    if polluting {
      l := l.(pollutionVictims := l.pollutionVictims + {line});
      c := c.(pollutionEvictions := c.pollutionEvictions + 1);
    }
    l := l.(counts := c);
    assert line !in ledger.prefetched ==> ledger.prefetched - {line} == ledger.prefetched;
  }

  /** The updates of a fill in their order. */
  method CountFill(ledger: Ledger, line: Line, origin: Origin, now: nat) returns (l: Ledger)
    ensures l == if origin == Dvr then FillByDvr(ledger, line, now) else FillByDemand(ledger, line)
  {
    l := ledger;
    if origin == Dvr {
      var c := l.counts.(fills := l.counts.fills + 1);
      var alreadyUsed := line in l.lateReported;
      l := l.(lateReported := l.lateReported - {line});
      if line in l.prefetched {
        c := c.(redundantFills := c.redundantFills + 1);
      } else {
        l := l.(prefetched := l.prefetched[line := Prefetched(now, alreadyUsed)]);
      }
      l := l.(counts := c);
    } else {
      l := l.(prefetched := l.prefetched - {line});
      l := l.(pollutionVictims := l.pollutionVictims - {line});
    }
  }

  /** The updates of a removal in their order. */
  method CountRemoval(ledger: Ledger, line: Line, origin: Origin) returns (l: Ledger)
    ensures l == Remove(ledger, line, origin)
  {
    l := ledger;
    if origin == Dvr {
      if line in l.prefetched && !l.prefetched[line].used {
        l := l.(counts := l.counts.(unusedEvictions := l.counts.unusedEvictions + 1));
      }
      l := l.(prefetched := l.prefetched - {line});
    }
    l := l.(pollutionVictims := l.pollutionVictims - {line});
    l := l.(lateReported := l.lateReported - {line});
  }

  /** Only completions were added to the history. */
  ghost predicate OnlyCompletions(a: History, b: History) {
    |a| <= |b| && (forall k :: 0 <= k < |a| ==> b[k] == a[k]) && forall k :: |a| <= k < |b| ==> b[k].Completion?
  }

  /** Requests and their bytes went from outstanding to completed, and nothing else changed. */
  ghost predicate OnlyCompleted(a: Ledger, b: Ledger) {
    && b.counts.completed + |b.outstanding| == a.counts.completed + |a.outstanding|
    && b.counts.completedBytes + Bytes(b.outstanding) == a.counts.completedBytes + Bytes(a.outstanding)
    && b.counts == a.counts.(completed := b.counts.completed, completedBytes := b.counts.completedBytes)
    && b.prefetched == a.prefetched && b.lateReported == a.lateReported && b.pollutionVictims == a.pollutionVictims
  }

  lemma NothingCompleted(a: Ledger)
    ensures OnlyCompleted(a, a)
  {
  }

  lemma CompleteOne(a: Ledger, b: Ledger, id: RequestId)
    requires OnlyCompleted(a, b) && id in b.outstanding
    ensures OnlyCompleted(a, Complete(b, id)) && Complete(b, id).outstanding == b.outstanding - {id}
  {
    Forget(b.outstanding, id);
    hide Bytes, Index;
  }

  lemma BalancedIndex(l: Ledger, u: Uncounted)
    requires Balanced(l, u)
    ensures l.outstandingByLine == Index(l.outstanding)
  {
  }

  /** The requests for other lines, and those in `todo`. */
  ghost function Except(m: map<RequestId, Request>, line: Line, todo: set<RequestId>): map<RequestId, Request> {
    map id | id in m && (m[id].line != line || id in todo) :: m[id]
  }

  lemma ExceptNone(m: map<RequestId, Request>, line: Line, ids: set<RequestId>)
    requires forall id :: id in ids <==> id in m && m[id].line == line
    ensures Except(m, line, ids) == m
  {
  }

  lemma ExceptOne(m: map<RequestId, Request>, line: Line, todo: set<RequestId>, id: RequestId)
    requires id in todo && id in m && m[id].line == line
    ensures Except(m, line, todo - {id}) == Except(m, line, todo) - {id} && id in Except(m, line, todo)
  {
  }

  lemma IdsOfLine(m: map<RequestId, Request>, line: Line)
    ensures forall id :: id in (set p | p in Index(m) && p.0 == line :: p.1) <==> id in m && m[id].line == line
  {
    forall id | id in m && m[id].line == line ensures id in (set p | p in Index(m) && p.0 == line :: p.1) {
      assert (line, id) in Index(m);
    }
  }
}
