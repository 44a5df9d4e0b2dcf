/**
 What the counters of the prefetch quality tracker mean, said about the history of events alone: which
 lookups use a prefetched line for the first time, which come too late, which misses are due to pollution.
 */
module PrefetchEvents {
  import opened ShadowCache

  type RequestId = nat

  datatype Origin = Demand | Dvr

  datatype Event =
    | Issuing(id: RequestId, line: Line, bytes: nat, now: nat)
    | Completion(id: RequestId)
    | Loss(id: RequestId)
    | Reference(line: Line, hit: bool, shadowHit: bool, now: nat)
    | PrefetchFill(line: Line, now: nat)
    | DemandFill(line: Line)
    | Eviction(line: Line, polluting: bool)
    | Removal(line: Line, origin: Origin)

  type History = seq<Event>

  // ----- what has happened to a line -----

  predicate IsFill(e: Event, line: Line) { e.PrefetchFill? && e.line == line }

  /** The line is not, or no longer, in the cache because of a prefetch. */
  predicate Clears(e: Event, line: Line) {
    (e.Eviction? || e.DemandFill? || (e.Removal? && e.origin == Dvr)) && e.line == line
  }

  ghost predicate ClearedBetween(h: History, line: Line, i: int, k: int) { exists j :: 0 <= j < |h| && i < j < k && Clears(h[j], line) }

  /** Event `p` is the prefetch that brought the line: a fill since when nothing cleared it, and the first such fill. */
  ghost predicate Brought(h: History, line: Line, p: nat) {
    && p < |h| && IsFill(h[p], line) && !ClearedBetween(h, line, p, |h|)
    && forall i :: 0 <= i < p && IsFill(h[i], line) ==> ClearedBetween(h, line, i, p)
  }

  predicate IsUse(e: Event, line: Line) { e.Reference? && e.line == line && e.hit }

  ghost predicate UsedSince(h: History, line: Line, p: int) { exists j :: 0 <= j < |h| && p < j && IsUse(h[j], line) }

  /** Event `i` issued a request that is still on its way. */
  ghost predicate OnItsWay(h: History, i: nat) {
    i < |h| && h[i].Issuing? && forall j :: i < j < |h| ==> !Ends(h[j], h[i].id)
  }

  predicate Ends(e: Event, id: RequestId) { (e.Completion? || e.Loss?) && e.id == id }

  /** A request for the line is on its way. */
  ghost predicate Expected(h: History, line: Line) { exists i :: 0 <= i < |h| && OnItsWay(h, i) && h[i].line == line }

  predicate EndsLateness(e: Event, line: Line) { (e.PrefetchFill? || e.Removal?) && e.line == line }

  predicate IsMiss(e: Event, line: Line) { e.Reference? && e.line == line && !e.hit }

  /** A demand access missed while a request was on its way, and the line has not arrived since. */
  ghost predicate Late(h: History, line: Line) {
    exists i :: 0 <= i < |h| && IsMiss(h[i], line) && Expected(h[..i], line) && forall j :: i < j < |h| ==> !EndsLateness(h[j], line)
  }

  predicate EndsBlame(e: Event, line: Line) { (e.Reference? || e.Eviction? || e.DemandFill? || e.Removal?) && e.line == line }

  /** A prefetch displaced the line, and nothing has happened to it since. */
  ghost predicate Displaced(h: History, line: Line) {
    exists i :: 0 <= i < |h| && h[i] == Eviction(line, true) && forall j :: i < j < |h| ==> !EndsBlame(h[j], line)
  }

  // ----- events that are counted -----

  /** The line was brought by a prefetch and has not been used since, nor asked for before it came. */
  ghost predicate Unspent(h: History, line: Line) {
    exists p :: 0 <= p < |h| && Brought(h, line, p) && !UsedSince(h, line, p) && !Late(h[..p], line)
  }

  ghost predicate TimelyUse(h: History, e: Event) { e.Reference? && e.hit && Unspent(h, e.line) }

  datatype Counter =
    | Issued | Completed | Fills | RedundantFills | UsefulTimely | UsefulLate | CoveredMisses | UnusedEvictions
    | DemandAccesses | ActualMisses | ShadowMisses | PollutionEvictions | PollutionMisses

  /** Event `e` after history `h` is counted. */
  ghost predicate Counts(h: History, e: Event, c: Counter) {
    match c
    case Issued => e.Issuing?
    case Completed => e.Completion? && exists i :: 0 <= i < |h| && OnItsWay(h, i) && h[i].id == e.id
    case Fills => e.PrefetchFill?
    case RedundantFills => e.PrefetchFill? && exists p :: 0 <= p < |h| && Brought(h, e.line, p)
    case UsefulTimely => TimelyUse(h, e)
    case UsefulLate => e.Reference? && !e.hit && Expected(h, e.line) && !Late(h, e.line)
    case CoveredMisses => TimelyUse(h, e) && !e.shadowHit
    case UnusedEvictions => (e.Eviction? || (e.Removal? && e.origin == Dvr)) && Unspent(h, e.line)
    case DemandAccesses => e.Reference?
    case ActualMisses => e.Reference? && !e.hit
    case ShadowMisses => e.Reference? && !e.shadowHit
    case PollutionEvictions => e.Eviction? && e.polluting
    case PollutionMisses => e.Reference? && !e.hit && e.shadowHit && Displaced(h, e.line)
  }

  ghost function Number(h: History, c: Counter): nat {
    if h == [] then 0
    else Number(h[..|h| - 1], c) + if Counts(h[..|h| - 1], h[|h| - 1], c) then 1 else 0
  }

  /** The time between the prefetch of a line and its first use. */
  ghost function Lead(h: History, e: Event): int {
    if TimelyUse(h, e) then
      var p :| 0 <= p < |h| && Brought(h, e.line, p) && !UsedSince(h, e.line, p) && !Late(h[..p], e.line);
      e.now - h[p].now
    else 0
  }

  ghost function TotalLead(h: History): int {
    if h == [] then 0 else TotalLead(h[..|h| - 1]) + Lead(h[..|h| - 1], h[|h| - 1])
  }

  ghost function TotalBytes(h: History): nat {
    if h == [] then 0 else TotalBytes(h[..|h| - 1]) + if h[|h| - 1].Issuing? then h[|h| - 1].bytes else 0
  }

  // ----- one more event -----

  lemma ClearedMore(h: History, e: Event, line: Line, i: int, k: int)
    ensures k <= |h| ==> (ClearedBetween(h + [e], line, i, k) <==> ClearedBetween(h, line, i, k))
    ensures k == |h| + 1 && i < |h| ==> (ClearedBetween(h + [e], line, i, k) <==> ClearedBetween(h, line, i, |h|) || Clears(e, line))
  {
    var g := h + [e];
    assert forall j :: 0 <= j < |h| ==> g[j] == h[j];
    if ClearedBetween(h, line, i, |h|) && k == |h| + 1 {
      var j :| 0 <= j < |h| && i < j < |h| && Clears(h[j], line);
      assert Clears(g[j], line);
    }
    if ClearedBetween(h, line, i, k) {
      var j :| 0 <= j < |h| && i < j < k && Clears(h[j], line);
      assert Clears(g[j], line);
    }
    if k == |h| + 1 && i < |h| && Clears(e, line) { assert Clears(g[|h|], line); }
  }

  /** As long as nothing clears the line, the prefetch that brought it stays the same. */
  lemma BroughtStays(h: History, e: Event, line: Line, p: nat)
    requires p < |h|
    ensures Brought(h + [e], line, p) <==> Brought(h, line, p) && !Clears(e, line)
  {
    var g := h + [e];
    assert forall j :: 0 <= j < |h| ==> g[j] == h[j];
    ClearedMore(h, e, line, p, |g|);
    forall i | 0 <= i < p ensures ClearedBetween(g, line, i, p) <==> ClearedBetween(h, line, i, p) { ClearedMore(h, e, line, i, p); }
    hide ClearedBetween;
  }

  /** A fill that nothing cleared: then some prefetch brought the line. */
  lemma {:induction false} SomeBrought(h: History, line: Line, i: nat) returns (p: nat)
    requires i < |h| && IsFill(h[i], line) && !ClearedBetween(h, line, i, |h|)
    ensures p <= i && Brought(h, line, p)
    decreases i
  {
    if j: nat :| j < i && IsFill(h[j], line) && !ClearedBetween(h, line, j, i) {
      forall c | 0 <= c < |h| && j < c < |h| ensures !Clears(h[c], line) {}
      p := SomeBrought(h, line, j);
    } else {
      p := i;
    }
  }

  /** A fill brings the line if it was not there. */
  lemma BroughtNow(h: History, e: Event, line: Line)
    ensures Brought(h + [e], line, |h|) <==> IsFill(e, line) && !exists p :: 0 <= p < |h| && Brought(h, line, p)
  {
    var g := h + [e];
    assert forall j :: 0 <= j < |h| ==> g[j] == h[j];
    assert !ClearedBetween(g, line, |h|, |g|);
    forall i | 0 <= i < |h| ensures ClearedBetween(g, line, i, |h|) <==> ClearedBetween(h, line, i, |h|) { ClearedMore(h, e, line, i, |h|); }
    if IsFill(e, line) {
      if i: nat :| i < |h| && IsFill(h[i], line) && !ClearedBetween(h, line, i, |h|) {
        var p := SomeBrought(h, line, i);
        assert Brought(h, line, p) && IsFill(g[i], line);
      } else {
        hide ClearedBetween;
      }
    }
  }

  lemma BroughtOnce(h: History, line: Line, p: nat, q: nat)
    requires Brought(h, line, p) && Brought(h, line, q)
    ensures p == q
  {
  }

  lemma UsedMore(h: History, e: Event, line: Line, p: nat)
    requires p < |h|
    ensures UsedSince(h + [e], line, p) <==> UsedSince(h, line, p) || IsUse(e, line)
  {
    var g := h + [e];
    assert forall j :: 0 <= j < |h| ==> g[j] == h[j];
    if UsedSince(h, line, p) {
      var j :| 0 <= j < |h| && p < j && IsUse(h[j], line);
      assert IsUse(g[j], line);
    }
    if IsUse(e, line) { assert IsUse(g[|h|], line); }
  }

  lemma WayMore(h: History, e: Event)
    ensures forall i :: 0 <= i < |h| ==> (OnItsWay(h + [e], i) <==> OnItsWay(h, i) && !(h[i].Issuing? && Ends(e, h[i].id)))
    ensures OnItsWay(h + [e], |h|) <==> e.Issuing?
  {
    var g := h + [e];
    assert forall j :: 0 <= j < |h| ==> g[j] == h[j];
    forall i | 0 <= i < |h| ensures OnItsWay(g, i) <==> OnItsWay(h, i) && !(h[i].Issuing? && Ends(e, h[i].id)) {
      if OnItsWay(g, i) { assert !Ends(g[|h|], h[i].id); }
    }
  }

  lemma LateMore(h: History, e: Event, line: Line)
    ensures Late(h + [e], line) <==> (Late(h, line) && !EndsLateness(e, line)) || (IsMiss(e, line) && Expected(h, line))
  {
    var g := h + [e];
    forall j | 0 <= j < |h| ensures g[j] == h[j] && g[..j] == h[..j] {}
    assert g[..|h|] == h;
    hide Expected;
    if Late(h, line) && !EndsLateness(e, line) {
      var i :| 0 <= i < |h| && IsMiss(h[i], line) && Expected(h[..i], line) && forall j :: i < j < |h| ==> !EndsLateness(h[j], line);
      assert IsMiss(g[i], line) && Expected(g[..i], line);
    }
    if IsMiss(e, line) && Expected(h, line) { assert IsMiss(g[|h|], line) && Expected(g[..|h|], line); }
    if Late(g, line) {
      var i :| 0 <= i < |g| && IsMiss(g[i], line) && Expected(g[..i], line) && forall j :: i < j < |g| ==> !EndsLateness(g[j], line);
      if i < |h| {
        assert !EndsLateness(g[|h|], line);
        assert IsMiss(h[i], line) && Expected(h[..i], line);
      }
    }
  }

  lemma DisplacedMore(h: History, e: Event, line: Line)
    ensures Displaced(h + [e], line) <==> (Displaced(h, line) && !EndsBlame(e, line)) || e == Eviction(line, true)
  {
    var g := h + [e];
    assert forall j :: 0 <= j < |h| ==> g[j] == h[j];
    if Displaced(h, line) && !EndsBlame(e, line) {
      var i :| 0 <= i < |h| && h[i] == Eviction(line, true) && forall j :: i < j < |h| ==> !EndsBlame(h[j], line);
      assert g[i] == Eviction(line, true);
    }
    if e == Eviction(line, true) { assert g[|h|] == e; }
    if Displaced(g, line) {
      var i :| 0 <= i < |g| && g[i] == Eviction(line, true) && forall j :: i < j < |g| ==> !EndsBlame(g[j], line);
      if i < |h| {
        assert !EndsBlame(g[|h|], line);
        assert h[i] == Eviction(line, true);
      }
    }
  }

  lemma NumberMore(h: History, e: Event, c: Counter)
    ensures Number(h + [e], c) == Number(h, c) + if Counts(h, e, c) then 1 else 0
    ensures TotalLead(h + [e]) == TotalLead(h) + Lead(h, e)
    ensures TotalBytes(h + [e]) == TotalBytes(h) + if e.Issuing? then e.bytes else 0
  {
    assert (h + [e])[..|h|] == h;
    hide Counts, Lead;
  }
}
