/**
 The timeline that the O3 pipeline viewer draws for one instruction
 (`print_inst` in util/o3-pipeview.py), without terminal colours.

 A timeline is cut into lines of `width` columns of `cycle` ticks each; an
 instruction shorter than one line is drawn in compact form, wrapping around inside a
 single line.  The module proves that every stage event lands on exactly one line, and
 that the drawing loop produces exactly one picture, described position by position.
 */
module PipeViewTimeline {
  import opened Arithmetic
  import opened Text

  /**
   `ticks[s]` is the tick of stage `s`, 0 for a stage the instruction never reached.
   `timeWidth` is the number of ticks on one line.
   */
  datatype Timeline = Timeline(ticks: seq<nat>, width: nat, cycle: nat, timeWidth: nat) {
    /** Seven stages, or eight when store completions are shown. */
    ghost predicate Valid() {
      && (|ticks| == 7 || |ticks| == 8)
      && width > 0 && cycle > 0 && timeWidth == width * cycle && timeWidth > 0
      && ticks[FETCH] > 0
      && forall s :: 0 <= s < |ticks| ==> ticks[s] == 0 || ticks[s] >= ticks[FETCH]
    }
    function BaseTick(): (b: nat)
      requires Valid()
      ensures b <= ticks[FETCH] < b + timeWidth
    {
      DivMod(ticks[FETCH], timeWidth);
      ticks[FETCH] / timeWidth * timeWidth
    }
    function LastEvent(): (l: nat)
      requires Valid()
      ensures forall s :: 0 <= s < |ticks| ==> ticks[s] <= l
    {
      Max(ticks)
    }
    /** `retire == 0` marks an abandoned instruction. */
    function Dot(): char requires Valid() { if ticks[RETIRE] == 0 then '=' else '.' }
    predicate Compact() requires Valid() { LastEvent() - ticks[FETCH] < timeWidth }
    function NumLines(): nat requires Valid() {
      if Compact() then 1 else Quotient(LastEvent() - BaseTick(), timeWidth) + 1
    }
    function Start(i: nat): nat requires Valid() { BaseTick() + i * timeWidth }
    function End(i: nat): nat requires Valid() {
      Start(i) + timeWidth + if NumLines() == 1 then ticks[FETCH] - BaseTick() else 0
    }
  }

  const FETCH := 0
  const DISPATCH := 3
  const ISSUE := 4
  const RETIRE := 6

  /** The stages' letters and names, in stage order. */
  const SHORTHAND: string := "fdnpicrs"
  const NAMES: seq<string> := ["fetch", "decode", "rename", "dispatch", "issue", "complete", "retire", "store"]
  /** Positions of the stage names in alphabetical order, the tie-break of `events.sort()`. */
  const NAME_RANK: seq<nat> := [3, 1, 5, 2, 4, 0, 6, 7]

  function Max(s: seq<nat>): (m: nat)
    requires s != []
    ensures m in s
    ensures forall k :: 0 <= k < |s| ==> s[k] <= m
  {
    if |s| == 1 then s[0]
    else
      var m := Max(s[1..]);
      assert forall k :: 0 < k < |s| ==> s[k] == s[1..][k - 1];
      if m < s[0] then s[0] else m
  }

  // ----- arithmetic of the windows -----

  lemma DivMod(a: nat, m: nat)
    requires m > 0
    ensures a == a / m * m + a % m && a % m < m && a / m * m <= a < a / m * m + m
  {
  }

  function Quotient(a: nat, m: nat): nat
    requires m > 0
  {
    a / m
  }

  /** Two numbers less than `m` apart with the same remainder are equal. */
  lemma SameRemainder(a: nat, b: nat, m: nat)
    requires m > 0 && a % m == b % m && a <= b < a + m
    ensures a == b
  {
    DivMod(a, m);
    DivMod(b, m);
    var d := b / m - a / m;
    assert d * m == b / m * m - a / m * m;
    MultipleBound(d, m);
  }

  lemma DivBound(x: nat, c: nat, w: nat)
    requires c > 0 && x < w * c
    ensures x / c < w
  {
    DivMod(x, c);
    var d := x / c - w;
    assert d * c == x / c * c - w * c;
    assert d >= 0 ==> d * c >= 0;
  }

  // ----- which line an event is on -----

  ghost predicate OnLine(t: Timeline, s: nat, i: nat)
    requires t.Valid() && s < |t.ticks|
  {
    t.ticks[s] != 0 && t.Start(i) <= t.ticks[s] < t.End(i)
  }

  /** One line is used exactly in the compact case. */
  lemma SingleLineIffCompact(t: Timeline)
    requires t.Valid()
    ensures t.NumLines() == 1 <==> t.Compact()
    ensures t.NumLines() >= 1
  {
    var d, m := t.LastEvent() - t.BaseTick(), t.timeWidth;
    if !t.Compact() {
      QuotientMonotone(m, d, m);
    }
  }

  ghost function LineOf(t: Timeline, s: nat): nat
    requires t.Valid() && s < |t.ticks| && t.ticks[s] != 0
  {
    if t.Compact() then 0 else Quotient(t.ticks[s] - t.BaseTick(), t.timeWidth)
  }

  lemma QuotientMonotone(a: nat, b: nat, m: nat)
    requires m > 0 && a <= b
    ensures Quotient(a, m) <= Quotient(b, m)
  {
    DivMod(a, m);
    DivMod(b, m);
    var d := a / m - b / m;
    assert d * m == a / m * m - b / m * m;
    MultipleBound(d, m);
  }

  lemma WindowIsUnique(x: nat, base: nat, m: nat, i: nat)
    requires m > 0 && base <= x
    ensures base + i * m <= x < base + i * m + m <==> i == Quotient(x - base, m)
  {
    var d := x - base;
    DivMod(d, m);
    var e := d / m - i;
    assert e * m == d / m * m - i * m;
    MultipleBound(e, m);
  }

  /** Every event of the instruction is on the line computed by `LineOf` and on no other. */
  lemma EventOnExactlyOneLine(t: Timeline, s: nat)
    requires t.Valid() && s < |t.ticks| && t.ticks[s] != 0
    ensures LineOf(t, s) < t.NumLines()
    ensures forall i: nat :: i < t.NumLines() ==> (OnLine(t, s, i) <==> i == LineOf(t, s))
  {
    SingleLineIffCompact(t);
    if !t.Compact() {
      QuotientMonotone(t.ticks[s] - t.BaseTick(), t.LastEvent() - t.BaseTick(), t.timeWidth);
      forall i: nat | i < t.NumLines() ensures OnLine(t, s, i) <==> i == LineOf(t, s) {
        WindowIsUnique(t.ticks[s], t.BaseTick(), t.timeWidth, i);
      }
    }
  }

  /** Column of an event: offset inside the line, in cycles. */
  function Column(t: Timeline, s: nat): nat
    requires t.Valid() && s < |t.ticks|
  {
    t.ticks[s] % t.timeWidth / t.cycle
  }

  lemma ColumnFits(t: Timeline, s: nat)
    requires t.Valid() && s < |t.ticks|
    ensures Column(t, s) < t.width
  {
    DivMod(t.ticks[s], t.timeWidth);
    DivBound(t.ticks[s] % t.timeWidth, t.cycle, t.width);
  }

  /** Events of one line with different ticks have different offsets, wrapped around or not. */
  lemma OffsetsAreInjective(t: Timeline, s: nat, u: nat, i: nat)
    requires t.Valid() && s < |t.ticks| && u < |t.ticks|
    requires i < t.NumLines() && OnLine(t, s, i) && OnLine(t, u, i)
    ensures t.ticks[s] % t.timeWidth == t.ticks[u] % t.timeWidth <==> t.ticks[s] == t.ticks[u]
  {
    SingleLineIffCompact(t);
    var a, b := t.ticks[s], t.ticks[u];
    if a % t.timeWidth == b % t.timeWidth {
      if a <= b { SameRemainder(a, b, t.timeWidth); } else { SameRemainder(b, a, t.timeWidth); }
    }
  }

  // ----- what a line looks like -----

  datatype Mark = Mark(col: nat, letter: char)

  ghost predicate InColumnOrder(marks: seq<Mark>, width: nat) {
    && (forall k :: 0 <= k < |marks| ==> marks[k].col < width)
    && (forall k, l :: 0 <= k < l < |marks| ==> marks[k].col <= marks[l].col)
  }

  /** Event `k` is drawn in the column of the event before it. */
  predicate Collides(marks: seq<Mark>, k: int)
    requires 0 < k < |marks|
  {
    marks[k - 1].col == marks[k].col
  }

  /** Among the first `k` events, those drawn in the column of the event before them. */
  function Collisions(marks: seq<Mark>, k: nat): nat
    requires k <= |marks|
  {
    if k <= 1 then 0 else Collisions(marks, k - 1) + if Collides(marks, k - 1) then 1 else 0
  }

  /** Where event `k` is found in the text: its column, pushed right by the collisions before it. */
  function Place(marks: seq<Mark>, k: nat): nat
    requires k < |marks|
  {
    marks[k].col + Collisions(marks, k + 1)
  }

  ghost predicate IsPlace(marks: seq<Mark>, k: nat, p: int)
    requires k <= |marks|
  {
    exists l :: 0 <= l < k && Place(marks, l) == p
  }

  /** `text` shows the first `k` events on `cols` columns: letters at their places, dots elsewhere. */
  ghost predicate Shows(text: string, marks: seq<Mark>, k: nat, dot: char, cols: nat)
    requires k <= |marks|
  {
    && |text| == cols + Collisions(marks, k)
    && (forall l {:trigger Place(marks, l)} :: 0 <= l < k ==> Place(marks, l) < |text| && text[Place(marks, l)] == marks[l].letter)
    && (forall p :: 0 <= p < |text| ==> IsPlace(marks, k, p) || text[p] == dot)
  }

  /** Python's `dot * n`, empty for a negative `n`. */
  function Dots(dot: char, n: int): (d: string)
    ensures |d| == if n <= 0 then 0 else n
    ensures forall i :: 0 <= i < |d| ==> d[i] == dot
  {
    if n <= 0 then [] else seq(n, _ => dot)
  }

  /** The column behind the last of `k` events, where the drawing loop's pen is. */
  function Pen(marks: seq<Mark>, k: nat): nat
    requires k <= |marks|
  {
    if k == 0 then 0 else marks[k - 1].col + 1
  }

  /** One turn of the drawing loop. */
  lemma DrawStep(text: string, marks: seq<Mark>, k: nat, dot: char, width: nat)
    requires InColumnOrder(marks, width) && k < |marks| && Shows(text, marks, k, dot, Pen(marks, k))
    ensures Shows(text + Dots(dot, marks[k].col - Pen(marks, k)) + [marks[k].letter], marks, k + 1, dot, marks[k].col + 1)
  {
    var next := text + Dots(dot, marks[k].col - Pen(marks, k)) + [marks[k].letter];
    assert |next| == Place(marks, k) + 1;
    forall p | 0 <= p < |next| ensures IsPlace(marks, k + 1, p) || next[p] == dot {
      if p == Place(marks, k) {
        assert IsPlace(marks, k + 1, p);
      } else if p < |text| && IsPlace(marks, k, p) {
        var l :| 0 <= l < k && Place(marks, l) == p;
        assert IsPlace(marks, k + 1, p);
      }
    }
  }

  /** The drawing loop of `print_inst`: dots up to the event's column, then its letter. */
  method DrawLine(marks: seq<Mark>, width: nat, dot: char) returns (text: string)
    requires InColumnOrder(marks, width)
    ensures Shows(text, marks, |marks|, dot, width)
  {
    var pos: nat := 0;
    text := [];
    for k := 0 to |marks|
      invariant pos == Pen(marks, k) && Shows(text, marks, k, dot, pos)
    {
      DrawStep(text, marks, k, dot, width);
      text := text + Dots(dot, marks[k].col - pos) + [marks[k].letter];
      pos := marks[k].col + 1;
    }
    text := text + Dots(dot, width - pos);
  }

  /** The picture is unique: two texts that show the same events are equal. */
  lemma PictureIsUnique(a: string, b: string, marks: seq<Mark>, dot: char, width: nat)
    requires Shows(a, marks, |marks|, dot, width) && Shows(b, marks, |marks|, dot, width)
    ensures a == b
  {
    forall p | 0 <= p < |a| ensures a[p] == b[p] {
      if IsPlace(marks, |marks|, p) {
        var l :| 0 <= l < |marks| && Place(marks, l) == p;
      }
    }
  }

  // ----- when a line has the advertised width -----

  lemma {:induction false} CollisionsZero(marks: seq<Mark>, k: nat)
    requires k <= |marks|
    ensures Collisions(marks, k) == 0 <==> forall l :: 0 < l < k ==> !Collides(marks, l)
  {
    if k > 1 { CollisionsZero(marks, k - 1); }
  }

  lemma {:induction false} CollisionsGrow(marks: seq<Mark>, j: nat, k: nat)
    requires j <= k <= |marks|
    ensures Collisions(marks, j) <= Collisions(marks, k)
  {
    if j < k { CollisionsGrow(marks, j, k - 1); }
  }

  /**
   A drawn line is `width` characters long, with every event at its own column, exactly when its
   events are in distinct columns.
   */
  lemma LineWidthIff(text: string, marks: seq<Mark>, dot: char, width: nat)
    requires InColumnOrder(marks, width) && Shows(text, marks, |marks|, dot, width)
    ensures |text| >= width
    ensures |text| == width <==> forall k :: 0 < k < |marks| ==> !Collides(marks, k)
    ensures |text| == width ==> forall k :: 0 <= k < |marks| ==> text[marks[k].col] == marks[k].letter
  {
    CollisionsZero(marks, |marks|);
    if |text| == width {
      forall k | 0 <= k < |marks| ensures text[marks[k].col] == marks[k].letter {
        CollisionsGrow(marks, k + 1, |marks|);
        assert Place(marks, k) == marks[k].col;
      }
    }
  }

  // ----- collecting and sorting the events of a line -----

  /** Sort key of an event: offset first, then the alphabetical rank of the stage name. */
  function EventKey(t: Timeline, s: nat): nat
    requires t.Valid() && s < |t.ticks|
  {
    t.ticks[s] % t.timeWidth * 8 + NAME_RANK[s]
  }

  ghost predicate Stages(t: Timeline, ss: seq<nat>) {
    forall k :: 0 <= k < |ss| ==> ss[k] < |t.ticks|
  }

  ghost predicate SortedByKey(t: Timeline, ss: seq<nat>)
    requires t.Valid() && Stages(t, ss)
  {
    forall k, l :: 0 <= k < l < |ss| ==> EventKey(t, ss[k]) < EventKey(t, ss[l])
  }

  /** Stage `s` comes before stage `u` on a line: its offset is smaller, or equal and its name comes first. */
  ghost predicate IsBefore(t: Timeline, s: nat, u: nat)
    requires t.Valid() && s < |t.ticks| && u < |t.ticks|
  {
    var a, b := t.ticks[s] % t.timeWidth, t.ticks[u] % t.timeWidth;
    a < b || (a == b && NAME_RANK[s] < NAME_RANK[u])
  }

  lemma KeyMeans(t: Timeline, s: nat, u: nat)
    requires t.Valid() && s < |t.ticks| && u < |t.ticks|
    ensures EventKey(t, s) < EventKey(t, u) <==> IsBefore(t, s, u)
    ensures EventKey(t, s) == EventKey(t, u) ==> s == u
  {
    assert forall k, l :: 0 <= k < l < 8 ==> NAME_RANK[k] < 8 && NAME_RANK[l] < 8 && NAME_RANK[k] != NAME_RANK[l];
  }

  /** The ranks are those of the names. */
  lemma RanksAreAlphabetical()
    ensures forall s, u :: 0 <= s < |NAMES| && 0 <= u < |NAMES| && NAME_RANK[s] < NAME_RANK[u] ==> StringLess(NAMES[s], NAMES[u])
  {
    var decode, rename, dispatch, retire := NAMES[1], NAMES[2], NAMES[3], NAMES[6];
    assert decode[1..] == "ecode" && dispatch[1..] == "ispatch" && rename[1..] == "ename" && retire[1..] == "etire";
    assert rename[1..][1..] == "name" && retire[1..][1..] == "tire";
    assert StringLess("name", "tire") && StringLess("ename", "etire");
  }

  function InsertEvent(t: Timeline, s: nat, ss: seq<nat>): (r: seq<nat>)
    requires t.Valid() && s < |t.ticks| && Stages(t, ss)
    ensures Stages(t, r)
    ensures forall x :: x in r <==> x == s || x in ss
  {
    if ss == [] then [s]
    else if EventKey(t, s) < EventKey(t, ss[0]) then [s] + ss
    else
      var r := InsertEvent(t, s, ss[1..]);
      assert ss == [ss[0]] + ss[1..];
      [ss[0]] + r
  }

  lemma {:induction false} InsertEventSorts(t: Timeline, s: nat, ss: seq<nat>)
    requires t.Valid() && s < |t.ticks| && Stages(t, ss) && SortedByKey(t, ss) && s !in ss
    ensures SortedByKey(t, InsertEvent(t, s, ss))
  {
    if ss != [] { KeyMeans(t, s, ss[0]); }
    hide EventKey;
    if ss != [] && EventKey(t, s) >= EventKey(t, ss[0]) {
      InsertEventSorts(t, s, ss[1..]);
      var r := InsertEvent(t, s, ss[1..]);
      forall k | 0 <= k < |r| ensures EventKey(t, ss[0]) < EventKey(t, r[k]) {
        assert r[k] in r;
        if r[k] in ss[1..] {
          var l :| 0 <= l < |ss[1..]| && ss[1..][l] == r[k];
          assert ss[l + 1] == r[k];
        }
      }
    }
  }

  /** The event-collection loop, followed by `events.sort()`. */
  method CollectEvents(t: Timeline, i: nat) returns (ss: seq<nat>)
    requires t.Valid()
    ensures Stages(t, ss) && SortedByKey(t, ss)
    ensures forall s: nat :: s in ss <==> s < |t.ticks| && OnLine(t, s, i)
  {
    ss := [];
    for s: nat := 0 to |t.ticks|
      invariant Stages(t, ss) && SortedByKey(t, ss)
      invariant forall u: nat :: u in ss <==> u < s && OnLine(t, u, i)
    {
      var tick := t.ticks[s];
      if tick != 0 && tick >= t.Start(i) && tick < t.End(i) {
        InsertEventSorts(t, s, ss);
        ss := InsertEvent(t, s, ss);
      }
    }
  }

  predicate Skipped(t: Timeline, s: nat)
    requires t.Valid() && s < |t.ticks|
  {
    s == DISPATCH && t.ticks[DISPATCH] == t.ticks[ISSUE]
  }

  function MarkOf(t: Timeline, s: nat): Mark
    requires t.Valid() && s < |t.ticks|
  {
    Mark(Column(t, s), SHORTHAND[s])
  }

  function MarksOf(t: Timeline, ss: seq<nat>): seq<Mark>
    requires t.Valid() && Stages(t, ss)
  {
    if ss == [] then []
    else (if Skipped(t, ss[0]) then [] else [MarkOf(t, ss[0])]) + MarksOf(t, ss[1..])
  }

  lemma {:induction false} MarkHasStage(t: Timeline, ss: seq<nat>, m: Mark) returns (s: nat)
    requires t.Valid() && Stages(t, ss) && m in MarksOf(t, ss)
    ensures s in ss && !Skipped(t, s) && MarkOf(t, s) == m
  {
    if !Skipped(t, ss[0]) && m == MarkOf(t, ss[0]) {
      s := ss[0];
    } else {
      s := MarkHasStage(t, ss[1..], m);
    }
  }

  lemma KeyOrdersColumns(t: Timeline, s: nat, u: nat)
    requires t.Valid() && s < |t.ticks| && u < |t.ticks| && EventKey(t, s) <= EventKey(t, u)
    ensures Column(t, s) <= Column(t, u)
  {
    QuotientMonotone(t.ticks[s] % t.timeWidth, t.ticks[u] % t.timeWidth, t.cycle);
  }

  lemma {:induction false} MarksInOrder(t: Timeline, ss: seq<nat>)
    requires t.Valid() && Stages(t, ss) && SortedByKey(t, ss)
    ensures InColumnOrder(MarksOf(t, ss), t.width)
  {
    if ss != [] {
      MarksInOrder(t, ss[1..]);
      ColumnFits(t, ss[0]);
      var rest := MarksOf(t, ss[1..]);
      forall k | 0 <= k < |rest| ensures Column(t, ss[0]) <= rest[k].col {
        assert rest[k] in rest;
        var s := MarkHasStage(t, ss[1..], rest[k]);
        var l :| 0 <= l < |ss[1..]| && ss[1..][l] == s;
        assert ss[l + 1] == s;
        KeyOrdersColumns(t, ss[0], s);
      }
    }
  }

  /** Stage `s` is drawn on line `i`: in its window, unless it is the dispatch of an instruction issued at once. */
  ghost predicate IsDrawn(t: Timeline, s: nat, i: nat)
    requires t.Valid()
  {
    && s < |t.ticks| && t.ticks[s] != 0 && !(s == 3 && t.ticks[3] == t.ticks[4])
    && if forall u :: 0 <= u < |t.ticks| ==> t.ticks[u] < t.ticks[0] + t.timeWidth then i == 0
       else
         var start := t.ticks[0] / t.timeWidth * t.timeWidth + i * t.timeWidth;
         start <= t.ticks[s] < start + t.timeWidth
  }

  /** The marks are those of the stages drawn on line `i`, each once and in order. */
  ghost predicate Depicts(t: Timeline, i: nat, ss: seq<nat>, ms: seq<Mark>)
    requires t.Valid()
  {
    && Stages(t, ss) && |ms| == |ss|
    && (forall s: nat :: s in ss <==> IsDrawn(t, s, i))
    && (forall k, l :: 0 <= k < l < |ss| ==> IsBefore(t, ss[k], ss[l]))
    && forall k :: 0 <= k < |ss| ==> ms[k] == Mark(t.ticks[ss[k]] % t.timeWidth / t.cycle, "fdnpicrs"[ss[k]])
  }

  /** `text` shows `ms`, and `ms` are the marks of line `i`. */
  ghost predicate LineShows(t: Timeline, i: nat, ms: seq<Mark>, text: string)
    requires t.Valid()
  {
    && InColumnOrder(ms, t.width) && Shows(text, ms, |ms|, if t.ticks[6] == 0 then '=' else '.', t.width)
    && exists ss :: Depicts(t, i, ss, ms)
  }

  /** The stages that are not skipped. */
  ghost function Drawn(t: Timeline, ss: seq<nat>): (r: seq<nat>)
    requires t.Valid() && Stages(t, ss)
    ensures Stages(t, r)
  {
    if ss == [] then [] else (if Skipped(t, ss[0]) then [] else [ss[0]]) + Drawn(t, ss[1..])
  }

  lemma {:induction false} DrawnMembers(t: Timeline, ss: seq<nat>, s: nat)
    requires t.Valid() && Stages(t, ss)
    ensures s in Drawn(t, ss) <==> s in ss && !Skipped(t, s)
  {
    if ss != [] {
      DrawnMembers(t, ss[1..], s);
      assert ss == [ss[0]] + ss[1..];
      hide Skipped;
    }
  }

  lemma {:induction false} DrawnMarks(t: Timeline, ss: seq<nat>)
    requires t.Valid() && Stages(t, ss)
    ensures |MarksOf(t, ss)| == |Drawn(t, ss)|
    ensures forall k :: 0 <= k < |Drawn(t, ss)| ==> MarksOf(t, ss)[k] == MarkOf(t, Drawn(t, ss)[k])
  {
    hide Skipped, MarkOf;
    if ss != [] { DrawnMarks(t, ss[1..]); }
  }

  lemma {:induction false} DrawnSorted(t: Timeline, ss: seq<nat>)
    requires t.Valid() && Stages(t, ss) && SortedByKey(t, ss)
    ensures SortedByKey(t, Drawn(t, ss))
  {
    hide Skipped, EventKey;
    if ss != [] {
      var rest := ss[1..];
      DrawnSorted(t, rest);
      forall k | 0 <= k < |Drawn(t, rest)| ensures EventKey(t, ss[0]) < EventKey(t, Drawn(t, rest)[k]) {
        DrawnMembers(t, rest, Drawn(t, rest)[k]);
        var l :| 0 <= l < |rest| && rest[l] == Drawn(t, rest)[k];
        assert ss[l + 1] == rest[l];
      }
    }
  }

  lemma DrawnIs(t: Timeline, s: nat, i: nat)
    requires t.Valid() && i < t.NumLines()
    ensures IsDrawn(t, s, i) <==> s < |t.ticks| && OnLine(t, s, i) && !Skipped(t, s)
  {
    if s < |t.ticks| && t.ticks[s] != 0 {
      EventOnExactlyOneLine(t, s);
      SingleLineIffCompact(t);
      assert t.Compact() <==> forall u :: 0 <= u < |t.ticks| ==> t.ticks[u] < t.ticks[0] + t.timeWidth;
    }
  }

  lemma DrawnAre(t: Timeline, i: nat, ss: seq<nat>, s: nat)
    requires t.Valid() && i < t.NumLines() && Stages(t, ss)
    requires forall s: nat :: s in ss <==> s < |t.ticks| && OnLine(t, s, i)
    ensures s in Drawn(t, ss) <==> IsDrawn(t, s, i)
  {
    hide *;
    DrawnMembers(t, ss, s);
    DrawnIs(t, s, i);
  }

  lemma SortedIsBefore(t: Timeline, ss: seq<nat>)
    requires t.Valid() && Stages(t, ss) && SortedByKey(t, ss)
    ensures forall k, l :: 0 <= k < l < |ss| ==> IsBefore(t, ss[k], ss[l])
  {
    hide EventKey, IsBefore;
    forall k, l | 0 <= k < l < |ss| ensures IsBefore(t, ss[k], ss[l]) { KeyMeans(t, ss[k], ss[l]); }
  }

  /** The marks collected for a line. */
  lemma MarksDepict(t: Timeline, i: nat, ss: seq<nat>)
    requires t.Valid() && i < t.NumLines() && Stages(t, ss) && SortedByKey(t, ss)
    requires forall s: nat :: s in ss <==> s < |t.ticks| && OnLine(t, s, i)
    ensures Depicts(t, i, Drawn(t, ss), MarksOf(t, ss))
  {
    DrawnSorted(t, ss);
    DrawnMarks(t, ss);
    SortedIsBefore(t, Drawn(t, ss));
    var ds := Drawn(t, ss);
    forall s: nat ensures s in ds <==> IsDrawn(t, s, i) { DrawnAre(t, i, ss, s); }
    hide IsDrawn, IsBefore, Drawn, MarksOf, Timeline.NumLines, OnLine, EventKey;
  }

  lemma LineIsComplete(t: Timeline, i: nat, ss: seq<nat>, text: string)
    requires t.Valid() && i < t.NumLines()
    requires Stages(t, ss) && SortedByKey(t, ss)
    requires forall s: nat :: s in ss <==> s < |t.ticks| && OnLine(t, s, i)
    requires Shows(text, MarksOf(t, ss), |MarksOf(t, ss)|, t.Dot(), t.width)
    ensures LineShows(t, i, MarksOf(t, ss), text)
  {
    MarksInOrder(t, ss);
    MarksDepict(t, i, ss);
    hide Depicts, Shows, MarksOf, InColumnOrder, Timeline.NumLines, OnLine, SortedByKey;
  }

  ghost predicate HasEvent(t: Timeline, i: nat)
    requires t.Valid()
  {
    exists s: nat :: s < |t.ticks| && OnLine(t, s, i)
  }

  /** No line is missing and none is superfluous: the first and the last one show an event, and nothing comes behind. */
  lemma LinesAreUsed(t: Timeline)
    requires t.Valid()
    ensures OnLine(t, 0, 0)
    ensures HasEvent(t, t.NumLines() - 1)
    ensures forall s: nat :: s < |t.ticks| && t.ticks[s] != 0 ==> t.ticks[s] < t.End(t.NumLines() - 1)
  {
    SingleLineIffCompact(t);
    var last :| 0 <= last < |t.ticks| && t.ticks[last] == t.LastEvent();
    EventOnExactlyOneLine(t, 0);
    EventOnExactlyOneLine(t, last);
    assert OnLine(t, last, t.NumLines() - 1);
    WindowIsUnique(t.ticks[0], t.BaseTick(), t.timeWidth, 0);
  }

  /** All the lines of one instruction, with the marks drawn on each. */
  method PrintTimeline(t: Timeline) returns (lines: seq<string>, marks: seq<seq<Mark>>)
    requires t.Valid()
    ensures |lines| == |marks| == t.NumLines()
    ensures |lines| >= 1 && HasEvent(t, |lines| - 1)
    ensures forall i :: 0 <= i < |lines| ==> LineShows(t, i, marks[i], lines[i])
  {
    LinesAreUsed(t);
    lines, marks := [], [];
    for i: nat := 0 to t.NumLines()
      invariant |lines| == |marks| == i
      invariant forall j :: 0 <= j < i ==> LineShows(t, j, marks[j], lines[j])
    {
      var ss := CollectEvents(t, i);
      MarksInOrder(t, ss);
      var ms := MarksOf(t, ss);
      var text := DrawLine(ms, t.width, t.Dot());
      LineIsComplete(t, i, ss, text);
      lines, marks := lines + [text], marks + [ms];
    }
  }
}
