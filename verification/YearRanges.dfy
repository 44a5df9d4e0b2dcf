/**
 Copyright years (util/find_copyrights.py): `datestr` prints a set of years as comma-separated
 runs, `process_dates` reads such a text back.
 */
module YearRanges {
  import opened Wrappers
  import opened Text

  datatype Run = Run(first: nat, last: nat)

  predicate InRun(r: Run, y: nat) { r.first <= y <= r.last }

  ghost predicate Increasing(s: seq<nat>) { forall i, j :: 0 <= i < j < |s| ==> s[i] < s[j] }

  // ----- compression -----

  /** The runs of a sorted list, given the run read so far. */
  function Collect(r: Run, rest: seq<nat>): (runs: seq<Run>)
    ensures |runs| >= 1
    decreases |rest|
  {
    if rest == [] then [r]
    else if rest[0] == r.last + 1 then Collect(Run(r.first, rest[0]), rest[1..])
    else [r] + Collect(Run(rest[0], rest[0]), rest[1..])
  }

  function Runs(dates: seq<nat>): seq<Run>
    requires dates != []
  {
    Collect(Run(dates[0], dates[0]), dates[1..])
  }

  ghost predicate Covers(runs: seq<Run>, y: nat) { exists i :: 0 <= i < |runs| && InRun(runs[i], y) }

  /** Runs are non-empty, in order, and there is a gap between any two. */
  ghost predicate Separated(runs: seq<Run>) {
    && (forall i :: 0 <= i < |runs| ==> runs[i].first <= runs[i].last)
    && (forall i, j :: 0 <= i < j < |runs| ==> runs[i].last + 1 < runs[j].first)
  }

  lemma {:induction false} CollectMeans(r: Run, rest: seq<nat>)
    requires r.first <= r.last && Increasing(rest) && forall i :: 0 <= i < |rest| ==> r.last < rest[i]
    ensures Separated(Collect(r, rest)) && Collect(r, rest)[0].first == r.first
    ensures forall y :: Covers(Collect(r, rest), y) <==> InRun(r, y) || y in rest
    decreases |rest|
  {
    if rest == [] {
      assert Collect(r, rest) == [r];
      assert forall y :: InRun(r, y) ==> InRun(Collect(r, rest)[0], y);
    } else {
      var tail := rest[1..];
      assert rest == [rest[0]] + tail;
      if rest[0] == r.last + 1 {
        CollectMeans(Run(r.first, rest[0]), tail);
      } else {
        var more := Collect(Run(rest[0], rest[0]), tail);
        CollectMeans(Run(rest[0], rest[0]), tail);
        SeparatedCons(r, more);
        hide Separated;
        forall y ensures Covers([r] + more, y) <==> InRun(r, y) || y in rest {
          CoversCons(r, more, y);
        }
      }
    }
  }

  lemma SeparatedCons(r: Run, more: seq<Run>)
    requires |more| >= 1 && Separated(more) && r.first <= r.last && r.last + 1 < more[0].first
    ensures Separated([r] + more)
  {
    forall j | 0 <= j < |more| ensures r.last + 1 < more[j].first {
      assert j > 0 ==> more[0].last + 1 < more[j].first;
    }
  }

  lemma CoversCons(r: Run, more: seq<Run>, y: nat)
    ensures Covers([r] + more, y) <==> InRun(r, y) || Covers(more, y)
  {
    var all := [r] + more;
    if InRun(r, y) { assert InRun(all[0], y); }
    if Covers(more, y) {
      var i :| 0 <= i < |more| && InRun(more[i], y);
      assert InRun(all[i + 1], y);
    }
  }

  /** The printed runs cover exactly the years and cannot be joined any further. */
  lemma RunsMean(dates: seq<nat>)
    requires dates != [] && Increasing(dates)
    ensures Separated(Runs(dates)) && forall y :: Covers(Runs(dates), y) <==> y in dates
  {
    assert dates == [dates[0]] + dates[1..];
    CollectMeans(Run(dates[0], dates[0]), dates[1..]);
  }

  // ----- no cover is smaller -----

  ghost function Firsts(runs: seq<Run>): set<nat> {
    if runs == [] then {} else Firsts(runs[1..]) + {runs[0].first}
  }

  lemma {:induction false} FirstsMean(runs: seq<Run>, y: nat)
    ensures y in Firsts(runs) <==> exists i :: 0 <= i < |runs| && runs[i].first == y
    ensures |Firsts(runs)| <= |runs|
  {
    if runs != [] {
      FirstsMean(runs[1..], y);
      assert forall i :: 0 < i < |runs| ==> runs[i] == runs[1..][i - 1];
      if y in Firsts(runs[1..]) {
        var i :| 0 <= i < |runs[1..]| && runs[1..][i].first == y;
        assert runs[i + 1].first == y;
      }
    }
  }

  lemma {:induction false} FirstsOfSeparated(runs: seq<Run>)
    requires Separated(runs)
    ensures |Firsts(runs)| == |runs|
  {
    if runs != [] {
      FirstsOfSeparated(runs[1..]);
      FirstsMean(runs[1..], runs[0].first);
      assert forall i :: 0 <= i < |runs[1..]| ==> runs[1..][i] == runs[i + 1];
    }
  }

  /** A year that starts a run starts an interval of every other exact cover. */
  lemma StartIsNeeded(runs: seq<Run>, other: seq<Run>, i: nat)
    requires Separated(runs) && i < |runs| && forall y :: Covers(runs, y) <==> Covers(other, y)
    ensures runs[i].first in Firsts(other)
  {
    var f := runs[i].first;
    assert InRun(runs[i], f);
    assert Covers(other, f);
    var k :| 0 <= k < |other| && InRun(other[k], f);
    FirstsMean(other, f);
    if other[k].first < f {
      NothingBefore(runs, i);
      assert InRun(other[k], f - 1);
    }
  }

  lemma NothingBefore(runs: seq<Run>, i: nat)
    requires Separated(runs) && i < |runs| && runs[i].first > 0
    ensures !Covers(runs, runs[i].first - 1)
  {
    var y := runs[i].first - 1;
    forall j | 0 <= j < |runs| ensures !InRun(runs[j], y) {
      assert j < i ==> runs[j].last + 1 < runs[i].first;
      assert j > i ==> runs[i].last + 1 < runs[j].first;
    }
  }

  /** No exact cover of the same years by intervals uses fewer pieces. */
  lemma RunsAreFewest(runs: seq<Run>, other: seq<Run>)
    requires Separated(runs) && forall y :: Covers(runs, y) <==> Covers(other, y)
    ensures |runs| <= |other|
  {
    forall y | y in Firsts(runs) ensures y in Firsts(other) {
      FirstsMean(runs, y);
      var i :| 0 <= i < |runs| && runs[i].first == y;
      StartIsNeeded(runs, other, i);
    }
    FirstsOfSeparated(runs);
    FirstsMean(other, 0);
    Smaller(Firsts(runs), Firsts(other));
  }

  lemma Smaller(a: set<nat>, b: set<nat>)
    requires a <= b
    ensures |a| <= |b|
  {
    assert b == a + (b - a);
  }

  // ----- printing -----

  function PieceText(r: Run): string {
    if r.first == r.last then Decimal(r.first) else Decimal(r.first) + "-" + Decimal(r.last)
  }

  function PieceTexts(runs: seq<Run>): (texts: seq<string>)
    ensures |texts| == |runs| && forall i :: 0 <= i < |runs| ==> texts[i] == PieceText(runs[i])
  {
    if runs == [] then [] else [PieceText(runs[0])] + PieceTexts(runs[1..])
  }

  /** `datestr` of a set, given as its sorted list; an empty list is an error there. */
  method DateStr(dates: seq<nat>) returns (r: Option<string>)
    ensures r == if dates == [] then None else Some(Join(PieceTexts(Runs(dates)), ','))
  {
    if dates == [] {
      return None;
    }
    hide PieceText;
    var output: seq<string> := [];
    ghost var done: seq<Run> := [];
    var first, second := dates[0], dates[0];
    var k := 1;
    while k < |dates|
      invariant 1 <= k <= |dates| && output == PieceTexts(done)
      invariant Runs(dates) == done + Collect(Run(first, second), dates[k..])
    {
      var next := dates[k];
      assert dates[k..][1..] == dates[k + 1..];
      if next == second + 1 {
        second := next;
      } else {
        output := output + [PieceText(Run(first, second))];
        done := done + [Run(first, second)];
        first, second := next, next;
      }
      k := k + 1;
    }
    output := output + [PieceText(Run(first, second))];
    assert output == PieceTexts(Runs(dates));
    return Some(Join(output, ','));
  }

  // ----- parsing -----

  function Between(f: nat, l: nat): set<nat>
    decreases l
  {
    if l < f then {} else if l == 0 then {0} else Between(f, l - 1) + {l}
  }

  lemma {:induction false} BetweenMeans(f: nat, l: nat, y: nat)
    ensures y in Between(f, l) <==> f <= y <= l
    decreases l
  {
    if f <= l && l > 0 { BetweenMeans(f, l - 1, y); }
  }

  function SkipSpaces(s: string, i: nat): (j: nat)
    requires i <= |s|
    ensures i <= j <= |s| && (forall k :: i <= k < j ==> IsSpace(s[k])) && (j < |s| ==> !IsSpace(s[j]))
    decreases |s| - i
  {
    if i < |s| && IsSpace(s[i]) then SkipSpaces(s, i + 1) else i
  }

  predicate FourDigits(s: string, i: nat) {
    i + 4 <= |s| && IsDigit(s[i]) && IsDigit(s[i + 1]) && IsDigit(s[i + 2]) && IsDigit(s[i + 3])
  }

  /** The pattern of a range at the start of the text, two groups of four digits with a dash between: where the second one begins. */
  function MatchRange(s: string): Option<nat> {
    if !FourDigits(s, 0) then None
    else
      var i := SkipSpaces(s, 4);
      if i < |s| && s[i] == '-' && FourDigits(s, SkipSpaces(s, i + 1)) then Some(SkipSpaces(s, i + 1)) else None
  }

  ghost predicate AllSpace(s: string, i: nat, j: nat) { j <= |s| && forall k :: i <= k < j ==> IsSpace(s[k]) }

  ghost predicate DigitsAt(s: string, i: nat) { i + 4 <= |s| && forall k :: i <= k < i + 4 ==> IsDigit(s[k]) }

  /** The text begins with four digits, a dash at `i` and four digits from `j` on, with white space between. */
  ghost predicate IsRange(s: string, i: nat, j: nat) {
    && DigitsAt(s, 0) && 4 <= i < j && AllSpace(s, 4, i) && i < |s| && s[i] == '-' && AllSpace(s, i + 1, j) && DigitsAt(s, j)
  }

  lemma {:induction false} MatchMeans(s: string, j: nat)
    ensures MatchRange(s) == Some(j) <==> exists i: nat :: IsRange(s, i, j)
  {
    forall k: nat ensures FourDigits(s, k) <==> DigitsAt(s, k) { FourDigitsMean(s, k); }
    hide FourDigits;
    if MatchRange(s) == Some(j) {
      assert IsRange(s, SkipSpaces(s, 4), j);
    }
    forall i: nat | IsRange(s, i, j) ensures MatchRange(s) == Some(j) {
      SkipTo(s, 4, i);
      assert s[j] == s[j] && IsDigit(s[j]);
      SkipTo(s, i + 1, j);
    }
  }

  lemma FourDigitsMean(s: string, k: nat)
    ensures FourDigits(s, k) <==> DigitsAt(s, k)
  {
  }

  lemma SkipTo(s: string, i: nat, j: nat)
    requires i <= j < |s| && AllSpace(s, i, j) && !IsSpace(s[j])
    ensures SkipSpaces(s, i) == j
  {
    hide IsSpace;
  }

  /** What is read from a piece: a range, or else a number, or nothing. */
  lemma PieceYearsMean(s: string, y: nat)
    ensures forall i: nat, j: nat :: IsRange(s, i, j) ==>
              && Number(s[..4]).Some? && Number(s[j..j + 4]).Some?
              && (y in PieceYears(s) <==> Number(s[..4]).value <= y <= Number(s[j..j + 4]).value)
    ensures (forall i: nat, j: nat :: !IsRange(s, i, j)) ==> (y in PieceYears(s) <==> Number(s) == Some(y))
  {
    forall i: nat, j: nat | IsRange(s, i, j)
      ensures Number(s[..4]).Some? && Number(s[j..j + 4]).Some? && (y in PieceYears(s) <==> Number(s[..4]).value <= y <= Number(s[j..j + 4]).value)
    {
      MatchMeans(s, j);
      NumberMeans(s[..4]);
      NumberMeans(s[j..j + 4]);
      BetweenMeans(NumberOr(s[..4]), NumberOr(s[j..j + 4]), y);
      hide Between, MatchRange, Number;
    }
    if MatchRange(s).Some? {
      MatchMeans(s, MatchRange(s).value);
    }
  }

  function NumberOr(s: string): nat {
    var n := Number(s);
    if n.Some? then n.value else 0
  }

  /** The years of one comma-separated piece; a piece that is not understood has none. */
  function PieceYears(s: string): set<nat> {
    var at := MatchRange(s);
    if at.Some? && at.value + 4 <= |s| && |s| >= 4 then Between(NumberOr(s[..4]), NumberOr(s[at.value..at.value + 4]))
    else if Number(s).Some? then {Number(s).value}
    else {}
  }

  function Years(pieces: seq<string>, k: nat): set<nat>
    requires k <= |pieces|
  {
    if k == 0 then {} else Years(pieces, k - 1) + PieceYears(Strip(pieces[k - 1]))
  }

  lemma {:induction false} YearsMean(pieces: seq<string>, k: nat, y: nat)
    requires k <= |pieces|
    ensures y in Years(pieces, k) <==> exists i :: 0 <= i < k && y in PieceYears(Strip(pieces[i]))
  {
    hide PieceYears, Strip;
    if k > 0 { YearsMean(pieces, k - 1, y); }
  }

  lemma YearsOf(pieces: seq<string>)
    ensures forall y :: y in Years(pieces, |pieces|) <==> exists i :: 0 <= i < |pieces| && y in PieceYears(Strip(pieces[i]))
  {
    hide *;
    forall y: nat ensures y in Years(pieces, |pieces|) <==> exists i :: 0 <= i < |pieces| && y in PieceYears(Strip(pieces[i])) {
      YearsMean(pieces, |pieces|, y);
    }
  }

  /** `process_dates` */
  method ProcessDates(text: string) returns (output: set<nat>)
    ensures output == Years(Split(text, ','), |Split(text, ',')|)
    ensures forall y :: y in output <==> exists i :: 0 <= i < |Split(text, ',')| && y in PieceYears(Strip(Split(text, ',')[i]))
  {
    hide Split, Strip, MatchRange, NumberOr;
    var pieces := Split(text, ',');
    YearsOf(pieces);
    output := {};
    for k := 0 to |pieces|
      invariant output == Years(pieces, k)
    {
      var date := Strip(pieces[k]);
      var at := MatchRange(date);
      if at.Some? && at.value + 4 <= |date| && |date| >= 4 {
        var f, l := NumberOr(date[..4]), NumberOr(date[at.value..at.value + 4]);
        var before := output;
        var i := f;
        BetweenEmpty(f);
        while i <= l
          invariant f <= i && (i <= l + 1 || i == f)
          invariant output == before + if i == 0 then {} else Between(f, i - 1)
          decreases if i <= l then l - i + 1 else 0
        {
          BetweenNext(f, i);
          hide Between;
          output := output + {i};
          i := i + 1;
        }
        BetweenEnd(f, l, i);
      } else {
        var n := Number(date);
        if n.Some? {
          output := output + {n.value};
        }
      }
    }
  }

  lemma BetweenEmpty(f: nat)
    ensures f > 0 ==> Between(f, f - 1) == {}
  {
  }

  lemma BetweenNext(f: nat, i: nat)
    requires f <= i
    ensures Between(f, i) == (if i == 0 then {} else Between(f, i - 1)) + {i}
  {
  }

  lemma BetweenEnd(f: nat, l: nat, i: nat)
    requires f <= i && l < i && (i <= l + 1 || i == f)
    ensures Between(f, l) == if i == 0 then {} else Between(f, i - 1)
  {
  }

  // ----- the round trip -----

  /** A single year, or a run between years of four digits. */
  predicate Readable(r: Run) { r.first == r.last || (1000 <= r.first && r.last <= 9999) }

  lemma DecimalLength(n: nat)
    ensures |Decimal(n)| == 4 <==> 1000 <= n <= 9999
    ensures |Decimal(n)| < 4 <==> n < 1000
  {
    if n >= 10 {
      assert |Decimal(n)| == |Decimal(n / 10)| + 1;
      if n >= 100 {
        assert |Decimal(n / 10)| == |Decimal(n / 100)| + 1 by { assert n / 10 / 10 == n / 100; }
        if n >= 1000 {
          assert |Decimal(n / 100)| == |Decimal(n / 1000)| + 1 by { assert n / 100 / 10 == n / 1000; }
        }
      }
    }
  }

  lemma {:induction false} NumberNeedsDigits(s: string)
    requires Number(s).Some?
    ensures AllDigits(s)
  {
    if |s| > 1 { NumberNeedsDigits(s[..|s| - 1]); }
  }

  /** The first digits of a number are a smaller number. */
  lemma {:induction false} NumberOfPrefix(n: nat, k: nat)
    requires 1 <= k < |Decimal(n)|
    ensures Number(Decimal(n)[..k]).Some? && Number(Decimal(n)[..k]).value < n
  {
    var d := Decimal(n);
    assert d == Decimal(n / 10) + [Digit(n % 10)];
    if k == |d| - 1 {
      assert d[..k] == Decimal(n / 10);
      NumberOfDecimal(n / 10);
    } else {
      NumberOfPrefix(n / 10, k);
      assert d[..k] == Decimal(n / 10)[..k];
    }
  }

  /** A printed run has no comma and no space, and is not a number unless it is one year. */
  lemma PieceIsPlain(r: Run)
    ensures Lacks(PieceText(r), ',') && Strip(PieceText(r)) == PieceText(r)
    ensures r.first != r.last ==> Number(PieceText(r)).None?
  {
    NumberOfDecimal(r.first);
    NumberOfDecimal(r.last);
    var s := PieceText(r);
    hide Decimal, Number;
    assert r.first != r.last ==> s[|Decimal(r.first)|] == '-';
    if r.first != r.last && Number(s).Some? { NumberNeedsDigits(s); }
    assert forall i :: 0 <= i < |s| ==> IsDigit(s[i]) || s[i] == '-';
    StripOfLine(s);
  }

  lemma RangeMatches(a: string, b: string)
    requires AllDigits(a) && AllDigits(b) && |a| >= 1 && |b| >= 1
    ensures MatchRange(a + "-" + b) == if |a| == 4 && |b| >= 4 then Some(5) else None
  {
    var s := a + "-" + b;
    assert s[|a|] == '-' && forall i :: 0 <= i < |b| ==> s[|a| + 1 + i] == b[i];
    assert forall i :: 0 <= i < |a| ==> s[i] == a[i];
    if |a| > 4 {
      assert IsDigit(s[4]);
    } else if |a| == 4 && |b| > 0 {
      assert IsDigit(s[5]) && s[5] == b[0];
      assert |b| >= 4 ==> s[6] == b[1] && s[7] == b[2] && s[8] == b[3];
    }
  }

  lemma MatchOfDigits(a: string)
    requires AllDigits(a)
    ensures MatchRange(a).None?
  {
  }

  /** What is read from a printed run lies in the run, and is all of it exactly for readable ones. */
  lemma PieceRoundTripIff(r: Run)
    requires r.first <= r.last
    ensures forall y :: y in PieceYears(PieceText(r)) ==> InRun(r, y)
    ensures Readable(r) <==> forall y :: InRun(r, y) ==> y in PieceYears(PieceText(r))
    ensures !Readable(r) ==> r.last !in PieceYears(PieceText(r))
  {
    hide *;
    ReadableIs(r);
    if r.first == r.last {
      SingleYear(r);
    } else {
      PrintedRange(r);
      DecimalLength(r.first);
      DecimalLength(r.last);
      if |Decimal(r.first)| == 4 {
        var l := NumberOr(Decimal(r.last)[..4]);
        forall y: nat ensures y in Between(r.first, l) <==> r.first <= y <= l { BetweenMeans(r.first, l, y); }
        forall y: nat ensures InRun(r, y) <==> r.first <= y <= r.last { InRunIs(r, y); }
        assert InRun(r, r.last);
      } else {
        InRunIs(r, r.last);
      }
    }
  }

  lemma ReadableIs(r: Run)
    ensures Readable(r) <==> r.first == r.last || (1000 <= r.first && r.last <= 9999)
  {
  }

  lemma InRunIs(r: Run, y: nat)
    ensures InRun(r, y) <==> r.first <= y <= r.last
  {
  }

  lemma SingleYear(r: Run)
    requires r.first == r.last
    ensures PieceYears(PieceText(r)) == {r.first} && forall y: nat :: InRun(r, y) <==> y == r.first
  {
    NumberOfDecimal(r.first);
    MatchOfDigits(Decimal(r.first));
    hide Number, MatchRange, Decimal;
  }

  /** What is read from a printed range: four digits of the last year, if the first one has four. */
  lemma PrintedRange(r: Run)
    requires r.first < r.last
    ensures |Decimal(r.first)| == 4 ==> |Decimal(r.last)| >= 4
    ensures |Decimal(r.first)| == 4 ==>
              var l := NumberOr(Decimal(r.last)[..4]);
              PieceYears(PieceText(r)) == Between(r.first, l) && l <= r.last && (|Decimal(r.last)| > 4 ==> l < r.last) && (|Decimal(r.last)| == 4 ==> l == r.last)
    ensures |Decimal(r.first)| != 4 ==> PieceYears(PieceText(r)) == {}
  {
    var a, b, s := Decimal(r.first), Decimal(r.last), PieceText(r);
    NumberOfDecimal(r.first);
    NumberOfDecimal(r.last);
    PieceIsPlain(r);
    DecimalLength(r.first);
    DecimalLength(r.last);
    RangeMatches(a, b);
    assert s == a + "-" + b;
    if |a| == 4 {
      assert |b| >= 4 && s[..4] == a && s[5..9] == b[..4];
      if |b| > 4 { NumberOfPrefix(r.last, 4); } else { assert b[..4] == b; }
    }
    hide Number, MatchRange, Decimal, Between, PieceText;
  }

  /** Reading the printed years gives them back exactly if neighbouring years have four digits. */
  lemma DatesRoundTripIff(dates: seq<nat>)
    requires dates != [] && Increasing(dates)
    ensures var pieces := Split(Join(PieceTexts(Runs(dates)), ','), ',');
            (forall y :: y in Years(pieces, |pieces|) <==> y in dates) <==>
            forall y: nat :: y in dates && y + 1 in dates ==> 1000 <= y && y + 1 <= 9999
  {
    var runs := Runs(dates);
    var texts := PieceTexts(runs);
    RunsMean(dates);
    forall i | 0 <= i < |runs| ensures Lacks(texts[i], ',') && Strip(texts[i]) == texts[i] { PieceIsPlain(runs[i]); }
    SplitOfJoin(texts, ',');
    hide Runs, PieceTexts, Split, Join, Strip, PieceText, Collect, Lacks;
    ReadableIff(runs, dates);
    AllReadBackIff(runs, texts);
  }

  lemma ReadableIff(runs: seq<Run>, dates: seq<nat>)
    requires Separated(runs) && forall y :: Covers(runs, y) <==> y in dates
    ensures (forall i :: 0 <= i < |runs| ==> Readable(runs[i])) <==>
            forall y: nat :: y in dates && y + 1 in dates ==> 1000 <= y && y + 1 <= 9999
  {
    hide Separated, Covers;
    if forall i :: 0 <= i < |runs| ==> Readable(runs[i]) {
      forall y: nat | y in dates && y + 1 in dates ensures 1000 <= y && y + 1 <= 9999 {
        NeighboursShareRun(runs, y);
      }
    }
    if forall y: nat :: y in dates && y + 1 in dates ==> 1000 <= y && y + 1 <= 9999 {
      forall i | 0 <= i < |runs| ensures Readable(runs[i]) {
        RunIsCovered(runs, i);
        var f, l := runs[i].first, runs[i].last;
        assert f < l ==> f in dates && f + 1 in dates && l - 1 in dates && l in dates;
        assert f < l ==> l - 1 + 1 in dates;
      }
    }
  }

  lemma NeighboursShareRun(runs: seq<Run>, y: nat)
    requires Separated(runs) && Covers(runs, y) && Covers(runs, y + 1) && forall i :: 0 <= i < |runs| ==> Readable(runs[i])
    ensures 1000 <= y && y + 1 <= 9999
  {
    var i :| 0 <= i < |runs| && InRun(runs[i], y);
    var j :| 0 <= j < |runs| && InRun(runs[j], y + 1);
    assert Readable(runs[i]);
  }

  lemma RunIsCovered(runs: seq<Run>, i: nat)
    requires i < |runs| && Separated(runs)
    ensures var f, l := runs[i].first, runs[i].last;
            f <= l && (f < l ==> Covers(runs, f) && Covers(runs, f + 1) && Covers(runs, l - 1) && Covers(runs, l))
  {
    var f, l := runs[i].first, runs[i].last;
    if f < l { assert InRun(runs[i], f) && InRun(runs[i], f + 1) && InRun(runs[i], l - 1) && InRun(runs[i], l); }
  }

  lemma AllReadBackIff(runs: seq<Run>, texts: seq<string>)
    requires Separated(runs) && |texts| == |runs|
    requires forall i :: 0 <= i < |runs| ==> texts[i] == PieceText(runs[i]) && Strip(texts[i]) == texts[i]
    ensures (forall y :: y in Years(texts, |texts|) <==> Covers(runs, y)) <==> forall i :: 0 <= i < |runs| ==> Readable(runs[i])
  {
    hide PieceYears, PieceText, Strip, Readable, Years;
    forall y: nat ensures y in Years(texts, |texts|) <==> exists i :: 0 <= i < |texts| && y in PieceYears(texts[i]) {
      YearsMean(texts, |texts|, y);
    }
    forall i | 0 <= i < |runs|
      ensures forall y :: y in PieceYears(texts[i]) ==> InRun(runs[i], y)
      ensures Readable(runs[i]) <==> forall y :: InRun(runs[i], y) ==> y in PieceYears(texts[i])
      ensures !Readable(runs[i]) ==> runs[i].last !in PieceYears(texts[i])
    {
      PieceRoundTripIff(runs[i]);
    }
    if i :| 0 <= i < |runs| && !Readable(runs[i]) {
      var y := runs[i].last;
      assert InRun(runs[i], y);
      assert Covers(runs, y);
      forall j | 0 <= j < |texts| ensures y !in PieceYears(texts[j]) {
        assert j < i ==> runs[j].last + 1 < runs[i].first;
        assert i < j ==> runs[i].last + 1 < runs[j].first;
      }
    }
  }
}
