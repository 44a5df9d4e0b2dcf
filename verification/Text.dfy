/** Decimal numbers, white space, dictionary order, and splitting and joining of strings, as the scripts use them. */
module Text {
  import opened Wrappers

  // ----- decimal numbers -----

  predicate IsDigit(c: char) { '0' <= c <= '9' }

  function Digit(d: int): (c: char)
    requires 0 <= d < 10
    ensures IsDigit(c) && c as int - '0' as int == d
  {
    (d + '0' as int) as char
  }

  function Decimal(n: nat): (s: string) {
    if n < 10 then [Digit(n)] else Decimal(n / 10) + [Digit(n % 10)]
  }

  /** `int(s)`, for digits only. */
  function Number(s: string): Option<nat> {
    if s == "" then None
    else if !IsDigit(s[|s| - 1]) then None
    else
      var d: nat := s[|s| - 1] as int - '0' as int;
      if |s| == 1 then Some(d)
      else match Number(s[..|s| - 1])
        case None => None
        case Some(n) => Some(10 * n + d)
  }

  ghost predicate AllDigits(s: string) { forall i :: 0 <= i < |s| ==> IsDigit(s[i]) }

  lemma {:induction false} NumberOfDecimal(n: nat)
    ensures Number(Decimal(n)) == Some(n) && Decimal(n) != "" && AllDigits(Decimal(n))
  {
    if n >= 10 {
      NumberOfDecimal(n / 10);
      assert Decimal(n)[..|Decimal(n)| - 1] == Decimal(n / 10);
    }
  }

  function Pow10(k: nat): nat { if k == 0 then 1 else 10 * Pow10(k - 1) }

  /** The value of a numeral, digit by digit from the left. */
  ghost function Positional(s: string): int {
    if s == "" then 0 else (s[0] as int - '0' as int) * Pow10(|s| - 1) + Positional(s[1..])
  }

  lemma {:induction false} PositionalMore(s: string, c: char)
    ensures Positional(s + [c]) == 10 * Positional(s) + (c as int - '0' as int)
  {
    if s != "" {
      PositionalMore(s[1..], c);
      var d, p := s[0] as int - '0' as int, Pow10(|s| - 1);
      assert (s + [c])[1..] == s[1..] + [c];
      assert Pow10(|s|) == 10 * p;
      assert d * (10 * p) == 10 * (d * p);
    } else {
      assert s + [c] == [c];
      assert Positional([c]) == (c as int - '0' as int) * Pow10(0) + Positional([]);
    }
  }

  /** Numbers are read from exactly the non-empty sequences of digits, with the first digit counting most. */
  lemma {:induction false} NumberMeans(s: string)
    ensures Number(s).Some? <==> s != "" && AllDigits(s)
    ensures Number(s).Some? ==> Number(s).value == Positional(s)
  {
    if s != "" {
      var init, c := s[..|s| - 1], s[|s| - 1];
      assert s == init + [c];
      PositionalMore(init, c);
      if init != "" { NumberMeans(init); }
    }
  }

  /** No number but 0 is printed with a leading zero. */
  lemma {:induction false} NoLeadingZero(n: nat)
    ensures Decimal(n) != "" && (Decimal(n)[0] == '0' ==> n == 0)
  {
    if n >= 10 { NoLeadingZero(n / 10); }
  }

  // ----- text -----

  predicate IsSpace(c: char) { c == ' ' || '\t' <= c <= '\r' }

  function StripRight(s: string): string {
    if s != "" && IsSpace(s[|s| - 1]) then StripRight(s[..|s| - 1]) else s
  }

  function StripLeft(s: string): string {
    if s != "" && IsSpace(s[0]) then StripLeft(s[1..]) else s
  }

  function Strip(s: string): string { StripLeft(StripRight(s)) }

  function Split(s: string, sep: char): (parts: seq<string>)
    ensures |parts| >= 1
  {
    if s == "" then [""]
    else
      var rest := Split(s[1..], sep);
      if s[0] == sep then [""] + rest else [[s[0]] + rest[0]] + rest[1..]
  }

  function Join(parts: seq<string>, sep: char): string
    requires |parts| >= 1
  {
    if |parts| == 1 then parts[0] else parts[0] + [sep] + Join(parts[1..], sep)
  }

  ghost predicate Lacks(s: string, sep: char) { sep !in s }

  /** Text without a separator only lengthens the first part. */
  lemma {:induction false} SplitOfPrefix(part: string, t: string, sep: char)
    requires Lacks(part, sep)
    ensures Split(part + t, sep) == [part + Split(t, sep)[0]] + Split(t, sep)[1..]
  {
    if part == "" {
      assert part + t == t;
      assert "" + Split(t, sep)[0] == Split(t, sep)[0];
    } else {
      var tail := part[1..];
      assert part == [part[0]] + tail;
      SplitOfPrefix(tail, t, sep);
      assert (part + t)[1..] == tail + t && (part + t)[0] == part[0];
      assert [part[0]] + (tail + Split(t, sep)[0]) == part + Split(t, sep)[0];
    }
  }

  lemma SplitFirst(part: string, t: string, sep: char)
    requires Lacks(part, sep)
    ensures Split(part, sep) == [part]
    ensures Split(part + [sep] + t, sep) == [part] + Split(t, sep)
  {
    SplitOfPrefix(part, "", sep);
    assert part + "" == part;
    SplitOfPrefix(part, [sep] + t, sep);
    assert part + [sep] + t == part + ([sep] + t) && ([sep] + t)[1..] == t;
  }

  lemma {:induction false} SplitOfJoin(parts: seq<string>, sep: char)
    requires |parts| >= 1 && forall i :: 0 <= i < |parts| ==> Lacks(parts[i], sep)
    ensures Split(Join(parts, sep), sep) == parts
  {
    if |parts| == 1 {
      SplitFirst(parts[0], "", sep);
    } else {
      SplitOfJoin(parts[1..], sep);
      SplitFirst(parts[0], Join(parts[1..], sep), sep);
    }
  }

  /** A line that neither starts nor ends with white space. */
  lemma StripOfLine(s: string)
    requires s != "" ==> !IsSpace(s[0]) && !IsSpace(s[|s| - 1])
    ensures Strip(s) == s && Strip(s + "\n") == s
  {
    assert (s + "\n")[..|s|] == s;
  }

  lemma IsSpaceMeans(c: char)
    ensures IsSpace(c) <==> c in [' ', '\t', '\n', '\U{000b}', '\U{000c}', '\r']
  {
  }

  /** White space is removed at both ends, all of it, and nothing else. */
  lemma {:induction false} StripMeans(s: string) returns (a: nat, b: nat)
    ensures a <= b <= |s| && Strip(s) == s[a..b]
    ensures (forall i :: 0 <= i < a ==> IsSpace(s[i])) && forall i :: b <= i < |s| ==> IsSpace(s[i])
    ensures a < b ==> !IsSpace(s[a]) && !IsSpace(s[b - 1])
  {
    hide *;
    b := StripRightMeans(s);
    var t := s[..b];
    a := StripLeftMeans(t);
    StripIs(s);
    assert t[a..] == s[a..b];
    assert forall i :: 0 <= i < b ==> t[i] == s[i];
  }

  lemma StripIs(s: string)
    ensures Strip(s) == StripLeft(StripRight(s))
  {
    hide StripLeft, StripRight;
  }

  lemma {:induction false} StripRightMeans(s: string) returns (b: nat)
    ensures b <= |s| && StripRight(s) == s[..b]
    ensures (forall i :: b <= i < |s| ==> IsSpace(s[i])) && (b > 0 ==> !IsSpace(s[b - 1]))
  {
    hide IsSpace;
    if s != "" && IsSpace(s[|s| - 1]) {
      b := StripRightMeans(s[..|s| - 1]);
    } else {
      b := |s|;
      assert s[..b] == s;
    }
  }

  lemma {:induction false} StripLeftMeans(s: string) returns (a: nat)
    ensures a <= |s| && StripLeft(s) == s[a..]
    ensures (forall i :: 0 <= i < a ==> IsSpace(s[i])) && (a < |s| ==> !IsSpace(s[a]))
  {
    hide IsSpace;
    if s != "" && IsSpace(s[0]) {
      var rest := s[1..];
      var k := StripLeftMeans(rest);
      a := k + 1;
      assert forall i :: 0 < i < |s| ==> s[i] == rest[i - 1];
    } else {
      a := 0;
    }
  }

  /** The parts hold no separator, and joined by it they are the text again. */
  lemma {:induction false} JoinOfSplit(s: string, sep: char)
    ensures Join(Split(s, sep), sep) == s && forall i :: 0 <= i < |Split(s, sep)| ==> Lacks(Split(s, sep)[i], sep)
  {
    if s != "" {
      JoinOfSplit(s[1..], sep);
      var rest, parts := Split(s[1..], sep), Split(s, sep);
      assert s == [s[0]] + s[1..];
      if s[0] == sep {
        assert parts[0] == "" && parts[1..] == rest;
      } else {
        assert parts[0] == [s[0]] + rest[0] && parts[1..] == rest[1..];
        assert forall i :: 1 <= i < |parts| ==> parts[i] == rest[i];
        assert Lacks(rest[0], sep);
      }
    }
  }

  // ----- dictionary order -----

  predicate StringLess(a: string, b: string) {
    b != [] && (a == [] || a[0] < b[0] || (a[0] == b[0] && StringLess(a[1..], b[1..])))
  }

  /** Position `k` decides: everything before it is the same, and there `a` ends or has the smaller character. */
  ghost predicate SmallerAt(a: string, b: string, k: nat) {
    k <= |a| && k < |b| && a[..k] == b[..k] && (k == |a| || a[k] < b[k])
  }

  lemma SameStart(a: string, b: string, k: nat)
    requires SmallerAt(a, b, k)
    ensures k > 0 ==> a[0] == b[0]
  {
    if k > 0 { assert a[..k][0] == b[..k][0]; }
  }

  lemma {:induction false} StringLessMeans(a: string, b: string)
    ensures StringLess(a, b) <==> exists k: nat :: SmallerAt(a, b, k)
  {
    if a == [] {
      if b != [] { assert SmallerAt(a, b, 0); }
    } else if b != [] && a[0] == b[0] {
      StringLessMeans(a[1..], b[1..]);
      forall k: nat | SmallerAt(a[1..], b[1..], k) ensures SmallerAt(a, b, k + 1) {
        assert a[..k + 1] == [a[0]] + a[1..][..k] && b[..k + 1] == [b[0]] + b[1..][..k];
      }
      forall k: nat | SmallerAt(a, b, k) ensures k > 0 && SmallerAt(a[1..], b[1..], k - 1) {
        assert a[1..][..k - 1] == a[..k][1..] && b[1..][..k - 1] == b[..k][1..];
      }
    } else if b != [] {
      forall k: nat | SmallerAt(a, b, k) ensures k == 0 { SameStart(a, b, k); }
      if a[0] < b[0] { assert SmallerAt(a, b, 0); }
    }
  }

  lemma {:induction false} StringsCompare(a: string, b: string)
    ensures StringLess(a, b) ==> a != b && !StringLess(b, a)
    ensures a != b ==> StringLess(a, b) || StringLess(b, a)
  {
    if a != [] && b != [] && a[0] == b[0] {
      StringsCompare(a[1..], b[1..]);
      assert a == [a[0]] + a[1..] && b == [b[0]] + b[1..];
    }
  }
}
