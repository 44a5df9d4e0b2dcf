/**
 The circular line buffer of util/logroll.py. Whenever a loop is at its head, a dump shows the last
 lines read, in the order they came.
 */
module LogRoll {
  /** The last `n` elements, or all if there are fewer. */
  function LastOf<T>(s: seq<T>, n: int): seq<T> {
    if 1 <= n < |s| then s[|s| - n..] else s
  }

  /** With a positive size they are as many as fit, and the latest; without one they are all. */
  lemma LastOfMeans<T>(s: seq<T>, n: int)
    ensures |LastOf(s, n)| == if n <= 0 || |s| <= n then |s| else n
    ensures forall i :: 0 <= i < |LastOf(s, n)| ==> LastOf(s, n)[i] == s[|s| - |LastOf(s, n)| + i]
  {
  }

  class Buffer {
    const target: int
    var lines: seq<string>
    var idx: nat
    /** Everything read so far. */
    ghost var seen: seq<string>

    /** Not yet full, or full and turning; without a positive size it only grows. */
    ghost predicate Valid() reads this {
      && idx <= |lines|
      && (target >= 1 ==> |lines| <= target && (|lines| < target ==> idx == |lines|) && (|lines| == target ==> idx < target))
      && (target < 1 ==> idx == |lines|)
      && Shown() == LastOf(seen, target)
      && (|lines| != target ==> lines == seen)
    }

    ghost function Shown(): seq<string>
      reads this
      requires idx <= |lines|
    {
      lines[idx..] + lines[..idx]
    }

    constructor (target: int)
      ensures Valid() && seen == [] && this.target == target
    {
      this.target := target;
      lines, idx, seen := [], 0, [];
    }

    /** `dump_lines` */
    method DumpLines() returns (out: seq<string>)
      requires Valid()
      ensures out == LastOf(seen, target)
    {
      out := [];
      for k := idx to |lines|
        invariant out == lines[idx..k]
      {
        out := out + [lines[k]];
      }
      ghost var tail := out;
      for k := 0 to idx
        invariant out == tail + lines[..k]
      {
        out := out + [lines[k]];
      }
    }

    /** The first loop: append until the buffer is full; the number of lines taken. */
    method Fill(incoming: seq<string>) returns (taken: nat)
      requires Valid() && lines == [] && seen == []
      modifies this
      ensures Valid() && taken <= |incoming| && seen == incoming[..taken] && |lines| == taken
      ensures taken < |incoming| ==> target >= 1 && |lines| == target
    {
      taken := 0;
      while taken < |incoming|
        invariant taken <= |incoming| && Valid() && lines == seen == incoming[..taken] && idx == |lines|
        invariant target >= 1 ==> |lines| < target
      {
        lines, seen := lines + [incoming[taken]], seen + [incoming[taken]];
        taken := taken + 1;
        if idx == target - 1 {
          idx := 0;
          return;
        }
        idx := idx + 1;
      }
    }

    /** The second loop: overwrite the oldest line. */
    method Roll(incoming: seq<string>)
      requires Valid() && (incoming != [] ==> target >= 1 && |lines| == target)
      modifies this
      ensures Valid() && seen == old(seen) + incoming
    {
      for k := 0 to |incoming|
        invariant Valid() && seen == old(seen) + incoming[..k] && (incoming != [] ==> |lines| == target)
      {
        Overwrite(incoming[k]);
        assert incoming[..k + 1] == incoming[..k] + [incoming[k]];
      }
      assert incoming[..|incoming|] == incoming;
    }

    method Overwrite(line: string)
      requires Valid() && target >= 1 && |lines| == target
      modifies this
      ensures Valid() && |lines| == target && seen == old(seen) + [line]
    {
      ghost var shown := Shown();
      lines := lines[idx := line];
      idx := if idx == target - 1 then 0 else idx + 1;
      assert Shown() == shown[1..] + [line];
      seen := seen + [line];
    }

    /** `main` */
    method Process(incoming: seq<string>) returns (out: seq<string>)
      requires Valid() && lines == [] && seen == []
      modifies this
      ensures out == LastOf(incoming, target)
    {
      var taken := Fill(incoming);
      Roll(incoming[taken..]);
      assert incoming[..taken] + incoming[taken..] == incoming;
      out := DumpLines();
    }
  }
}
