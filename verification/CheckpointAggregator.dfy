/**
 Merging checkpoints (util/checkpoint_aggregator.py, `aggregate`): the pages of all memories are
 concatenated, physical addresses are moved to the new place of their page, and the memory is padded.
 */
module CheckpointAggregator {
  import opened BitOps

  const Page := 4096

  /** What the merge looks at: the page count, the uncompressed memory, the `paddr` entries and the tick. */
  datatype Checkpoint = Checkpoint(pages: nat, memory: seq<byte>, paddrs: seq<int>, tick: int)

  datatype Merged = Merged(memory: seq<byte>, paddrs: seq<seq<int>>, pagePtr: nat, rangePages: nat, tick: int)

  // ----- where things go -----

  /** Pages of the first `i` checkpoints. */
  function Base(cpts: seq<Checkpoint>, i: nat): nat
    requires i <= |cpts|
  {
    if i == 0 then 0 else Base(cpts, i - 1) + cpts[i - 1].pages
  }

  function Relocated(cpts: seq<Checkpoint>, i: nat, paddr: int): int
    requires i <= |cpts|
  {
    paddr + Base(cpts, i) * Page
  }

  /** The bytes that are copied: as many pages as announced, or all there are. */
  function Copied(c: Checkpoint): seq<byte> {
    if |c.memory| < c.pages * Page then c.memory else c.memory[..c.pages * Page]
  }

  function Contents(cpts: seq<Checkpoint>, i: nat): seq<byte>
    requires i <= |cpts|
  {
    if i == 0 then [] else Contents(cpts, i - 1) + Copied(cpts[i - 1])
  }

  /** The memory holds all the pages its checkpoint announces. */
  predicate Full(c: Checkpoint) { |c.memory| >= c.pages * Page }

  // ----- relocation -----

  lemma {:induction false} BaseMonotone(cpts: seq<Checkpoint>, i: nat, j: nat)
    requires i < j <= |cpts|
    ensures Base(cpts, i) + cpts[i].pages <= Base(cpts, j)
  {
    if i + 1 < j { BaseMonotone(cpts, i, j - 1); }
  }

  /** Addresses of different checkpoints, or different addresses, never meet. */
  lemma RelocationIsInjective(cpts: seq<Checkpoint>, i: nat, a: int, j: nat, b: int)
    requires i < |cpts| && j < |cpts| && 0 <= a < cpts[i].pages * Page && 0 <= b < cpts[j].pages * Page
    requires Relocated(cpts, i, a) == Relocated(cpts, j, b)
    ensures i == j && a == b
  {
    if i < j {
      BaseMonotone(cpts, i, j);
    } else if j < i {
      BaseMonotone(cpts, j, i);
    }
  }

  /** The merged memory is never longer than the pages announced, and as long only if all are there. */
  lemma {:induction false} ContentsLength(cpts: seq<Checkpoint>, i: nat)
    requires i <= |cpts|
    ensures |Contents(cpts, i)| <= Base(cpts, i) * Page
    ensures |Contents(cpts, i)| == Base(cpts, i) * Page <==> forall j :: 0 <= j < i ==> Full(cpts[j])
  {
    if i > 0 { ContentsLength(cpts, i - 1); }
  }

  /** The byte at address `a` of checkpoint `i` lies behind the contents before it. */
  lemma {:induction false} ByteIsKept(cpts: seq<Checkpoint>, n: nat, i: nat, a: nat)
    requires i < n <= |cpts| && a < |Copied(cpts[i])| && a < |cpts[i].memory|
    ensures |Contents(cpts, i)| + a < |Contents(cpts, n)| && Contents(cpts, n)[|Contents(cpts, i)| + a] == cpts[i].memory[a]
  {
    hide *;
    ContentsStep(cpts, n);
    CopiedByte(cpts[i], a);
    if i < n - 1 { ByteIsKept(cpts, n - 1, i, a); }
  }

  lemma ContentsStep(cpts: seq<Checkpoint>, n: nat)
    requires 0 < n <= |cpts|
    ensures Contents(cpts, n) == Contents(cpts, n - 1) + Copied(cpts[n - 1])
  {
  }

  lemma CopiedByte(c: Checkpoint, a: nat)
    requires a < |Copied(c)|
    ensures a < |c.memory| && Copied(c)[a] == c.memory[a]
  {
  }

  ghost predicate AllFull(cpts: seq<Checkpoint>, i: nat)
    requires i <= |cpts|
  {
    forall j :: 0 <= j < i ==> Full(cpts[j])
  }

  /** A relocated address is the place of its byte exactly when the memories of all checkpoints before are full. */
  lemma RelocationIsPlaceIff(cpts: seq<Checkpoint>, i: nat, a: nat)
    requires i < |cpts|
    ensures Relocated(cpts, i, a) == |Contents(cpts, i)| + a <==> AllFull(cpts, i)
  {
    ContentsLength(cpts, i);
    hide Contents, Base, Full;
  }

  /** The merged memory has at the relocated address what the checkpoint had at the address. */
  ghost predicate FindsByte(cpts: seq<Checkpoint>, i: nat, a: nat) {
    i < |cpts| && a < |cpts[i].memory| &&
    var at := Relocated(cpts, i, a);
    0 <= at < |Contents(cpts, |cpts|)| && Contents(cpts, |cpts|)[at] == cpts[i].memory[a]
  }

  /** The same checkpoints up to the bytes in their memories. */
  ghost predicate SameSizes(cpts: seq<Checkpoint>, other: seq<Checkpoint>) {
    |cpts| == |other| && forall j :: 0 <= j < |cpts| ==> other[j].pages == cpts[j].pages && |other[j].memory| == |cpts[j].memory|
  }

  lemma {:induction false} SizesDecide(cpts: seq<Checkpoint>, other: seq<Checkpoint>, i: nat)
    requires SameSizes(cpts, other) && i <= |cpts|
    ensures Base(cpts, i) == Base(other, i) && |Contents(cpts, i)| == |Contents(other, i)| && (AllFull(cpts, i) <==> AllFull(other, i))
  {
    if i > 0 { SizesDecide(cpts, other, i - 1); }
  }

  lemma FullFindsByte(cpts: seq<Checkpoint>, i: nat, a: nat)
    requires i < |cpts| && a < |Copied(cpts[i])| && AllFull(cpts, i)
    ensures FindsByte(cpts, i, a)
  {
    RelocationIsPlaceIff(cpts, i, a);
    hide Contents, Relocated, AllFull;
    ByteIsKept(cpts, |cpts|, i, a);
  }

  /** Memories of zeros, but for one byte. */
  ghost predicate OneByte(cpts: seq<Checkpoint>, i: nat, a: nat) {
    forall j, x :: 0 <= j < |cpts| && 0 <= x < |cpts[j].memory| ==> cpts[j].memory[x] == if j == i && x == a then 1 else 0
  }

  lemma {:induction false} OneByteIsAlone(cpts: seq<Checkpoint>, n: nat, i: nat, a: nat, k: nat)
    requires OneByte(cpts, i, a) && n <= |cpts| && i < |cpts| && k < |Contents(cpts, n)| && Contents(cpts, n)[k] != 0
    ensures k == |Contents(cpts, i)| + a
  {
    assert n > 0;
    var before, last := Contents(cpts, n - 1), Copied(cpts[n - 1]);
    ContentsStep(cpts, n);
    hide Contents, Copied;
    if k < |before| {
      OneByteIsAlone(cpts, n - 1, i, a, k);
    } else {
      CopiedByte(cpts[n - 1], k - |before|);
    }
  }

  function Byte(j: nat, x: nat, i: nat, a: nat): byte { if j == i && x == a then 1 else 0 }

  function WithOneByte(cpts: seq<Checkpoint>, i: nat, a: nat): seq<Checkpoint> {
    seq(|cpts|, j requires 0 <= j < |cpts| => cpts[j].(memory := seq(|cpts[j].memory|, x requires 0 <= x => Byte(j, x, i, a))))
  }

  /** A short memory moves everything behind it: there are contents for which the address is wrong. */
  lemma ShortLosesByte(cpts: seq<Checkpoint>, i: nat, a: nat)
    requires i < |cpts| && a < |Copied(cpts[i])| && !AllFull(cpts, i)
    ensures SameSizes(cpts, WithOneByte(cpts, i, a)) && !FindsByte(WithOneByte(cpts, i, a), i, a)
  {
    var other := WithOneByte(cpts, i, a);
    assert OneByte(other, i, a) && other[i].memory[a] == 1;
    assert SameSizes(cpts, other);
    SizesDecide(cpts, other, i);
    RelocationIsPlaceIff(other, i, a);
    var at := Relocated(other, i, a);
    hide Contents, Relocated, AllFull, WithOneByte, Base, OneByte;
    if FindsByte(other, i, a) { OneByteIsAlone(other, |other|, i, a, at); }
  }

  /**
   A relocated address finds the byte of its checkpoint, whatever the memories contain, if and only if the
   memories of all checkpoints before it are full.
   */
  lemma RelocationFindsByteIff(cpts: seq<Checkpoint>, i: nat, a: nat)
    requires i < |cpts| && a < |Copied(cpts[i])|
    ensures (forall other :: SameSizes(cpts, other) ==> FindsByte(other, i, a)) <==> AllFull(cpts, i)
  {
    hide AllFull, FindsByte, Copied;
    if AllFull(cpts, i) {
      forall other | SameSizes(cpts, other) ensures FindsByte(other, i, a) {
        SizesDecide(cpts, other, i);
        CopiedSize(cpts[i], other[i]);
        FullFindsByte(other, i, a);
      }
    } else {
      ShortLosesByte(cpts, i, a);
    }
  }

  lemma CopiedSize(c: Checkpoint, d: Checkpoint)
    requires c.pages == d.pages && |c.memory| == |d.memory|
    ensures |Copied(c)| == |Copied(d)| <= |d.memory|
  {
  }

  // ----- the merge -----

  function MaxTick(cpts: seq<Checkpoint>, i: nat): int
    requires i <= |cpts|
  {
    if i == 0 then 0 else if cpts[i - 1].tick > MaxTick(cpts, i - 1) then cpts[i - 1].tick else MaxTick(cpts, i - 1)
  }

  lemma {:induction false} MaxTickMeans(cpts: seq<Checkpoint>, i: nat)
    requires i <= |cpts|
    ensures MaxTick(cpts, i) >= 0 && forall j :: 0 <= j < i ==> cpts[j].tick <= MaxTick(cpts, i)
    ensures MaxTick(cpts, i) == 0 || exists j :: 0 <= j < i && cpts[j].tick == MaxTick(cpts, i)
  {
    if i > 0 { MaxTickMeans(cpts, i - 1); }
  }

  /** Every address of one checkpoint, moved by the pages before it; the page number is shifted by twelve. */
  method RelocateAll(paddrs: seq<int>, base: nat) returns (out: seq<int>)
    ensures |out| == |paddrs| && forall k :: 0 <= k < |out| ==> out[k] == paddrs[k] + base * Page
  {
    out := [];
    assert Pow2(12) == Page by { assert Pow2(4) == 16 && Pow2(8) == 256 && Pow2(12) == 4096; }
    for k := 0 to |paddrs|
      invariant |out| == k && forall j :: 0 <= j < k ==> out[j] == paddrs[j] + base * Page
    {
      out := out + [paddrs[k] + ShiftLeft(base, 12)];
    }
  }

  /** The copy loop: one page at a time, a short read at the end of the file, then empty ones. */
  method CopyPages(memory: seq<byte>, pages: nat, merged: seq<byte>) returns (out: seq<byte>)
    ensures out == merged + Copied(Checkpoint(pages, memory, [], 0))
  {
    out := merged;
    var at := 0;
    for x := 0 to pages
      invariant at == if |memory| < x * Page then |memory| else x * Page
      invariant out == merged + memory[..at]
    {
      var end := if at + Page < |memory| then at + Page else |memory|;
      assert memory[..end] == memory[..at] + memory[at..end];
      out := out + memory[at..end];
      at := end;
    }
  }

  /** The loop over the checkpoints. */
  method MergeAll(cpts: seq<Checkpoint>) returns (memory: seq<byte>, paddrs: seq<seq<int>>, pagePtr: nat, tick: int)
    ensures pagePtr == Base(cpts, |cpts|) && tick == MaxTick(cpts, |cpts|) && memory == Contents(cpts, |cpts|) && |paddrs| == |cpts|
    ensures forall i :: 0 <= i < |cpts| ==> IsMoved(cpts, i, paddrs[i])
  {
    memory, paddrs, pagePtr, tick := [], [], 0, 0;
    for i := 0 to |cpts|
      invariant pagePtr == Base(cpts, i) && tick == MaxTick(cpts, i) && memory == Contents(cpts, i) && |paddrs| == i
      invariant forall j :: 0 <= j < i ==> IsMoved(cpts, j, paddrs[j])
    {
      var moved := RelocateAll(cpts[i].paddrs, pagePtr);
      assert IsMoved(cpts, i, moved);
      if cpts[i].tick > tick {
        tick := cpts[i].tick;
      }
      hide IsMoved;
      memory := CopyPages(cpts[i].memory, cpts[i].pages, memory);
      pagePtr := pagePtr + cpts[i].pages;
      paddrs := paddrs + [moved];
    }
  }

  ghost predicate IsMoved(cpts: seq<Checkpoint>, i: nat, moved: seq<int>)
    requires i < |cpts|
  {
    |moved| == |cpts[i].paddrs| && forall k :: 0 <= k < |moved| ==> moved[k] == Relocated(cpts, i, cpts[i].paddrs[k])
  }

  /** Padding, one page at a time, until the wanted size is reached. */
  method Pad(memory: seq<byte>, pagePtr: nat, memorySize: int, padding: seq<byte>) returns (out: seq<byte>, pages: nat)
    requires |padding| == Page
    ensures pages >= pagePtr && pages * Page >= memorySize && (pages > pagePtr ==> (pages - 1) * Page < memorySize)
    ensures |out| == |memory| + (pages - pagePtr) * Page && out[..|memory|] == memory
  {
    out, pages := memory, pagePtr;
    var fileSize := pagePtr * Page;
    while fileSize < memorySize
      invariant fileSize == pages * Page && pages >= pagePtr
      invariant pages > pagePtr ==> (pages - 1) * Page < memorySize
      invariant |out| == |memory| + (pages - pagePtr) * Page && out[..|memory|] == memory
      decreases memorySize - fileSize
    {
      out := out + padding;
      fileSize, pages := fileSize + Page, pages + 1;
    }
  }

  /** `aggregate` */
  method Aggregate(cpts: seq<Checkpoint>, memorySize: int, padding: seq<byte>) returns (m: Merged)
    requires |padding| == Page
    ensures m.pagePtr == Base(cpts, |cpts|) && m.tick == MaxTick(cpts, |cpts|) && |m.paddrs| == |cpts|
    ensures forall i :: 0 <= i < |cpts| ==> IsMoved(cpts, i, m.paddrs[i])
    ensures Contents(cpts, |cpts|) <= m.memory
    ensures m.rangePages >= m.pagePtr && m.rangePages * Page >= memorySize
    ensures m.rangePages > m.pagePtr ==> (m.rangePages - 1) * Page < memorySize
    ensures |m.memory| == m.rangePages * Page <==> forall j :: 0 <= j < |cpts| ==> Full(cpts[j])
  {
    hide IsMoved, Contents, Copied, Base, MaxTick, Full;
    var memory, paddrs, pagePtr, tick := MergeAll(cpts);
    ContentsLength(cpts, |cpts|);
    var out, pages := Pad(memory, pagePtr, memorySize, padding);
    m := Merged(out, paddrs, pagePtr, pages, tick);
  }
}
