/**
 Length-prefixed messages of util/protolib.py: the varint reader and writer, message framing and
 the read-until-False loop of the trace decoders. A message is its serialised bytes.
 */
module VarintFraming {
  import opened BitOps

  type bytes = seq<byte>

  datatype Varint = Value(result: int, pos: nat) | EndOfFile | TooManyBytes

  /** What one call of `decodeMessage` comes to: BadSize stands for the ValueError of `read`, which it does not catch. */
  datatype Decoded = Message(buf: bytes) | NoMessage | BadSize

  /** The messages of a loop of such calls, and whether the error ended it. */
  datatype Reading = Reading(ms: seq<bytes>, raised: bool)

  // ----- base 128 varints -----

  function Encode(v: nat): bytes {
    if v < 128 then [v] else [128 + v % 128] + Encode(v / 128)
  }

  /** The number written by groups of seven bits, least significant first. */
  function Raw(s: bytes): nat {
    if s == [] then 0 else s[0] % 128 + 128 * Raw(s[1..])
  }

  /** How many bytes at the front announce another one. */
  function Continuations(s: bytes): (n: nat)
    ensures n <= |s| && (forall i :: 0 <= i < n ==> s[i] >= 128) && (n < |s| ==> s[n] < 128)
  {
    if s == [] || s[0] < 128 then 0 else 1 + Continuations(s[1..])
  }

  /** Truncation to 32 bits: a number of 64 bits or more with bit 63 set is taken for a negative one. */
  function Truncated(raw: nat): int {
    if raw > Pow2(63) - 1 then raw % Pow2(32) - Pow2(32) else raw % Pow2(32)
  }

  function Decode(s: bytes): Varint {
    var n := Continuations(s);
    if n >= 10 then TooManyBytes
    else if n == |s| then EndOfFile
    else Value(Truncated(Raw(s[..n + 1])), n + 1)
  }

  /** What is left of the file after reading a varint. */
  function AfterVarint(s: bytes): (rest: bytes) {
    match Decode(s)
    case Value(_, pos) => if pos <= |s| then s[pos..] else []
    case EndOfFile => []
    case TooManyBytes => if |s| >= 10 then s[10..] else []
  }

  lemma ContinuationsUnique(s: bytes, n: nat)
    requires n <= |s| && (forall i :: 0 <= i < n ==> s[i] >= 128) && (n < |s| ==> s[n] < 128)
    ensures Continuations(s) == n
  {
  }

  /** Appending a byte adds its seven bits above all the others. */
  lemma {:induction false} RawOfAppend(s: bytes, b: byte)
    ensures Raw(s + [b]) == Raw(s) + ShiftLeft(b % 128, 7 * |s|)
    ensures Raw(s) < Pow2(7 * |s|)
  {
    if s != [] {
      hide *;
      RawOfAppend(s[1..], b);
      assert (s + [b])[1..] == s[1..] + [b];
      RawStep(s);
      RawStep(s + [b]);
      PowSeven(7 * |s| - 7);
      ShiftSeven(b % 128, 7 * |s| - 7);
    } else {
      assert s + [b] == [b] && [b][1..] == [];
    }
  }

  lemma RawStep(s: bytes)
    requires s != []
    ensures Raw(s) == s[0] % 128 + 128 * Raw(s[1..])
  {
  }

  lemma ShiftSeven(x: nat, k: nat)
    ensures ShiftLeft(x, k + 7) == 128 * ShiftLeft(x, k)
  {
    PowSeven(k);
    var p := Pow2(k);
    hide Pow2;
    assert x * (128 * p) == 128 * (x * p);
  }

  lemma PowSeven(k: nat)
    ensures Pow2(k + 7) == 128 * Pow2(k)
  {
    PowTwo(k);
    PowTwo(k + 2);
    PowTwo(k + 4);
    assert Pow2(k + 7) == 2 * Pow2(k + 6);
    hide Pow2;
  }

  lemma PowTwo(k: nat)
    ensures Pow2(k + 2) == 4 * Pow2(k)
  {
    assert Pow2(k + 2) == 2 * Pow2(k + 1);
  }

  /** Encoding writes all its bytes but the last with the continuation bit, and writes the number. */
  lemma {:induction false} EncodeMeans(v: nat, rest: bytes)
    ensures var n := |Encode(v)|; n >= 1 && Continuations(Encode(v) + rest) == n - 1 && Raw(Encode(v)) == v
  {
    var s := Encode(v);
    if v >= 128 {
      EncodeMeans(v / 128, rest);
      assert s[1..] == Encode(v / 128);
      assert (s + rest)[1..] == Encode(v / 128) + rest;
    } else {
      assert s[1..] == [];
    }
  }

  lemma DivideTwice(v: nat, p: nat)
    requires p > 0
    ensures v / 128 / p == v / (128 * p)
  {
    var a := v / 128;
    var q, r := a / p, a % p;
    assert a == q * p + r;
    var m := 128 * p;
    assert q * m == 128 * (q * p);
    assert q * m <= v < q * m + m;
    QuotientIs(v, m, q);
  }

  lemma QuotientIs(v: nat, m: nat, q: nat)
    requires m > 0 && q * m <= v < q * m + m
    ensures v / m == q
  {
    var d := v / m - q;
    assert v == v / m * m + v % m;
    assert d * m == v / m * m - q * m;
    assert d >= 1 ==> d * m >= m;
    assert d <= -1 ==> d * m + m <= 0;
  }

  /** Byte `k` holds bits 7k to 7k + 6 of the number, and its top bit announces another byte. */
  lemma {:induction false} EncodedByte(v: nat, k: nat)
    requires k < |Encode(v)|
    ensures Encode(v)[k] == v / Pow2(7 * k) % 128 + if k + 1 < |Encode(v)| then 128 else 0
  {
    if k > 0 {
      EncodedByte(v / 128, k - 1);
      PowSeven(7 * k - 7);
      DivideTwice(v, Pow2(7 * k - 7));
      hide Pow2;
    }
  }

  /** The encoding of `v` has the fewest groups that hold it. */
  lemma {:induction false} EncodeLength(v: nat, n: nat)
    ensures |Encode(v)| <= n + 1 <==> v < Pow2(7 * (n + 1))
  {
    PowSeven(7 * n);
    if v >= 128 {
      if n > 0 {
        EncodeLength(v / 128, n - 1);
      } else {
        assert Pow2(7) == 128 by { PowSeven(0); }
      }
    } else {
      PowMonotone(0, 7 * n);
    }
  }

  /** Decoding an encoded number: exactly which numbers come back, and what the others become. */
  lemma DecodeOfEncode(v: nat, rest: bytes)
    ensures v < Pow2(70) ==> Decode(Encode(v) + rest) == Value(Truncated(v), |Encode(v)|) && AfterVarint(Encode(v) + rest) == rest
    ensures v >= Pow2(70) ==> Decode(Encode(v) + rest) == TooManyBytes
  {
    hide Encode, Raw, Continuations, Pow2, Truncated;
    EncodeMeans(v, rest);
    EncodeLength(v, 9);
    var n := |Encode(v)|;
    assert (Encode(v) + rest)[..n] == Encode(v) && (Encode(v) + rest)[n..] == rest;
  }

  lemma Powers()
    ensures Pow2(7) == 128 && Pow2(32) == 0x1_0000_0000 && Pow2(63) == 0x8000_0000_0000_0000
    ensures Pow2(64) == 0x1_0000_0000_0000_0000 && Pow2(70) == 0x40_0000_0000_0000_0000
  {
    assert Pow2(0) == 1 && Pow2(4) == 16 && Pow2(7) == 128 && Pow2(8) == 256;
    assert Pow2(14) == 0x4000 by { PowAdds(7, 7); }
    assert Pow2(16) == 0x10000 by { PowAdds(8, 8); }
    assert Pow2(32) == 0x1_0000_0000 by { PowAdds(16, 16); }
    assert Pow2(56) == 0x100_0000_0000_0000 by { PowAdds(32, 16); PowAdds(48, 8); }
    assert Pow2(63) == 0x8000_0000_0000_0000 by { PowAdds(56, 7); }
    assert Pow2(70) == 0x40_0000_0000_0000_0000 by { PowAdds(63, 7); }
    assert Pow2(64) == 2 * Pow2(63);
  }

  /** The varint comes back exactly when it fits in 32 bits. */
  lemma VarintRoundTripIff(v: nat, rest: bytes)
    ensures Decode(Encode(v) + rest) == Value(v, |Encode(v)|) <==> v < 0x1_0000_0000
  {
    Powers();
    DecodeOfEncode(v, rest);
    hide *;
    assert v < Pow2(70) ==> (Truncated(v) == v <==> v < 0x1_0000_0000) by { TruncatedMeans(v); }
  }

  lemma TruncatedMeans(v: nat)
    ensures Truncated(v) == v <==> v < 0x1_0000_0000
    ensures v < 0x8000_0000_0000_0000 ==> Truncated(v) == v % 0x1_0000_0000
    ensures v >= 0x8000_0000_0000_0000 ==> Truncated(v) == v % 0x1_0000_0000 - 0x1_0000_0000 < 0
  {
    Powers();
  }

  // ----- framed messages -----

  function Framed(m: bytes): bytes { Encode(|m|) + m }

  function FramedAll(ms: seq<bytes>): bytes {
    if ms == [] then [] else Framed(ms[0]) + FramedAll(ms[1..])
  }

  /** Sizes that `read` accepts. */
  predicate Acceptable(size: int) { size >= -1 }

  /** What `read` returns: all there is for size -1. */
  function Taken(s: bytes, size: int): bytes
    requires Acceptable(size)
  {
    if size < 0 || size > |s| then s else s[..size]
  }

  function Left(s: bytes, size: int): bytes
    requires Acceptable(size)
  {
    if size < 0 || size > |s| then [] else s[size..]
  }

  function DecodeMessage(s: bytes): Decoded {
    var v := Decode(s);
    if !v.Value? || v.result == 0 then NoMessage
    else if !Acceptable(v.result) then BadSize
    else Message(Taken(AfterVarint(s), v.result))
  }

  function AfterMessage(s: bytes): (rest: bytes)
    ensures DecodeMessage(s).Message? ==> |rest| < |s|
  {
    var v := Decode(s);
    if v.Value? && v.result != 0 && Acceptable(v.result) then Left(AfterVarint(s), v.result) else AfterVarint(s)
  }

  /** The loop over `decodeMessage`: every message up to the first False or the error. */
  function ReadAll(s: bytes): Reading
    decreases |s|
  {
    match DecodeMessage(s)
    case NoMessage => Reading([], false)
    case BadSize => Reading([], true)
    case Message(m) => Reading([m] + ReadAll(AfterMessage(s)).ms, ReadAll(AfterMessage(s)).raised)
  }

  lemma ReadAllStep(s: bytes)
    ensures var d, r := DecodeMessage(s), ReadAll(AfterMessage(s));
            ReadAll(s) == if d.Message? then Reading([d.buf] + r.ms, r.raised) else Reading([], d.BadSize?)
  {
  }

  /**
   When a read raises: exactly behind a varint of ten bytes whose last one is not zero, so that it is taken
   for a negative number, and whose low 32 bits are not all ones, so that it is not -1.
   */
  lemma RaisesIff(s: bytes)
    ensures DecodeMessage(s).BadSize? <==>
            Continuations(s) == 9 && |s| >= 10 && s[9] != 0 && Raw(s[..10]) % 0x1_0000_0000 != 0xffff_ffff
  {
    hide *;
    var n := Continuations(s);
    DecodeCases(s);
    DecodedBySize(s, AfterVarint(s));
    if n < 10 && n < |s| {
      var raw := Raw(s[..n + 1]);
      NegativeIff(s[..n], s[n]);
      assert s[..n + 1] == s[..n] + [s[n]];
      TruncatedMeans(raw);
    }
  }

  lemma DecodeCases(s: bytes)
    ensures var n := Continuations(s);
            && n <= |s| && (n < |s| ==> s[n] < 128)
            && Decode(s) == if n >= 10 then TooManyBytes else if n == |s| then EndOfFile else Value(Truncated(Raw(s[..n + 1])), n + 1)
  {
    hide Continuations, Truncated, Raw;
  }

  /** Ten groups with a last one that is not zero make a number of 64 bits or more, and fewer do not. */
  lemma NegativeIff(front: bytes, last: byte)
    requires |front| < 10 && last < 128
    ensures Raw(front + [last]) >= 0x8000_0000_0000_0000 <==> |front| == 9 && last != 0
  {
    hide *;
    Powers();
    RawOfAppend(front, last);
    if |front| < 9 {
      RawOfAppend(front + [last], 0);
      PowMonotone(7 * (|front| + 1), 63);
    } else {
      Shifted(last, 63);
    }
  }

  lemma Shifted(x: nat, k: nat)
    ensures ShiftLeft(x, k) == x * Pow2(k) && (x == 0 ==> ShiftLeft(x, k) == 0) && (x > 0 ==> ShiftLeft(x, k) >= Pow2(k))
  {
    var p := Pow2(k);
    hide Pow2;
    if x > 0 { assert x * p == (x - 1) * p + p; }
  }

  /** Lengths of 64 bits or more that are truncated to -1. */
  predicate AsAll(n: nat) { 0x8000_0000_0000_0000 <= n < 0x40_0000_0000_0000_0000 && n % 0x1_0000_0000 == 0xffff_ffff }

  lemma FirstMessage(m: bytes, rest: bytes)
    ensures var s := Framed(m) + rest;
            && (1 <= |m| < 0x1_0000_0000 ==> DecodeMessage(s) == Message(m) && AfterMessage(s) == rest)
            && (AsAll(|m|) ==> DecodeMessage(s) == Message(m + rest) && AfterMessage(s) == [])
            && (0x8000_0000_0000_0000 <= |m| < 0x40_0000_0000_0000_0000 && !AsAll(|m|) ==> DecodeMessage(s) == BadSize)
            && (|m| == 0 || 0x1_0000_0000 <= |m| < 0x8000_0000_0000_0000 || |m| >= 0x40_0000_0000_0000_0000 ==>
                  DecodeMessage(s).NoMessage? || (DecodeMessage(s).Message? && |DecodeMessage(s).buf| < |m|))
  {
    var s, n := Framed(m) + rest, |m|;
    assert s == Encode(n) + (m + rest);
    hide *;
    Powers();
    DecodeOfEncode(n, m + rest);
    TruncatedMeans(n);
    DecodedBySize(s, m + rest);
    AsAllIs(n);
    assert (m + rest)[..n] == m && (m + rest)[n..] == rest;
  }

  lemma AsAllIs(n: nat)
    ensures AsAll(n) <==> 0x8000_0000_0000_0000 <= n < 0x40_0000_0000_0000_0000 && n % 0x1_0000_0000 - 0x1_0000_0000 == -1
  {
  }

  /** A message by the size in front of it. */
  lemma DecodedBySize(s: bytes, rest: bytes)
    ensures !Decode(s).Value? ==> DecodeMessage(s) == NoMessage
    ensures Decode(s).Value? && AfterVarint(s) == rest ==>
              var size := Decode(s).result;
              && (size == 0 ==> DecodeMessage(s) == NoMessage) && (size < -1 ==> DecodeMessage(s) == BadSize)
              && (size == -1 || size > |rest| ==> DecodeMessage(s) == Message(rest) && AfterMessage(s) == [])
              && (0 < size <= |rest| ==> DecodeMessage(s) == Message(rest[..size]) && AfterMessage(s) == rest[size..])
  {
    hide Decode, AfterVarint;
  }

  /** The lengths that survive: 32 bits, or, for the last message, a length read as -1. */
  ghost predicate Readable(ms: seq<bytes>, i: nat)
    requires i < |ms|
  {
    || 1 <= |ms[i]| < 0x1_0000_0000
    || (i == |ms| - 1 && AsAll(|ms[i]|))
  }

  lemma FramedAllNonEmpty(ms: seq<bytes>)
    ensures FramedAll(ms) == [] <==> ms == []
  {
    if ms != [] { EncodeMeans(|ms[0]|, []); }
  }

  /** Reading back what was written returns the same messages exactly when all of them are readable. */
  lemma {:induction false} FramingRoundTripIff(ms: seq<bytes>)
    ensures ReadAll(FramedAll(ms)) == Reading(ms, false) <==> forall i :: 0 <= i < |ms| ==> Readable(ms, i)
  {
    hide *;
    var s := FramedAll(ms);
    ReadAllStep(s);
    FramedAllStep(ms);
    if ms == [] {
      ReadAllStep([]);
      ReadNothing();
    } else {
      var rest := FramedAll(ms[1..]);
      FirstMessage(ms[0], rest);
      FramedAllNonEmpty(ms[1..]);
      FramingRoundTripIff(ms[1..]);
      ReadableTail(ms);
      ReadableFirst(ms);
      ReadNothing();
      assert ms == [ms[0]] + ms[1..];
      var back := ReadAll(s);
      if back == Reading(ms, false) {
        assert DecodeMessage(s) == Message(ms[0]) && back.ms[1..] == ReadAll(AfterMessage(s)).ms;
        assert |ms[0] + rest| == |ms[0]| ==> rest == [];
      }
      if |ms| == 1 { assert ms[1..] == [] && ms[0] + rest == ms[0]; }
    }
  }

  lemma FramedAllStep(ms: seq<bytes>)
    ensures FramedAll(ms) == if ms == [] then [] else Framed(ms[0]) + FramedAll(ms[1..])
  {
  }

  lemma ReadNothing()
    ensures ReadAll([]) == Reading([], false)
  {
  }

  lemma ReadableFirst(ms: seq<bytes>)
    requires ms != []
    ensures Readable(ms, 0) <==> 1 <= |ms[0]| < 0x1_0000_0000 || (|ms| == 1 && AsAll(|ms[0]|))
  {
  }

  lemma ReadableTail(ms: seq<bytes>)
    requires ms != []
    ensures (forall i :: 0 <= i < |ms| ==> Readable(ms, i)) <==>
            Readable(ms, 0) && forall i :: 0 <= i < |ms[1..]| ==> Readable(ms[1..], i)
  {
    if Readable(ms, 0) && forall i :: 0 <= i < |ms[1..]| ==> Readable(ms[1..], i) {
      forall i | 0 <= i < |ms| ensures Readable(ms, i) {
        assert i > 0 ==> Readable(ms[1..], i - 1);
      }
    }
    if forall i :: 0 <= i < |ms| ==> Readable(ms, i) {
      forall i | 0 <= i < |ms[1..]| ensures Readable(ms[1..], i) {
        assert Readable(ms, i + 1);
      }
    }
  }

  // ----- the files -----

  class InFile {
    var rest: bytes

    constructor (contents: bytes)
      ensures rest == contents
    {
      rest := contents;
    }

    method Read(size: int) returns (s: bytes)
      requires Acceptable(size)
      modifies this
      ensures s == Taken(old(rest), size) && rest == Left(old(rest), size)
    {
      s := Taken(rest, size);
      rest := Left(rest, size);
    }

    /** `_DecodeVarint32`; the end of the file is its result (0, 0). */
    method DecodeVarint32() returns (v: Varint)
      modifies this
      ensures v == Decode(old(rest)) && rest == AfterVarint(old(rest))
    {
      ghost var s := rest;
      assert s[..0] == [] && s[0..] == s && Raw([]) == 0 && Continued(s, 0);
      hide *;
      var result, shift, pos := 0, 0, 0;
      while true
        invariant Continued(s, pos) && pos <= |s| && pos < 10 && shift == 7 * pos
        invariant rest == s[pos..] && result == Raw(s[..pos])
        decreases 10 - pos
      {
        NextByte(s, pos);
        var c := Read(1);
        if |c| == 0 {
          EndsInside(s);
          return EndOfFile;
        }
        var b := c[0];
        AddGroup(s[..pos], b);
        result := Or(result, ShiftLeft(And(b, 0x7f), shift));
        pos := pos + 1;
        HighBit(b);
        if And(b, 0x80) == 0 {
          EndsWith(s, pos - 1);
          result := Truncate(result);
          return Value(result, pos);
        }
        ContinuedOn(s, pos - 1);
        shift := shift + 7;
        if shift >= 64 {
          LongRun(s);
          return TooManyBytes;
        }
      }
    }

    /** `decodeMessage`: False is NoMessage, and the error of `read`, raised before anything is read, is BadSize. */
    method DecodeMessageFrom() returns (r: Decoded)
      modifies this
      ensures r == DecodeMessage(old(rest)) && rest == AfterMessage(old(rest))
    {
      var v := DecodeVarint32();
      if !v.Value? || v.result == 0 {
        return NoMessage;
      }
      if !Acceptable(v.result) {
        return BadSize;
      }
      var buf := Read(v.result);
      return Message(buf);
    }

    /** The loop of the trace decoders, up to the error if there is one. */
    method ReadMessages() returns (ms: seq<bytes>, raised: bool)
      modifies this
      ensures Reading(ms, raised) == ReadAll(old(rest))
    {
      hide *;
      ms := [];
      ghost var s := rest;
      var r := DecodeMessageFrom();
      ghost var at := s;
      while r.Message?
        invariant r == DecodeMessage(at) && rest == AfterMessage(at)
        invariant ReadAll(s) == Reading(ms + ReadAll(at).ms, ReadAll(at).raised)
        decreases |at|
      {
        ReadAllStep(at);
        ms := ms + [r.buf];
        at := rest;
        r := DecodeMessageFrom();
      }
      ReadAllStep(at);
      raised := r.BadSize?;
    }
  }

  class OutFile {
    var data: bytes

    constructor ()
      ensures data == []
    {
      data := [];
    }

    /** `_EncodeVarint32` */
    method EncodeVarint32(v: nat)
      modifies this
      ensures data == old(data) + Encode(v)
    {
      hide *;
      var value := v;
      LowBits(value);
      var bits := And(value, 0x7f);
      value := ShiftRight(value, 7);
      ghost var todo := v;
      while value != 0
        invariant bits == todo % 128 && value == todo / 128 && todo >= 0
        invariant old(data) + Encode(v) == data + Encode(todo)
        decreases value
      {
        WithHighBit(bits);
        EncodeStep(todo);
        data := data + [Or(0x80, bits)];
        todo := value;
        LowBits(value);
        bits := And(value, 0x7f);
        value := ShiftRight(value, 7);
      }
      EncodeStep(todo);
      data := data + [bits];
    }

    /** `encodeMessage` */
    method EncodeMessage(m: bytes)
      modifies this
      ensures data == old(data) + Framed(m)
    {
      EncodeVarint32(|m|);
      data := data + m;
    }

    /** One message after the other, as the trace encoders write them. */
    method EncodeMessages(ms: seq<bytes>)
      modifies this
      ensures data == old(data) + FramedAll(ms)
    {
      assert ms[0..] == ms;
      for k := 0 to |ms|
        invariant data + FramedAll(ms[k..]) == old(data) + FramedAll(ms)
      {
        hide Framed;
        assert ms[k..][1..] == ms[k + 1..];
        EncodeMessage(ms[k]);
      }
    }
  }

  // ----- the operators of the loops -----

  lemma LowBits(x: int)
    ensures And(x, 0x7f) == x % 128 && ShiftRight(x, 7) == x / 128
  {
    Powers();
    AndMask(x, 7);
  }

  lemma EncodeStep(v: nat)
    ensures Encode(v) == if v / 128 == 0 then [v % 128] else [128 + v % 128] + Encode(v / 128)
  {
  }

  lemma WithHighBit(bits: int)
    requires 0 <= bits < 128
    ensures Or(0x80, bits) == 128 + bits
  {
    Powers();
    OrDisjoint(bits, 1, 7);
    OrCommutes(bits, 128);
  }

  lemma {:induction false} OrCommutes(a: int, b: int)
    ensures Or(a, b) == Or(b, a)
    decreases Abs(a) + Abs(b)
  {
    if a != 0 && b != 0 && a != -1 && b != -1 { OrCommutes(a / 2, b / 2); }
  }

  /** The continuation bit of a byte. */
  lemma HighBit(b: byte)
    ensures And(b, 0x80) == if b >= 128 then 128 else 0
  {
    hide *;
    AndStep(b, 0x80);
    AndStep(b / 2, 0x40);
    AndStep(b / 4, 0x20);
    AndStep(b / 8, 0x10);
    AndStep(b / 16, 8);
    AndStep(b / 32, 4);
    AndStep(b / 64, 2);
    AndStep(b / 128, 1);
    AndStep(b / 256, 0);
  }

  /** One more group: the loop's or is the addition of RawOfAppend. */
  lemma AddGroup(s: bytes, b: byte)
    ensures Or(Raw(s), ShiftLeft(And(b, 0x7f), 7 * |s|)) == Raw(s + [b])
  {
    LowBits(b);
    RawOfAppend(s, b);
    OrDisjoint(Raw(s), b % 128, 7 * |s|);
  }

  /** The end of the varint loop: beyond 63 bits the number is made negative before its high bits are set or cleared. */
  method Truncate(raw: nat) returns (result: int)
    ensures result == Truncated(raw)
  {
    var mask := 0xffff_ffff;
    Powers();
    AndMask(raw, 32);
    OrHighBits(raw - ShiftLeft(1, 64), 32);
    SameLowBits(raw);
    hide Pow2, And, Or;
    result := raw;
    if result > 0x7fff_ffff_ffff_ffff {
      result := result - ShiftLeft(1, 64);
      result := Or(result, Not(mask));
    } else {
      result := And(result, mask);
    }
  }

  lemma SameLowBits(raw: int)
    ensures (raw - 0x1_0000_0000_0000_0000) % 0x1_0000_0000 == raw % 0x1_0000_0000
  {
  }

  // ----- the ways the varint loop ends -----

  ghost predicate Continued(s: bytes, n: nat) {
    n <= |s| && forall i :: 0 <= i < n ==> s[i] >= 128
  }

  lemma NextByte(s: bytes, pos: nat)
    requires pos <= |s|
    ensures Taken(s[pos..], 1) == (if pos < |s| then [s[pos]] else [])
    ensures Left(s[pos..], 1) == (if pos < |s| then s[pos + 1..] else [])
    ensures pos < |s| ==> s[..pos + 1] == s[..pos] + [s[pos]]
  {
  }

  lemma ContinuedOn(s: bytes, n: nat)
    requires Continued(s, n) && n < |s| && s[n] >= 128
    ensures Continued(s, n + 1)
  {
  }

  lemma EndsInside(s: bytes)
    requires Continued(s, |s|) && |s| < 10
    ensures Decode(s) == EndOfFile && AfterVarint(s) == []
  {
    ContinuationsUnique(s, |s|);
  }

  lemma EndsWith(s: bytes, n: nat)
    requires Continued(s, n) && n < |s| && n < 10 && s[n] < 128
    ensures Decode(s) == Value(Truncated(Raw(s[..n + 1])), n + 1) && AfterVarint(s) == s[n + 1..]
  {
    ContinuationsUnique(s, n);
  }

  lemma LongRun(s: bytes)
    requires Continued(s, 10)
    ensures Decode(s) == TooManyBytes && AfterVarint(s) == s[10..]
  {
    var n := Continuations(s);
    assert n < |s| ==> s[n] < 128;
  }
}
