/**
 Instruction dependency records as text: the printer of util/decode_inst_dep_trace.py and the
 parser of util/encode_inst_dep_trace.py.
 */
module DepRecord {
  import opened Wrappers
  import opened Text

  newtype uint64 = x: int | 0 <= x < 0x1_0000_0000_0000_0000
  newtype uint32 = x: int | 0 <= x < 0x1_0000_0000

  datatype Kind = INVALID | LOAD | STORE | COMP

  /** The message InstDepRecord of src/proto/inst_dep_record.proto. */
  datatype Record = Record(
    seqNum: uint64, kind: Kind, pAddr: Option<uint64>, size: Option<uint32>, flags: Option<uint32>,
    robDep: seq<uint64>, compDelay: uint64, regDep: seq<uint64>,
    weight: Option<uint32>, pc: Option<uint64>, vAddr: Option<uint64>, asid: Option<uint32>)

  datatype Reason = BadFields | BadNumber | UnsupportedType | InvalidType

  datatype Result<T> = Ok(value: T) | Err(reason: Reason) {
    predicate IsFailure() { Err? }
    function PropagateFailure<U>(): Result<U> requires Err? { Err(reason) }
    function Extract(): T requires Ok? { value }
  }

  function Number64(s: string): Result<uint64> {
    match Number(s)
    case None => Err(BadNumber)
    case Some(n) => if n < 0x1_0000_0000_0000_0000 then Ok(n as uint64) else Err(BadNumber)
  }

  function Number32(s: string): Result<uint32> {
    match Number(s)
    case None => Err(BadNumber)
    case Some(n) => if n < 0x1_0000_0000 then Ok(n as uint32) else Err(BadNumber)
  }

  // ----- printing -----

  function Name(k: Kind): string {
    match k case INVALID => "INVALID" case LOAD => "LOAD" case STORE => "STORE" case COMP => "COMP"
  }

  function Kinds(): map<string, Kind> { map["INVALID" := INVALID, "LOAD" := LOAD, "STORE" := STORE, "COMP" := COMP] }

  function Decimal64(n: uint64): string { Decimal(n as nat) }

  function Decimal32(n: uint32): string { Decimal(n as nat) }

  function Optional64(o: Option<uint64>): seq<string> { if o.Some? then [Decimal64(o.value)] else [] }

  function Optional32(o: Option<uint32>): seq<string> { if o.Some? then [Decimal32(o.value)] else [] }

  function PcOf(r: Record): uint64 { if r.pc.Some? then r.pc.value else 0 }

  function WeightOf(r: Record): uint32 { if r.weight.Some? then r.weight.value else 1 }

  /** The comma-separated fields in front of the first colon. */
  function Fields(r: Record): seq<string> {
    [Decimal64(r.seqNum), Decimal64(PcOf(r)), Decimal32(WeightOf(r)), Name(r.kind)]
    + (Optional64(r.pAddr) + Optional32(r.size) + Optional32(r.flags)) + [Decimal64(r.compDelay)]
  }

  function DepsText(ds: seq<uint64>): string {
    if ds == [] then "" else "," + Decimal64(ds[0]) + DepsText(ds[1..])
  }

  /** A printed line without its newline. */
  function Line(r: Record): string {
    Join(Fields(r), ',') + ":" + (DepsText(r.robDep) + ":" + DepsText(r.regDep))
  }

  // ----- parsing -----

  function ParseDeps(tokens: seq<string>): Result<seq<uint64>> {
    if tokens == [] then Ok([])
    else if tokens[0] == "" then ParseDeps(tokens[1..])
    else
      var d :- Number64(tokens[0]);
      var ds :- ParseDeps(tokens[1..]);
      Ok([d] + ds)
  }

  function ParseFields(info: seq<string>): Result<Record> {
    if |info| < 1 then Err(BadFields) else
    var seqNum :- Number64(info[0]);
    if |info| < 2 then Err(BadFields) else
    var pc :- Number64(info[1]);
    if |info| < 3 then Err(BadFields) else
    var weight :- Number32(info[2]);
    if |info| < 4 then Err(BadFields) else
    if info[3] !in Kinds() then Err(UnsupportedType) else
    var kind := Kinds()[info[3]];
    if kind == INVALID then Err(InvalidType) else
    if kind == LOAD || kind == STORE then
      if |info| < 8 then Err(BadFields) else
      var pAddr :- Number64(info[4]);
      var size :- Number32(info[5]);
      var flags :- Number32(info[6]);
      var compDelay :- Number64(info[7]);
      Ok(Record(seqNum, kind, Some(pAddr), Some(size), Some(flags), [], compDelay, [], Some(weight), Some(pc), None, None))
    else
      if |info| < 5 then Err(BadFields) else
      var compDelay :- Number64(info[4]);
      Ok(Record(seqNum, kind, None, None, None, [], compDelay, [], Some(weight), Some(pc), None, None))
  }

  function Parse(line: string): Result<Record> {
    var parts := Split(Strip(line), ':');
    if |parts| != 3 then Err(BadFields) else
    var r :- ParseFields(Split(parts[0], ','));
    var rob :- ParseDeps(Split(Strip(parts[1]), ','));
    var reg :- ParseDeps(Split(parts[2], ','));
    Ok(r.(robDep := rob, regDep := reg))
  }

  // ----- the round trip -----

  /** What survives: defaults filled in, the virtual address and the address space dropped. */
  function Normalized(r: Record): Record {
    r.(pc := Some(PcOf(r)), weight := Some(WeightOf(r)), vAddr := None, asid := None)
  }

  ghost predicate WellFormed(r: Record) {
    match r.kind
    case INVALID => false
    case COMP => r.pAddr.None? && r.size.None? && r.flags.None?
    case _ => r.pAddr.Some? && r.size.Some? && r.flags.Some?
  }

  /** Fields hold digits and letters only. */
  ghost predicate Plain(s: string) {
    forall i :: 0 <= i < |s| ==> s[i] != ',' && s[i] != ':' && !IsSpace(s[i])
  }

  lemma DecimalIsPlain(n: nat)
    ensures Plain(Decimal(n)) && Decimal(n) != ""
  {
    NumberOfDecimal(n);
  }

  lemma Number64OfDecimal(n: uint64)
    ensures Number64(Decimal64(n)) == Ok(n) && Plain(Decimal64(n)) && Decimal64(n) != ""
  {
    NumberOfDecimal(n as nat);
  }

  lemma Number32OfDecimal(n: uint32)
    ensures Number32(Decimal32(n)) == Ok(n) && Plain(Decimal32(n)) && Decimal32(n) != ""
  {
    NumberOfDecimal(n as nat);
  }

  function Decimals(ds: seq<uint64>): seq<string> {
    if ds == [] then [] else [Decimal64(ds[0])] + Decimals(ds[1..])
  }

  lemma {:induction false} SplitOfDeps(ds: seq<uint64>)
    ensures Split(DepsText(ds), ',') == [""] + Decimals(ds)
  {
    if ds != [] {
      var d, t := Decimal64(ds[0]), DepsText(ds[1..]);
      SplitOfDeps(ds[1..]);
      DecimalIsPlain(ds[0] as nat);
      SplitOfPrefix(d, t, ',');
      assert d + "" == d;
      var s := DepsText(ds);
      assert s == [','] + (d + t) && s[1..] == d + t;
    }
  }

  lemma {:induction false} ParseOfDecimals(ds: seq<uint64>)
    ensures ParseDeps(Decimals(ds)) == Ok(ds)
  {
    if ds != [] {
      Number64OfDecimal(ds[0]);
      ParseOfDecimals(ds[1..]);
      var s := Decimals(ds);
      assert s[1..] == Decimals(ds[1..]) && s[0] == Decimal64(ds[0]);
      assert [ds[0]] + ds[1..] == ds;
    }
  }

  /** Dependencies survive, whatever their number. */
  lemma DepsRoundTrip(ds: seq<uint64>)
    ensures ParseDeps(Split(DepsText(ds), ',')) == Ok(ds)
  {
    SplitOfDeps(ds);
    ParseOfDecimals(ds);
    assert ([""] + Decimals(ds))[1..] == Decimals(ds);
  }

  /** Neither a colon nor white space. */
  ghost predicate Inline(s: string) { forall i :: 0 <= i < |s| ==> s[i] != ':' && !IsSpace(s[i]) }

  lemma {:induction false} DepsAreInline(ds: seq<uint64>)
    ensures Inline(DepsText(ds))
  {
    if ds != [] {
      DepsAreInline(ds[1..]);
      DecimalIsPlain(ds[0] as nat);
    }
  }

  lemma {:induction false} JoinIsInline(parts: seq<string>)
    requires |parts| >= 1 && forall i :: 0 <= i < |parts| ==> Plain(parts[i])
    ensures Inline(Join(parts, ','))
  {
    assert Plain(parts[0]);
    if |parts| > 1 { JoinIsInline(parts[1..]); }
  }

  lemma InlineLacks(s: string)
    requires Inline(s)
    ensures Lacks(s, ':')
  {
  }

  lemma NameIsPlain(k: Kind)
    ensures Plain(Name(k)) && Name(k) in Kinds() && Kinds()[Name(k)] == k
  {
    assert "INVALID"[0] == 'I' && "LOAD"[0] == 'L' && "STORE"[0] == 'S' && "COMP"[0] == 'C';
  }

  lemma OptionalIsPlain(o: Option<uint64>, p: Option<uint32>)
    ensures forall i :: 0 <= i < |Optional64(o)| ==> Plain(Optional64(o)[i])
    ensures forall i :: 0 <= i < |Optional32(p)| ==> Plain(Optional32(p)[i])
  {
    if o.Some? { Number64OfDecimal(o.value); }
    if p.Some? { Number32OfDecimal(p.value); }
  }

  lemma FieldsArePlain(r: Record)
    ensures forall i :: 0 <= i < |Fields(r)| ==> Plain(Fields(r)[i])
  {
    Number64OfDecimal(r.seqNum);
    Number64OfDecimal(PcOf(r));
    Number32OfDecimal(WeightOf(r));
    Number64OfDecimal(r.compDelay);
    NameIsPlain(r.kind);
    OptionalIsPlain(r.pAddr, r.size);
    OptionalIsPlain(r.pAddr, r.flags);
    hide Plain, Decimal64, Decimal32, Name, Optional64, Optional32;
  }

  /** The parts of a line are found again. */
  lemma SplitOfLine(r: Record)
    ensures Split(Strip(Line(r) + "\n"), ':') == [Join(Fields(r), ','), DepsText(r.robDep), DepsText(r.regDep)]
    ensures Strip(DepsText(r.robDep)) == DepsText(r.robDep)
    ensures Split(Join(Fields(r), ','), ',') == Fields(r)
  {
    var a, b, c := Join(Fields(r), ','), DepsText(r.robDep), DepsText(r.regDep);
    FieldsArePlain(r);
    JoinIsInline(Fields(r));
    DepsAreInline(r.robDep);
    DepsAreInline(r.regDep);
    assert Line(r) == a + [':'] + (b + [':'] + c);
    hide DepsText, Join, Split, Strip, Lacks, Line, Fields;
    SplitThree(a, b, c);
    StripOfLine(b);
    StripOfLine(Line(r));
    PlainFields(Fields(r));
    SplitOfJoin(Fields(r), ',');
  }

  lemma SplitThree(a: string, b: string, c: string)
    requires Inline(a) && Inline(b) && Inline(c)
    ensures Split(a + [':'] + (b + [':'] + c), ':') == [a, b, c]
  {
    InlineLacks(a);
    InlineLacks(b);
    InlineLacks(c);
    hide Split, Lacks, Inline;
    SplitFirst(a, b + [':'] + c, ':');
    SplitFirst(b, c, ':');
    SplitFirst(c, "", ':');
  }

  lemma PlainFields(parts: seq<string>)
    requires forall i :: 0 <= i < |parts| ==> Plain(parts[i])
    ensures forall i :: 0 <= i < |parts| ==> Lacks(parts[i], ',')
  {
    forall i | 0 <= i < |parts| ensures Lacks(parts[i], ',') {
      assert Plain(parts[i]);
    }
  }

  function WithoutDeps(r: Record): Record { Normalized(r).(robDep := [], regDep := []) }

  lemma ParseOfFields(r: Record)
    ensures ParseFields(Fields(r)) == Ok(WithoutDeps(r)) <==> WellFormed(r)
  {
    var info := Fields(r);
    Number64OfDecimal(r.seqNum);
    Number64OfDecimal(PcOf(r));
    Number32OfDecimal(WeightOf(r));
    Number64OfDecimal(r.compDelay);
    NameIsPlain(r.kind);
    if r.pAddr.Some? { Number64OfDecimal(r.pAddr.value); }
    if r.size.Some? { Number32OfDecimal(r.size.value); }
    if r.flags.Some? { Number32OfDecimal(r.flags.value); }
    hide Number64, Number32, Decimal64, Decimal32, Name, Kinds, Plain;
    assert info[0] == Decimal64(r.seqNum) && info[1] == Decimal64(PcOf(r)) && info[2] == Decimal32(WeightOf(r)) && info[3] == Name(r.kind);
    if r.kind == LOAD || r.kind == STORE {
      if WellFormed(r) {
        assert info[4] == Decimal64(r.pAddr.value) && info[5] == Decimal32(r.size.value) && info[6] == Decimal32(r.flags.value);
        assert info[7] == Decimal64(r.compDelay);
      } else {
        assert |info| < 8;
      }
    } else if r.kind == COMP && WellFormed(r) {
      assert info[4] == Decimal64(r.compDelay);
    }
  }

  /** A printed record is read back exactly when it is well formed. */
  lemma RoundTripIff(r: Record)
    ensures Parse(Line(r) + "\n") == Ok(Normalized(r)) <==> WellFormed(r)
  {
    SplitOfLine(r);
    DepsRoundTrip(r.robDep);
    DepsRoundTrip(r.regDep);
    ParseOfFields(r);
    hide Split, Strip, ParseFields, ParseDeps, Fields, Line, Join, DepsText, WellFormed;
    var p := ParseFields(Fields(r));
    assert Parse(Line(r) + "\n") == if p.Ok? then Ok(p.value.(robDep := r.robDep, regDep := r.regDep)) else Err(p.reason);
    if p.Ok? && p.value.(robDep := r.robDep, regDep := r.regDep) == Normalized(r) {
      ParsedHasNoDeps(Fields(r));
      assert p.value == WithoutDeps(r);
    }
  }

  lemma ParsedHasNoDeps(info: seq<string>)
    requires ParseFields(info).Ok?
    ensures ParseFields(info).value.robDep == [] && ParseFields(info).value.regDep == []
  {
    hide Number64, Number32;
  }

  // ----- the format -----

  function Head(r: Record): seq<string> { [Decimal64(r.seqNum), Decimal64(PcOf(r)), Decimal32(WeightOf(r)), Name(r.kind)] }

  /** A field that may be missing, with the comma in front of it. */
  function Extra(field: seq<string>): string { if field == [] then "" else "," + field[0] }

  lemma HeadIs(r: Record)
    ensures Join(Head(r), ',') ==
              Decimal64(r.seqNum)
              + "," + (if r.pc.Some? then Decimal64(r.pc.value) else "0")
              + "," + (if r.weight.Some? then Decimal32(r.weight.value) else "1")
              + "," + (match r.kind case INVALID => "INVALID" case LOAD => "LOAD" case STORE => "STORE" case COMP => "COMP")
  {
    SmallDecimals();
    var a, b, c, d := Decimal64(r.seqNum), Decimal64(PcOf(r)), Decimal32(WeightOf(r)), Name(r.kind);
    JoinFour(a, b, c, d);
    hide Decimal64, Decimal32, Join;
  }

  lemma FieldsIs(r: Record)
    ensures Join(Fields(r), ',') == Join(Head(r), ',') + Extra(Optional64(r.pAddr)) + Extra(Optional32(r.size)) + Extra(Optional32(r.flags))
                                    + "," + Decimal64(r.compDelay)
  {
    var head, a, b, c, d := Head(r), Optional64(r.pAddr), Optional32(r.size), Optional32(r.flags), Decimal64(r.compDelay);
    assert Fields(r) == head + a + b + c + [d] && |head| == 4 && |a| <= 1 && |b| <= 1 && |c| <= 1;
    hide *;
    JoinOptional(head, a);
    JoinOptional(head + a, b);
    JoinOptional(head + a + b, c);
    JoinAppend(head + a + b + c, d, ',');
  }

  /** The line, character by character, for every record. */
  lemma LineIs(r: Record)
    ensures Line(r) ==
              Decimal64(r.seqNum)
              + "," + (if r.pc.Some? then Decimal64(r.pc.value) else "0")
              + "," + (if r.weight.Some? then Decimal32(r.weight.value) else "1")
              + "," + (match r.kind case INVALID => "INVALID" case LOAD => "LOAD" case STORE => "STORE" case COMP => "COMP")
              + (if r.pAddr.Some? then "," + Decimal64(r.pAddr.value) else "")
              + (if r.size.Some? then "," + Decimal32(r.size.value) else "")
              + (if r.flags.Some? then "," + Decimal32(r.flags.value) else "")
              + "," + Decimal64(r.compDelay) + ":" + DepsText(r.robDep) + ":" + DepsText(r.regDep)
  {
    HeadIs(r);
    FieldsIs(r);
    LineGroups(r);
    assert Extra(Optional64(r.pAddr)) == if r.pAddr.Some? then "," + Decimal64(r.pAddr.value) else "";
    assert Extra(Optional32(r.size)) == if r.size.Some? then "," + Decimal32(r.size.value) else "";
    assert Extra(Optional32(r.flags)) == if r.flags.Some? then "," + Decimal32(r.flags.value) else "";
    hide *;
  }

  lemma LineGroups(r: Record)
    ensures Line(r) == Join(Fields(r), ',') + ":" + DepsText(r.robDep) + ":" + DepsText(r.regDep)
  {
    hide Fields, Join, DepsText;
  }

  lemma SmallDecimals()
    ensures Decimal64(0) == "0" && Decimal32(1) == "1"
  {
  }

  lemma JoinFour(a: string, b: string, c: string, d: string)
    ensures Join([a, b, c, d], ',') == a + "," + b + "," + c + "," + d
  {
    assert [a] + [b] == [a, b] && [a, b] + [c] == [a, b, c] && [a, b, c] + [d] == [a, b, c, d];
    JoinAppend([a], b, ',');
    JoinAppend([a, b], c, ',');
    JoinAppend([a, b, c], d, ',');
  }

  lemma JoinOptional(parts: seq<string>, field: seq<string>)
    requires |parts| >= 1 && |field| <= 1
    ensures Join(parts + field, ',') == Join(parts, ',') + Extra(field)
  {
    if field == [] {
      assert parts + field == parts;
    } else {
      assert field == [field[0]];
      JoinAppend(parts, field[0], ',');
    }
  }

  /** One more dependency is one more number behind a comma. */
  lemma {:induction false} DepsTextMore(ds: seq<uint64>, d: uint64)
    ensures DepsText([]) == "" && DepsText(ds + [d]) == DepsText(ds) + "," + Decimal64(d)
  {
    hide Decimal64;
    var all := ds + [d];
    if ds == [] {
      assert all == [d] && all[1..] == [];
    } else {
      DepsTextMore(ds[1..], d);
      assert all[1..] == ds[1..] + [d] && all[0] == ds[0];
    }
  }

  /** The field is a number that fits. */
  ghost predicate Reads(info: seq<string>, k: nat, n: int) { k < |info| && Number(info[k]).Some? && n == Number(info[k]).value }

  ghost predicate Fits(info: seq<string>, k: nat, bits: nat) {
    k < |info| && Number(info[k]).Some? && (bits == 64 || bits == 32) && Number(info[k]).value < if bits == 64 then 0x1_0000_0000_0000_0000 else 0x1_0000_0000
  }

  /** A record is read exactly if all its fields are there, by its type, and fit. */
  ghost predicate Readable(info: seq<string>) {
    && Fits(info, 0, 64) && Fits(info, 1, 64) && Fits(info, 2, 32) && |info| > 3
    && if info[3] == "LOAD" || info[3] == "STORE" then Fits(info, 4, 64) && Fits(info, 5, 32) && Fits(info, 6, 32) && Fits(info, 7, 64)
       else info[3] == "COMP" && Fits(info, 4, 64)
  }

  /** The fields of the record are those of the line. */
  ghost predicate IsRead(info: seq<string>, r: Record) {
    && |info| > 3 && Reads(info, 0, r.seqNum as int) && r.pc.Some? && Reads(info, 1, r.pc.value as int) && r.weight.Some? && Reads(info, 2, r.weight.value as int)
    && r.kind == (if info[3] == "LOAD" then LOAD else if info[3] == "STORE" then STORE else COMP) && r.robDep == r.regDep == [] && r.vAddr.None? && r.asid.None?
    && if r.kind == COMP then r.pAddr.None? && r.size.None? && r.flags.None? && Reads(info, 4, r.compDelay as int)
       else
         && r.pAddr.Some? && r.size.Some? && r.flags.Some? && Reads(info, 4, r.pAddr.value as int) && Reads(info, 5, r.size.value as int)
         && Reads(info, 6, r.flags.value as int) && Reads(info, 7, r.compDelay as int)
  }

  lemma ParseFieldsMeans(info: seq<string>)
    ensures ParseFields(info).Ok? <==> Readable(info)
    ensures ParseFields(info).Ok? ==> IsRead(info, ParseFields(info).value)
  {
    hide Number;
  }

  // ----- whole traces -----

  function Trace(rs: seq<Record>): string {
    if rs == [] then "" else Line(rs[0]) + "\n" + Trace(rs[1..])
  }

  /** `for line in file`: every line with its newline, and a last one without if there is any. */
  function WithNewlines(parts: seq<string>): seq<string>
    requires |parts| >= 1
  {
    if |parts| == 1 then if parts[0] == "" then [] else parts
    else [parts[0] + "\n"] + WithNewlines(parts[1..])
  }

  function FileLines(text: string): seq<string> { WithNewlines(Split(text, '\n')) }

  function ParseAll(lines: seq<string>): Result<seq<Record>> {
    if lines == [] then Ok([])
    else
      var r :- Parse(lines[0]);
      var rs :- ParseAll(lines[1..]);
      Ok([r] + rs)
  }

  function AllNormalized(rs: seq<Record>): seq<Record> {
    if rs == [] then [] else [Normalized(rs[0])] + AllNormalized(rs[1..])
  }

  lemma LineLacksNewline(r: Record)
    ensures Lacks(Line(r), '\n')
  {
    FieldsArePlain(r);
    JoinIsInline(Fields(r));
    DepsAreInline(r.robDep);
    DepsAreInline(r.regDep);
    hide Fields, Join, DepsText;
  }

  lemma FileLinesOfTrace(rs: seq<Record>)
    ensures FileLines(Trace(rs)) == if rs == [] then [] else [Line(rs[0]) + "\n"] + FileLines(Trace(rs[1..]))
  {
    if rs != [] {
      var l, t := Line(rs[0]), Trace(rs[1..]);
      LineLacksNewline(rs[0]);
      assert Trace(rs) == l + ['\n'] + t;
      SplitFirst(l, t, '\n');
      hide Split, Trace, Line;
      var parts := [l] + Split(t, '\n');
      assert parts[1..] == Split(t, '\n');
    }
  }

  /** A printed trace is read back exactly when every record is well formed. */
  lemma {:induction false} TraceRoundTripIff(rs: seq<Record>)
    ensures ParseAll(FileLines(Trace(rs))) == Ok(AllNormalized(rs)) <==> forall i :: 0 <= i < |rs| ==> WellFormed(rs[i])
  {
    FileLinesOfTrace(rs);
    if rs != [] {
      RoundTripIff(rs[0]);
      TraceRoundTripIff(rs[1..]);
      var line, rest := Line(rs[0]) + "\n", FileLines(Trace(rs[1..]));
      var lines := FileLines(Trace(rs));
      assert lines[0] == line && lines[1..] == rest;
      var p, ps := Parse(line), ParseAll(rest);
      assert ParseAll(lines) == if p.Err? then Err(p.reason) else if ps.Err? then Err(ps.reason) else Ok([p.value] + ps.value);
      hide Parse, FileLines, Trace, Line, Normalized, WellFormed;
      var a, b := Normalized(rs[0]), AllNormalized(rs[1..]);
      assert p.Ok? && ps.Ok? ==> ([p.value] + ps.value == [a] + b <==> p.value == a && ps.value == b) by {
        if p.Ok? && ps.Ok? { SameHeadAndTail(p.value, ps.value, a, b); }
      }
      assert (forall i :: 0 <= i < |rs| ==> WellFormed(rs[i])) <==>
             WellFormed(rs[0]) && forall i :: 0 <= i < |rs[1..]| ==> WellFormed(rs[1..][i]) by { AllSplit(rs); }
    }
  }

  lemma SameHeadAndTail<T>(a: T, s: seq<T>, b: T, t: seq<T>)
    ensures [a] + s == [b] + t <==> a == b && s == t
  {
    assert ([a] + s)[0] == a && ([a] + s)[1..] == s && ([b] + t)[0] == b && ([b] + t)[1..] == t;
  }

  lemma AllSplit(rs: seq<Record>)
    requires rs != []
    ensures (forall i :: 0 <= i < |rs| ==> WellFormed(rs[i])) <==>
            WellFormed(rs[0]) && forall i :: 0 <= i < |rs[1..]| ==> WellFormed(rs[1..][i])
  {
    hide WellFormed;
    assert forall i :: 0 < i < |rs| ==> rs[i] == rs[1..][i - 1];
  }

  // ----- the loops -----

  lemma {:induction false} JoinAppend(parts: seq<string>, p: string, sep: char)
    requires |parts| >= 1
    ensures Join(parts + [p], sep) == Join(parts, sep) + [sep] + p
  {
    var all := parts + [p];
    assert all[1..] == parts[1..] + [p];
    if |parts| > 1 {
      JoinAppend(parts[1..], p, sep);
      var a, b := parts[0], Join(parts[1..], sep);
      assert (a + [sep] + b) + [sep] + p == a + [sep] + (b + [sep] + p);
    }
  }

  /** Writing one more field. */
  method PrintField(text: string, ghost parts: seq<string>, field: string) returns (more: string, ghost now: seq<string>)
    requires |parts| >= 1 && text == Join(parts, ',')
    ensures now == parts + [field] && more == Join(now, ',')
  {
    JoinAppend(parts, field, ',');
    more := text + "," + field;
    now := parts + [field];
  }

  method PrintDeps(text: string, ds: seq<uint64>) returns (more: string)
    ensures more == text + DepsText(ds)
  {
    more := text;
    assert ds[0..] == ds;
    for k := 0 to |ds|
      invariant more + DepsText(ds[k..]) == text + DepsText(ds)
    {
      hide Decimal64;
      assert ds[k..][1..] == ds[k + 1..];
      more := more + "," + Decimal64(ds[k]);
    }
  }

  /** The fields every record has. */
  method PrintHead(r: Record) returns (line: string, ghost parts: seq<string>)
    ensures parts == [Decimal64(r.seqNum), Decimal64(PcOf(r)), Decimal32(WeightOf(r)), Name(r.kind)]
    ensures line == Join(parts, ',')
  {
    line := Decimal64(r.seqNum);
    parts := [line];
    assert Join(parts, ',') == line;
    ZeroAndOne();
    hide Decimal64, Decimal32, Name, Join;
    if r.pc.Some? {
      line, parts := PrintField(line, parts, Decimal64(r.pc.value));
    } else {
      line, parts := PrintField(line, parts, "0");
    }
    if r.weight.Some? {
      line, parts := PrintField(line, parts, Decimal32(r.weight.value));
    } else {
      line, parts := PrintField(line, parts, "1");
    }
    line, parts := PrintField(line, parts, Name(r.kind));
  }

  /** One iteration of the decoding script. */
  method PrintRecord(r: Record) returns (line: string)
    ensures line == Line(r) + "\n"
  {
    hide Decimal64, Decimal32, Name, DepsText, Join;
    ghost var parts;
    line, parts := PrintHead(r);
    ghost var head := parts;
    if r.pAddr.Some? {
      line, parts := PrintField(line, parts, Decimal64(r.pAddr.value));
    }
    assert parts == head + Optional64(r.pAddr);
    if r.size.Some? {
      line, parts := PrintField(line, parts, Decimal32(r.size.value));
    }
    assert parts == head + (Optional64(r.pAddr) + Optional32(r.size));
    if r.flags.Some? {
      line, parts := PrintField(line, parts, Decimal32(r.flags.value));
    }
    assert parts == head + (Optional64(r.pAddr) + Optional32(r.size) + Optional32(r.flags));
    line, parts := PrintField(line, parts, Decimal64(r.compDelay));
    assert parts == Fields(r);
    hide Fields, Optional64, Optional32;
    line := PrintDeps(line + ":", r.robDep);
    line := PrintDeps(line + ":", r.regDep);
    line := line + "\n";
  }

  lemma ZeroAndOne()
    ensures Decimal64(0) == "0" && Decimal32(1) == "1"
  {
  }

  ghost function CountRob(rs: seq<Record>): nat {
    if rs == [] then 0 else (if rs[0].robDep != [] then 1 else 0) + CountRob(rs[1..])
  }

  ghost function CountReg(rs: seq<Record>): nat {
    if rs == [] then 0 else (if rs[0].regDep != [] then 1 else 0) + CountReg(rs[1..])
  }

  lemma TraceStep(rs: seq<Record>, k: nat)
    requires k < |rs|
    ensures Trace(rs[k..]) == Line(rs[k]) + "\n" + Trace(rs[k + 1..])
    ensures CountRob(rs[k..]) == (if rs[k].robDep != [] then 1 else 0) + CountRob(rs[k + 1..])
    ensures CountReg(rs[k..]) == (if rs[k].regDep != [] then 1 else 0) + CountReg(rs[k + 1..])
  {
    hide Line;
    assert rs[k..][1..] == rs[k + 1..];
  }

  /** The decoding loop with its three counters. */
  method PrintTrace(rs: seq<Record>) returns (text: string, packets: nat, robDeps: nat, regDeps: nat)
    ensures text == Trace(rs) && packets == |rs| && robDeps == CountRob(rs) && regDeps == CountReg(rs)
  {
    hide *;
    text, packets, robDeps, regDeps := "", 0, 0, 0;
    assert rs[0..] == rs;
    for k := 0 to |rs|
      invariant packets == k
      invariant text + Trace(rs[k..]) == Trace(rs)
      invariant robDeps + CountRob(rs[k..]) == CountRob(rs) && regDeps + CountReg(rs[k..]) == CountReg(rs)
    {
      TraceStep(rs, k);
      packets := packets + 1;
      var line := PrintRecord(rs[k]);
      text := text + line;
      if rs[k].robDep != [] {
        robDeps := robDeps + 1;
      }
      if rs[k].regDep != [] {
        regDeps := regDeps + 1;
      }
    }
    TraceEnd(rs);
  }

  lemma TraceEnd(rs: seq<Record>)
    ensures Trace(rs[|rs|..]) == "" && CountRob(rs[|rs|..]) == 0 && CountReg(rs[|rs|..]) == 0
  {
  }

  /** Empty items are skipped, the others must be numbers. */
  method ParseDepTokens(tokens: seq<string>) returns (r: Result<seq<uint64>>)
    ensures r == ParseDeps(tokens)
  {
    var ds := [];
    assert tokens[0..] == tokens;
    ghost var all := ParseDeps(tokens);
    assert all.Ok? ==> ds + all.value == all.value;
    for k := 0 to |tokens|
      invariant var rest := ParseDeps(tokens[k..]); ParseDeps(tokens) == if rest.Ok? then Ok(ds + rest.value) else rest
    {
      hide Number64;
      assert tokens[k..][1..] == tokens[k + 1..];
      if tokens[k] != "" {
        var d := Number64(tokens[k]);
        if d.Err? {
          return Err(d.reason);
        }
        ghost var rest := ParseDeps(tokens[k + 1..]);
        assert rest.Ok? ==> ds + ([d.value] + rest.value) == (ds + [d.value]) + rest.value;
        ds := ds + [d.value];
      }
    }
    assert ds + [] == ds;
    return Ok(ds);
  }

  /** One iteration of the encoding script. */
  method ParseLine(line: string) returns (r: Result<Record>)
    ensures r == Parse(line)
  {
    hide Split, Strip, ParseDeps, ParseFields;
    var parts := Split(Strip(line), ':');
    if |parts| != 3 {
      return Err(BadFields);
    }
    r := ParseFields(Split(parts[0], ','));
    if r.Ok? {
      var rob := ParseDepTokens(Split(Strip(parts[1]), ','));
      if rob.Err? {
        return Err(rob.reason);
      }
      var reg := ParseDepTokens(Split(parts[2], ','));
      if reg.Err? {
        return Err(reg.reason);
      }
      r := Ok(r.value.(robDep := rob.value, regDep := reg.value));
    }
  }

  /** The encoding loop. */
  method ParseTrace(text: string) returns (r: Result<seq<Record>>)
    ensures r == ParseAll(FileLines(text))
  {
    hide FileLines, Parse;
    var lines := FileLines(text);
    var rs := [];
    assert lines[0..] == lines;
    ghost var all := ParseAll(lines);
    assert all.Ok? ==> rs + all.value == all.value;
    for k := 0 to |lines|
      invariant var rest := ParseAll(lines[k..]); ParseAll(lines) == if rest.Ok? then Ok(rs + rest.value) else rest
    {
      assert lines[k..][1..] == lines[k + 1..];
      var one := ParseLine(lines[k]);
      if one.Err? {
        return Err(one.reason);
      }
      ghost var rest := ParseAll(lines[k + 1..]);
      assert rest.Ok? ==> rs + ([one.value] + rest.value) == (rs + [one.value]) + rest.value;
      rs := rs + [one.value];
    }
    assert rs + [] == rs;
    return Ok(rs);
  }
}
