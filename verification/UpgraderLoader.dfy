/**
 Loading the migration scripts (`Upgrader.load_all`) and processing one checkpoint
 (`process_file`) of util/cpt_upgrader.py, on top of the migration loop.
 */
module UpgraderLoader {
  import opened Wrappers
  import opened CheckpointUpgrader

  function EntryOf(s: Script): Entry { Entry(s.depends, s.fwdDepends, s.isUpgrade) }

  function TagsOf(s: seq<Tag>): set<Tag> { set t | t in s }

  /** Version numbers are not shared by two tags. */
  ghost predicate Injective(legacy: map<int, Tag>) {
    forall i, j :: i in legacy && j in legacy && legacy[i] == legacy[j] ==> i == j
  }

  /** No two scripts use the same tag. */
  ghost predicate UniqueTags(scripts: seq<Script>) {
    forall i, j :: 0 <= i < j < |scripts| ==> scripts[i].tag != scripts[j].tag
  }

  /** What registering scripts one after the other leaves in the two dictionaries. */
  function TableOf(scripts: seq<Script>, k: nat): Table
    requires k <= |scripts|
  {
    if k == 0 then map[] else TableOf(scripts, k - 1)[scripts[k - 1].tag := EntryOf(scripts[k - 1])]
  }

  function LegacyOf(scripts: seq<Script>, k: nat): map<int, Tag>
    requires k <= |scripts|
  {
    if k == 0 then map[]
    else
      var s := scripts[k - 1];
      if s.legacyVersion.Some? then LegacyOf(scripts, k - 1)[s.legacyVersion.value := s.tag] else LegacyOf(scripts, k - 1)
  }

  // ----- dependencies after loading, as one would define them -----

  /** The legacy versions from 3 on that are present without a gap. */
  ghost predicate InChain(legacy: map<int, Tag>, i: int) {
    3 <= i && forall k :: 3 <= k <= i ==> k in legacy
  }

  ghost predicate InLegacyChain(legacy: map<int, Tag>, t: Tag) {
    exists i :: InChain(legacy, i) && legacy[i] == t
  }

  ghost predicate Chained(legacy: map<int, Tag>, upTo: int, t: Tag) {
    exists i :: 3 <= i < upTo && i in legacy && legacy[i] == t
  }

  /** `deps` are the dependencies of `t` once the legacy versions below `upTo` have been made linear. */
  ghost predicate IsBase(table: Table, legacy: map<int, Tag>, upTo: int, t: Tag, deps: seq<Tag>) {
    && (forall i :: 3 <= i < upTo && i in legacy && legacy[i] == t ==> i - 1 in legacy && deps == [legacy[i - 1]])
    && (!Chained(legacy, upTo, t) && t in table ==> deps == table[t].depends)
  }

  /** `upTo` is the first version behind the gapless ones. */
  ghost predicate ChainEnd(legacy: map<int, Tag>, upTo: int) {
    3 <= upTo && upTo !in legacy && forall k :: 3 <= k < upTo ==> k in legacy
  }

  lemma ChainEndMeaning(legacy: map<int, Tag>, upTo: int)
    requires ChainEnd(legacy, upTo)
    ensures forall i :: InChain(legacy, i) <==> 3 <= i < upTo
    ensures forall t :: Chained(legacy, upTo, t) <==> InLegacyChain(legacy, t)
  {
    forall i ensures InChain(legacy, i) <==> 3 <= i < upTo {
      assert i >= upTo && InChain(legacy, i) ==> upTo in legacy;
    }
    forall t | Chained(legacy, upTo, t) ensures InLegacyChain(legacy, t) {
      var i :| 3 <= i < upTo && i in legacy && legacy[i] == t;
      assert InChain(legacy, i);
    }
  }

  /** What the first `m` forward dependencies of script `tag` append to the list of `t`. */
  function Appended(fwd: seq<Tag>, m: nat, tag: Tag, t: Tag): seq<Tag>
    requires m <= |fwd|
  {
    if m == 0 then [] else Appended(fwd, m - 1, tag, t) + if fwd[m - 1] == t then [tag] else []
  }

  function AppendedBy(scripts: seq<Script>, k: nat, t: Tag): seq<Tag>
    requires k <= |scripts|
  {
    if k == 0 then []
    else AppendedBy(scripts, k - 1, t) + Appended(scripts[k - 1].fwdDepends, |scripts[k - 1].fwdDepends|, scripts[k - 1].tag, t)
  }

  lemma {:induction false} AppendedMembers(fwd: seq<Tag>, m: nat, tag: Tag, t: Tag)
    requires m <= |fwd|
    ensures TagsOf(Appended(fwd, m, tag, t)) == if t in fwd[..m] then {tag} else {}
  {
    if m > 0 {
      AppendedMembers(fwd, m - 1, tag, t);
      assert fwd[..m] == fwd[..m - 1] + [fwd[m - 1]];
      SetOfConcat(Appended(fwd, m - 1, tag, t), if fwd[m - 1] == t then [tag] else []);
    }
  }

  lemma SetOfConcat(a: seq<Tag>, b: seq<Tag>)
    ensures TagsOf(a + b) == TagsOf(a) + TagsOf(b)
  {
  }

  /** The appended tags are exactly the scripts that name `t` as a forward dependency. */
  lemma {:induction false} AppendedByMembers(scripts: seq<Script>, k: nat, t: Tag, d: Tag)
    requires k <= |scripts|
    ensures d in AppendedBy(scripts, k, t) <==> exists i :: 0 <= i < k && scripts[i].tag == d && t in scripts[i].fwdDepends
  {
    if k > 0 {
      AppendedByMembers(scripts, k - 1, t, d);
      var s := scripts[k - 1];
      AppendedMembers(s.fwdDepends, |s.fwdDepends|, s.tag, t);
      assert s.fwdDepends[..|s.fwdDepends|] == s.fwdDepends;
      assert d in Appended(s.fwdDepends, |s.fwdDepends|, s.tag, t) <==> d in TagsOf(Appended(s.fwdDepends, |s.fwdDepends|, s.tag, t));
    }
  }

  // ----- the legacy chain -----

  /** After loading, each legacy version of the chain depends on the one before it. */
  ghost predicate Linear(reg: Table, legacy: map<int, Tag>) {
    forall i :: InChain(legacy, i) ==>
      i - 1 in legacy && legacy[i] in reg && legacy[i - 1] in reg[legacy[i]].depends
  }

  /** The tags of the legacy versions from 2 up to that of the checkpoint. */
  function Converted(legacy: map<int, Tag>, version: int): set<Tag> {
    set i | 2 <= i <= version && i in legacy :: legacy[i]
  }

  /** The converted tag set contains, with a legacy tag, the tag it depends on. */
  lemma ConvertedIsClosed(reg: Table, legacy: map<int, Tag>, version: int, i: int)
    requires Linear(reg, legacy) && InChain(legacy, i) && i <= version
    ensures legacy[i] in Converted(legacy, version) && legacy[i - 1] in Converted(legacy, version)
  {
  }

  lemma {:induction false} EarlierVersionInEarlierRound(reg: Table, legacy: map<int, Tag>, version: int, rounds: seq<set<Tag>>, i: int, j: int, q: nat)
    returns (p: nat)
    requires Linear(reg, legacy) && Injective(legacy) && version < i && 2 <= i < j && InChain(legacy, j)
    requires InDependencyOrder(reg, Converted(legacy, version), rounds)
    requires q < |rounds| && legacy[j] in rounds[q]
    ensures i in legacy && p < q && legacy[i] in rounds[p]
    decreases j
  {
    var d := legacy[j - 1];
    assert d in reg[legacy[j]].depends && Preceded(reg, Converted(legacy, version), rounds, q, legacy[j]);
    assert d !in Converted(legacy, version);
    var r :| 0 <= r < q && d in rounds[r];
    if i == j - 1 {
      p := r;
    } else {
      assert InChain(legacy, j - 1);
      p := EarlierVersionInEarlierRound(reg, legacy, version, rounds, i, j - 1, r);
    }
  }

  /**
   A completed run on a checkpoint of legacy version `version` applies the later versions of the
   chain in strictly increasing order.
   */
  lemma LegacyVersionsInOrder(reg: Table, legacy: map<int, Tag>, version: int, i: int, j: int)
    requires Linear(reg, legacy) && Injective(legacy) && version < i && 2 <= i < j && InChain(legacy, j)
    requires legacy[j] in Upgrades(reg)
    requires var tags := Converted(legacy, version); Run(reg, tags, Pending(reg, tags)).ok
    ensures var tags := Converted(legacy, version);
            var rounds := Run(reg, tags, Pending(reg, tags)).rounds;
            i in legacy && exists p, q :: 0 <= p < q < |rounds| && legacy[i] in rounds[p] && legacy[j] in rounds[q]
  {
    var tags := Converted(legacy, version);
    var pending := Pending(reg, tags);
    var rounds := Run(reg, tags, pending).rounds;
    assert legacy[j] !in tags;
    SuccessfulRunIsComplete(reg, tags, pending, legacy[j]);
    RoundsRespectDependencies(reg, tags, pending);
    var q :| 0 <= q < |rounds| && legacy[j] in rounds[q];
    var p := EarlierVersionInEarlierRound(reg, legacy, version, rounds, i, j, q);
  }

  // ----- what loading promises -----

  /** Every forward target exists, and so does every dependency that is still in force. */
  ghost predicate Resolvable(base: Table, scripts: seq<Script>, n: nat) {
    n <= |scripts| && forall k :: 0 <= k < n ==> ScriptResolves(base, scripts[k])
  }

  ghost predicate ScriptResolves(base: Table, s: Script) {
    && s.tag in base && (forall f :: f in s.fwdDepends ==> f in base)
    && (forall d :: d in base[s.tag].depends ==> d in base)
  }

  /** `cur` is `base` with the forward dependencies of the first `n` scripts appended. */
  ghost predicate Resolved(base: Table, cur: Table, scripts: seq<Script>, n: nat) {
    && n <= |scripts| && base.Keys == cur.Keys
    && forall t :: t in base ==> cur[t].depends == base[t].depends + AppendedBy(scripts, n, t)
  }

  /** Loading succeeds for exactly these scripts. */
  ghost predicate Loadable(scripts: seq<Script>) {
    var table, legacy := TableOf(scripts, |scripts|), LegacyOf(scripts, |scripts|);
    && (3 in legacy ==> 2 in legacy)
    && forall k :: 0 <= k < |scripts| ==>
         && (forall f :: f in scripts[k].fwdDepends ==> f in table)
         && (!InLegacyChain(legacy, scripts[k].tag) ==> forall d :: d in scripts[k].depends ==> d in table)
  }

  /**
   The loaded table: a legacy version of the chain depends on its predecessor, any other script on
   what it declares, and both on the scripts that name it as a forward dependency.
   */
  ghost predicate LoadedAs(scripts: seq<Script>, reg: Table) {
    var table, legacy := TableOf(scripts, |scripts|), LegacyOf(scripts, |scripts|);
    && SameButDepends(table, reg)
    && forall t :: t in reg ==> LoadedDepends(scripts, table, legacy, t, reg[t].depends)
  }

  ghost predicate LoadedDepends(scripts: seq<Script>, table: Table, legacy: map<int, Tag>, t: Tag, deps: seq<Tag>) {
    var more := AppendedBy(scripts, |scripts|, t);
    && (forall i :: InChain(legacy, i) && legacy[i] == t ==> i - 1 in legacy && deps == [legacy[i - 1]] + more)
    && (!InLegacyChain(legacy, t) && t in table ==> deps == table[t].depends + more)
  }

  /** The table after registering the first `k` scripts. */
  lemma {:induction false} TableHolds(scripts: seq<Script>, k: nat)
    requires k <= |scripts| && UniqueTags(scripts)
    ensures forall t :: t in TableOf(scripts, k) <==> exists i :: 0 <= i < k && scripts[i].tag == t
    ensures forall i :: 0 <= i < k ==> scripts[i].tag in TableOf(scripts, k) && TableOf(scripts, k)[scripts[i].tag] == EntryOf(scripts[i])
    ensures k < |scripts| ==> scripts[k].tag !in TableOf(scripts, k)
  {
    if k > 0 { TableHolds(scripts, k - 1); }
  }

  lemma BeforeResolving(scripts: seq<Script>, base: Table)
    requires SameButDepends(TableOf(scripts, |scripts|), base) && UniqueTags(scripts)
    ensures SameButDepends(base, base) && TagsIn(scripts, base)
    ensures Resolvable(base, scripts, 0) && Resolved(base, base, scripts, 0)
  {
    TableHolds(scripts, |scripts|);
  }

  lemma SameButDependsTrans(a: Table, b: Table, c: Table)
    requires SameButDepends(a, b) && SameButDepends(b, c)
    ensures SameButDepends(a, c)
  {
  }

  lemma ResolvedOne(base: Table, before: Table, cur: Table, scripts: seq<Script>, k: nat)
    requires k < |scripts| && Resolved(base, before, scripts, k)
    requires Appends(before, cur, scripts[k].fwdDepends, |scripts[k].fwdDepends|, scripts[k].tag)
    ensures Resolved(base, cur, scripts, k + 1)
  {
  }

  lemma NotResolvable(base: Table, scripts: seq<Script>, k: nat)
    requires k < |scripts| && !ScriptResolves(base, scripts[k])
    ensures !Resolvable(base, scripts, |scripts|)
  {
  }

  ghost predicate TagsIn(scripts: seq<Script>, base: Table) {
    forall i :: 0 <= i < |scripts| ==> scripts[i].tag in base
  }

  lemma TagIn(scripts: seq<Script>, base: Table, k: nat)
    requires TagsIn(scripts, base) && k < |scripts|
    ensures scripts[k].tag in base
  {
  }

  lemma SameKeys(a: Table, b: Table)
    requires SameButDepends(a, b)
    ensures a.Keys == b.Keys
  {
  }

  lemma MissingTarget(base: Table, s: Script)
    requires !forall f :: f in s.fwdDepends ==> f in base
    ensures !ScriptResolves(base, s)
  {
  }

  /** The audit sees appended tags too, but those always exist. */
  lemma AuditMeans(base: Table, cur: Table, scripts: seq<Script>, k: nat)
    requires k < |scripts| && Resolvable(base, scripts, k) && Resolved(base, cur, scripts, k + 1)
    requires scripts[k].tag in base && forall f :: f in scripts[k].fwdDepends ==> f in base
    requires TagsIn(scripts, base)
    ensures ScriptResolves(base, scripts[k]) <==> forall d :: d in cur[scripts[k].tag].depends ==> d in cur
    ensures ScriptResolves(base, scripts[k]) ==> Resolvable(base, scripts, k + 1)
  {
    var t := scripts[k].tag;
    forall d | d in AppendedBy(scripts, k + 1, t) ensures d in base {
      AppendedByMembers(scripts, k + 1, t, d);
    }
  }

  lemma LoadableMeans(scripts: seq<Script>, table: Table, base: Table, legacy: map<int, Tag>, upTo: int)
    requires UniqueTags(scripts) && table == TableOf(scripts, |scripts|) && legacy == LegacyOf(scripts, |scripts|)
    requires SameButDepends(table, base) && ChainEnd(legacy, upTo) && legacy.Values <= table.Keys
    requires (3 in legacy ==> 2 in legacy)
    requires forall t :: t in base ==> IsBase(table, legacy, upTo, t, base[t].depends)
    ensures Resolvable(base, scripts, |scripts|) <==> Loadable(scripts)
  {
    TableHolds(scripts, |scripts|);
    ChainEndMeaning(legacy, upTo);
    forall k | 0 <= k < |scripts|
      ensures (forall d :: d in base[scripts[k].tag].depends ==> d in base)
              <==> (!InLegacyChain(legacy, scripts[k].tag) ==> forall d :: d in scripts[k].depends ==> d in table)
    {
      var t := scripts[k].tag;
      assert IsBase(table, legacy, upTo, t, base[t].depends);
      if InLegacyChain(legacy, t) {
        var i :| InChain(legacy, i) && legacy[i] == t;
        assert base[t].depends == [legacy[i - 1]] && legacy[i - 1] in legacy.Values;
      }
    }
  }

  lemma LoadedMeans(scripts: seq<Script>, table: Table, base: Table, reg: Table, legacy: map<int, Tag>, upTo: int)
    requires table == TableOf(scripts, |scripts|) && legacy == LegacyOf(scripts, |scripts|)
    requires SameButDepends(table, base) && SameButDepends(base, reg) && ChainEnd(legacy, upTo) && legacy.Values <= table.Keys
    requires forall t :: t in base ==> IsBase(table, legacy, upTo, t, base[t].depends)
    requires Resolved(base, reg, scripts, |scripts|)
    ensures LoadedAs(scripts, reg) && Linear(reg, legacy)
  {
    ChainEndMeaning(legacy, upTo);
    forall t | t in reg ensures LoadedDepends(scripts, table, legacy, t, reg[t].depends) {
      assert IsBase(table, legacy, upTo, t, base[t].depends);
    }
    forall i | InChain(legacy, i) ensures i - 1 in legacy && legacy[i] in reg && legacy[i - 1] in reg[legacy[i]].depends {
      assert legacy[i] in legacy.Values;
      assert LoadedDepends(scripts, table, legacy, legacy[i], reg[legacy[i]].depends);
    }
  }

  // ----- the class-level dictionaries -----

  datatype LoadResult = Loaded | MissingLegacyBase | MissingForward(fwd: Tag) | MissingDependency(dep: Tag)

  datatype VersionInfo = LegacyVersion(version: int) | VersionTags(tags: set<Tag>) | NoVersion

  datatype FileResult = Unchanged | Rewritten(tags: set<Tag>) | CannotResolve | NoVersionInfo | UnknownVersion

  class Upgraders {
    var byTag: Table
    var legacy: map<int, Tag>
    var tagSet: set<Tag>
    var untagSet: set<Tag>

    ghost predicate Valid() reads this {
      && tagSet == Upgrades(byTag) && untagSet == Downgrades(byTag)
      && Injective(legacy) && legacy.Values <= byTag.Keys
    }

    constructor ()
      ensures Valid() && byTag == map[] && legacy == map[]
    {
      byTag, legacy, tagSet, untagSet := map[], map[], {}, {};
    }

    /** The bookkeeping of `Upgrader.__init__`. */
    method Register(s: Script)
      requires Valid() && s.tag !in byTag
      modifies this
      ensures Valid()
      ensures byTag == old(byTag)[s.tag := EntryOf(s)]
      ensures legacy == if s.legacyVersion.Some? then old(legacy)[s.legacyVersion.value := s.tag] else old(legacy)
    {
      if s.isUpgrade {
        tagSet := tagSet + {s.tag};
      } else {
        untagSet := untagSet + {s.tag};
      }
      if s.legacyVersion.Some? {
        assert s.tag !in legacy.Values;
        forall i | i in legacy ensures legacy[i] != s.tag { assert legacy[i] in legacy.Values; }
        legacy := legacy[s.legacyVersion.value := s.tag];
      }
      byTag := byTag[s.tag := EntryOf(s)];
    }

    /** Constructing an Upgrader for every script file. */
    method RegisterAll(scripts: seq<Script>)
      requires Valid() && byTag == map[] && legacy == map[] && UniqueTags(scripts)
      modifies this
      ensures Valid() && byTag == TableOf(scripts, |scripts|) && legacy == LegacyOf(scripts, |scripts|)
    {
      for k := 0 to |scripts|
        invariant Valid() && byTag == TableOf(scripts, k) && legacy == LegacyOf(scripts, k)
      {
        TableHolds(scripts, k);
        Register(scripts[k]);
      }
    }

    /** The forward dependencies and the audit of one script. */
    method ResolveScript(scripts: seq<Script>, k: nat, ghost base: Table) returns (r: LoadResult)
      requires Valid() && k < |scripts| && TagsIn(scripts, base) && SameButDepends(base, byTag)
      requires Resolvable(base, scripts, k) && Resolved(base, byTag, scripts, k)
      modifies this`byTag
      ensures Valid() && SameButDepends(base, byTag)
      ensures r.Loaded? ==> Resolvable(base, scripts, k + 1) && Resolved(base, byTag, scripts, k + 1)
      ensures !r.Loaded? ==> !Resolvable(base, scripts, |scripts|)
    {
      hide Upgrades, Downgrades, Injective, Resolved, Resolvable, Appends, SameButDepends, ScriptResolves, TagsIn;
      var s := scripts[k];
      ghost var before := byTag;
      TagIn(scripts, base, k);
      SameKeys(base, before);
      r := AppendForward(s.tag, s.fwdDepends);
      SameButDependsTrans(base, before, byTag);
      SameKeys(base, byTag);
      if !r.Loaded? {
        MissingTarget(base, s);
        NotResolvable(base, scripts, k);
        return;
      }
      ResolvedOne(base, before, byTag, scripts, k);
      r := Audit(s.tag);
      AuditMeans(base, byTag, scripts, k);
      if !r.Loaded? {
        NotResolvable(base, scripts, k);
      }
    }

    /** Entering the forward dependencies into their targets, and checking that every dependency is known. */
    method ResolveAll(scripts: seq<Script>) returns (r: LoadResult)
      requires Valid() && SameButDepends(TableOf(scripts, |scripts|), byTag) && UniqueTags(scripts)
      modifies this`byTag
      ensures Valid() && SameButDepends(old(byTag), byTag)
      ensures r.Loaded? <==> Resolvable(old(byTag), scripts, |scripts|)
      ensures r.Loaded? ==> Resolved(old(byTag), byTag, scripts, |scripts|)
    {
      hide *;
      ghost var base := byTag;
      BeforeResolving(scripts, base);
      for k := 0 to |scripts|
        invariant Valid() && SameButDepends(base, byTag)
        invariant Resolvable(base, scripts, k) && Resolved(base, byTag, scripts, k)
      {
        r := ResolveScript(scripts, k, base);
        if !r.Loaded? {
          return;
        }
      }
      r := Loaded;
    }

    /** `load_all` */
    method LoadAll(scripts: seq<Script>) returns (r: LoadResult)
      requires Valid() && byTag == map[] && legacy == map[] && UniqueTags(scripts)
      modifies this
      ensures Valid() && legacy == LegacyOf(scripts, |scripts|)
      ensures r.Loaded? <==> Loadable(scripts)
      ensures r.Loaded? ==> LoadedAs(scripts, byTag) && Linear(byTag, legacy)
    {
      RegisterAll(scripts);
      ghost var table := byTag;
      var ok;
      ghost var upTo;
      ok, upTo := MakeLinear();
      if !ok {
        return MissingLegacyBase;
      }
      ghost var base := byTag;
      r := ResolveAll(scripts);
      LoadableMeans(scripts, table, base, legacy, upTo);
      if r.Loaded? {
        LoadedMeans(scripts, table, base, byTag, legacy, upTo);
      }
    }

    /** `process_file`: what becomes of a checkpoint with this version information. */
    method ProcessFile(info: VersionInfo) returns (r: FileResult, applied: seq<seq<Tag>>)
      requires Valid()
      ensures info.NoVersion? ==> r == NoVersionInfo && applied == []
      ensures info.LegacyVersion? && !(forall i :: 2 <= i <= info.version ==> i in legacy) ==> r == UnknownVersion && applied == []
      ensures var known := info.VersionTags? || (info.LegacyVersion? && forall i :: 2 <= i <= info.version ==> i in legacy);
              known ==>
                var tags := if info.VersionTags? then info.tags else Converted(legacy, info.version);
                var out := Run(byTag, tags, Pending(byTag, tags));
                && |applied| == |out.rounds| && (forall k :: 0 <= k < |applied| ==> ListsSet(applied[k], out.rounds[k]))
                && r == if !out.ok then CannotResolve
                        else if info.VersionTags? && out.rounds == [] then Unchanged
                        else Rewritten(out.tags)
    {
      var tags: set<Tag> := {};
      match info {
        case NoVersion => return NoVersionInfo, [];
        case VersionTags(ts) => tags := ts;
        case LegacyVersion(v) =>
          var i := 2;
          while i <= v
            invariant i >= 2 && (i <= v + 1 || i == 2) && tags == Converted(legacy, i - 1)
            invariant forall k :: 2 <= k < i ==> k in legacy
            decreases v - i
          {
            if i !in legacy {
              return UnknownVersion, [];
            }
            assert Converted(legacy, i) == Converted(legacy, i - 1) + {legacy[i]};
            tags := tags + {legacy[i]};
            i := i + 1;
          }
          assert tags == Converted(legacy, v);
      }
      var ok;
      ok, tags, applied := Migrate(byTag, tags);
      if !ok {
        r := CannotResolve;
      } else if info.VersionTags? && applied == [] {
        r := Unchanged;
      } else {
        r := Rewritten(tags);
      }
    }

    /** Each legacy version depends on the one before; false stands for the KeyError. */
    method MakeLinear() returns (ok: bool, ghost upTo: int)
      requires Valid()
      modifies this`byTag
      ensures Valid() && SameButDepends(old(byTag), byTag) && byTag.Keys == old(byTag.Keys)
      ensures ok <==> (3 in legacy ==> 2 in legacy)
      ensures ok ==> ChainEnd(legacy, upTo) && forall t :: t in byTag ==> IsBase(old(byTag), legacy, upTo, t, byTag[t].depends)
    {
      hide IsBase, Injective, Upgrades, Downgrades, SameButDepends;
      var i := 3;
      ghost var table := byTag;
      AtFirst(table, legacy);
      while i in legacy
        invariant i >= 3 && (forall k :: 3 <= k < i ==> k in legacy) && (i > 3 ==> 2 in legacy)
        invariant SameButDepends(table, byTag) && byTag.Keys == table.Keys
        invariant forall t :: t in byTag ==> IsBase(table, legacy, i, t, byTag[t].depends)
        decreases |KeysFrom(legacy, i)|
      {
        if i - 1 !in legacy {
          SameSets(table, byTag);
          return false, i;
        }
        KeysShrink(legacy, i);
        var t := legacy[i];
        assert t in legacy.Values;
        LinkVersion(table, byTag, legacy, i);
        SetDepends(table, byTag, t, [legacy[i - 1]]);
        byTag := byTag[t := byTag[t].(depends := [legacy[i - 1]])];
        i := i + 1;
      }
      SameSets(table, byTag);
      return true, i;
    }

    /** The forward dependencies of one script. */
    method AppendForward(tag: Tag, fwd: seq<Tag>) returns (r: LoadResult)
      requires Valid()
      modifies this`byTag
      ensures Valid() && SameButDepends(old(byTag), byTag) && byTag.Keys == old(byTag.Keys)
      ensures r.Loaded? <==> forall f :: f in fwd ==> f in byTag
      ensures r.Loaded? ==> Appends(old(byTag), byTag, fwd, |fwd|, tag)
    {
      hide Injective, Upgrades, Downgrades, SameButDepends, Appends;
      ghost var table := byTag;
      AtFirst(table, legacy);
      AppendsNothing(table, fwd, tag);
      for m := 0 to |fwd|
        invariant SameButDepends(table, byTag) && byTag.Keys == table.Keys
        invariant forall f :: f in fwd[..m] ==> f in byTag
        invariant Appends(table, byTag, fwd, m, tag)
      {
        var fd := fwd[m];
        if fd !in byTag {
          assert fd in fwd;
          SameSets(table, byTag);
          return MissingForward(fd);
        }
        assert fwd[..m + 1] == fwd[..m] + [fd];
        SetDepends(table, byTag, fd, byTag[fd].depends + [tag]);
        AppendsOne(table, byTag, fwd, m, tag);
        byTag := byTag[fd := byTag[fd].(depends := byTag[fd].depends + [tag])];
      }
      assert fwd[..|fwd|] == fwd;
      SameSets(table, byTag);
      return Loaded;
    }

    /** The audit of one script's dependencies. */
    method Audit(tag: Tag) returns (r: LoadResult)
      requires tag in byTag
      ensures r.Loaded? <==> forall d :: d in byTag[tag].depends ==> d in byTag
    {
      var deps := byTag[tag].depends;
      for m := 0 to |deps|
        invariant forall d :: d in deps[..m] ==> d in byTag
      {
        if deps[m] !in byTag {
          return MissingDependency(deps[m]);
        }
        assert deps[..m + 1] == deps[..m] + [deps[m]];
      }
      assert deps[..|deps|] == deps;
      return Loaded;
    }
  }

  // ----- helpers of the loops -----

  /** `cur` is `table` with the first `m` forward dependencies of `tag` appended. */
  ghost predicate Appends(table: Table, cur: Table, fwd: seq<Tag>, m: nat, tag: Tag) {
    && m <= |fwd| && table.Keys == cur.Keys
    && forall t :: t in table ==> cur[t].depends == table[t].depends + Appended(fwd, m, tag, t)
  }

  lemma AppendsNothing(table: Table, fwd: seq<Tag>, tag: Tag)
    ensures Appends(table, table, fwd, 0, tag)
  {
  }

  lemma AppendsOne(table: Table, cur: Table, fwd: seq<Tag>, m: nat, tag: Tag)
    requires Appends(table, cur, fwd, m, tag) && m < |fwd| && fwd[m] in cur
    ensures Appends(table, cur[fwd[m] := cur[fwd[m]].(depends := cur[fwd[m]].depends + [tag])], fwd, m + 1, tag)
  {
  }

  ghost predicate SameButDepends(a: Table, b: Table) {
    a.Keys == b.Keys && forall t :: t in a ==> b[t].isUpgrade == a[t].isUpgrade && b[t].fwdDepends == a[t].fwdDepends
  }

  lemma AtFirst(table: Table, legacy: map<int, Tag>)
    ensures SameButDepends(table, table)
    ensures forall t :: t in table ==> IsBase(table, legacy, 3, t, table[t].depends)
  {
  }

  lemma SetDepends(table: Table, cur: Table, t: Tag, deps: seq<Tag>)
    requires SameButDepends(table, cur) && t in cur
    ensures SameButDepends(table, cur[t := cur[t].(depends := deps)])
  {
  }

  lemma SameSets(a: Table, b: Table)
    requires SameButDepends(a, b)
    ensures Upgrades(a) == Upgrades(b) && Downgrades(a) == Downgrades(b)
  {
  }

  ghost function KeysFrom(legacy: map<int, Tag>, i: int): set<int> {
    set k | k in legacy && k >= i
  }

  lemma KeysShrink(legacy: map<int, Tag>, i: int)
    requires i in legacy
    ensures |KeysFrom(legacy, i + 1)| < |KeysFrom(legacy, i)|
  {
    assert KeysFrom(legacy, i) == KeysFrom(legacy, i + 1) + {i};
  }

  lemma LinkVersion(table: Table, cur: Table, legacy: map<int, Tag>, i: int)
    requires Injective(legacy) && i >= 3 && i in legacy && i - 1 in legacy && legacy[i] in cur
    requires forall t :: t in cur ==> IsBase(table, legacy, i, t, cur[t].depends)
    ensures var next := cur[legacy[i] := cur[legacy[i]].(depends := [legacy[i - 1]])];
            forall t :: t in next ==> IsBase(table, legacy, i + 1, t, next[t].depends)
  {
    var next := cur[legacy[i] := cur[legacy[i]].(depends := [legacy[i - 1]])];
    forall t | t in next ensures IsBase(table, legacy, i + 1, t, next[t].depends) {
      assert IsBase(table, legacy, i, t, cur[t].depends);
      if t == legacy[i] {
        assert Chained(legacy, i + 1, t);
      } else if Chained(legacy, i, t) {
        var k :| 3 <= k < i && k in legacy && legacy[k] == t;
        assert Chained(legacy, i + 1, t);
      }
    }
  }
}
