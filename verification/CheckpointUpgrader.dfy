/**
 The checkpoint upgrader (util/cpt_upgrader.py).

 Every migration script carries a tag and the tags it depends on.  `load_all` builds the
 dependency table; `process_file` applies, round by round, all migrations whose dependencies are
 present in the checkpoint's tag set, until nothing is pending or nothing is ready.
 */
module CheckpointUpgrader {
  import opened Wrappers

  type Tag = string

  /** The attributes of one migration script; it has either an upgrader or a downgrader. */
  datatype Script = Script(tag: Tag, depends: seq<Tag>, fwdDepends: seq<Tag>, isUpgrade: bool, legacyVersion: Option<int>)

  datatype Entry = Entry(depends: seq<Tag>, fwdDepends: seq<Tag>, isUpgrade: bool)

  type Table = map<Tag, Entry>

  // ----- what a run of the migration loop does -----

  function Upgrades(reg: Table): set<Tag> { set t | t in reg && reg[t].isUpgrade }

  function Downgrades(reg: Table): set<Tag> { set t | t in reg && !reg[t].isUpgrade }

  /** The migrations a checkpoint with these tags needs. */
  function Pending(reg: Table, tags: set<Tag>): set<Tag> {
    (Upgrades(reg) - tags) + (Downgrades(reg) * tags)
  }

  /** An upgrade is pending if its tag is missing, a downgrade if its tag is there. */
  lemma PendingMeans(reg: Table, tags: set<Tag>, t: Tag)
    ensures t in Pending(reg, tags) <==> t in reg && (reg[t].isUpgrade <==> t !in tags)
  {
  }

  predicate IsReady(reg: Table, t: Tag, tags: set<Tag>)
    requires t in reg
  {
    forall d :: d in reg[t].depends ==> d in tags
  }

  function ReadySet(reg: Table, pending: set<Tag>, tags: set<Tag>): set<Tag> {
    set t | t in pending && t in reg && IsReady(reg, t, tags)
  }

  /** The tags after all of `ready` has been applied, in whatever order. */
  function Apply(reg: Table, tags: set<Tag>, ready: set<Tag>): set<Tag> {
    tags + ready * Upgrades(reg) - ready * Downgrades(reg)
  }

  datatype Outcome = Outcome(ok: bool, tags: set<Tag>, rounds: seq<set<Tag>>)

  /** The migration loop as a function: no choice is left in it. */
  function Run(reg: Table, tags: set<Tag>, pending: set<Tag>): Outcome
    decreases |pending|
  {
    var ready := ReadySet(reg, pending, tags);
    if pending == {} then Outcome(true, tags, [])
    else if ready == {} then Outcome(false, tags, [])
    else
      SmallerSet(pending - ready, pending, ready);
      var rest := Run(reg, Apply(reg, tags, ready), pending - ready);
      Outcome(rest.ok, rest.tags, [ready] + rest.rounds)
  }

  lemma SmallerSet(small: set<Tag>, pending: set<Tag>, ready: set<Tag>)
    requires ready <= pending && ready != {} && small == pending - ready
    ensures |small| < |pending|
  {
    assert pending == small + ready;
    assert |pending| == |small| + |ready|;
  }

  /** One round of a run. */
  lemma RunStep(reg: Table, tags: set<Tag>, pending: set<Tag>)
    requires pending != {} && ReadySet(reg, pending, tags) != {}
    ensures var ready := ReadySet(reg, pending, tags);
            && ready <= pending && |pending - ready| < |pending|
            && var rest := Run(reg, Apply(reg, tags, ready), pending - ready);
               Run(reg, tags, pending) == Outcome(rest.ok, rest.tags, [ready] + rest.rounds)
  {
    var ready := ReadySet(reg, pending, tags);
    SmallerSet(pending - ready, pending, ready);
  }

  /** A pending downgrade is present, a pending upgrade is known. */
  ghost predicate Applicable(reg: Table, tags: set<Tag>, pending: set<Tag>) {
    pending <= Upgrades(reg) + Downgrades(reg) && pending * Downgrades(reg) <= tags
  }

  // ----- the final tag set, and idempotence -----

  lemma ApplyInRounds(reg: Table, tags: set<Tag>, pending: set<Tag>, ready: set<Tag>)
    requires ready <= pending
    ensures Apply(reg, Apply(reg, tags, ready), pending - ready) == Apply(reg, tags, pending)
  {
  }

  lemma {:induction false} RunTags(reg: Table, tags: set<Tag>, pending: set<Tag>)
    requires Applicable(reg, tags, pending) && Run(reg, tags, pending).ok
    ensures Run(reg, tags, pending).tags == Apply(reg, tags, pending)
    decreases |pending|
  {
    if pending != {} {
      var ready := ReadySet(reg, pending, tags);
      SmallerSet(pending - ready, pending, ready);
      RunTags(reg, Apply(reg, tags, ready), pending - ready);
      hide Run;
      ApplyInRounds(reg, tags, pending, ready);
    }
  }

  /** A successful run ends with exactly the known upgrades added and the known downgrades removed. */
  lemma SuccessfulTags(reg: Table, tags: set<Tag>)
    requires Run(reg, tags, Pending(reg, tags)).ok
    ensures Run(reg, tags, Pending(reg, tags)).tags == tags + Upgrades(reg) - Downgrades(reg)
    ensures forall t :: t in Run(reg, tags, Pending(reg, tags)).tags <==> if t in reg then reg[t].isUpgrade else t in tags
  {
    RunTags(reg, tags, Pending(reg, tags));
  }

  /** A second run has nothing to do. */
  lemma SecondRunIsIdle(reg: Table, tags: set<Tag>)
    requires Run(reg, tags, Pending(reg, tags)).ok
    ensures var after := Run(reg, tags, Pending(reg, tags)).tags;
            Pending(reg, after) == {} && Run(reg, after, Pending(reg, after)) == Outcome(true, after, [])
  {
    SuccessfulTags(reg, tags);
  }

  // ----- exactly when a run succeeds -----

  /** Every dependency is present, or pending at a lower rank. */
  ghost predicate Ranked(reg: Table, tags: set<Tag>, pending: set<Tag>, rank: map<Tag, nat>) {
    && pending <= rank.Keys && pending <= reg.Keys
    && forall t, d :: t in pending && d in reg[t].depends ==> d in tags || (d in pending && rank[d] < rank[t])
  }

  ghost predicate Rankable(reg: Table, tags: set<Tag>, pending: set<Tag>) {
    exists rank :: Ranked(reg, tags, pending, rank)
  }

  /** Nothing pending depends on a tag that is about to be removed. */
  ghost predicate NoDoomedDependency(reg: Table, pending: set<Tag>) {
    forall t, d :: t in pending && t in reg && d in reg[t].depends ==> !(d in pending && d in Downgrades(reg))
  }

  lemma LowestRanked(pending: set<Tag>, rank: map<Tag, nat>) returns (low: Tag)
    requires pending != {} && pending <= rank.Keys
    ensures low in pending && forall t :: t in pending ==> rank[low] <= rank[t]
    decreases |pending|
  {
    var x :| x in pending;
    if pending == {x} {
      low := x;
    } else {
      var rest := pending - {x};
      assert |rest| < |pending|;
      assert rest != {} by { assert pending == rest + {x}; }
      low := LowestRanked(rest, rank);
      if rank[x] < rank[low] { low := x; }
      assert pending == rest + {x};
    }
  }

  lemma RoundKeepsRank(reg: Table, tags: set<Tag>, pending: set<Tag>, rank: map<Tag, nat>, ready: set<Tag>)
    requires Ranked(reg, tags, pending, rank) && NoDoomedDependency(reg, pending) && ready <= pending
    ensures Ranked(reg, Apply(reg, tags, ready), pending - ready, rank)
    ensures NoDoomedDependency(reg, pending - ready)
  {
    var tags', pending' := Apply(reg, tags, ready), pending - ready;
    forall t, d | t in pending' && d in reg[t].depends
      ensures d in tags' || (d in pending' && rank[d] < rank[t])
    {
      assert !(d in pending && d in Downgrades(reg));
      if d !in tags && d in ready {
        assert d in Upgrades(reg);
      }
    }
  }

  lemma {:induction false} RankedRunSucceeds(reg: Table, tags: set<Tag>, pending: set<Tag>, rank: map<Tag, nat>)
    requires Ranked(reg, tags, pending, rank) && NoDoomedDependency(reg, pending)
    ensures Run(reg, tags, pending).ok
    decreases |pending|
  {
    if pending != {} {
      var ready := ReadySet(reg, pending, tags);
      var low := LowestRanked(pending, rank);
      assert IsReady(reg, low, tags);
      assert low in ready;
      SmallerSet(pending - ready, pending, ready);
      RoundKeepsRank(reg, tags, pending, rank, ready);
      RankedRunSucceeds(reg, Apply(reg, tags, ready), pending - ready, rank);
    }
  }

  /** A rank for the rest of a run, shifted by one, behind the tags that are ready now. */
  lemma ShiftRank(reg: Table, tags: set<Tag>, pending: set<Tag>, ready: set<Tag>, later: map<Tag, nat>, rank: map<Tag, nat>)
    requires pending <= reg.Keys && ready == ReadySet(reg, pending, tags)
    requires Ranked(reg, Apply(reg, tags, ready), pending - ready, later)
    requires pending <= rank.Keys
    requires forall t :: t in pending ==> rank[t] == if t in ready then 0 else later[t] + 1
    ensures Ranked(reg, tags, pending, rank)
  {
    forall t, d | t in pending && d in reg[t].depends ensures d in tags || (d in pending && rank[d] < rank[t]) {
      if t in ready {
        assert IsReady(reg, t, tags);
      } else {
        assert d in Apply(reg, tags, ready) || (d in pending - ready && later[d] < later[t]);
      }
    }
  }

  /** The number of the round in which a successful run applies each tag is a rank. */
  lemma {:induction false} SuccessfulRunIsRanked(reg: Table, tags: set<Tag>, pending: set<Tag>) returns (rank: map<Tag, nat>)
    requires pending <= reg.Keys && Run(reg, tags, pending).ok
    ensures Ranked(reg, tags, pending, rank)
    decreases |pending|
  {
    if pending == {} {
      rank := map[];
    } else {
      var ready := ReadySet(reg, pending, tags);
      SmallerSet(pending - ready, pending, ready);
      var later := SuccessfulRunIsRanked(reg, Apply(reg, tags, ready), pending - ready);
      assert pending - ready <= later.Keys;
      hide Ranked;
      rank := map t | t in pending :: if t in ready then 0 else later[t] + 1;
      ShiftRank(reg, tags, pending, ready, later, rank);
    }
  }

  /**
   Main result: unless something pending depends on a tag that is to be removed, the loop finishes
   if and only if the pending tags can be ranked, and aborts otherwise.
   */
  lemma RunSucceedsIff(reg: Table, tags: set<Tag>)
    requires NoDoomedDependency(reg, Pending(reg, tags))
    ensures Run(reg, tags, Pending(reg, tags)).ok <==> Rankable(reg, tags, Pending(reg, tags))
  {
    var pending := Pending(reg, tags);
    if Run(reg, tags, pending).ok {
      var rank := SuccessfulRunIsRanked(reg, tags, pending);
    }
    if Rankable(reg, tags, pending) {
      var rank :| Ranked(reg, tags, pending, rank);
      RankedRunSucceeds(reg, tags, pending, rank);
    }
  }

  /** In particular when the checkpoint has no tag to remove. */
  lemma RunSucceedsIffWithoutDowngrades(reg: Table, tags: set<Tag>)
    requires Downgrades(reg) * tags == {}
    ensures Run(reg, tags, Pending(reg, tags)).ok <==> Rankable(reg, tags, Pending(reg, tags))
  {
    assert NoDoomedDependency(reg, Pending(reg, tags));
    RunSucceedsIff(reg, tags);
  }

  /**
   The side condition is needed: "n" could run after "u" and before "old" is removed, but the first
   round applies everything that is ready, "old" included, and then "n" can never run.
   */
  lemma RankableButAborts()
    ensures var reg: Table := map["old" := Entry([], [], false), "u" := Entry([], [], true), "n" := Entry(["old", "u"], [], true)];
            Rankable(reg, {"old"}, Pending(reg, {"old"})) && !Run(reg, {"old"}, Pending(reg, {"old"})).ok
  {
    var reg: Table := map["old" := Entry([], [], false), "u" := Entry([], [], true), "n" := Entry(["old", "u"], [], true)];
    var pending := Pending(reg, {"old"});
    assert pending == {"old", "u", "n"};
    assert Ranked(reg, {"old"}, pending, map["old" := 2, "u" := 0, "n" := 1]);
    assert reg["n"].depends[0] == "old" && reg["n"].depends[1] == "u";
    assert ReadySet(reg, pending, {"old"}) == {"old", "u"};
    var tags, left := Apply(reg, {"old"}, {"old", "u"}), pending - {"old", "u"};
    assert tags == {"u"} && left == {"n"};
    assert "old" in reg["n"].depends && !IsReady(reg, "n", tags);
    assert ReadySet(reg, left, tags) == {};
    assert !Run(reg, tags, left).ok;
  }

  // ----- the order of the migrations -----

  /** Each dependency of a migration is present from the start or applied in an earlier round. */
  ghost predicate InDependencyOrder(reg: Table, tags: set<Tag>, rounds: seq<set<Tag>>) {
    forall k, t :: 0 <= k < |rounds| && t in rounds[k] ==> t in reg && Preceded(reg, tags, rounds, k, t)
  }

  ghost predicate Preceded(reg: Table, tags: set<Tag>, rounds: seq<set<Tag>>, k: nat, t: Tag)
    requires t in reg && k <= |rounds|
  {
    forall d :: d in reg[t].depends ==> d in tags || InSome(rounds, k, d)
  }

  ghost predicate InSome(rounds: seq<set<Tag>>, k: nat, d: Tag)
    requires k <= |rounds|
  {
    exists j :: 0 <= j < k && d in rounds[j]
  }

  /** No migration is in two rounds. */
  ghost predicate Disjoint(rounds: seq<set<Tag>>) {
    forall j, k :: 0 <= j < k < |rounds| ==> rounds[j] !! rounds[k]
  }

  lemma PrependRound(reg: Table, tags: set<Tag>, pending: set<Tag>, ready: set<Tag>, rest: seq<set<Tag>>)
    requires ready == ReadySet(reg, pending, tags) && InDependencyOrder(reg, Apply(reg, tags, ready), rest)
    ensures InDependencyOrder(reg, tags, [ready] + rest)
  {
    var rounds, tags' := [ready] + rest, Apply(reg, tags, ready);
    forall k, t | 0 <= k < |rounds| && t in rounds[k] ensures t in reg && Preceded(reg, tags, rounds, k, t) {
      if k == 0 {
        assert IsReady(reg, t, tags);
      } else {
        assert t in rest[k - 1] && Preceded(reg, tags', rest, k - 1, t);
        forall d | d in reg[t].depends ensures d in tags || InSome(rounds, k, d) {
          if d in ready {
            assert d in rounds[0];
          } else if d !in tags {
            var j :| 0 <= j < k - 1 && d in rest[j];
            assert d in rounds[j + 1];
          }
        }
      }
    }
  }

  /** The rounds of a run respect the dependencies and apply nothing twice and nothing but `pending`. */
  lemma {:induction false} RoundsRespectDependencies(reg: Table, tags: set<Tag>, pending: set<Tag>)
    ensures var rounds := Run(reg, tags, pending).rounds;
            InDependencyOrder(reg, tags, rounds) && Disjoint(rounds) && forall k :: 0 <= k < |rounds| ==> rounds[k] <= pending
    decreases |pending|
  {
    var ready := ReadySet(reg, pending, tags);
    if pending != {} && ready != {} {
      RunStep(reg, tags, pending);
      RoundsRespectDependencies(reg, Apply(reg, tags, ready), pending - ready);
      PrependRound(reg, tags, pending, ready, Run(reg, Apply(reg, tags, ready), pending - ready).rounds);
    }
  }

  /** A successful run applies everything that was pending. */
  lemma {:induction false} SuccessfulRunIsComplete(reg: Table, tags: set<Tag>, pending: set<Tag>, t: Tag)
    requires Run(reg, tags, pending).ok && t in pending
    ensures var rounds := Run(reg, tags, pending).rounds; InSome(rounds, |rounds|, t)
    decreases |pending|
  {
    var ready := ReadySet(reg, pending, tags);
    RunStep(reg, tags, pending);
    var rounds := Run(reg, tags, pending).rounds;
    if t in ready {
      assert t in rounds[0];
    } else {
      SuccessfulRunIsComplete(reg, Apply(reg, tags, ready), pending - ready, t);
      var rest := Run(reg, Apply(reg, tags, ready), pending - ready).rounds;
      var j :| 0 <= j < |rest| && t in rest[j];
      assert t in rounds[j + 1];
    }
  }

  // ----- the script's loops -----

  /** `s` lists the members of `ts`, each once. */
  ghost predicate ListsSet(s: seq<Tag>, ts: set<Tag>) {
    && (forall t :: t in ts <==> t in s)
    && (forall i, j :: 0 <= i < j < |s| ==> s[i] != s[j])
  }

  lemma ApplyOne(reg: Table, tags: set<Tag>, done: set<Tag>, t: Tag)
    requires t in reg && t !in done
    ensures reg[t].isUpgrade ==> Apply(reg, tags, done + {t}) == Apply(reg, tags, done) + {t}
    ensures !reg[t].isUpgrade ==> Apply(reg, tags, done + {t}) == Apply(reg, tags, done) - {t}
    ensures t in tags ==> t in Apply(reg, tags, done)
  {
  }

  lemma ListOne(now: seq<Tag>, done: set<Tag>, t: Tag)
    requires ListsSet(now, done) && t !in done
    ensures ListsSet(now + [t], done + {t})
  {
  }

  /** The body of `for tag in ready`, in an arbitrary order. */
  method ApplyRound(reg: Table, tags0: set<Tag>, ready: set<Tag>) returns (tags: set<Tag>, now: seq<Tag>)
    requires Applicable(reg, tags0, ready)
    ensures tags == Apply(reg, tags0, ready) && ListsSet(now, ready)
  {
    tags, now := tags0, [];
    var rest := ready;
    while rest != {}
      invariant rest <= ready && tags == Apply(reg, tags0, ready - rest) && ListsSet(now, ready - rest)
      decreases |rest|
    {
      var t :| t in rest;
      ApplyOne(reg, tags0, ready - rest, t);
      ListOne(now, ready - rest, t);
      assert ready - (rest - {t}) == ready - rest + {t};
      if reg[t].isUpgrade {
        tags := tags + {t};
      } else {
        assert t in tags;  // set.remove raises no KeyError
        tags := tags - {t};
      }
      now := now + [t];
      rest := rest - {t};
    }
    assert ready - {} == ready;
  }

  lemma RoundKeepsApplicable(reg: Table, tags: set<Tag>, pending: set<Tag>, ready: set<Tag>)
    requires Applicable(reg, tags, pending) && ready <= pending
    ensures Applicable(reg, tags, ready) && Applicable(reg, Apply(reg, tags, ready), pending - ready)
  {
  }

  /** `applied` lists the first rounds of the run `out`, and `rest` is what remains of it. */
  ghost predicate Continues(out: Outcome, applied: seq<seq<Tag>>, rest: Outcome) {
    && out.ok == rest.ok && out.tags == rest.tags && |out.rounds| == |applied| + |rest.rounds|
    && (forall k :: 0 <= k < |applied| ==> ListsSet(applied[k], out.rounds[k]))
    && (forall k :: 0 <= k < |rest.rounds| ==> rest.rounds[k] == out.rounds[|applied| + k])
  }

  lemma ContinuesStep(out: Outcome, applied: seq<seq<Tag>>, ready: set<Tag>, rest: Outcome, now: seq<Tag>)
    requires Continues(out, applied, Outcome(rest.ok, rest.tags, [ready] + rest.rounds)) && ListsSet(now, ready)
    ensures Continues(out, applied + [now], rest)
  {
    var all := [ready] + rest.rounds;
    assert all[0] == out.rounds[|applied| + 0];
    forall k | 0 <= k < |rest.rounds| ensures rest.rounds[k] == out.rounds[|applied| + 1 + k] {
      assert rest.rounds[k] == all[k + 1] == out.rounds[|applied| + (k + 1)];
    }
  }

  /** The migration loop of `process_file`; `applied` has one block per round. */
  method Migrate(reg: Table, tags0: set<Tag>) returns (ok: bool, tags: set<Tag>, applied: seq<seq<Tag>>)
    ensures var out := Run(reg, tags0, Pending(reg, tags0));
            && ok == out.ok && tags == out.tags && |applied| == |out.rounds|
            && forall k :: 0 <= k < |applied| ==> ListsSet(applied[k], out.rounds[k])
  {
    hide Run, ListsSet, Applicable, ReadySet, Apply, Continues;
    var toApply := Pending(reg, tags0);
    tags, applied := tags0, [];
    ghost var out := Run(reg, tags0, toApply);
    Begins(reg, tags0);
    while toApply != {}
      invariant Applicable(reg, tags, toApply) && Continues(out, applied, Run(reg, tags, toApply))
      decreases |toApply|
    {
      var ready := ReadySet(reg, toApply, tags);
      if ready == {} {
        Ends(reg, out, applied, tags, toApply);
        return false, tags, applied;
      }
      RunStep(reg, tags, toApply);
      RoundKeepsApplicable(reg, tags, toApply, ready);
      ghost var rest := Run(reg, Apply(reg, tags, ready), toApply - ready);
      var now;
      tags, now := ApplyRound(reg, tags, ready);
      ContinuesStep(out, applied, ready, rest, now);
      applied := applied + [now];
      toApply := toApply - ready;
    }
    Ends(reg, out, applied, tags, toApply);
    ok := true;
  }

  lemma Begins(reg: Table, tags: set<Tag>)
    ensures Applicable(reg, tags, Pending(reg, tags))
    ensures var out := Run(reg, tags, Pending(reg, tags)); Continues(out, [], out)
  {
  }

  /** The loop stops when nothing is pending, or when nothing pending is ready. */
  lemma Ends(reg: Table, out: Outcome, applied: seq<seq<Tag>>, tags: set<Tag>, pending: set<Tag>)
    requires Continues(out, applied, Run(reg, tags, pending))
    requires pending == {} || ReadySet(reg, pending, tags) == {}
    ensures out.ok == (pending == {}) && out.tags == tags && |applied| == |out.rounds|
    ensures forall k :: 0 <= k < |applied| ==> ListsSet(applied[k], out.rounds[k])
  {
  }
}
