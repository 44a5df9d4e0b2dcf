/**
 Exactly when the migration loop of util/cpt_upgrader.py finishes, for every set of migrations,
 also when some of them depend on tags that others remove.
 */
module UpgraderTiming {
  import opened CheckpointUpgrader

  /** Pending upgrades are missing, pending downgrades are present. */
  ghost predicate Consistent(reg: Table, tags: set<Tag>, pending: set<Tag>) {
    pending <= reg.Keys && forall t :: t in pending ==> (reg[t].isUpgrade <==> t !in tags)
  }

  /** `d` is a pending upgrade. */
  ghost predicate Coming(reg: Table, pending: set<Tag>, d: Tag) { d in pending && d in reg && reg[d].isUpgrade }

  /**
   A dependency is met in the round of `t`: it is added in an earlier round, or it is there from the
   start and not removed in an earlier round.
   */
  ghost predicate Met(reg: Table, tags: set<Tag>, pending: set<Tag>, rank: map<Tag, nat>, t: Tag, d: Tag)
    requires pending <= rank.Keys && t in pending
  {
    || (Coming(reg, pending, d) && rank[d] < rank[t])
    || (d in tags && (d in pending ==> rank[t] <= rank[d]))
  }

  /** No migration waits longer than its dependencies make it wait. */
  ghost predicate Prompt(reg: Table, pending: set<Tag>, rank: map<Tag, nat>, t: Tag)
    requires pending <= rank.Keys && t in pending && t in reg
  {
    rank[t] > 0 ==> exists d :: d in reg[t].depends && Coming(reg, pending, d) && rank[d] + 1 == rank[t]
  }

  ghost predicate Timed(reg: Table, tags: set<Tag>, pending: set<Tag>, rank: map<Tag, nat>) {
    && pending <= rank.Keys && pending <= reg.Keys
    && (forall t, d :: t in pending && d in reg[t].depends ==> Met(reg, tags, pending, rank, t, d))
    && (forall t :: t in pending ==> Prompt(reg, pending, rank, t))
  }

  // ----- a timetable makes the loop finish -----

  lemma RoundZeroIsReady(reg: Table, tags: set<Tag>, pending: set<Tag>, rank: map<Tag, nat>, t: Tag)
    requires Consistent(reg, tags, pending) && Timed(reg, tags, pending, rank) && t in pending
    ensures t in ReadySet(reg, pending, tags) <==> rank[t] == 0
  {
    assert Prompt(reg, pending, rank, t);
    if rank[t] == 0 {
      forall d | d in reg[t].depends ensures d in tags { assert Met(reg, tags, pending, rank, t, d); }
    }
  }

  lemma SomeRoundZero(reg: Table, tags: set<Tag>, pending: set<Tag>, rank: map<Tag, nat>)
    requires Timed(reg, tags, pending, rank) && pending != {}
    ensures exists t :: t in pending && rank[t] == 0
  {
    var low := LowestRanked(pending, rank);
    assert Prompt(reg, pending, rank, low);
  }

  lemma RoundKeepsConsistent(reg: Table, tags: set<Tag>, pending: set<Tag>, ready: set<Tag>)
    requires Consistent(reg, tags, pending) && ready <= pending
    ensures Consistent(reg, Apply(reg, tags, ready), pending - ready)
  {
  }

  lemma AfterRound(reg: Table, tags: set<Tag>, pending: set<Tag>, ready: set<Tag>, d: Tag)
    requires Consistent(reg, tags, pending) && ready <= pending
    ensures d in Apply(reg, tags, ready) <==> (d in tags && d !in ready) || (d in ready && reg[d].isUpgrade)
  {
  }

  /** The next rounds have the timetable moved up by one. */
  lemma MovedUp(reg: Table, tags: set<Tag>, pending: set<Tag>, rank: map<Tag, nat>, ready: set<Tag>, later: map<Tag, nat>)
    requires Consistent(reg, tags, pending) && Timed(reg, tags, pending, rank) && ready <= pending
    requires forall t :: t in pending ==> (t in ready <==> rank[t] == 0)
    requires pending - ready <= later.Keys && forall t :: t in pending - ready ==> later[t] + 1 == rank[t]
    ensures Timed(reg, Apply(reg, tags, ready), pending - ready, later)
  {
    var tags', pending' := Apply(reg, tags, ready), pending - ready;
    hide Apply;
    forall t, d | t in pending' && d in reg[t].depends ensures Met(reg, tags', pending', later, t, d) {
      assert Met(reg, tags, pending, rank, t, d);
      AfterRound(reg, tags, pending, ready, d);
    }
    forall t | t in pending' ensures Prompt(reg, pending', later, t) {
      assert Prompt(reg, pending, rank, t);
      if later[t] > 0 {
        var d :| d in reg[t].depends && Coming(reg, pending, d) && rank[d] + 1 == rank[t];
        assert Coming(reg, pending', d);
      }
    }
  }

  lemma {:induction false} TimedRunSucceeds(reg: Table, tags: set<Tag>, pending: set<Tag>, rank: map<Tag, nat>)
    requires Consistent(reg, tags, pending) && Timed(reg, tags, pending, rank)
    ensures Run(reg, tags, pending).ok
    decreases |pending|
  {
    if pending != {} {
      var ready := ReadySet(reg, pending, tags);
      SomeRoundZero(reg, tags, pending, rank);
      forall t | t in pending ensures t in ready <==> rank[t] == 0 { RoundZeroIsReady(reg, tags, pending, rank, t); }
      SmallerSet(pending - ready, pending, ready);
      RoundKeepsConsistent(reg, tags, pending, ready);
      var later := map t | t in pending - ready :: if rank[t] > 0 then rank[t] - 1 else 0;
      hide ReadySet, Timed, Consistent, Apply;
      MovedUp(reg, tags, pending, rank, ready, later);
      TimedRunSucceeds(reg, Apply(reg, tags, ready), pending - ready, later);
      RunStep(reg, tags, pending);
    }
  }

  // ----- the rounds of a finished run are a timetable -----

  lemma MovedDown(reg: Table, tags: set<Tag>, pending: set<Tag>, ready: set<Tag>, later: map<Tag, nat>, rank: map<Tag, nat>)
    requires Consistent(reg, tags, pending) && ready == ReadySet(reg, pending, tags)
    requires Timed(reg, Apply(reg, tags, ready), pending - ready, later)
    requires pending <= rank.Keys && forall t :: t in pending ==> rank[t] == if t in ready then 0 else later[t] + 1
    ensures Timed(reg, tags, pending, rank)
  {
    var tags', pending' := Apply(reg, tags, ready), pending - ready;
    hide Apply;
    forall t, d | t in pending && d in reg[t].depends ensures Met(reg, tags, pending, rank, t, d) {
      if t in ready {
        assert IsReady(reg, t, tags);
      } else {
        assert Met(reg, tags', pending', later, t, d);
        AfterRound(reg, tags, pending, ready, d);
      }
    }
    forall t | t in pending ensures Prompt(reg, pending, rank, t) {
      if t !in ready { PromptBefore(reg, tags, pending, ready, later, rank, t); }
    }
  }

  /** What is not ready now waits for something that is added now, or later. */
  lemma PromptBefore(reg: Table, tags: set<Tag>, pending: set<Tag>, ready: set<Tag>, later: map<Tag, nat>, rank: map<Tag, nat>, t: Tag)
    requires Consistent(reg, tags, pending) && ready == ReadySet(reg, pending, tags)
    requires Timed(reg, Apply(reg, tags, ready), pending - ready, later)
    requires pending <= rank.Keys && forall t :: t in pending ==> rank[t] == if t in ready then 0 else later[t] + 1
    requires t in pending && t !in ready
    ensures Prompt(reg, pending, rank, t)
  {
    var tags', pending' := Apply(reg, tags, ready), pending - ready;
    assert Prompt(reg, pending', later, t);
    if later[t] > 0 {
      var d :| d in reg[t].depends && Coming(reg, pending', d) && later[d] + 1 == later[t];
      assert Coming(reg, pending, d);
    } else {
      assert !IsReady(reg, t, tags);
      var d :| d in reg[t].depends && d !in tags;
      assert Met(reg, tags', pending', later, t, d);
      AfterRound(reg, tags, pending, ready, d);
      assert Coming(reg, pending, d);
    }
  }

  lemma {:induction false} SuccessfulRunIsTimed(reg: Table, tags: set<Tag>, pending: set<Tag>) returns (rank: map<Tag, nat>)
    requires Consistent(reg, tags, pending) && Run(reg, tags, pending).ok
    ensures Timed(reg, tags, pending, rank)
    decreases |pending|
  {
    if pending == {} {
      rank := map[];
    } else {
      var ready := ReadySet(reg, pending, tags);
      RunStep(reg, tags, pending);
      RoundKeepsConsistent(reg, tags, pending, ready);
      hide Run, Timed, Consistent, Apply;
      var later := SuccessfulRunIsTimed(reg, Apply(reg, tags, ready), pending - ready);
      TimedCovers(reg, Apply(reg, tags, ready), pending - ready, later);
      rank := map t | t in pending :: if t in ready then 0 else later[t] + 1;
      MovedDown(reg, tags, pending, ready, later, rank);
    }
  }

  lemma TimedCovers(reg: Table, tags: set<Tag>, pending: set<Tag>, rank: map<Tag, nat>)
    requires Timed(reg, tags, pending, rank)
    ensures pending <= rank.Keys
  {
  }

  /**
   Main result, for every table and every checkpoint: the loop finishes if and only if the pending
   migrations have a timetable in which each runs as early as the upgrades it depends on allow, and
   no later than the removal of a tag it depends on.
   */
  lemma RunFinishesIff(reg: Table, tags: set<Tag>)
    ensures Run(reg, tags, Pending(reg, tags)).ok <==> exists rank :: Timed(reg, tags, Pending(reg, tags), rank)
  {
    var pending := Pending(reg, tags);
    assert Consistent(reg, tags, pending);
    if Run(reg, tags, pending).ok {
      var rank := SuccessfulRunIsTimed(reg, tags, pending);
    }
    if rank :| Timed(reg, tags, pending, rank) {
      TimedRunSucceeds(reg, tags, pending, rank);
    }
  }

  // ----- timetables are unique -----

  /** There is only one timetable: it can be computed before the loop starts. */
  lemma {:induction false} TimetableIsUnique(reg: Table, tags: set<Tag>, pending: set<Tag>, a: map<Tag, nat>, b: map<Tag, nat>, t: Tag)
    requires Consistent(reg, tags, pending) && Timed(reg, tags, pending, a) && Timed(reg, tags, pending, b) && t in pending
    ensures a[t] == b[t]
    decreases a[t] + b[t]
  {
    assert Prompt(reg, pending, a, t) && Prompt(reg, pending, b, t);
    if a[t] > 0 {
      var d :| d in reg[t].depends && Coming(reg, pending, d) && a[d] + 1 == a[t];
      assert Met(reg, tags, pending, b, t, d);
      TimetableIsUnique(reg, tags, pending, a, b, d);
    }
    if b[t] > 0 {
      var d :| d in reg[t].depends && Coming(reg, pending, d) && b[d] + 1 == b[t];
      assert Met(reg, tags, pending, a, t, d);
      TimetableIsUnique(reg, tags, pending, a, b, d);
    }
  }
}
