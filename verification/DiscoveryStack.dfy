/**
 The stack of discoveries of src/cpu/o3/dvr_nested.cc (`DVRNestedController`): at most one child
 below a root, ended last in first out, each with a budget of committed instructions.
 */
module DiscoveryStack {
  datatype Frame = Frame(id: nat, parentId: nat, triggerPC: nat, triggerSequence: nat, committed: nat)

  datatype Event = NoEvent | Started | Completed | TimedOut | RejectedDepth | RejectedParent | RejectedOrder

  datatype Result = Result(event: Event, id: nat, parentId: nat, depth: nat, triggerPC: nat, finalLoadPC: nat, committed: nat)

  datatype Statistics = Statistics(
    rootStarts: nat, nestedStarts: nat, rootCompletions: nat, nestedCompletions: nat, rootTimeouts: nat, nestedTimeouts: nat,
    depthRejects: nat, parentRejects: nat, orderRejects: nat)

  const MaxDepth := 2

  function Nothing(): Result { Result(NoEvent, 0, 0, 0, 0, 0, 0) }

  /** One more committed instruction for every frame. */
  function Counted(frames: seq<Frame>): seq<Frame> {
    seq(|frames|, i requires 0 <= i < |frames| => frames[i].(committed := frames[i].committed + 1))
  }

  // ----- the stack as a value -----

  datatype Action = StartChild(newId: nat, parentId: nat, pc: nat, sequence: nat) | Finish(id: nat) | Commit(pc: nat, sequence: nat) | Cut

  /** The committed instruction closes the loop of the child on top. */
  predicate ClosesChild(frames: seq<Frame>, pc: nat, sequence: nat) {
    |frames| > 1 && sequence > frames[|frames| - 1].triggerSequence && pc == frames[|frames| - 1].triggerPC
  }

  /** The stack after a committed instruction. */
  function AfterCommit(max: nat, frames: seq<Frame>, pc: nat, sequence: nat): seq<Frame> {
    if frames == [] then []
    else if ClosesChild(frames, pc, sequence) then frames[..|frames| - 1]
    else if frames[|frames| - 1].committed + 1 >= max then Counted(frames)[..|frames| - 1]
    else Counted(frames)
  }

  function After(max: nat, frames: seq<Frame>, a: Action): seq<Frame> {
    match a
    case StartChild(newId, parentId, pc, sequence) =>
      if |frames| == 1 && frames[0].id == parentId then frames + [Frame(newId, parentId, pc, sequence, 0)] else frames
    case Finish(id) => if frames != [] && frames[|frames| - 1].id == id then frames[..|frames| - 1] else frames
    case Commit(pc, sequence) => AfterCommit(max, frames, pc, sequence)
    case Cut => []
  }

  // ----- the life of a root -----

  /** The stack above and including `root` after `k` actions. */
  function Stack(max: nat, root: Frame, run: seq<Action>, k: nat): seq<Frame>
    requires k <= |run|
  {
    if k == 0 then [root] else After(max, Stack(max, root, run, k - 1), run[k - 1])
  }

  /** Ids of children are newer than the root's. */
  predicate FreshId(root: Frame, a: Action) { a.StartChild? ==> a.newId > root.id }

  /** The action ends the root by itself: it is finished, or everything is cut off. */
  predicate Ends(frames: seq<Frame>, a: Action) {
    a.Cut? || (a.Finish? && |frames| == 1 && frames[0].id == a.id)
  }

  ghost predicate NotEnded(max: nat, root: Frame, run: seq<Action>, k: nat)
    requires k <= |run|
  {
    forall j :: 0 <= j < k ==> !Ends(Stack(max, root, run, j), run[j])
  }

  /** The depths at which commits are counted: what a caller sees before each of them. */
  function Depths(max: nat, root: Frame, run: seq<Action>, k: nat): seq<nat>
    requires k <= |run|
  {
    if k == 0 then []
    else
      var frames, a := Stack(max, root, run, k - 1), run[k - 1];
      if a.Commit? && frames != [] && !ClosesChild(frames, a.pc, a.sequence)
      then Depths(max, root, run, k - 1) + [|frames|] else Depths(max, root, run, k - 1)
  }

  /** From commit number `max` on, every commit was counted while a child was on the stack. */
  ghost predicate Shielded(max: nat, depths: seq<nat>) {
    forall j :: 0 <= j < |depths| && j + 1 >= max ==> depths[j] == 2
  }

  ghost predicate StackShape(root: Frame, frames: seq<Frame>, counted: nat) {
    && |frames| <= MaxDepth && (frames != [] ==> frames[0] == root.(committed := counted))
    && (|frames| == 2 ==> frames[1].id > root.id)
  }

  lemma {:induction false} StackHolds(max: nat, root: Frame, run: seq<Action>, k: nat)
    requires k <= |run| && root.committed == 0 && max > 0 && forall j :: 0 <= j < |run| ==> FreshId(root, run[j])
    ensures StackShape(root, Stack(max, root, run, k), |Depths(max, root, run, k)|)
    ensures Stack(max, root, run, k) != [] <==> NotEnded(max, root, run, k) && Shielded(max, Depths(max, root, run, k))
    ensures k > 0 && Stack(max, root, run, k - 1) == [] ==> Stack(max, root, run, k) == []
  {
    hide *;
    if k == 0 {
      LifeStarts(max, root, run);
    } else {
      StackHolds(max, root, run, k - 1);
      LifeUnfolds(max, root, run, k - 1);
      NotEndedStep(max, root, run, k - 1);
      StepOfLife(max, root, Stack(max, root, run, k - 1), Depths(max, root, run, k - 1), run[k - 1],
                 Stack(max, root, run, k), Depths(max, root, run, k));
    }
  }

  lemma LifeStarts(max: nat, root: Frame, run: seq<Action>)
    requires root.committed == 0
    ensures Stack(max, root, run, 0) == [root] && Depths(max, root, run, 0) == []
    ensures StackShape(root, [root], 0) && NotEnded(max, root, run, 0) && Shielded(max, [])
  {
  }

  lemma LifeUnfolds(max: nat, root: Frame, run: seq<Action>, k: nat)
    requires k < |run|
    ensures var frames, a := Stack(max, root, run, k), run[k];
            && Stack(max, root, run, k + 1) == After(max, frames, a)
            && Depths(max, root, run, k + 1) == if a.Commit? && frames != [] && !ClosesChild(frames, a.pc, a.sequence)
                                              then Depths(max, root, run, k) + [|frames|] else Depths(max, root, run, k)
  {
  }

  lemma StepOfLife(max: nat, root: Frame, frames: seq<Frame>, ds: seq<nat>, a: Action, now: seq<Frame>, ds': seq<nat>)
    requires StackShape(root, frames, |ds|) && max > 0 && FreshId(root, a) && now == After(max, frames, a)
    requires ds' == if a.Commit? && frames != [] && !ClosesChild(frames, a.pc, a.sequence) then ds + [|frames|] else ds
    ensures StackShape(root, now, |ds'|)
    ensures frames == [] ==> now == [] && (Shielded(max, ds') <==> Shielded(max, ds))
    ensures frames != [] ==> (Shielded(max, ds) ==> (now != [] <==> !Ends(frames, a) && Shielded(max, ds')))
  {
    ShieldedAppend(max, ds, |frames|);
    hide Shielded;
  }

  lemma ShieldedAppend(max: nat, ds: seq<nat>, d: nat)
    ensures Shielded(max, ds + [d]) <==> Shielded(max, ds) && (|ds| + 1 >= max ==> d == 2)
  {
    var all := ds + [d];
    if Shielded(max, all) {
      forall j | 0 <= j < |ds| && j + 1 >= max ensures ds[j] == 2 { assert all[j] == ds[j]; }
      assert all[|ds|] == d;
    }
  }

  lemma NotEndedStep(max: nat, root: Frame, run: seq<Action>, k: nat)
    requires k < |run|
    ensures NotEnded(max, root, run, k + 1) <==> NotEnded(max, root, run, k) && !Ends(Stack(max, root, run, k), run[k])
  {
    hide Stack, Ends;
  }

  /**
   For every run of a root: it is still active if and only if it was not ended by its owner and every
   commit from number `max` on was counted while a child was on the stack.
   */
  lemma RootActiveIff(max: nat, root: Frame, run: seq<Action>)
    requires root.committed == 0 && max > 0 && forall j :: 0 <= j < |run| ==> FreshId(root, run[j])
    ensures Stack(max, root, run, |run|) != [] <==> NotEnded(max, root, run, |run|) && Shielded(max, Depths(max, root, run, |run|))
    ensures Stack(max, root, run, |run|) != [] ==> Stack(max, root, run, |run|)[0].committed == |Depths(max, root, run, |run|)|
  {
    StackHolds(max, root, run, |run|);
  }

  class Controller {
    const maxInstructions: nat
    var frames: seq<Frame>
    var nextId: nat
    var counters: Statistics
    /** Discoveries cut off by a reset. */
    ghost var rootResets: nat
    ghost var nestedResets: nat

    /** Ids are fresh, parents are linked, and every start has ended, was reset or is on the stack. */
    ghost predicate Valid() reads this {
      && maxInstructions > 0 && |frames| <= MaxDepth && nextId >= 1
      && (forall i :: 0 <= i < |frames| ==> 0 < frames[i].id < nextId)
      && (|frames| > 0 ==> frames[0].parentId == 0)
      && (|frames| == 2 ==> frames[1].parentId == frames[0].id && frames[0].id < frames[1].id
                            && frames[1].committed <= frames[0].committed && frames[1].committed < maxInstructions)
      && counters.rootStarts == counters.rootCompletions + counters.rootTimeouts + rootResets + (if |frames| > 0 then 1 else 0)
      && counters.nestedStarts == counters.nestedCompletions + counters.nestedTimeouts + nestedResets + (if |frames| == 2 then 1 else 0)
    }

    constructor (maxInstructions: nat)
      requires maxInstructions > 0
      ensures Valid() && frames == [] && this.maxInstructions == maxInstructions && nextId == 1
      ensures counters == Statistics(0, 0, 0, 0, 0, 0, 0, 0, 0)
    {
      this.maxInstructions := maxInstructions;
      frames, nextId, counters := [], 1, Statistics(0, 0, 0, 0, 0, 0, 0, 0, 0);
      rootResets, nestedResets := 0, 0;
    }

    method StartRoot(pc: nat, sequence: nat) returns (r: Result)
      requires Valid()
      modifies this
      ensures Valid()
      ensures old(frames) != [] ==>
                && r == Result(RejectedParent, 0, 0, |frames|, 0, 0, 0) && frames == old(frames) && nextId == old(nextId)
                && counters == old(counters).(parentRejects := old(counters).parentRejects + 1)
      ensures old(frames) == [] ==>
                && r == Result(Started, old(nextId), 0, 1, pc, 0, 0) && frames == [Frame(r.id, 0, pc, sequence, 0)] && nextId == old(nextId) + 1
                && counters == old(counters).(rootStarts := old(counters).rootStarts + 1)
    {
      if frames != [] {
        counters := counters.(parentRejects := counters.parentRejects + 1);
        return Result(RejectedParent, 0, 0, |frames|, 0, 0, 0);
      }
      var id := nextId;
      nextId, frames := nextId + 1, [Frame(id, 0, pc, sequence, 0)];
      counters := counters.(rootStarts := counters.rootStarts + 1);
      return Result(Started, id, 0, 1, pc, 0, 0);
    }

    /** A child starts only below the top frame, which must be the root. */
    method StartNested(parentId: nat, pc: nat, sequence: nat) returns (r: Result)
      requires Valid()
      modifies this
      ensures Valid()
      ensures frames == After(maxInstructions, old(frames), StartChild(old(nextId), parentId, pc, sequence))
      ensures r.event == Started <==> |old(frames)| == 1 && parentId == old(frames[0].id)
      ensures r.event == RejectedDepth <==> |old(frames)| == 2 && parentId == old(frames[1].id)
      ensures r.event == Started ==>
                && r == Result(Started, old(nextId), parentId, 2, pc, 0, 0) && frames == old(frames) + [Frame(r.id, parentId, pc, sequence, 0)]
                && nextId == old(nextId) + 1 && counters == old(counters).(nestedStarts := old(counters).nestedStarts + 1)
      ensures r.event != Started ==>
                && frames == old(frames) && nextId == old(nextId) && r == Result(r.event, 0, 0, |frames|, 0, 0, 0)
                && (r.event == RejectedDepth ==> counters == old(counters).(depthRejects := old(counters).depthRejects + 1))
                && (r.event != RejectedDepth ==>
                      r.event == RejectedParent && counters == old(counters).(parentRejects := old(counters).parentRejects + 1))
    {
      if frames == [] || frames[|frames| - 1].id != parentId {
        counters := counters.(parentRejects := counters.parentRejects + 1);
        return Result(RejectedParent, 0, 0, |frames|, 0, 0, 0);
      }
      if |frames| == MaxDepth {
        counters := counters.(depthRejects := counters.depthRejects + 1);
        return Result(RejectedDepth, 0, 0, |frames|, 0, 0, 0);
      }
      var id := nextId;
      nextId, frames := nextId + 1, frames + [Frame(id, parentId, pc, sequence, 0)];
      counters := counters.(nestedStarts := counters.nestedStarts + 1);
      return Result(Started, id, parentId, |frames|, pc, 0, 0);
    }

    /** Only the top discovery can end. */
    method Complete(id: nat, finalLoadPC: nat) returns (r: Result)
      requires Valid()
      modifies this
      ensures Valid()
      ensures frames == After(maxInstructions, old(frames), Finish(id))
      ensures r.event == Completed <==> old(frames) != [] && old(frames[|frames| - 1].id) == id
      ensures nextId == old(nextId)
      ensures r.event == Completed ==>
                var f, n := old(frames[|frames| - 1]), |old(frames)|;
                && frames == old(frames[..|frames| - 1]) && r == Result(Completed, id, f.parentId, n, f.triggerPC, finalLoadPC, f.committed)
                && (n == 1 ==> counters == old(counters).(rootCompletions := old(counters).rootCompletions + 1))
                && (n == 2 ==> counters == old(counters).(nestedCompletions := old(counters).nestedCompletions + 1))
      ensures r.event != Completed ==>
                && r == Result(RejectedOrder, 0, 0, |frames|, 0, 0, 0) && frames == old(frames)
                && counters == old(counters).(orderRejects := old(counters).orderRejects + 1)
    {
      if frames == [] || frames[|frames| - 1].id != id {
        counters := counters.(orderRejects := counters.orderRejects + 1);
        return Result(RejectedOrder, 0, 0, |frames|, 0, 0, 0);
      }
      var f := frames[|frames| - 1];
      if |frames| == 1 {
        counters := counters.(rootCompletions := counters.rootCompletions + 1);
      } else {
        counters := counters.(nestedCompletions := counters.nestedCompletions + 1);
      }
      r := Result(Completed, f.id, f.parentId, |frames|, f.triggerPC, finalLoadPC, f.committed);
      frames := frames[..|frames| - 1];
    }

    /** A committed instruction counts for every discovery on the stack, unless it closes the child's loop. */
    method ObserveCommit(pc: nat, sequence: nat) returns (r: Result)
      requires Valid()
      modifies this
      ensures Valid()
      ensures frames == After(maxInstructions, old(frames), Commit(pc, sequence))
      ensures var closes := ClosesChild(old(frames), pc, sequence);
              && (r.event == Completed <==> closes)
              && (r.event == TimedOut <==> old(frames) != [] && !closes && old(frames)[|old(frames)| - 1].committed + 1 >= maxInstructions)
              && (r.event in {Completed, TimedOut, NoEvent})
      ensures nextId == old(nextId)
      ensures r.event == Completed <==>
                |old(frames)| == 2 && sequence > old(frames)[1].triggerSequence && pc == old(frames)[1].triggerPC
      ensures r.event == NoEvent ==>
                && |frames| == |old(frames)| && counters == old(counters) && r == Result(NoEvent, 0, 0, 0, 0, 0, 0)
                && forall i :: 0 <= i < |frames| ==> frames[i] == old(frames)[i].(committed := old(frames)[i].committed + 1)
      ensures r.event != NoEvent ==>
                var n := |old(frames)|;
                var f, rest := old(frames)[n - 1], old(frames)[..n - 1];
                && |frames| == n - 1
                && if r.event == Completed then
                     && frames == rest && r == Result(Completed, f.id, f.parentId, n, f.triggerPC, pc, f.committed)
                     && counters == old(counters).(nestedCompletions := old(counters).nestedCompletions + 1)
                   else
                     && (forall i :: 0 <= i < n - 1 ==> frames[i] == rest[i].(committed := rest[i].committed + 1))
                     && r == Result(TimedOut, f.id, f.parentId, n, f.triggerPC, 0, f.committed + 1)
                     && (n == 1 ==> counters == old(counters).(rootTimeouts := old(counters).rootTimeouts + 1))
                     && (n == 2 ==> counters == old(counters).(nestedTimeouts := old(counters).nestedTimeouts + 1))
    {
      if frames == [] {
        return Nothing();
      }
      var top := frames[|frames| - 1];
      if |frames| > 1 && sequence > top.triggerSequence && pc == top.triggerPC {
        r := Complete(top.id, pc);
        return;
      }
      for i := 0 to |frames|
        invariant |frames| == |old(frames)|
        invariant forall j :: 0 <= j < |frames| ==> frames[j] == if j < i then Counted(old(frames))[j] else old(frames)[j]
        invariant counters == old(counters) && nextId == old(nextId) && rootResets == old(rootResets) && nestedResets == old(nestedResets)
      {
        frames := frames[i := frames[i].(committed := frames[i].committed + 1)];
      }
      assert frames == Counted(old(frames));
      if frames[|frames| - 1].committed >= maxInstructions {
        var f := frames[|frames| - 1];
        if |frames| == 1 {
          counters := counters.(rootTimeouts := counters.rootTimeouts + 1);
        } else {
          counters := counters.(nestedTimeouts := counters.nestedTimeouts + 1);
        }
        r := Result(TimedOut, f.id, f.parentId, |frames|, f.triggerPC, 0, f.committed);
        frames := frames[..|frames| - 1];
        return;
      }
      return Nothing();
    }

    method Reset()
      requires Valid()
      modifies this
      ensures Valid() && frames == After(maxInstructions, old(frames), Cut) && counters == old(counters) && nextId == old(nextId)
    {
      rootResets := rootResets + if |frames| > 0 then 1 else 0;
      nestedResets := nestedResets + if |frames| == 2 then 1 else 0;
      frames := [];
    }
  }

  /**
   The shielded case occurs: while children come and go the root is never looked at, so that it
   survives any number of committed instructions.
   */
  method RootOutlivesBudget(max: nat, n: nat) returns (c: Controller)
    requires max >= 2
    ensures c.Valid() && c.maxInstructions == max && |c.frames| == 1 && c.frames[0].committed == n
  {
    c := new Controller(max);
    var r := c.StartRoot(1, 1);
    for k := 0 to n
      invariant c.Valid() && c.maxInstructions == max && |c.frames| == 1 && c.frames[0].committed == k && fresh(c)
    {
      r := c.StartNested(c.frames[0].id, 2, 2);
      r := c.ObserveCommit(3, 3);
      r := c.Complete(c.frames[1].id, 3);
    }
  }
}
