# Models of a decoupled vector runahead simulator and its tools

The repository extends the gem5 out-of-order CPU with Decoupled Vector Runahead: a helper that
discovers striding loads, infers how many iterations of their loop are left, replays the dependent
instructions for up to 128 lanes ahead of the program and prefetches what they touch. Around it are
scripts that print pipeline traces, encode and decode dependency traces, migrate and merge
checkpoints, bind ports and build test systems. This project models the algorithmic core of both in
Dafny and proves what it does on all inputs. `dafny verify dfyconfig.toml` checks everything.

| module | subject |
|---|---|
| VectorExecutor, VectorDataflow, VectorSchedule, VectorRefinement | what lanes compute, and lanes issued in groups with a reconvergence stack, against lanes executed one by one |
| VectorPrograms, VectorShapes | slices for which the group executor is always right, and finishes |
| VectorMeeting, VectorSharing, VectorRewound, VectorReconvergence | the reconvergence policy and exactly when it is safe |
| VectorWays, VectorRepeats | PCs captured more than once, and exactly when that is safe |
| LoopBound | inferred iterations against the trip count of the 64-bit machine |
| TaintTracker | speculative dependence tracking: rollback and non-interference |
| ShadowCache, PrefetchEvents, PrefetchQuality | least-recently-used shadow cache, prefetch counters: conservation laws and what they count |
| NestedDiscovery, DiscoveryStack | the outer-loop plan and the stack of discoveries |
| BfsOracle | breadth-first search and its event trace |
| PipeViewQueue, PipeViewTimeline | the reorder buffer and the drawing of the pipeline viewer |
| CheckpointUpgrader, UpgraderTiming, UpgraderLoader | dependency rounds of checkpoint migrations, loading of the scripts |
| PortBinder | greedy binding of ports |
| BitOps, VarintFraming | varints and length-prefixed messages |
| Text, DepRecord | dependency records as text |
| CheckpointAggregator, MemTestTree | merging of checkpoint memories, recursive cache trees |
| YearRanges, LogRoll, LatencyRanges | year compression, line buffer, range generator |
| Wrappers, Arithmetic | optional values, 64-bit numbers |

Code that updates objects is modelled by classes with the same fields and loops, proved against
functions on values; the properties are lemmas about those functions. Integers are unbounded except
where the width matters (registers, addresses, strides and varints), and there wrap-around is written out.

Where the code does not keep what its comments or its purpose promise, the model follows the code, a
lemma gives a concrete case, and another one says when the code is right:

- the group executor may issue a parked lane and rewind it later, so that it executes operations twice (`VectorReconvergence.PolicyIsSafeIff`);
- lanes issued together may execute another capture of their PC than they would alone (`VectorWays.AlwaysCleanIff`);
- the loop bound ignores which operand of the branch moves, and its rounding sum can overflow (`LoopBound.TripCountIff`);
- a root discovery is not bounded by its instruction budget while children come and go (`DiscoveryStack.RootActiveIff`);
- taint is lost in memory and in registers that are not tracked (`TaintTracker.UntaintedIsIndependentIff`);
- accuracy per issued prefetch can exceed 1 (`PrefetchQuality.IssuedAccuracyIff`);
- sorted port connections are not always bindable, against the comment in `bind_ports` (`PortBinder.SucceedsIff`);
- a migration that could be ordered aborts if it depends on a tag that the same run removes (`UpgraderTiming.RunFinishesIff`);
- a checkpoint memory shorter than announced shifts every memory behind it (`CheckpointAggregator.RelocationFindsByteIff`);
- a message of 2^32 bytes or more is cut (`VarintFraming.FramingRoundTripIff`), a damaged length ends the decoder with an error that nobody catches (`VarintFraming.RaisesIff`), and a run of years outside four digits is lost (`YearRanges.DatesRoundTripIff`).

## Model

| member | source | states |
|---|---|---|
| `VectorRefinement.ResponsesAreLaneWise` | code/gem5-runahead-dev-pre/src/cpu/o3/pre.cc:1950-2311 | For every program, also with PCs captured repeatedly, every number of lanes and every order of responses (one per lane at most): in clean calls every lane ends in a state it reaches from its source value by its own steps, with its own window, and every parked lane stands where its single stack entry will resume it. A call is clean if it issues no parked lane, parks no lane of another group, gives up no lane that could go on, and each lane it moves would have acted the same alone |
| `VectorRefinement.RunIsLaneWise` | code/gem5-runahead-dev-pre/src/cpu/o3/pre.cc:1981-2298 | One call of the group executor, for every budget: each lane ends where some number of its own steps leads, and lanes without source value are untouched |
| `VectorRefinement.StepIsLaneWise` | code/gem5-runahead-dev-pre/src/cpu/o3/pre.cc:1981-2294 | One iteration, with reconvergence, fetch, issue and divergence: the lanes that move do exactly one step of their own, all others nothing, and the parking invariant is kept |
| `VectorRefinement.PopKeeps` | code/gem5-runahead-dev-pre/src/cpu/o3/pre.cc:1982-2022 | Resuming the lanes of the top stack entry moves none of them and keeps every other entry right |
| `VectorRefinement.ParkKeeps` | code/gem5-runahead-dev-pre/src/cpu/o3/pre.cc:2258-2294 | A divergence puts the lanes that leave the first lane's path into exactly one new entry, with the PC they all stand at |
| `VectorShapes.UniformProgramsFinish` | code/gem5-runahead-dev-pre/src/cpu/o3/pre.cc:1950-2311 | Progress and correctness for slices that never branch on loaded values: whatever the operations compute and in whatever order the responses come, if each lane alone ends within n steps and the budget allows n steps per lane, every lane ends exactly where its own execution ends |
| `VectorShapes.DiamondProgramsFinish` | code/gem5-runahead-dev-pre/src/cpu/o3/pre.cc:1950-2311 | The same with divergence: slices that branch on loaded values once, at their entry, and whose sides stay apart up to the reconvergence PC |
| `VectorShapes.OrderlyProgramsAreLaneWise` | code/gem5-runahead-dev-pre/src/cpu/o3/pre.cc:1950-2311 | For the same slices, any budget and any subset of responses: every call is clean, and each lane is in a state of its own execution |
| `VectorShapes.OrderlyStep` | code/gem5-runahead-dev-pre/src/cpu/o3/pre.cc:1981-2298 | Their reachable states (all lanes at the branch, one side waiting while the other follows its path, or nobody waiting) are closed under the step, every step is clean, and the stack never overflows |
| `VectorShapes.StepMoves` | code/gem5-runahead-dev-pre/src/cpu/o3/pre.cc:1981-2298 | Once all source values are there, a step moves some active lane, or all lanes have ended |
| `VectorShapes.BranchParks` | code/gem5-runahead-dev-pre/src/cpu/o3/pre.cc:2258-2294 | The branch parks exactly the lanes of the other direction, at its PC |
| `VectorPrograms.CoherentIff` | code/gem5-runahead-dev-pre/src/cpu/o3/pre.cc:1760-1781 | One issue when PCs repeat: whatever registers and windows two lanes at a PC have, the operation the leader fetches does to the other what its own would have done, if and only if all captures of a PC that windows can show act alike |
| `VectorPrograms.OwnStepsAreScalar` | code/gem5-runahead-dev-pre/src/cpu/o3/pre.cc:1760-1781 | For such slices the window never changes what a lane does |
| `VectorWays.AlwaysCleanIff` | code/gem5-runahead-dev-pre/src/cpu/o3/pre.cc:1950-2311 | Whole runs when PCs repeat, for slices that never branch on loaded values and whose operations have results: in every step of every run, for all lanes, responses and budgets, every lane is done to what it would have done alone, if and only if the entry is a branch, which keeps all lanes together, or the way of a lane, with the windows it fills, goes on as before wherever it comes back to a PC; the way is known before the first call |
| `VectorWays.FollowStep` | code/gem5-runahead-dev-pre/src/cpu/o3/pre.cc:2044-2065 | Only the leader fills its window: the first of the ready lanes at each PC keeps the window it would have alone, and that is enough |
| `VectorWays.OwnGoes` | code/gem5-runahead-dev-pre/src/cpu/o3/pre.cc:1760-1781 | On its own every lane of such a slice follows the same way, whatever it loaded |
| `VectorWays.DifferIsUnclean` | code/gem5-runahead-dev-pre/src/cpu/o3/pre.cc:2115-2127 | The other half: where the way comes back and goes on differently, two lanes, two responses and a budget give a step that takes a lane along the wrong way |
| `VectorRepeats.UnreachedCapturesDoNotMatter` | code/gem5-runahead-dev-pre/src/cpu/o3/pre.cc:1007-1045 | A slice that is not coherent and whose runs are all right, because no lane comes to the captures that disagree |
| `VectorRepeats.RepeatedPCsDiffer` | code/gem5-runahead-dev-pre/src/cpu/o3/pre.cc:1007-1045 | A slice that captures an inner back edge taken and then not taken: the group executor leaves a lane in a state that it never has alone |
| `VectorReconvergence.PolicyIsSafeIff` | code/gem5-runahead-dev-pre/src/cpu/o3/pre.cc:1085-1134 | The reconvergence policy, for forward slices that branch at their entry and whose sides both reach the final load: the group executor is right for every meaning of the operations, all lanes, responses and budgets, if and only if no side writes a register after it has met the start of the other and before the final load |
| `VectorReconvergence.DiamondIsSafeIff` | code/gem5-runahead-dev-pre/src/cpu/o3/pre.cc:2258-2294 | The same for any reconvergence PC of the branch |
| `VectorReconvergence.SetReconvergencePC` | code/gem5-runahead-dev-pre/src/cpu/o3/pre.cc:1085-1134 | The two searches and the marking loop, said by quantifiers over the captures: a conditional branch with a capture of the final load at or behind it gets the final load, one behind the last such capture with no capture of the loop branch from there up to itself gets the loop branch, and everything else stays as it was |
| `VectorReconvergence.PolicyMeans` | code/gem5-runahead-dev-pre/src/cpu/o3/pre.cc:1085-1134 | The same for every list of captures, as a lemma about the policy |
| `VectorReconvergence.EntryReconvergesAtFlr` | code/gem5-runahead-dev-pre/src/cpu/o3/pre.cc:1095-1120 | A branch at or before the final load reconverges at the final load |
| `VectorReconvergence.PolicyMayBeWrong` | code/gem5-runahead-dev-pre/src/cpu/o3/pre.cc:1085-1134 | An instance: a branch that skips one operation, with an accumulating one before the final load |
| `VectorReconvergence.ApartIsRight` | code/gem5-runahead-dev-pre/src/cpu/o3/pre.cc:1950-2311 | In particular every meaning of the operations gives lane-wise results where the sides stay apart |
| `VectorReconvergence.QuietIsAlwaysRight` | code/gem5-runahead-dev-pre/src/cpu/o3/pre.cc:1950-2311 | One half: where nothing that the sides share writes a register, every meaning of the operations gives lane-wise results |
| `VectorSharing.QuietIsRight` | code/gem5-runahead-dev-pre/src/cpu/o3/pre.cc:1950-2311 | The runs behind it, for every response order and budget: each lane is in a state of its own execution, also lanes that were issued while they were parked and sent back later |
| `VectorSharing.SidedStep` | code/gem5-runahead-dev-pre/src/cpu/o3/pre.cc:1981-2294 | One step while a side waits: parked lanes may go along with the other side, keep their registers, and are sent back to the start of their own |
| `VectorReconvergence.MeetingIsWrong` | code/gem5-runahead-dev-pre/src/cpu/o3/pre.cc:2123-2127 | The other half: where they meet and a register is written, some meaning, two lanes and two responses give a state that the second lane never has alone |
| `VectorRewound.MeetingShows` | code/gem5-runahead-dev-pre/src/cpu/o3/pre.cc:2123-2127 | The run behind it, for every such slice: the parked lane is issued with the first one, sent back with its new registers and left at the start of its side |
| `VectorRewound.MeetingCorrupts` | code/gem5-runahead-dev-pre/src/cpu/o3/pre.cc:2123-2127 | If an operation on the shared part accumulates, the lane never gets right again: its state is foreign for every budget that lets the lanes reconverge |
| `VectorMeeting.PartedLanesMeet` | code/gem5-runahead-dev-pre/src/cpu/o3/pre.cc:1982-2022 | From the divergence on: where exactly the second lane is after every long enough run |
| `VectorExecutor.VectorInstructionRegister.constructor` | code/gem5-runahead-dev-pre/src/cpu/o3/pre.cc:1709-1738 | All lanes, 128 at most, wait at the entry behind the source load, and there is no lane if there is no such entry |
| `VectorExecutor.VectorInstructionRegister.ResumeSourceLane` | code/gem5-runahead-dev-pre/src/cpu/o3/pre.cc:1740-1948 | The scalar executor makes exactly the counted number of steps of one lane, each with its window, until the budget is used up or the lane ends, and touches no other lane; what the steps compute is stated by OwnStepsFlow and OwnStepGoes |
| `VectorExecutor.VectorInstructionRegister.ResumeSourceLanes` | code/gem5-runahead-dev-pre/src/cpu/o3/pre.cc:1950-2311 | The loops of the group executor compute the run the lemmas above are about; what the run does is stated by StepIs and RunIs, what the lanes then hold by GroupFlows |
| `VectorExecutor.VectorInstructionRegister.PopReconverged` | code/gem5-runahead-dev-pre/src/cpu/o3/pre.cc:1982-2022 | The pop is done exactly when a selected lane is at the reconvergence PC or no selected lane is left |
| `VectorDataflow.OwnStepsFlow` | code/gem5-runahead-dev-pre/src/cpu/o3/pre.cc:1740-1948 | Every lane of every slice, after any number of its own steps: each register holds what the last executed operation that wrote it computed from the values of its first and its second source at that time, or its first value; said without the lane's state |
| `VectorDataflow.OwnStepGoes` | code/gem5-runahead-dev-pre/src/cpu/o3/pre.cc:1760-1930 | Every step: the entry fetched is the first capture of the PC in the window or else the first one at all, the window is refilled with eight entries from there, a branch goes to its target exactly if its comparison of the values of both sources holds, and where every other operation leads or ends |
| `VectorDataflow.StraightSliceFlows` | code/gem5-runahead-dev-pre/src/cpu/o3/pre.cc:1806-1809 | In a straight slice the values are those of the operations in their captured order |
| `VectorDataflow.GroupFlows` | code/gem5-runahead-dev-pre/src/cpu/o3/pre.cc:2132-2217 | The same for the group executor in clean calls: from the registers with the response of the lane in the destination of the source load, every register of every lane has its data-flow value |
| `VectorSchedule.StepIs` | code/gem5-runahead-dev-pre/src/cpu/o3/pre.cc:1981-2298 | Every iteration of the group executor, said by quantifiers over the lanes and the stack: when the top entry is resumed and where, which lane leads, what it fetches, when a branch waits, which lanes execute, which are parked, with which PC and reconvergence PC, and when the stack of eight overflows |
| `VectorSchedule.IssueIs` | code/gem5-runahead-dev-pre/src/cpu/o3/pre.cc:2086-2294 | The issue alone, from any state |
| `VectorSchedule.RunIs` | code/gem5-runahead-dev-pre/src/cpu/o3/pre.cc:1981-2298 | A call is a sequence of such iterations, until its budget is used up or one does not continue |
| `VectorSchedule.ResumeIs` | code/gem5-runahead-dev-pre/src/cpu/o3/pre.cc:1950-1979 | A response changes only the destination register and the ready flag of its lane before that, and nothing at all for an inactive or unknown lane or without budget |
| `VectorExecutor.BranchReady` | code/gem5-runahead-dev-pre/src/cpu/o3/pre.cc:2086-2103 | A branch is held back exactly while an active, unparked lane at its PC has no source value |
| `VectorExecutor.IssueLanes` | code/gem5-runahead-dev-pre/src/cpu/o3/pre.cc:2115-2251 | All ready lanes at the PC execute, and divergence is found exactly when both directions occur |
| `VectorExecutor.ParkLanes` | code/gem5-runahead-dev-pre/src/cpu/o3/pre.cc:2266-2293 | Which lanes are parked, and that the last one's PC is the one kept |
| `LoopBound.TripCountIff` | code/gem5-runahead-dev-pre/src/cpu/o3/pre.cc:2594-2658 | For the five comparisons, either order of the operands, every value of the registers and every step: the inferred number is the number of times the back edge is taken on the 64-bit machine if and only if a condition on the registers holds, given case by case |
| `LoopBound.ForwardTripCountIff` | code/gem5-runahead-dev-pre/src/cpu/o3/pre.cc:2594-2658 | Moving register first, step in the signed range: right exactly if neither the rounding sum nor the register leaves 64 bits |
| `LoopBound.SwappedTripCountIff` | code/gem5-runahead-dev-pre/src/cpu/o3/pre.cc:2572-2658 | Bound first: right exactly if the rounding sum overflows, or, for greater-equal at the bound, if the next value stays in range upwards or leaves it downwards |
| `LoopBound.SaturatedTripCountIff` | code/gem5-runahead-dev-pre/src/cpu/o3/pre.cc:2557-2571 | Step outside the signed range, where the inference saturates: right exactly in two narrow cases |
| `LoopBound.TakenAtSteps` | code/gem5-runahead-dev-pre/src/cpu/o3/pre.cc:2598-2649 | At the rounded-up quotient the branch is taken exactly when the register wrapped around |
| `LoopBound.RemainingMeans` | code/gem5-runahead-dev-pre/src/cpu/o3/pre.cc:2656-2656 | The 64-bit quotient is the rounded-up one, and exactly 0 when the sum overflows |
| `LoopBound.NoLaneIffOverflow` | code/gem5-runahead-dev-pre/src/cpu/o3/pre.cc:2656-2657 | No lane is left of an accepted loop exactly when the sum overflows |
| `LoopBound.OverflowChangesSign` | code/gem5-runahead-dev-pre/src/cpu/o3/pre.cc:2656-2657 | That happens for signed comparisons only, when the step just changed the sign of the register |
| `LoopBound.SwappedOperandsMisjudged` | code/gem5-runahead-dev-pre/src/cpu/o3/pre.cc:2572-2610 | The inference ignores which operand moves: with the bound first, a less-than loop is over at once, and the count is right exactly when it overflows to 0 |
| `LoopBound.RoundingOverflows` | code/gem5-runahead-dev-pre/src/cpu/o3/pre.cc:2656-2657 | A concrete loop that goes on and for which no lane is left |
| `LoopBound.InferredLanes` | code/gem5-runahead-dev-pre/src/cpu/o3/pre.cc:2532-2659 | A matched inference: its induction variable, its count, and the lanes as the count capped by the maximum, with the same if-and-only-if about the step the register really makes |
| `LoopBound.InferMeans` | code/gem5-runahead-dev-pre/src/cpu/o3/pre.cc:2532-2659 | The inference on the registers alone, for five comparisons and either operand order: if exactly one of the two registers moved between the snapshots, or else between the first snapshot and the branch, it is matched if and only if that register is on its way to the other one; bound, increment and remaining count are then those of its way, in closed form, and otherwise nothing is matched |
| `LoopBound.Infer` | code/gem5-runahead-dev-pre/src/cpu/o3/pre.cc:2532-2546 | Lanes never exceed the maximum, and every unmatched loop falls back to at most 128 lanes |
| `TaintTracker.Tracker.Squash` | code/gem5-runahead-dev-pre/src/cpu/o3/pre.cc:358-369 | After a squash the taint, the final load register and the undo history are those of the instructions older than it, and of no others |
| `TaintTracker.Tracker.ObserveSpeculative` | code/gem5-runahead-dev-pre/src/cpu/o3/pre.cc:350-356 | Dispatch in sequence order extends the path whose replay the tracker is at every moment |
| `TaintTracker.Tracker.Begin` | code/gem5-runahead-dev-pre/src/cpu/o3/pre.cc:318-325 | Exactly the tracked destinations of the trigger load are tainted at the start |
| `TaintTracker.Tracker.Observe` | code/gem5-runahead-dev-pre/src/cpu/o3/pre.cc:327-348 | One instruction: a register it writes is tainted exactly if one it reads was, all others keep their taint, and a load with a tainted source becomes the final load |
| `TaintTracker.TaintMeans` | code/gem5-runahead-dev-pre/src/cpu/o3/pre.cc:327-348 | On every path: a register is tainted exactly if the last instruction that wrote it read a tainted one, or if nothing wrote it and it was tainted at the start |
| `TaintTracker.FinalLoadMeans` | code/gem5-runahead-dev-pre/src/cpu/o3/pre.cc:340-344 | And the final load register holds the last load that read a tainted register, or what it held at the start |
| `TaintTracker.Tracker.Classify` | code/gem5-runahead-dev-pre/src/cpu/o3/pre.cc:371-382 | Tainted exactly if some tracked source register is |
| `TaintTracker.UntaintedIsIndependentIff` | code/gem5-runahead-dev-pre/src/cpu/o3/pre.cc:291-348 | Non-interference, exactly: on every path of instructions with their loads and stores, untainted registers have the same value for every value of the trigger load, whatever the instructions compute, if and only if the tracker covers the taint that a tracker of all registers and memory cells would have there |
| `TaintTracker.FullTaintIsSound` | code/gem5-runahead-dev-pre/src/cpu/o3/pre.cc:327-348 | The reference: without full taint a location does not depend on the trigger load |
| `TaintTracker.FullTaintIsExact` | code/gem5-runahead-dev-pre/src/cpu/o3/pre.cc:327-348 | With full taint it does, for instructions that add |
| `TaintTracker.TaintIsPrecise` | code/gem5-runahead-dev-pre/src/cpu/o3/pre.cc:327-348 | The tracker never taints a register that full tracking would not |
| `TaintTracker.CoversWithoutLoss` | code/gem5-runahead-dev-pre/src/cpu/o3/pre.cc:327-348 | Where it goes wrong: only behind an instruction that reads full taint from where the tracker does not look |
| `TaintTracker.LossMissesDestination` | code/gem5-runahead-dev-pre/src/cpu/o3/pre.cc:327-348 | And there it does go wrong, if a tracked register is written |
| `TaintTracker.UntrackedRegisterLosesTaint` | code/gem5-runahead-dev-pre/src/cpu/o3/pre.cc:292-297 | A value passed through a floating-point register leaves its taint behind |
| `TaintTracker.StoreAndLoadLosesTaint` | code/gem5-runahead-dev-pre/src/cpu/o3/pre.cc:327-348 | So does a value stored and loaded again, with tracked registers only |
| `TaintTracker.FinalLoadIsLast` | code/gem5-runahead-dev-pre/src/cpu/o3/pre.cc:340-344 | The final load register holds the last dependent load of the path |
| `ShadowCache.ContainsIff` | code/gem5-runahead-dev-pre/src/cpu/o3/dvr_quality.cc:18-42 | A set in least-recently-used order contains a line exactly if it was accessed and fewer than `ways` other lines of its set were accessed since |
| `ShadowCache.TouchKeepsLru` | code/gem5-runahead-dev-pre/src/cpu/o3/dvr_quality.cc:28-42 | Every access, hit or miss, with or without eviction, keeps the list in that order and every evicted line beyond reach |
| `ShadowCache.Cache.Access` | code/gem5-runahead-dev-pre/src/cpu/o3/dvr_quality.cc:28-42 | Hit if and only if fewer than `ways` distinct lines of the set came since the last access, after every history |
| `ShadowCache.Cache.Contains` | code/gem5-runahead-dev-pre/src/cpu/o3/dvr_quality.cc:18-26 | The same for a lookup without access |
| `ShadowCache.SinceMeans` | code/gem5-runahead-dev-pre/src/cpu/o3/dvr_quality.cc:28-42 | The reference: the lines accessed after the last access to a line |
| `PrefetchQuality.RatiosAreProportions` | code/gem5-runahead-dev-pre/src/cpu/o3/dvr_quality.cc:187-200 | After every run fill accuracy, coverage and timeliness lie between 0 and 1 |
| `PrefetchQuality.IssuedAccuracyIff` | code/gem5-runahead-dev-pre/src/cpu/o3/dvr_quality.cc:187-191 | Accuracy per issued request does not: whatever happens before the next request or prefetch fill, it stays at most 1 if and only if nothing was issued, or the fills that were used in time or can still be used are no more than the requests issued |
| `PrefetchQuality.UsableShrinks` | code/gem5-runahead-dev-pre/src/cpu/o3/dvr_quality.cc:114-185 | No lookup, eviction, removal, demand fill, completion or drop makes more fills usable |
| `PrefetchQuality.UseAll` | code/gem5-runahead-dev-pre/src/cpu/o3/dvr_quality.cc:124-131 | Looking up every unused line reaches that bound |
| `PrefetchQuality.IssuedAccuracyExceedsOne` | code/gem5-runahead-dev-pre/src/cpu/o3/dvr_quality.cc:190-191 | One issued request and two used fills give 2 |
| `PrefetchQuality.RunMeans` | code/gem5-runahead-dev-pre/src/cpu/o3/dvr_quality.cc:57-185 | After every run each counter is the number of events of the history that it is about, counted without the tracker's state: covered misses are the lookups that hit, use a prefetched line first and miss in the shadow; likewise the timely and late uses, polluted misses, lead time, fills, evictions, requests and bytes |
| `PrefetchQuality.MeansStep` | code/gem5-runahead-dev-pre/src/cpu/o3/dvr_quality.cc:57-185 | Every event keeps this, and keeps the sets of lines (prefetched and unused, reported late, displaced by a prefetch) those of the history |
| `PrefetchQuality.CountsStep` | code/gem5-runahead-dev-pre/src/cpu/o3/dvr_quality.cc:114-185 | The counters after one event |
| `PrefetchQuality.LookUpKeeps` | code/gem5-runahead-dev-pre/src/cpu/o3/dvr_quality.cc:114-140 | A demand lookup keeps the conservation laws of all counters |
| `PrefetchQuality.EvictKeeps` | code/gem5-runahead-dev-pre/src/cpu/o3/dvr_quality.cc:150-163 | So does an eviction with its pollution bookkeeping |
| `PrefetchQuality.FillKeeps` | code/gem5-runahead-dev-pre/src/cpu/o3/dvr_quality.cc:165-172 | So do fills of both origins: every fill is redundant, unused so far, used in time or too late, evicted unused or overwritten |
| `PrefetchQuality.DropKeeps` | code/gem5-runahead-dev-pre/src/cpu/o3/dvr_quality.cc:67-111 | So do completion and drop: every issued request and byte is outstanding, completed or dropped |
| `PrefetchQuality.RemoveKeeps` | code/gem5-runahead-dev-pre/src/cpu/o3/dvr_quality.cc:175-185 | So does a removal |
| `PrefetchQuality.Tracker.Issued` | code/gem5-runahead-dev-pre/src/cpu/o3/dvr_quality.cc:57-65 | A duplicate id is refused, any other becomes outstanding |
| `PrefetchQuality.Tracker.Completed` | code/gem5-runahead-dev-pre/src/cpu/o3/dvr_quality.cc:67-85 | An unknown id is refused, any other completes with its bytes |
| `PrefetchQuality.Tracker.CompletedLine` | code/gem5-runahead-dev-pre/src/cpu/o3/dvr_quality.cc:87-96 | All requests for a line complete, and no other; their number and bytes go to the completed counters, and nothing else changes |
| `PrefetchQuality.Tracker.Dropped` | code/gem5-runahead-dev-pre/src/cpu/o3/dvr_quality.cc:98-111 | A drop forgets a request without counting it |
| `PrefetchQuality.Tracker.DemandLookup` | code/gem5-runahead-dev-pre/src/cpu/o3/dvr_quality.cc:114-140 | The whole new state after a lookup, where the shadow hits exactly if fewer than `ways` other lines of the set were accessed on demand since; the lookup joins the history that the counters count |
| `PrefetchQuality.Tracker.CacheFill` | code/gem5-runahead-dev-pre/src/cpu/o3/dvr_quality.cc:142-173 | The whole new state after a fill; pollution exactly if a prefetch displaces a demand line that a cache without prefetches would hold |
| `PrefetchQuality.Tracker.CacheRemove` | code/gem5-runahead-dev-pre/src/cpu/o3/dvr_quality.cc:175-185 | The whole new state after a removal |
| `NestedDiscovery.PlanIsStrided` | code/gem5-runahead-dev-pre/src/cpu/o3/dvr_nested.cc:263-317 | A ready plan: invocation k starts k outer strides behind the first, in the outer and in the inner loop, modulo 2^64, with the same lanes and mask |
| `NestedDiscovery.DiscoveryMode.ObserveOuterLoad` | code/gem5-runahead-dev-pre/src/cpu/o3/dvr_nested.cc:319-395 | Over the loads seen since the search began: an outer loop is accepted exactly when its load is among the first eight PCs seen and its last three addresses have two equal, non-zero differences; those three addresses start the plan |
| `NestedDiscovery.SampledProbes` | code/gem5-runahead-dev-pre/src/cpu/o3/dvr_nested.cc:361-380 | A probe holds the last addresses of its load and their difference, after every further address |
| `NestedDiscovery.FreeProbe` | code/gem5-runahead-dev-pre/src/cpu/o3/dvr_nested.cc:342-360 | A load that is new gets the first free probe; the probes are held by the first PCs seen, in order |
| `NestedDiscovery.DiscoveryMode.ContinuePlan` | code/gem5-runahead-dev-pre/src/cpu/o3/dvr_nested.cc:325-338 | Further addresses join only in stride and up to sixteen, so the plan stays an arithmetic progression |
| `NestedDiscovery.DiscoveryMode.AcceptOuter` | code/gem5-runahead-dev-pre/src/cpu/o3/dvr_nested.cc:423-443 | Exactly when an outer load is accepted |
| `NestedDiscovery.DiscoveryMode.RecordOuterInvocation` | code/gem5-runahead-dev-pre/src/cpu/o3/dvr_nested.cc:263-317 | Recorded exactly once per plan; then there is one invocation for every base |
| `NestedDiscovery.DiscoveryMode.Start` | code/gem5-runahead-dev-pre/src/cpu/o3/dvr_nested.cc:167-206 | A search is not restarted, and a ready plan survives exactly for the same inner load |
| `NestedDiscovery.DiscoveryMode.ObserveInnerBranch` | code/gem5-runahead-dev-pre/src/cpu/o3/dvr_nested.cc:228-261 | The first enclosing back edge is captured with one mask bit per lane, later ones are not |
| `NestedDiscovery.DiscoveryMode.ObserveCommit` | code/gem5-runahead-dev-pre/src/cpu/o3/dvr_nested.cc:404-421 | Without progress every phase ends within its own budget |
| `NestedDiscovery.Materialize` | code/gem5-runahead-dev-pre/src/cpu/o3/dvr_nested.cc:290-304 | The remaining invocations are the first one moved along with its base |
| `DiscoveryStack.Controller.StartNested` | code/gem5-runahead-dev-pre/src/cpu/o3/dvr_nested.cc:43-58 | A child starts exactly below a root that names itself as parent; result, ids and every counter |
| `DiscoveryStack.Controller.StartRoot` | code/gem5-runahead-dev-pre/src/cpu/o3/dvr_nested.cc:30-41 | A root starts exactly on an empty stack, with a fresh id |
| `DiscoveryStack.Controller.Complete` | code/gem5-runahead-dev-pre/src/cpu/o3/dvr_nested.cc:95-111 | Last in, first out: only the top discovery completes; result and every counter |
| `DiscoveryStack.Controller.ObserveCommit` | code/gem5-runahead-dev-pre/src/cpu/o3/dvr_nested.cc:75-93 | Counting, completion of a child at its trigger, and time-out of the top; starts equal completions, time-outs, resets and frames on the stack |
| `DiscoveryStack.RootActiveIff` | code/gem5-runahead-dev-pre/src/cpu/o3/dvr_nested.cc:75-93 | The budget of a root, exactly: in every run it is still active if and only if its owner has not ended it and every commit from the last one of its budget on was counted while a child was on the stack |
| `DiscoveryStack.RootOutlivesBudget` | code/gem5-runahead-dev-pre/src/cpu/o3/dvr_nested.cc:75-93 | The documented bound fails for a root: for every n there is a run after which it has seen n commits and is still active |
| `BfsOracle.Run` | scripts/bfs_oracle_trace.py:24-46 | For every graph and source: a shortest-path tree, parents exactly for reachable vertices, the invocation count as eccentricity plus one, the event count 10 per slot plus visited minus one plus one, and what the trace tells (TraceTells) |
| `BfsOracle.TraceTells` | scripts/bfs_oracle_trace.py:10-46 | The emitted events, read by themselves: lane by lane for the slots of the frontier vertices in order of discovery, queue loads with the index in the frontier, neighbour loads giving every adjacency slot of the reachable vertices once and in order, and parent claims exactly the pairs of a reachable vertex other than the source and its parent, each once and directly behind a load of that vertex with a negative value |
| `BfsOracle.TraceIsLaid` | scripts/bfs_oracle_trace.py:28-43 | The lanes in the trace, one per slot, each with its requests |
| `BfsOracle.LaidNeighbors` | scripts/bfs_oracle_trace.py:32-35 | The neighbour loads are the adjacency slots in order |
| `BfsOracle.TraceClaims` | scripts/bfs_oracle_trace.py:38-40 | The claims in the trace are those of the vertices in order of discovery |
| `BfsOracle.Search` | scripts/bfs_oracle_trace.py:24-44 | The level-synchronous search terminates on every graph and establishes all of this |
| `BfsOracle.ExpandFrontier` | scripts/bfs_oracle_trace.py:28-44 | One round visits every slot of the frontier and collects the next one |
| `BfsOracle.LookAt` | scripts/bfs_oracle_trace.py:32-43 | One adjacency slot: one lane, and a claim exactly if the loaded parent was negative |
| `BfsOracle.LevelIsDistance` | scripts/bfs_oracle_trace.py:24-46 | The round in which a vertex is claimed is its distance from the source |
| `BfsOracle.FinishedTree` | scripts/bfs_oracle_trace.py:24-46 | Parent chains lead back to the source along edges in exactly the distance |
| `BfsOracle.FinishedAccounts` | scripts/bfs_oracle_trace.py:30-46 | One lane per slot of every reachable vertex, one claim per reachable vertex other than the source |
| `BfsOracle.FinishedEccentricity` | scripts/bfs_oracle_trace.py:27-46 | The number of rounds is the largest distance plus one |
| `BfsOracle.VisitedCount` | scripts/bfs_oracle_trace.py:45-46 | `visited` is the size of the set of reachable vertices |
| `BfsOracle.TraceLength` | scripts/bfs_oracle_trace.py:11-22 | Length of the emitted trace by lanes and claims |
| `BfsOracle.ClaimedIsClaims` | scripts/bfs_oracle_trace.py:38-40 | The claims listed in order are the claims of the lanes |
| `PipeViewQueue.OutputSortedIff` | code/gem5-runahead-dev-pre/util/o3-pipeview.py:154-184 | The concatenated output of all flushes is sorted by sequence number if and only if at every flush point enough smaller numbers have arrived for each later one |
| `PipeViewQueue.BoundedDisplacementSorts` | code/gem5-runahead-dev-pre/util/o3-pipeview.py:45-50 | The documented assumption (no more than `min_threshold` places late) suffices, also for the filtered lines |
| `PipeViewQueue.ShortStreamSorts` | code/gem5-runahead-dev-pre/util/o3-pipeview.py:45-50 | It is not necessary, against the comment: a stream that never overfills the queue is sorted in any order |
| `PipeViewQueue.OutputIsPermutation` | code/gem5-runahead-dev-pre/util/o3-pipeview.py:154-184 | Without any assumption the output is a permutation of the queued instructions |
| `PipeViewQueue.RunLength` | code/gem5-runahead-dev-pre/util/o3-pipeview.py:154-159 | The queue length after n arrivals, in closed form |
| `PipeViewQueue.DefaultLength` | code/gem5-runahead-dev-pre/util/o3-pipeview.py:51-55 | As shipped: the 2001st instruction and then every 1001st one flushes the queue to 1000 |
| `PipeViewQueue.SortSorts` | code/gem5-runahead-dev-pre/util/o3-pipeview.py:164-165 | The sort sorts and permutes |
| `PipeViewQueue.SortIsStable` | code/gem5-runahead-dev-pre/util/o3-pipeview.py:164-165 | It keeps the order of equal sequence numbers |
| `PipeViewQueue.KeptSorted` | code/gem5-runahead-dev-pre/util/o3-pipeview.py:173-183 | The boundary filter keeps sortedness |
| `PipeViewQueue.Viewer.PrintInsts` | code/gem5-runahead-dev-pre/util/o3-pipeview.py:162-184 | One flush of the queue |
| `PipeViewQueue.Viewer.PopDown` | code/gem5-runahead-dev-pre/util/o3-pipeview.py:166-184 | Popping keeps order and stops at the threshold, printing what the bounds keep |
| `PipeViewQueue.Viewer.QueueInst` | code/gem5-runahead-dev-pre/util/o3-pipeview.py:154-159 | Append, and flush above the threshold |
| `PipeViewQueue.Viewer.ProcessTrace` | code/gem5-runahead-dev-pre/util/o3-pipeview.py:124-149 | The whole trace, with early stop and final flush, prints exactly the kept part of the output above |
| `PipeViewQueue.QueuedMeans` | code/gem5-runahead-dev-pre/util/o3-pipeview.py:124-149 | What is queued: one instruction for each retire line before the first fetch beyond the region, in order, with the sequence number and tick of the last fetch before it |
| `PipeViewQueue.KeptIsInBounds` | code/gem5-runahead-dev-pre/util/o3-pipeview.py:173-183 | What is printed: exactly the instructions inside the boundaries that are set |
| `PipeViewTimeline.EventOnExactlyOneLine` | code/gem5-runahead-dev-pre/util/o3-pipeview.py:246-258 | Every non-zero stage tick falls into the window of exactly one printed line |
| `PipeViewTimeline.SingleLineIffCompact` | code/gem5-runahead-dev-pre/util/o3-pipeview.py:233-238 | One line exactly in the compact case |
| `PipeViewTimeline.ColumnFits` | code/gem5-runahead-dev-pre/util/o3-pipeview.py:256-268 | Every event's column is below the width |
| `PipeViewTimeline.OffsetsAreInjective` | code/gem5-runahead-dev-pre/util/o3-pipeview.py:249-258 | The wrap-around of the compact form keeps different ticks at different offsets |
| `PipeViewTimeline.DrawLine` | code/gem5-runahead-dev-pre/util/o3-pipeview.py:259-279 | The drawn text shows every mark at its place with dots between |
| `PipeViewTimeline.PictureIsUnique` | code/gem5-runahead-dev-pre/util/o3-pipeview.py:259-279 | What is shown determines the text |
| `PipeViewTimeline.LineWidthIff` | code/gem5-runahead-dev-pre/util/o3-pipeview.py:268-278 | A line is exactly `width` long if and only if no two of its marks share a column |
| `PipeViewTimeline.CollectEvents` | code/gem5-runahead-dev-pre/util/o3-pipeview.py:251-259 | The events of a line, sorted as printed |
| `PipeViewTimeline.LineIsComplete` | code/gem5-runahead-dev-pre/util/o3-pipeview.py:251-279 | The marks on a line are the stages of its window, less the merged dispatch, each once, with letter and column, by offset and then by name |
| `PipeViewTimeline.PrintTimeline` | code/gem5-runahead-dev-pre/util/o3-pipeview.py:246-279 | All lines of an instruction, each showing its marks between dots, or equals signs if it was abandoned |
| `PipeViewTimeline.LinesAreUsed` | code/gem5-runahead-dev-pre/util/o3-pipeview.py:233-238 | No line is missing and none is superfluous: the last one shows an event, and none comes behind it |
| `PipeViewTimeline.RanksAreAlphabetical` | code/gem5-runahead-dev-pre/util/o3-pipeview.py:251-259 | The tie-break of the sorted events is the order of the stage names |
| `UpgraderTiming.RunFinishesIff` | code/gem5-runahead-dev-pre/util/cpt_upgrader.py:240-254 | For every table and checkpoint, with or without downgrades: the loop finishes if and only if the pending migrations have a timetable in which each runs as early as the upgrades it depends on allow, and no later than the removal of a tag it depends on |
| `UpgraderTiming.TimetableIsUnique` | code/gem5-runahead-dev-pre/util/cpt_upgrader.py:242-254 | There is at most one such timetable, so the condition can be computed before the loop starts |
| `UpgraderTiming.TimedRunSucceeds` | code/gem5-runahead-dev-pre/util/cpt_upgrader.py:242-254 | A timetable makes the loop finish, round by round |
| `UpgraderTiming.SuccessfulRunIsTimed` | code/gem5-runahead-dev-pre/util/cpt_upgrader.py:242-254 | The rounds of a finished run are the timetable |
| `CheckpointUpgrader.RunSucceedsIff` | code/gem5-runahead-dev-pre/util/cpt_upgrader.py:240-254 | Unless something pending depends on a tag to be removed, the loop finishes if and only if the pending tags admit a rank in which every dependency is present or ranked lower |
| `CheckpointUpgrader.RunSucceedsIffWithoutDowngrades` | code/gem5-runahead-dev-pre/util/cpt_upgrader.py:240-254 | In particular when no downgrade is pending |
| `CheckpointUpgrader.RankableButAborts` | code/gem5-runahead-dev-pre/util/cpt_upgrader.py:243-254 | A rank alone is not enough with downgrades: a concrete case that could be ordered and aborts |
| `CheckpointUpgrader.SuccessfulTags` | code/gem5-runahead-dev-pre/util/cpt_upgrader.py:144-152 | A successful run ends with the initial tags and all upgrades, less all downgrades: a known tag is there exactly if its script upgrades |
| `CheckpointUpgrader.PendingMeans` | code/gem5-runahead-dev-pre/util/cpt_upgrader.py:242-242 | An upgrade is pending if its tag is missing, a downgrade if its tag is there |
| `CheckpointUpgrader.SecondRunIsIdle` | code/gem5-runahead-dev-pre/util/cpt_upgrader.py:240-258 | A second run applies nothing |
| `CheckpointUpgrader.RoundsRespectDependencies` | code/gem5-runahead-dev-pre/util/cpt_upgrader.py:138-142 | Every migration runs after all its dependencies, and in one round only |
| `CheckpointUpgrader.SuccessfulRunIsComplete` | code/gem5-runahead-dev-pre/util/cpt_upgrader.py:242-254 | A successful run applies everything pending |
| `CheckpointUpgrader.ApplyRound` | code/gem5-runahead-dev-pre/util/cpt_upgrader.py:250-252 | Whatever the iteration order, a round has the same effect |
| `CheckpointUpgrader.Migrate` | code/gem5-runahead-dev-pre/util/cpt_upgrader.py:240-254 | The loop computes the run, and applies each round as a list without repetition |
| `UpgraderLoader.LegacyVersionsInOrder` | code/gem5-runahead-dev-pre/util/cpt_upgrader.py:165-183 | A completed run on a checkpoint of a legacy version applies the later legacy versions in strictly increasing order, whatever forward dependencies add |
| `UpgraderLoader.ConvertedIsClosed` | code/gem5-runahead-dev-pre/util/cpt_upgrader.py:209-218 | The converted tag set contains the dependency of each of its legacy tags |
| `UpgraderLoader.AppendedByMembers` | code/gem5-runahead-dev-pre/util/cpt_upgrader.py:172-178 | A tag is appended exactly for the scripts that name it as a forward dependency |
| `UpgraderLoader.LoadableMeans` | code/gem5-runahead-dev-pre/util/cpt_upgrader.py:165-183 | What resolution demands is that forward targets and the dependencies still in force exist |
| `UpgraderLoader.LoadedMeans` | code/gem5-runahead-dev-pre/util/cpt_upgrader.py:165-183 | The loaded dependency lists, and that the legacy chain is linear |
| `UpgraderLoader.Upgraders.constructor` | code/gem5-runahead-dev-pre/util/cpt_upgrader.py:85-89 | No script is registered yet |
| `UpgraderLoader.Upgraders.Register` | code/gem5-runahead-dev-pre/util/cpt_upgrader.py:90-136 | One script enters the tag sets and the dictionaries |
| `UpgraderLoader.Upgraders.MakeLinear` | code/gem5-runahead-dev-pre/util/cpt_upgrader.py:165-169 | The gapless legacy versions from 3 on depend on their predecessors; the missing version 2 is the error |
| `UpgraderLoader.Upgraders.ResolveAll` | code/gem5-runahead-dev-pre/util/cpt_upgrader.py:171-183 | Succeeds exactly if every forward target and dependency exists, and appends all forward dependencies |
| `UpgraderLoader.Upgraders.LoadAll` | code/gem5-runahead-dev-pre/util/cpt_upgrader.py:158-183 | Loading succeeds for exactly the loadable script sets, with the table described |
| `UpgraderLoader.Upgraders.ProcessFile` | code/gem5-runahead-dev-pre/util/cpt_upgrader.py:185-258 | What becomes of a checkpoint with any version information: unchanged, rewritten tags, or one of three errors |
| `PortBinder.SucceedsIff` | code/gem5-runahead-dev-pre/configs/example/read_config.py:314-336 | For every well-formed list in every order: the pass binds half the list if and only if one direction of each connection can be chosen such that at each port the chosen ends come in index order without gaps |
| `PortBinder.HalfIffCovered` | code/gem5-runahead-dev-pre/configs/example/read_config.py:332-336 | Half the list is selected exactly when exactly one direction of every connection is |
| `PortBinder.OneDirection` | code/gem5-runahead-dev-pre/configs/example/read_config.py:293-331 | At most one direction of each connection is selected |
| `PortBinder.EndsBoundOnce` | code/gem5-runahead-dev-pre/configs/example/read_config.py:306-331 | No port end is bound twice |
| `PortBinder.IndexOrder` | code/gem5-runahead-dev-pre/configs/example/read_config.py:306-331 | At each port indices are bound in the order 0, 1, 2, ... without gaps |
| `PortBinder.GreedyKeepsUp` | code/gem5-runahead-dev-pre/configs/example/read_config.py:323-331 | The greedy pass is never behind any schedule |
| `PortBinder.SortedPassMayFail` | code/gem5-runahead-dev-pre/configs/example/read_config.py:314-322 | The comment is wrong: a list of three connections that is sorted and well formed, of which the pass binds two, while it binds all three of the same connections in another order |
| `PortBinder.ReversedPassSucceeds` | code/gem5-runahead-dev-pre/configs/example/read_config.py:314-322 | The same list in the opposite order is bound completely |
| `PortBinder.ConnectionsCompare` | code/gem5-runahead-dev-pre/configs/example/read_config.py:151-153 | The comparison by object, port and index is a strict order in which any two different connections compare, so sorting has one result |
| `PortBinder.MadeMembers` | code/gem5-runahead-dev-pre/configs/example/read_config.py:322-331 | The selection consists of the connections at the selected positions |
| `PortBinder.NoUnknownPort` | code/gem5-runahead-dev-pre/configs/example/read_config.py:298-312 | A list with both directions never looks up an unknown port |
| `PortBinder.ClearCounters` | code/gem5-runahead-dev-pre/configs/example/read_config.py:298-304 | Every port that starts a connection has a counter at 0 |
| `PortBinder.BindPorts` | code/gem5-runahead-dev-pre/configs/example/read_config.py:293-347 | For every list and order: the unknown port, the failure and the selection, exactly |
| `VarintFraming.FramingRoundTripIff` | code/gem5-runahead-dev-pre/util/protolib.py:127-163 | For every sequence of messages: reading until False returns what was written if and only if all lengths are between 1 and 2^32 - 1, or the last one is from 2^63 up to 2^70 - 1 and congruent to 2^32 - 1 modulo 2^32, which is read as -1 and so to the end of the file |
| `VarintFraming.VarintRoundTripIff` | code/gem5-runahead-dev-pre/util/protolib.py:98-125 | A varint in front of any bytes comes back with its length exactly if it is below 2^32 |
| `VarintFraming.DecodeOfEncode` | code/gem5-runahead-dev-pre/util/protolib.py:98-125 | What every other number becomes: its truncation below 2^70, an error from there on |
| `VarintFraming.EncodeLength` | code/gem5-runahead-dev-pre/util/protolib.py:142-156 | The encoding has the fewest groups of seven bits that hold the number |
| `VarintFraming.EncodedByte` | code/gem5-runahead-dev-pre/util/protolib.py:142-156 | Byte k holds bits 7k to 7k + 6, and its top bit announces another byte |
| `VarintFraming.FirstMessage` | code/gem5-runahead-dev-pre/util/protolib.py:127-140 | What the first read of a framed message returns, for every length: the message, everything up to the end of the file, the ValueError, False, or a shorter message |
| `VarintFraming.InFile.DecodeVarint32` | code/gem5-runahead-dev-pre/util/protolib.py:98-125 | The loop with its or, mask and shift computes the truncated base-128 value, the end of the file and the error after ten bytes |
| `VarintFraming.Truncate` | code/gem5-runahead-dev-pre/util/protolib.py:116-120 | The 64-bit test, the subtraction and the masks are truncation to 32 bits with sign |
| `VarintFraming.InFile.DecodeMessageFrom` | code/gem5-runahead-dev-pre/util/protolib.py:127-140 | One message, False at size 0, at the end and on a varint error, the ValueError for a size below -1, and what is left of the file |
| `VarintFraming.RaisesIff` | code/gem5-runahead-dev-pre/util/protolib.py:116-140 | The ValueError comes exactly behind a varint of ten bytes whose last one is not zero and whose low 32 bits are not all ones |
| `VarintFraming.InFile.ReadMessages` | code/gem5-runahead-dev-pre/util/decode_inst_dep_trace.py:153-155 | Reading until False collects exactly the messages up to it, or up to the ValueError |
| `VarintFraming.OutFile.EncodeVarint32` | code/gem5-runahead-dev-pre/util/protolib.py:142-156 | The loop appends the base-128 encoding |
| `VarintFraming.OutFile.EncodeMessage` | code/gem5-runahead-dev-pre/util/protolib.py:158-163 | A message is appended behind its length |
| `VarintFraming.OutFile.EncodeMessages` | code/gem5-runahead-dev-pre/util/encode_inst_dep_trace.py:190-194 | Successive messages are appended one behind the other |
| `BitOps.AndMask` | code/gem5-runahead-dev-pre/util/protolib.py:119-119 | Masking the low bits of an unbounded integer is the remainder |
| `BitOps.OrHighBits` | code/gem5-runahead-dev-pre/util/protolib.py:116-117 | Setting all high bits, for negative numbers too |
| `BitOps.OrDisjoint` | code/gem5-runahead-dev-pre/util/protolib.py:111-111 | Setting bits above a small number is addition |
| `DepRecord.TraceRoundTripIff` | code/gem5-runahead-dev-pre/util/encode_inst_dep_trace.py:147-194 | For every list of records: a printed trace is read back, with defaults filled in, if and only if every record is well formed |
| `DepRecord.RoundTripIff` | code/gem5-runahead-dev-pre/util/encode_inst_dep_trace.py:147-194 | The same for one record: of a type other than INVALID, with address, size and flags exactly for loads and stores |
| `DepRecord.DepsRoundTrip` | code/gem5-runahead-dev-pre/util/encode_inst_dep_trace.py:176-190 | Any number of dependencies survives |
| `DepRecord.ParseOfFields` | code/gem5-runahead-dev-pre/util/encode_inst_dep_trace.py:150-174 | The fields in front of the colon are read back exactly for well-formed records |
| `DepRecord.LineIs` | code/gem5-runahead-dev-pre/util/decode_inst_dep_trace.py:157-198 | The printed line, character by character, for every record: order of the fields, defaults, optional fields and separators |
| `DepRecord.ParseFieldsMeans` | code/gem5-runahead-dev-pre/util/encode_inst_dep_trace.py:150-174 | For every list of fields, printed or not: read exactly if all the fields of its type are there and fit, and then each field of the record is the number at its place |
| `DepRecord.PrintRecord` | code/gem5-runahead-dev-pre/util/decode_inst_dep_trace.py:157-198 | The writes of one iteration make up the line |
| `DepRecord.PrintTrace` | code/gem5-runahead-dev-pre/util/decode_inst_dep_trace.py:154-203 | The whole trace and the three counters |
| `DepRecord.ParseDepTokens` | code/gem5-runahead-dev-pre/util/encode_inst_dep_trace.py:178-190 | Empty items are skipped, the others parsed |
| `DepRecord.ParseLine` | code/gem5-runahead-dev-pre/util/encode_inst_dep_trace.py:147-190 | One line, with every error |
| `DepRecord.ParseTrace` | code/gem5-runahead-dev-pre/util/encode_inst_dep_trace.py:145-194 | All lines of a file, up to the first error |
| `Text.SplitOfJoin` | code/gem5-runahead-dev-pre/util/encode_inst_dep_trace.py:148-149 | Splitting undoes joining of parts without separator |
| `Text.JoinOfSplit` | code/gem5-runahead-dev-pre/util/encode_inst_dep_trace.py:148-149 | Joining undoes splitting of any text, and no part holds the separator |
| `Text.StripMeans` | code/gem5-runahead-dev-pre/util/encode_inst_dep_trace.py:148-148 | White space is removed at both ends, all of it, and nothing else |
| `Text.NumberMeans` | code/gem5-runahead-dev-pre/util/encode_inst_dep_trace.py:152-154 | Exactly non-empty digits are read, as the positional value |
| `Text.NumberOfDecimal` | code/gem5-runahead-dev-pre/util/encode_inst_dep_trace.py:152-154 | Reading undoes printing of decimal numbers |
| `CheckpointAggregator.RelocationFindsByteIff` | code/gem5-runahead-dev-pre/util/checkpoint_aggregator.py:73-103 | A relocated address finds the byte its checkpoint had there, whatever the memories contain, if and only if all memories before it hold the pages they announce |
| `CheckpointAggregator.ShortLosesByte` | code/gem5-runahead-dev-pre/util/checkpoint_aggregator.py:97-103 | A short read moves everything behind it: there are contents of the same sizes for which the address finds another byte or none |
| `CheckpointAggregator.RelocationIsInjective` | code/gem5-runahead-dev-pre/util/checkpoint_aggregator.py:73-75 | Relocated addresses of different checkpoints never meet |
| `CheckpointAggregator.ContentsLength` | code/gem5-runahead-dev-pre/util/checkpoint_aggregator.py:89-103 | The merged memory has the announced length exactly if every memory is full |
| `CheckpointAggregator.ByteIsKept` | code/gem5-runahead-dev-pre/util/checkpoint_aggregator.py:96-103 | Every copied byte lies behind the contents before it |
| `CheckpointAggregator.MaxTickMeans` | code/gem5-runahead-dev-pre/util/checkpoint_aggregator.py:56-85 | The merged tick is the latest one |
| `CheckpointAggregator.RelocateAll` | code/gem5-runahead-dev-pre/util/checkpoint_aggregator.py:73-75 | The shift by twelve moves an address by whole pages |
| `CheckpointAggregator.CopyPages` | code/gem5-runahead-dev-pre/util/checkpoint_aggregator.py:97-103 | The page loop copies as many pages as announced or all there are |
| `CheckpointAggregator.MergeAll` | code/gem5-runahead-dev-pre/util/checkpoint_aggregator.py:60-106 | The loop over the checkpoints |
| `CheckpointAggregator.Pad` | code/gem5-runahead-dev-pre/util/checkpoint_aggregator.py:112-120 | Padding reaches the wanted size with the fewest pages |
| `CheckpointAggregator.Aggregate` | code/gem5-runahead-dev-pre/util/checkpoint_aggregator.py:41-126 | All of it: bytes written equal the range size exactly if every memory is full |
| `MemTestTree.NumTesters` | code/gem5-runahead-dev-pre/configs/example/memtest.py:105-116 | The level-wise count equals the number of testers in the tree |
| `MemTestTree.CountsAgree` | code/gem5-runahead-dev-pre/configs/example/memtest.py:105-116 | Counting by levels and by subtrees agree, from every depth |
| `MemTestTree.System.MakeCacheLevel` | code/gem5-runahead-dev-pre/configs/example/memtest.py:220-283 | The recursion makes exactly the testers and, at every level, the product of fan-outs, without an index out of range |
| `MemTestTree.System.AddSubsystem` | code/gem5-runahead-dev-pre/configs/example/memtest.py:223-246 | Each subsystem gets a name not used before |
| `MemTestTree.System.Build` | code/gem5-runahead-dev-pre/configs/example/memtest.py:285-286 | The whole hierarchy |
| `MemTestTree.Check` | code/gem5-runahead-dev-pre/configs/example/memtest.py:133-167 | Accepted are exactly the valid specifications with at most 64 testers |
| `MemTestTree.Prototypes` | code/gem5-runahead-dev-pre/configs/example/memtest.py:183-206 | One prototype per level, its size scaled by the fan-outs |
| `YearRanges.DatesRoundTripIff` | code/gem5-runahead-dev-pre/util/find_copyrights.py:98-116 | For every non-empty set of years: parsing the printed text gives the set back if and only if neighbouring years have four digits |
| `YearRanges.RunsAreFewest` | code/gem5-runahead-dev-pre/util/find_copyrights.py:175-199 | No exact cover by intervals uses fewer pieces |
| `YearRanges.RunsMean` | code/gem5-runahead-dev-pre/util/find_copyrights.py:175-199 | The printed runs are sorted, separated by gaps and cover exactly the years |
| `YearRanges.PieceRoundTripIff` | code/gem5-runahead-dev-pre/util/find_copyrights.py:98-114 | What is read from a printed run lies in it, and is all of it exactly for single years and four-digit bounds |
| `YearRanges.MatchMeans` | code/gem5-runahead-dev-pre/util/find_copyrights.py:98-105 | The range pattern matches exactly where four digits, a dash and four digits stand with white space between |
| `YearRanges.PieceYearsMean` | code/gem5-runahead-dev-pre/util/find_copyrights.py:102-114 | For every piece: the years of the range, or else the number, or nothing |
| `YearRanges.DateStr` | code/gem5-runahead-dev-pre/util/find_copyrights.py:175-199 | The popping loop prints the runs; the empty set is an error |
| `YearRanges.ProcessDates` | code/gem5-runahead-dev-pre/util/find_copyrights.py:99-116 | The parsing loops |
| `LogRoll.Buffer.Process` | code/gem5-runahead-dev-pre/util/logroll.py:62-81 | The final dump shows the last lines, at most the buffer's size, in order of arrival, for every size and stream |
| `LogRoll.LastOfMeans` | code/gem5-runahead-dev-pre/util/logroll.py:52-56 | What the last lines are: as many as fit, the latest ones, in order |
| `LogRoll.Buffer.Fill` | code/gem5-runahead-dev-pre/util/logroll.py:70-76 | The first loop keeps this at every iteration |
| `LogRoll.Buffer.Roll` | code/gem5-runahead-dev-pre/util/logroll.py:78-79 | So does the second |
| `LogRoll.Buffer.DumpLines` | code/gem5-runahead-dev-pre/util/logroll.py:52-56 | A dump at any loop head shows the last lines read so far |
| `LatencyRanges.Ranges` | code/gem5-runahead-dev-pre/configs/dram/lat_mem_rd.py:144-153 | The ranges in closed form; only the last one reaches the maximum |
| `LatencyRanges.NextRange` | code/gem5-runahead-dev-pre/configs/dram/lat_mem_rd.py:149-153 | The step doubles exactly when a power of two is reached |
| `LatencyRanges.RangeIsPow2Iff` | code/gem5-runahead-dev-pre/configs/dram/lat_mem_rd.py:137-138 | Among four successive ranges exactly the first passes the bit test |
| `LatencyRanges.IsPow2Means` | code/gem5-runahead-dev-pre/configs/dram/lat_mem_rd.py:137-138 | The bit test holds for powers of two only |
| `LatencyRanges.PowersAreIsPow2` | code/gem5-runahead-dev-pre/configs/dram/lat_mem_rd.py:137-138 | And for all of them |

## Left out

- ResponsesAreLaneWise: cleanness is a condition on the run; UniformProgramsFinish, DiamondProgramsFinish and DiamondIsSafeIff state conditions on the slice alone.
- DiamondIsSafeIff: for slices without repeated PCs and backward jumps, whose branch tests a register and whose sides both reach the reconvergence PC, and lanes of 32 registers; where a lane stands that has ended does not count as part of its state. PolicyIsSafeIff has the same limits.
- DiamondProgramsFinish: one branch on loaded values, at the entry; slices with several such branches are covered by ResponsesAreLaneWise with its condition on the run.
- CoherentIff: about one issue under arbitrary windows. For runs, AlwaysCleanIff is exact for slices that never branch on loaded values; with such branches coherence is sufficient (DiamondProgramsFinish), and its converse is not stated.
- AlwaysCleanIff: for operations that have results. An operation without result ends a lane early, and a lane that took over the lead from it has an old window; coherence covers these slices too (UniformProgramsFinish).
- TakenAtSteps: for the moving register first and a step in the signed range; SwappedTripCountIff and SaturatedTripCountIff treat the other loops.
- UntaintedIsIndependentIff: the executions compared follow one path, with the same addresses; an address or a branch that depends on the trigger load gives another path.
- RunSucceedsIff: the plain rank criterion is stated for the case that nothing pending depends on a tag to be removed, where it is exact; RunFinishesIff covers the other case.
- ParseDepTokens: `int()` is modelled for plain decimal digits, see ParseLine.
- ParseTrace: `int()` is modelled for plain decimal digits, see ParseLine.
- ProcessDates: `int()` is modelled for plain decimal digits, see ParseLine.
- ParseLine: `int()` is modelled for plain decimal digits; signs, underscores, surrounding spaces and non-ASCII digits, which Python accepts too, are errors or ignored pieces here; white space is the ASCII one.
- DateStr: takes the set as its sorted list; `list` and `sort` are not modelled.
- BindPorts: the sorted order is a parameter, so that nothing depends on the comparison of ports; the final `setattr` is not modelled.
- Register: scripts have different tags, as the documentation of the script demands; in the source a second one would replace the first.
- ResolveAll: scripts have different tags, see Register.
- LoadAll: scripts have different tags, see Register.
- Prototypes: of the cache prototypes only the size is modelled; latencies, associativity and miss registers are scaled in the same way.
- CacheFill: victim line and origin come together, so the exception for incomplete metadata cannot arise; a zero geometry, an exception in the source, is a precondition of the constructors.
- VectorExecutor: statistics, active masks (a copy of the lanes' active flags) and the pending reconvergence marks (which only count) are not modelled; an operation is any function of its two sources, so the RISC-V decoder and evaluator are left open.
- VectorExecutor: `executeLanePC` is not modelled; its callers pass one lane or a start index for which it never diverges.
- LoopBound: how the compare and the branch are found (`observe`) is not modelled; signed overflow of a difference, undefined in C++, is taken as wrap-around.
- TaintTracker, NestedDiscovery: the stride detector, its seen bits and the capture of loop registers, which only store values, are not modelled.
- PrefetchQuality: 64-bit wrap-around of counters and the `erase` of the shadow cache, which nothing calls, are not modelled.
- The rest of the CPU (rename tables, memory requests, commit hooks in cpu.cc, the stalling slice table and the misprediction table) is not part of this model.
- PipeViewQueue: the part of `process_trace` that skips to the start of the region, terminal colours and the text behind the timeline.
- CheckpointUpgrader: the bodies of the migrations, the checkpoint files and their parser; a migration is its effect on the tag set.
- VarintFraming: the serialisation of the messages themselves; a message is its bytes, and the file header with its magic number is left out.
- CheckpointAggregator: sections other than the relocated addresses, the tick and the page counts; compression.
- MemTestTree: the wiring of ports and the random generation of specifications, which repeats the same count.
- LogRoll: signals in the middle of a loop body.
- Configuration scripts, plotting, reports, code generators, the benchmark programs, and memcheck.py, whose tree is that of memtest.py.
