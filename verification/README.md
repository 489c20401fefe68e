# Proofs about the htsim traffic generators, congestion control and analysis scripts

Dafny models of the parts of the repository that decide something, and proofs of what they promise. Methods follow
the loops and field updates of the source and are proved against specification functions; the lemmas then say what
those functions, and all runs of them, amount to.

* **Collective traffic.** `TriggerGraph` is the simulator's trigger machinery: one-shot and multi-shot triggers, and
  flows that start at time 0 or when released. `Butterfly`, `Ring` and `AllToAll` are the emission loops of three
  generators; `ButterflyRun`, `Ring` and `AllToAllRun` prove what every run of an emitted file does. `Permutation` is
  the generator that repairs self-flows in place.
* **DCQCN.** `DcqcnSource` and `DcqcnSink` are the two ends as classes; `DcqcnRun` interleaves any number of sources.
* **Trace analysis.** `Trace` says what the event loop of `plot_trace.py` computes and proves conservation and the loss
  matching; `Reconciler` is the loop itself on its dictionaries.
* **Numeric cores.** `Meter`, `Cdf`, `Convergence`, `Erasure`, `Params`.
* `Arith`, `RealArith`, `Rows`, `Blocks` and `Sets` hold the arithmetic that the others share.

Start with `ButterflyRun.AllReduceIff`, `Ring.RunReducedIff`, `AllToAllRun.DeadlockFreeIff`, `DcqcnSink.ResponseIff`,
`DcqcnRun.RecoveryInAnyRun`, `Reconciler.Parser.Process` with `Trace.Conservation`, `Meter.ConformsIff`,
`Cdf.MeanIsOfTheCurve` and `Convergence.FinishTimes`.

## Where the code does not do what it looks like

* The butterfly all-reduce orders a flow after the one its source received in the step before, but not after earlier
  ones. With groups of eight or more nodes there are runs in which all flows finish and a node lacks a contribution;
  with two or four nodes there are none (`ButterflyRun.AllReduceIff` for runs of the simulator's triggers,
  `ButterflyRun.AnyTimesIff` for flows that may also start late). With groups of one node the script prints a negative number
  of triggers (`Butterfly.Header`).
* The serial all-to-all counts triggers in its header from all connections but emits them group by group. The loader
  exits on a wrong count (sim/core/connection_matrix.cpp:852-856); `AllToAll.Header` says exactly when the count is right.
  A batch larger than the number of peers waits on a trigger nobody fires (`AllToAllRun.DeadlockFreeIff`); in the first group
  that is trigger 0, which the file does not declare, so the loader already exits with "referenced but not specified"
  (sim/core/connection_matrix.cpp:862-868).
* DCQCN's byte counter is unsigned. When RoceSrc goes back after a NACK (sim/_DEPRECATED_/roce.cpp:153-169) to before what
  was counted, the difference wraps to nearly 2^64 and counts as a full `_B`: the rate rises although nothing was sent
  (`DcqcnRun.FiresIff`, `DcqcnRun.GoBackRaisesRate`); `DcqcnRun.CountersHonestIff` says when
  the byte counter then claims more than was sent, and `DcqcnRun.CoveredUnderflow` is a run in which it underflows and still
  does not. In this version the counter counts packets, as `_highest_sent` does.
* DCQCN decays alpha on every event of a source once a period has passed since its last CNP, not once a period: the time of
  the last decay is never recorded. `DcqcnRun.AlphaDecaysEveryEvent` counts the decays of any run between CNPs,
  `DcqcnRun.OncePerPeriodIff` says when a source decays alpha at most once a period, and `DcqcnRun.TwiceInAPeriod` is a run in
  which it does so twice.
* The DCQCN sink's count of marked packets is 32 bits wide: a timer that fires while a positive multiple of 2^32 marked
  packets wait overlooks them all (`DcqcnSink.GuardedIff`, `DcqcnSink.FullCountIsOverlooked`). They are still answered within
  the interval exactly when another marked packet arrives in time (`DcqcnSink.ResponseIff`).
* With line rates below 20 bit/s the DCQCN increment truncates to 0 and a rate need not recover (`DcqcnRun.RecoversIff`).
* The meter truncates the time per byte, so it exceeds its configured rate unless that rate divides 8 * 10^12
  (`Meter.ConformsIff`), and then by any number of bytes (`Meter.ExceedsEveryBoundIff`). Above 8 Tbit/s
  that time is 0 and `execute` divides by it (`Meter.Meter.Execute`).
* `get_percentile_from_value` answers -1 for negative values even inside the distribution (`Cdf.RoundTripIff`), and
  extrapolates below a positive first value although its documentation promises -1 there (`Cdf.RefusedOutsideIff`,
  `Cdf.FiveIsMinusFifty`); `is_valid_cdf` indexes the list before it checks for emptiness, so the empty list raises an
  index error.
* `plot_trace.py` looks a trimmed packet's flow up without a guard, so a trim before any tracked send of the flow stops it
  (`Reconciler.Parser.Process`).
* `gen_permutation.py` cannot avoid the self-flow of a single node (`Permutation.Generate`).
* `find_recovered_pkts` counts repeated packet numbers again (`Erasure.FindRecoveredPkts`).

## Model

| member | source | states |
|---|---|---|
| `TriggerGraph.CompleteKeepsConsistent` | sim/core/trigger.cpp:19-43 | a completion keeps the invariant of the simulator: a flow has started exactly when it is not triggered or is among the targets its trigger has released, and nothing aborted |
| `TriggerGraph.RunConsistent` | sim/core/eventlist.cpp:52-60 | the invariant holds after every run; each flow completes once |
| `TriggerGraph.AbortsIff` | sim/core/trigger.cpp:19-43 | for any plan, well-formed or not: a run ends in an abort exactly when its last flow fires a one-shot trigger that has no target or that an earlier flow has fired |
| `TriggerGraph.NeverStuck` | sim/core/trigger.cpp:19-43 | a well-formed file never aborts or deadlocks: until all flows are done, some flow is running |
| `TriggerGraph.RunInOrder` | sim/core/trigger.cpp:19-28 | every timetable of a well-formed file is the order of a complete run of the state machine |
| `TriggerGraph.RunHoldsNoMore` | sim/core/trigger.cpp:19-28 | in that run no node ever holds more than in the timetable |
| `TriggerGraph.RunIsTimetable` | sim/core/trigger.cpp:19-28 | every complete run of the state machine is a lawful, eager timetable, so what holds of all timetables holds of all runs |
| `TriggerGraph.CompleteKeepsOutstanding` | sim/core/trigger.cpp:34-43 | with multi-shot triggers a completion never raises the number of outstanding flows of a source |
| `TriggerGraph.RunKeepsOutstanding` | sim/core/trigger.cpp:34-43 | no run has more flows of a source outstanding than there were at the start |
| `Butterfly.EmitExchange` | scripts/connection_matrices_old/gen_allreduce_butterfly.py:85-130 | emits the two flows of a pair of partners with the ids and triggers of the step's plan |
| `Butterfly.EmitStep` | scripts/connection_matrices_old/gen_allreduce_butterfly.py:70-135 | the lines of a step, and the trigger table row the next step reads |
| `Butterfly.Header` | scripts/connection_matrices_old/gen_allreduce_butterfly.py:30-40 | the counts at the head of the file are the numbers of flows and triggers emitted; for groups of one node the trigger count is minus the number of groups |
| `Butterfly.EmitGroup` | scripts/connection_matrices_old/gen_allreduce_butterfly.py:57-135 | a group's lines although the trigger table still holds the rows of earlier groups |
| `Butterfly.Emit` | scripts/connection_matrices_old/gen_allreduce_butterfly.py:30-139 | the emitted file; the flow count is right, and the trigger count exactly unless groups have one node |
| `Butterfly.FlowsBeforeIs` | scripts/connection_matrices_old/gen_allreduce_butterfly.py:30-39 | closed form of the flow counter |
| `Butterfly.FiredBeforeIs` | scripts/connection_matrices_old/gen_allreduce_butterfly.py:40-40 | closed form of the trigger counter |
| `ButterflyRun.FileLayout` | scripts/connection_matrices_old/gen_allreduce_butterfly.py:57-130 | in the emitted file, the flow of every node at every step goes to its partner, waits for the partner's previous one and fires its own trigger |
| `ButterflyRun.EveryFlow` | scripts/connection_matrices_old/gen_allreduce_butterfly.py:57-130 | every flow of the file is the flow of one node at one step |
| `ButterflyRun.Wakes` | scripts/connection_matrices_old/gen_allreduce_butterfly.py:95-124 | exactly which flow releases which: the one that came to its source in the step before |
| `ButterflyRun.TriggersPair` | scripts/connection_matrices_old/gen_allreduce_butterfly.py:89-124 | each trigger has one firing and one waiting flow; the waiter leaves where the firer arrived and stays in its group |
| `ButterflyRun.NeverDeadlocks` | scripts/connection_matrices_old/gen_allreduce_butterfly.py:57-139 | every run of the file can go on until all flows are done, without aborting a trigger |
| `ButterflyRun.BarrierExact` | scripts/connection_matrices_old/gen_allreduce_butterfly.py:70-101 | if step d starts after all of step d - 1, a node holds exactly its aligned block of 2^d contributors between the steps |
| `ButterflyRun.StepOrderReduces` | scripts/connection_matrices_old/gen_allreduce_butterfly.py:70-101 | flows in step order give every node its whole group |
| `ButterflyRun.TwoStepsInOrder` | scripts/connection_matrices_old/gen_allreduce_butterfly.py:95-124 | with at most two steps the triggers keep step order |
| `ButterflyRun.SlowRunFails` | scripts/connection_matrices_old/gen_allreduce_butterfly.py:95-124 | for eight nodes and more a complete run of the state machine after which a contribution is missing |
| `ButterflyRun.AllReduceIff` | scripts/connection_matrices_old/gen_allreduce_butterfly.py:57-139 | every complete run of the state machine is an all-reduce if and only if a group has at most four nodes |
| `ButterflyRun.AnyTimesIff` | scripts/connection_matrices_old/gen_allreduce_butterfly.py:57-139 | the same for all timetables, and for those whose flows start the moment they may |
| `Ring.Header` | scripts/connection_matrices_old/gen_allreduce.py:35-41 | the counts are those emitted exactly when the group size divides the connections |
| `Ring.Emit` | scripts/connection_matrices_old/gen_allreduce.py:53-87 | the emitted file, and the trigger counter |
| `Ring.EmitChain` | scripts/connection_matrices_old/gen_allreduce.py:65-83 | the chain of a chunk, for every start of the flow and trigger counters |
| `Ring.FileLayout` | scripts/connection_matrices_old/gen_allreduce.py:53-83 | where each flow of each chunk is in the file |
| `Ring.NumberedInOrder` | scripts/connection_matrices_old/gen_allreduce.py:65-83 | flows are numbered from 1 in the order of the file and have the size asked for |
| `Ring.LineIs` | scripts/connection_matrices_old/gen_allreduce.py:65-83 | line by line, ends, start and trigger of each flow, as expressions in group, chunk and step |
| `Ring.TriggersPair` | scripts/connection_matrices_old/gen_allreduce.py:73-87 | each trigger is fired by one flow and awaited by the next of its chain only |
| `Ring.NeverDeadlocks` | scripts/connection_matrices_old/gen_allreduce.py:53-87 | every run can go on until all flows are done |
| `Ring.ChunkTimetable` | scripts/connection_matrices_old/gen_allreduce.py:65-83 | every timetable of the file, restricted to a chunk, is one of the chunk |
| `Ring.ChainInOrder` | scripts/connection_matrices_old/gen_allreduce.py:67-81 | the flows of a chunk are totally ordered in every timetable |
| `Ring.HoldsExactly` | scripts/connection_matrices_old/gen_allreduce.py:67-83 | which contributions each node holds at each time, exactly |
| `Ring.CarriesExactly` | scripts/connection_matrices_old/gen_allreduce.py:67-83 | the flow of step d carries exactly the contributions of the first d nodes of the chain |
| `Ring.ReducedIff` | scripts/connection_matrices_old/gen_allreduce.py:67-83 | on a chain, the chunk is complete at the g-th node exactly when g - 1 flows are done |
| `Ring.AllReduceIff` | scripts/connection_matrices_old/gen_allreduce.py:67-83 | all nodes of a chain hold all contributions exactly when 2g - 2 of its 2g - 1 flows are done |
| `Ring.FileReducedIff` | scripts/connection_matrices_old/gen_allreduce.py:53-87 | in every timetable of the emitted file (of any list of flows with its layout), for every chunk: all members of the group hold all contributions exactly when flow 2g - 2 of the chunk's chain is done |
| `Ring.FileFirstReducedIff` | scripts/connection_matrices_old/gen_allreduce.py:53-87 | in every timetable of the emitted file, the g-th node of the chain holds all contributions exactly when flow g - 1 is done |
| `Ring.RunReducedIff` | scripts/connection_matrices_old/gen_allreduce.py:53-87 | in every complete run of the emitted file, after t completions the chunk is reduced everywhere exactly when flow 2g - 2 of its chain is among them |
| `AllToAll.Emit` | scripts/connection_matrices_old/gen_serialn_alltoall.py:62-121 | the emitted file and the number of triggers |
| `AllToAll.EmitSender` | scripts/connection_matrices_old/gen_serialn_alltoall.py:78-116 | one sender's full batches and leftover batch |
| `AllToAll.Header` | scripts/connection_matrices_old/gen_serialn_alltoall.py:41-47 | the flow count is right; the trigger count is right exactly under the stated condition on connections, group size and batch size, which a single group of two nodes or more always meets |
| `AllToAll.HeaderIff` | scripts/connection_matrices_old/gen_serialn_alltoall.py:44-47 | the arithmetic of that condition |
| `AllToAllRun.FileLayout` | scripts/connection_matrices_old/gen_serialn_alltoall.py:65-121 | where each flow of each batch is in the file |
| `AllToAllRun.NumberedInOrder` | scripts/connection_matrices_old/gen_serialn_alltoall.py:78-116 | flows are numbered from 1 in the order of the file, so no id occurs twice; all have the size asked for |
| `AllToAllRun.FullBatchLine` | scripts/connection_matrices_old/gen_serialn_alltoall.py:79-98 | line by line, ends, start and trigger of the flows of full batches, as expressions in group, sender, batch and flow |
| `AllToAllRun.LeftoverLine` | scripts/connection_matrices_old/gen_serialn_alltoall.py:100-116 | the same for the leftover flows of a sender |
| `AllToAllRun.EveryPairOnce` | scripts/connection_matrices_old/gen_serialn_alltoall.py:78-116 | the flows are exactly the ordered pairs of distinct members of a group, each once |
| `AllToAllRun.FirersAre` | scripts/connection_matrices_old/gen_serialn_alltoall.py:79-98 | each trigger is fired by exactly `parallel` flows |
| `AllToAllRun.FirerIff` | scripts/connection_matrices_old/gen_serialn_alltoall.py:79-98 | namely those of one batch of one sender |
| `AllToAllRun.TargetsAre` | scripts/connection_matrices_old/gen_serialn_alltoall.py:90-116 | and awaited by 1 to `parallel` flows |
| `AllToAllRun.TargetIff` | scripts/connection_matrices_old/gen_serialn_alltoall.py:90-116 | namely those of that sender's next batch |
| `AllToAllRun.BoundedConcurrency` | scripts/connection_matrices_old/gen_serialn_alltoall.py:78-121 | no run ever has more than `parallel` flows of a node outstanding |
| `AllToAllRun.DeadlockFreeIff` | scripts/connection_matrices_old/gen_serialn_alltoall.py:74-121 | every run can go on to the end if and only if a batch is no larger than the number of peers |
| `Permutation.Repair` | scripts/connection_matrices_old/gen_permutation.py:49-56 | the in-place pass computes `Repaired` |
| `Permutation.RepairedShuffles` | scripts/connection_matrices_old/gen_permutation.py:49-56 | the pass permutes the destinations |
| `Permutation.PrefixRepaired` | scripts/connection_matrices_old/gen_permutation.py:49-56 | what n steps have repaired and what they have not touched |
| `Permutation.RepairedHasNoSelfFlow` | scripts/connection_matrices_old/gen_permutation.py:49-56 | no self-flow is left for two nodes or more |
| `Permutation.SwapsAreDisjoint` | scripts/connection_matrices_old/gen_permutation.py:50-56 | closed form: a step swaps exactly when the shuffles collide there and the step before did not swap |
| `Permutation.WholePass` | scripts/connection_matrices_old/gen_permutation.py:50-56 | the closed form of the whole pass: its last step swaps the last place with what has come to the first |
| `Permutation.Write` | scripts/connection_matrices_old/gen_permutation.py:60-62 | one flow a pair; an index error for more connections than nodes |
| `Permutation.Generate` | scripts/connection_matrices_old/gen_permutation.py:38-62 | distinct sources, distinct destinations, and no self-flow if and only if there is not a single node with a connection |
| `DcqcnSink.Sink.constructor` | sim/_DEPRECATED_/dcqcn.cpp:201-205 | the initial state |
| `DcqcnSink.Sink.ReceivePacket` | sim/_DEPRECATED_/dcqcn.cpp:210-225 | the arrival step of the state machine |
| `DcqcnSink.Sink.DoNextEvent` | sim/_DEPRECATED_/dcqcn.cpp:227-233 | the timer step |
| `DcqcnSink.Sink.SendCnp` | sim/_DEPRECATED_/dcqcn.cpp:235-245 | a CNP resets the count and the time |
| `DcqcnSink.Pacing` | sim/_DEPRECATED_/dcqcn.cpp:216-219 | in every run any m consecutive CNPs after one take at least m intervals |
| `DcqcnSink.ArriveKeepsRegular` | sim/_DEPRECATED_/dcqcn.cpp:210-225 | an arrival keeps the timer invariant; the guard of waiting packets holds after it exactly if it held before or the packet is marked |
| `DcqcnSink.FireKeepsRegular` | sim/_DEPRECATED_/dcqcn.cpp:227-233 | a timer keeps it, and the guard exactly if it does not see a wrapped count |
| `DcqcnSink.GuardedIff` | sim/_DEPRECATED_/dcqcn.cpp:210-245 | waiting marked packets always have a timer pending at last CNP + interval if and only if no timer of the run meets a wrapped count |
| `DcqcnSink.PendingIff` | sim/core/eventlist.cpp:75-81 | in every run, until a CNP is an interval old its timer is pending if and only if it would fire before the simulation ends; no timer is pending for the end or later |
| `DcqcnSink.BoundedResponse` | sim/_DEPRECATED_/dcqcn.cpp:210-245 | in a run without overlooking timers every marked packet is followed by a CNP within one interval |
| `DcqcnSink.PacketAnsweredIff` | sim/_DEPRECATED_/dcqcn.cpp:210-245 | once its interval is over, a marked packet has been followed by a CNP within it if and only if every timer that overlooks it is followed by a marked packet in time |
| `DcqcnSink.ResponseIff` | sim/_DEPRECATED_/dcqcn.cpp:210-245 | all marked packets of a run are answered within the interval if and only if every overlooking timer is followed by a marked packet within one interval of the earliest packet that waits |
| `DcqcnSink.NoIdleCnp` | sim/_DEPRECATED_/dcqcn.cpp:214-233 | never more CNPs than marked packets, those still waiting not counted |
| `DcqcnSink.FullCountIsOverlooked` | sim/_DEPRECATED_/dcqcn.cpp:221-229 | a run in which 2^32 marked packets get no CNP |
| `DcqcnSource.Source.constructor` | sim/_DEPRECATED_/dcqcn.cpp:33-57 | a new source at line rate overwrites the shared increments |
| `DcqcnSource.Source.ProcessCnp` | sim/_DEPRECATED_/dcqcn.cpp:59-83 | the cut, the reset counters and the new alpha |
| `DcqcnSource.Source.IncreaseRate` | sim/_DEPRECATED_/dcqcn.cpp:85-117 | the three kinds of increase, with the bounds kept |
| `DcqcnSource.Source.DoNextEvent` | sim/_DEPRECATED_/dcqcn.cpp:119-153 | byte counter, alpha and timer in the source's order |
| `DcqcnSource.Source.ProcessNack` | sim/_DEPRECATED_/roce.cpp:153-174 | only the highest sent packet moves |
| `DcqcnSource.Cut` | sim/_DEPRECATED_/dcqcn.cpp:61-61 | the cut rate lies between half the rate, rounded down, and the rate |
| `DcqcnSource.CutIs` | sim/_DEPRECATED_/dcqcn.cpp:61-61 | the cut takes half of the share alpha off the rate, rounded up; alpha 1 halves it, alpha 0 leaves it |
| `DcqcnSource.IncreaseKeepsSound` | sim/_DEPRECATED_/dcqcn.cpp:85-107 | an increase never lowers rate or target, keeps the bounds and does not overflow 64 bits |
| `DcqcnRun.StepKeepsSound` | sim/_DEPRECATED_/dcqcn.cpp:25-153 | every step of any source keeps alpha in [0, 1], rate at most line rate and target, and target below twice the line rate while the rate is below it |
| `DcqcnRun.AlwaysSound` | sim/_DEPRECATED_/dcqcn.cpp:25-153 | so in every run of any interleaving |
| `DcqcnRun.OnlyCnpLowers` | sim/_DEPRECATED_/dcqcn.cpp:59-148 | only a CNP to a source lowers its rate, by half of the share alpha, rounded up, and so to no less than half |
| `DcqcnRun.CountersWrap` | sim/_DEPRECATED_/dcqcn.cpp:127-148 | timer and byte counter count their calls modulo 2^16, whatever the increases do |
| `DcqcnRun.FastRecovery` | sim/_DEPRECATED_/dcqcn.cpp:91-93 | while no counter has passed F, k increases leave exactly the k times halved gap, and k is at most 2F |
| `DcqcnRun.HalvedIsCeil` | sim/_DEPRECATED_/dcqcn.cpp:93-93 | that gap is gap / 2^k, rounded up |
| `DcqcnRun.TargetClimbs` | sim/_DEPRECATED_/dcqcn.cpp:95-104 | past 2F increases each one lifts the target by an increment until line rate |
| `DcqcnRun.TargetGain` | sim/_DEPRECATED_/dcqcn.cpp:91-109 | the exact gain of the target below line rate, by how often timer and byte counter have called since the CNP: nothing up to F, RAI when one has passed F, and RHAI for every call of the slower one beyond F when both have; the rate moves half way to it |
| `DcqcnRun.BytesComeFirst` | sim/_DEPRECATED_/dcqcn.cpp:127-148 | a tick that makes both calls makes the byte counter's first: with the timer at F and the byte counter below, the target rises by one RAI, not two |
| `DcqcnRun.LineRate` | sim/_DEPRECATED_/dcqcn.cpp:85-109 | enough increases restore the line rate for good |
| `DcqcnRun.EqualLinks` | sim/_DEPRECATED_/dcqcn.cpp:47-48 | 78 increments cover twice a line rate of at least 20 bit/s |
| `DcqcnRun.BuildSetsSteps` | sim/_DEPRECATED_/dcqcn.cpp:33-57 | a new source starts at line rate, makes the shared increments a twentieth and a tenth of that, rounded down, and leaves the others and alpha alone |
| `DcqcnRun.NoIncrementNoRecovery` | sim/_DEPRECATED_/dcqcn.cpp:47-104 | with an increment of 0 the timer alone never restores the rate |
| `DcqcnRun.RecoversIff` | sim/_DEPRECATED_/dcqcn.cpp:47-109 | recovery within a bounded number of increases is certain exactly when the increment is positive |
| `DcqcnRun.RatesFollow` | sim/_DEPRECATED_/dcqcn.cpp:119-153 | between its CNPs a source's rates depend on its own increases only |
| `DcqcnRun.RecoveryInAnyRun` | sim/_DEPRECATED_/dcqcn.cpp:59-153 | after a CNP, in any run of any sources: the halved gap first, and line rate after 2F + 78 increases |
| `DcqcnRun.TimerCallsAre` | sim/_DEPRECATED_/dcqcn.cpp:143-148 | between its CNPs, the timer of a source raises its rate once for every tick that comes a period after the one counted before, whatever else happens |
| `DcqcnRun.RecoveryInTime` | sim/_DEPRECATED_/dcqcn.cpp:59-153 | so after 2F + 78 such ticks a source is back at line rate in any run, whatever its byte counter does |
| `DcqcnRun.AlphaDecaysEveryEvent` | sim/_DEPRECATED_/dcqcn.cpp:138-141 | in every run between CNPs, of any sources in any interleaving, alpha has decayed once for every event of a source later than a period after its CNP |
| `DcqcnRun.DecayIsPower` | sim/_DEPRECATED_/dcqcn.cpp:139-139 | n decays multiply alpha by (1 - g)^n |
| `DcqcnRun.AlphaFollows` | sim/_DEPRECATED_/dcqcn.cpp:59-141 | in every run, CNPs included, alpha is moved by the CNPs and by the late events of all sources, in their order, and by nothing else |
| `DcqcnRun.BlendIsAverage` | sim/_DEPRECATED_/dcqcn.cpp:59-141 | which makes it the exponentially weighted average: each CNP weighs g and every later CNP or late event scales what was there by 1 - g |
| `DcqcnRun.OnlyCnps` | sim/_DEPRECATED_/dcqcn.cpp:59-64 | n CNPs without late events between take alpha to within (1 - g)^n of its distance to 1 |
| `DcqcnRun.OncePerPeriodIff` | sim/_DEPRECATED_/dcqcn.cpp:138-141 | from a CNP to the next, in any run of any sources, the source changes alpha at most once a period if and only if no two of its events later than a period after the CNP are closer than a period |
| `DcqcnRun.TwiceInAPeriod` | sim/_DEPRECATED_/dcqcn.cpp:138-141 | a run in which one source decays alpha at two times one picosecond apart |
| `DcqcnRun.FiresIff` | sim/_DEPRECATED_/dcqcn.cpp:127-135 | the byte counter fires when B has been sent, or when it would go below zero |
| `DcqcnRun.CountersHonest` | sim/_DEPRECATED_/dcqcn.cpp:66-153 | from a CNP to the next, BC * B + byte counter is at most the advance of `_highest_sent`, T periods at most the time passed, throughout every run without underflow |
| `DcqcnRun.CountersHonestIff` | sim/_DEPRECATED_/dcqcn.cpp:66-153 | from a CNP to the next, in any run whose NACKs go back: throughout, BC * B + byte counter is at most the number of packets sent, retransmissions included, and T periods at most the time passed, if and only if every underflow leaves the stepped-up count covered by the packets sent |
| `DcqcnRun.CoveredUnderflow` | sim/_DEPRECATED_/dcqcn.cpp:127-135 | a run that goes back twice, underflows, and counts two B with 20000001 packets sent although `_highest_sent` has advanced by less |
| `DcqcnRun.TickHonestIff` | sim/_DEPRECATED_/dcqcn.cpp:127-148 | one tick keeps the counters within the packets sent exactly if it does not underflow or the underflow is covered |
| `DcqcnRun.GoBackRaisesRate` | sim/_DEPRECATED_/dcqcn.cpp:127-135 | after a CNP and a NACK the next tick counts a full B and raises the rate with nothing sent |
| `Trace.BookAgrees` | scripts/plot_trace.py:195-370 | the lists of a flow hold each packet number as often as a counting automaton says |
| `Trace.TallyBalances` | scripts/plot_trace.py:195-370 | the automaton's balance: sent = flying + received + lost, lost = open + detected, asked = detected + spurious |
| `Trace.TallyCounts` | scripts/plot_trace.py:195-370 | its totals are the sends and requests of the trace |
| `Trace.TallyLoses` | scripts/plot_trace.py:229-282 | its losses are the drops and trims of packets that were in flight |
| `Trace.Conservation` | scripts/plot_trace.py:195-370 | for every prefix, flow and packet number: sends are packets in flight, receipts of packets in flight, open losses and detected ones; drops and trims of packets in flight are open and detected losses; requests are detected losses and spurious ones |
| `Trace.TallyReceives` | scripts/plot_trace.py:313-318 | the automaton's receipts are the tracked receive events whose packet was in flight |
| `Trace.RequestsAddUp` | scripts/plot_trace.py:348-370 | detection times plus spurious requests are all requests |
| `Trace.BookInOrder` | scripts/plot_trace.py:229-282 | outstanding losses are in trace order, and lie after every spurious request for their packet |
| `Trace.DetectsOldest` | scripts/plot_trace.py:366-368 | a request meets the oldest outstanding loss of its packet |
| `Trace.DetectionMeasured` | scripts/plot_trace.py:348-370 | a request for a packet with outstanding losses records the time since the oldest one of that packet, as a detection of that loss, which alone leaves the list; nothing is counted spurious |
| `Trace.NothingMeasured` | scripts/plot_trace.py:348-370 | any other request is spurious at its own time, and no other event records a time |
| `Trace.NoFailureIff` | scripts/plot_trace.py:229-242 | the script gets through a trace if and only if every trim comes after a tracked send of its flow |
| `Trace.DetectionsNotNegative` | scripts/plot_trace.py:366-368 | so detection times are not negative on a trace in time order |
| `Trace.MatchesMinimum` | scripts/plot_trace.py:383-389 | the last pass credits, per packet number, the minimum of spurious requests and open losses |
| `Trace.MatchesEarliest` | scripts/plot_trace.py:383-389 | and which ones: of each packet number the first requests take the oldest losses, and exactly the later losses stay |
| `Trace.CreditsOnlyFutureLosses` | scripts/plot_trace.py:383-401 | every loss it can consume was recorded after every spurious request for that packet |
| `Reconciler.Parser.constructor` | scripts/plot_trace.py:159-163 | the empty dictionaries |
| `Reconciler.Parser.Launch` | scripts/plot_trace.py:195-198 | a tracked send flies |
| `Reconciler.Parser.Land` | scripts/plot_trace.py:313-318 | a receipt takes the first matching packet, if any |
| `Reconciler.Parser.Lose` | scripts/plot_trace.py:229-282 | a drop or trim moves a flying packet to the two aligned loss lists |
| `Reconciler.Parser.Ask` | scripts/plot_trace.py:348-370 | a request is spurious or strikes the first matching loss off both lists |
| `Reconciler.Parser.Process` | scripts/plot_trace.py:166-381 | one line: all dictionaries hold the books of the longer trace; fails exactly for a trim of an unknown flow |
| `Reconciler.Parser.Parse` | scripts/plot_trace.py:166-381 | the whole loop, and exactly where it stops |
| `Reconciler.Parser.MatchFlow` | scripts/plot_trace.py:384-397 | the last pass on one flow leaves `Remaining` and records `Matched` |
| `Reconciler.Parser.MatchSpurious` | scripts/plot_trace.py:383-401 | and on all flows, in any order |
| `Reconciler.AskLists` | scripts/plot_trace.py:348-370 | the list operations are the book's |
| `Reconciler.DetectedFromFirst` | scripts/plot_trace.py:366-370 | on the lists too, the time is measured from the first entry of the packet, and that entry is popped off both lists |
| `Meter.Meter.constructor` | sim/_DEPRECATED_/meter.cpp:8-20 | a full bucket and the truncated time per byte |
| `Meter.Meter.Execute` | sim/_DEPRECATED_/meter.cpp:51-79 | refill, cap and verdict as one step, credit within [0, maxsize]; a division by zero exactly above 8 Tbit/s |
| `Meter.Meter.TrimPesiTime` | sim/_DEPRECATED_/meter.h:42-47 | the penalty step |
| `Meter.PenaltyExact` | sim/_DEPRECATED_/meter.h:42-47 | after a trim of n packets, a packet t later is green exactly when it fits the bucket and t pays for it, at four times the time per byte while t is less than what n packets take, twice up to four times that, and once after |
| `Meter.GreenCostsItsSize` | sim/_DEPRECATED_/meter.cpp:60-79 | a green packet takes its size from the credit: what is green next at the same time is what would have been green together with it |
| `Meter.RedCostsNothing` | sim/_DEPRECATED_/meter.cpp:60-79 | a red packet changes nothing for the packets after it at the same time |
| `Meter.WindowBound` | sim/_DEPRECATED_/meter.cpp:51-79 | green bytes of any window of calls are at most the bucket plus one for every k times the time per byte, k being the smallest penalty met (1, 2 or 4) |
| `Meter.GreenFrom` | sim/_DEPRECATED_/meter.cpp:51-79 | the same from a given credit |
| `Meter.NeverAboveExact` | sim/_DEPRECATED_/meter.cpp:60-65 | truncated refills never give more credit than a continuous bucket debited by the same packets |
| `Meter.ConformsIff` | sim/_DEPRECATED_/meter.cpp:20-20 | the meter keeps to the configured bit rate on all runs if and only if that rate divides 8 * 10^12 or the bucket has size 0 |
| `Meter.ExceedsEveryBoundIff` | sim/_DEPRECATED_/meter.cpp:20-20 | runs exceed the bucket and the configured rate by more than any number of bytes if and only if the rate does not divide 8 * 10^12 and the bucket is not empty |
| `Meter.BurstExcess` | sim/_DEPRECATED_/meter.cpp:51-79 | a full bucket and n single bytes as soon as they are green exceed the configured rate by n times what the truncation loses |
| `Cdf.Generator.IsValidCdf` | traffic_gen/custom_random_number_generator.py:47-65 | the verdict is `ValidCdf`; the empty list fails |
| `Cdf.ValidIff` | traffic_gen/custom_random_number_generator.py:47-65 | valid are exactly the non-empty lists from percentile 0 to 100 in which of any two points the later one is larger in both |
| `Cdf.TwoPoints` | traffic_gen/custom_random_number_generator.py:47-65 | two points from 0 to 100 are valid exactly when the second value is larger, whatever sign the first one has |
| `Cdf.Generator.SetCdf` | traffic_gen/custom_random_number_generator.py:67-80 | only valid distributions are stored |
| `Cdf.Generator.CalculateAverageValue` | traffic_gen/custom_random_number_generator.py:115-129 | the loop computes the mean of the piecewise linear curve |
| `Cdf.Generator.GetValueFromPercentile` | traffic_gen/custom_random_number_generator.py:152-159 | the scan computes the value on the curve, also outside 0 to 100 |
| `Cdf.Generator.GetPercentileFromValue` | traffic_gen/custom_random_number_generator.py:171-182 | the percentile on the curve; -1 for negative values and beyond the last value, extrapolation from 0 up to the first |
| `Cdf.BelowFirst` | traffic_gen/custom_random_number_generator.py:171-182 | between 0 and a positive first value the answer is a negative percentile on the first segment's line |
| `Cdf.RefusedOutsideIff` | traffic_gen/custom_random_number_generator.py:169-182 | all values outside the distribution are answered -1, as documented, if and only if the first value is not positive |
| `Cdf.FiveIsMinusFifty` | traffic_gen/custom_random_number_generator.py:171-182 | an input for which they are not |
| `Cdf.Generator.GenerateRandomNumber` | traffic_gen/custom_random_number_generator.py:131-139 | every draw gives a value from the first up to, not including, the last |
| `Cdf.ValueThenPerc` | traffic_gen/custom_random_number_generator.py:152-182 | total on the whole range, in range, and inverted by the other lookup |
| `Cdf.PercThenValue` | traffic_gen/custom_random_number_generator.py:152-182 | and the other way round |
| `Cdf.StrictlyIncreasing` | traffic_gen/custom_random_number_generator.py:152-159 | strictly increasing, across segments too |
| `Cdf.RoundTripIff` | traffic_gen/custom_random_number_generator.py:171-172 | percentiles survive the round trip if and only if the first value is not negative |
| `Cdf.InsertChangesNothing` | traffic_gen/custom_random_number_generator.py:108-159 | an interpolated point changes neither validity, values nor mean |
| `Cdf.MeanIsOfTheCurve` | traffic_gen/custom_random_number_generator.py:108-129 | two distributions with the same values have the same mean, whatever points describe them |
| `Cdf.MeanMoves` | traffic_gen/custom_random_number_generator.py:115-129 | the mean is linear in the values, each point weighing half the distance between its neighbours' percentiles, in hundredths |
| `Cdf.MeanInRange` | traffic_gen/custom_random_number_generator.py:115-129 | the mean lies strictly between first and last value |
| `Convergence.Generate` | scripts/run_experiment.py:793-809 | starts and sizes of the flows, each size less than one byte below the exact one; eight times their sum is at most the bits of 2n intervals at the link speed, and less than 8n below; nothing is left of the running size |
| `Convergence.LeftIs` | scripts/run_experiment.py:797-807 | closed form of what each flow still has to receive in each interval of equal sharing |
| `Convergence.FinishTimes` | scripts/run_experiment.py:755-792 | flow i is active exactly from interval i to 2n - i - 1 and has then received exactly its size |
| `Convergence.FullShares` | scripts/run_experiment.py:755-792 | no flow finishes inside an interval, so the shares are equal throughout |
| `Convergence.SizesAddUp` | scripts/run_experiment.py:797-807 | the sizes add up to what the link carries in 2n intervals |
| `Convergence.BitsAddUp` | scripts/run_experiment.py:797-807 | eight times the exact sizes is the bits of 2n intervals at the link speed |
| `Erasure.FindRecoveredPkts` | parse_offline_ec.py:8-22 | the count is the exact sum over the stripes, at least the size of the recovered set, and equal exactly when no number repeats in an incomplete stripe; for distinct numbers it is at least their number |
| `Erasure.OneStripe` | parse_offline_ec.py:16-21 | for packets of one stripe the count is 8 from six packets on and their number below |
| `Erasure.OrderIrrelevant` | parse_offline_ec.py:8-22 | the order of the packets does not matter: the sum, the recovered set and distinctness depend on how often each number is listed only |
| `Erasure.RecoveredIsClosure` | parse_offline_ec.py:16-21 | the recovered set is the smallest one that holds the received packets and is closed under 6 of 8 |
| `Erasure.SixOfEight` | parse_offline_ec.py:16-21 | up to five packets of a stripe recover nothing else, six or more recover all eight |
| `Erasure.RecoveredIsStable` | parse_offline_ec.py:16-21 | recovering twice gains nothing; more packets never recover less |
| `Params.Consolidate` | scripts/common.py:207-216 | the recursive loop flattens |
| `Params.MergeTakesLast` | scripts/common.py:199-201 | a merge has the keys of all dictionaries, each with its last value |
| `Params.MergeConcat` | scripts/common.py:199-201 | merging in groups is merging at once |
| `Params.ProductAssociative` | scripts/common.py:203-205 | the product of products is the product of all lists, in the same order |
| `Params.ProductDistributes` | scripts/common.py:203-216 | a union in the first list comes out of the product, in the same order |
| `Params.ProductLength` | scripts/common.py:203-205 | the length is the product of the lengths |
| `Params.FlattenNested` | scripts/common.py:207-216 | consolidating any number of consolidated lists is consolidating their contents |

## Left out

- TriggerGraph: activations take effect at once; the simulator first queues them in the event list, at the same time. Barrier triggers are not used by these generators.
- `recv_done_trigger`: the loader accepts it; which transport fires it is not part of this model, a flow fires when it is done.
- Shuffles and the optional sort: the group members are arbitrary lists of distinct nodes; for the butterfly, which does not shuffle, they are the consecutive nodes.
- Butterfly.Emit: group sizes other than the powers of two, for which the script runs out of range; the floating-point logarithm is taken as exact.
- ButterflyRun.FileLayout: start times and file syntax; a flow's duration is arbitrary but positive.
- RoceSrc: what it does in `doNextEvent` is an arbitrary new `_highest_sent`; pacing, pauses and acknowledgements are not modelled.
- DcqcnSource.Source.DoNextEvent: rescheduling of its own timer; ticks come at arbitrary times, so the proofs cover every schedule.
- DcqcnSource.Cut: the 64-bit floating-point rounding of alpha; alpha is an exact real.
- DcqcnRun.RecoversIff: increments so small that recovery takes more than 65535 increases, when the 16-bit counters wrap.
- DcqcnRun.CountersHonestIff: sequence numbers within `_B` of 2^64, and NACKs that acknowledge more than `_highest_sent`, which can follow an earlier NACK when packets are reordered.
- DcqcnSource.Source.constructor: line rates of 2^48 bit/s and more, where sums of rates could overflow 64 bits and rates could exceed the precision of a double.
- DcqcnSink.Sink: the count of all packets since the last CNP, which nothing reads, and what RoceSink does with a packet.
- DcqcnSink.ResponseIff: packets that still wait and whose interval is not over or ends at or after the end of the simulation, for which the event list drops the timer.
- Reconciler.Parser: the sorted list of all credited requests, and the per-type `time`/`count` lists that only feed plots, regular expressions and files; events are parsed lines.
- Meter.Meter.constructor: a bit rate of 0; the queue of `beginService`, which nothing fills.
- Cdf: floating-point rounding and the quality of the random draws.
- Convergence.Generate: negative intervals; floating-point rounding.
- Params: the order of keys inside a dictionary.
- The simulator's topologies, queues, transports other than DCQCN, loggers and plotting; the remaining generators, which repeat these patterns.
