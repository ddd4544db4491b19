# A verified model of the simulator's state machines

This project models the parts of a cycle-level out-of-order core, cache, DRAM and prefetcher
simulator whose correctness rests on redundant bookkeeping, and proves what that bookkeeping
guarantees. `dafny verify dfyconfig.toml` checks everything.

Each component has two layers. A state machine over values says what one step does, carries the
invariant, and ends in theorems about every state of every run. A class with arrays, rings and
loops says how the simulator does it in place; its methods are proved to be enabled steps of the
state machine (`Valid()` says that the object is in a state some run ends in), so the run theorems
hold of the object, and the sanity checks of the source stand as assertions in the method bodies.

| component | state machine and theorems | in place |
|---|---|---|
| register scheduling: reorder buffer, RAW links, ready rings | `RegisterScheduler.dfy`, `RegisterSafety.dfy`, `RegisterProgress.dfy`, `RegisterTrace.dfy`, `DependenceScan.dfy` | `ReadyQueue.dfy`, `ReorderBuffer.dfy` |
| store order: STA ring, store queue | `StoreOrder.dfy`, `StoreProgress.dfy` | `StoreQueue.dfy` |
| DRAM controller | `DramAddress.dfy`, `DramChannel.dfy`, `DramSafety.dfy`, `DramRuns.dfy`, `DramProgress.dfy`, `DramRows.dfy` | `DramController.dfy` |
| SPP: pattern table, filter, lookahead, signature table | `SppPattern.dfy`, `SppLevel.dfy`, `SppRuns.dfy`, `SppFilter.dfy`, `SppWalk.dfy`, `SppLaw.dfy`, `SppOverflow.dfy`, `LruStack.dfy` | `SppTables.dfy`, `SppSignature.dfy`, `SppLookahead.dfy` |
| set-associative framework and its index hash | `Bits.dfy`, `IndexHash.dfy`, one-set lemmas of `SetAssociative.dfy` | class `LruCache` of `SetAssociative.dfy` |
| Bingo: history keys, footprints, life of a region | `BingoKeys.dfy`, `Rotation.dfy`, `BingoGenerations.dfy`, `BingoLife.dfy`, `BingoHistory.dfy` | `PatternHistory.dfy`, `BingoPrefetcher.dfy` |
| fastset | set lemmas of `Fastset.dfy` | class `Fastset` of `Fastset.dfy` |
| L1 data cache: tags, MSHR, replacement | `L1dState.dfy`, `L1dHistory.dfy` | `L1dCache.dfy` |
| Scooby: prefetch tracker and SARSA pairs | `ScoobyTracker.dfy`, `ScoobyTrace.dfy` | `Scooby.dfy` |
| MLOP: score table and choice of offsets | `MlopScores.dfy`, `MlopLaw.dfy` | `Mlop.dfy` |

`Basics.dfy` holds what several components share.

The main results, in the system's own terms:

- No instruction executes before the latest earlier instruction of the program that writes one of its
  registers has completed, whatever the order in which entries are scheduled, and none waits without such a
  writer; the dependence counters are exact, so every instruction enters the ready rings once and the rings
  never overflow. The buffer never gets stuck: without additions every run is finite and can go on until all
  instructions have retired.
- Stores enter the store queue in program order, and every slot freed at retirement is its head. The store
  side drains unless one instruction has more stores than the queue has slots, and then it never does.
- A DRAM bank works exactly for the one request its record names, through all read/write mode
  switches; accepted requests are served once, in the order the row-hit-first policy says, and never
  too early. Ticked often enough a channel serves everything pending, given a positive high watermark not
  below the low one; without that it can change mode for ever and serve nothing.
- One access to SPP is a function of its whole state, and every candidate its lookahead queues is
  handled exactly once; a stream of offsets seen on two pages is predicted on the next. Over all pattern
  tables its lookahead stays in its 48-entry arrays exactly up to 106 percent, ends exactly up to 107
  percent, and keeps every confidence below 100 exactly up to 109 percent; at most 37 candidates are queued
  up to 100 percent. The accuracy is not bounded by 100: accesses alone bring an empty prefetcher to 197
  percent, where the next lookahead leaves its arrays and never ends.
- Bingo's two-level lookup misses nothing by scanning one set; a footprint is exactly the set of
  blocks accessed from the trigger to the end of its generation, and an access that triggers a region again
  plans exactly the blocks of the latest generation begun with its PC at its block.
- fastset is a finite set, with the exact condition under which `join` is a union.
- In the L1 data cache an address is in one place at a time, its flags say what happened to it since its
  latest miss, and the block replaced is the least recently used of its set.
- Scooby learns from exactly the consecutive pairs of its decisions, with the rewards they deserve.
- MLOP's chosen depths are a prefix, no offset is chosen twice, and a stream scores its own stride.

Where code and comments disagree the model follows the code. `ROB.next_fetch[1]` is never written, so
scheduling scans only from the head to the end of the array (`src/ooo_cpu.cc:639-675`); the safety
theorems hold for any order. `fastset::join` documents a union but with a large argument adds only
elements below a rounded bound.

## Model

| member | source | states |
|---|---|---|
| `RegisterSafety.RawSafety` | `src/ooo_cpu.cc:679-818` | over every run, an instruction that has left the idle state finds the youngest older in-window writer of each of its source registers completed; nothing is assumed about the order in which entries are scheduled |
| `RegisterSafety.DependenceCountExact` | `src/ooo_cpu.cc:781-818` | in every reachable state num_reg_dependent is the number of live (producer, source slot) links, and a scheduled instruction is register-ready exactly when it has none |
| `RegisterSafety.EnteredOnce` | `src/ooo_cpu.cc:699-717` | over every run no instruction enters a ready queue twice, every non-memory instruction that has started was queued, and instructions retire in program order without gaps |
| `RegisterSafety.QueueRoom` | `src/ooo_cpu.cc:699-717` | in every reachable state the two ready queues together hold no more entries than the reorder buffer has slots |
| `RegisterSafety.PushesHaveRoom` | `src/ooo_cpu.cc:699-717` | after every step of every run each ready queue still fits its ring, so the ring-full sanity checks cannot fire, however many consumers one completion wakes |
| `RegisterSafety.HeadNeverWaits` | `src/ooo_cpu.cc:2234-2260` | a scheduled instruction at the head of the reorder buffer is register-ready, so retirement cannot wait on a register for ever |
| `RegisterSafety.AddKeeps` | `src/ooo_cpu.cc:402-438` | adding an instruction keeps the whole invariant: window shape, links, counts, coverage of every source by a link or a completed writer, queues and history |
| `RegisterSafety.ScheduleKeeps` | `src/ooo_cpu.cc:679-818` | linking an instruction to its producers keeps the invariant |
| `RegisterSafety.ExecuteKeeps` | `src/ooo_cpu.cc:820-902` | issuing the front of a ready queue keeps the invariant |
| `RegisterSafety.MemoryKeeps` | `src/ooo_cpu.cc:962-985` | issuing and completing memory operations keeps the invariant |
| `RegisterSafety.FinishKeeps` | `src/ooo_cpu.cc:1650-1758` | completing an instruction and releasing its consumers keeps the invariant |
| `RegisterSafety.RetireKeeps` | `src/ooo_cpu.cc:2234-2338` | retiring the head keeps the invariant although its links are wiped with it |
| `RegisterSafety.StepKeeps` | `src/ooo_cpu.cc:632-902` | every enabled step keeps the invariant |
| `RegisterSafety.RunInv` | `src/ooo_cpu.cc:632-902` | hence the invariant holds in every state of every run |
| `RegisterProgress.NeverStuck` | `src/ooo_cpu.cc:632-985` | no deadlock: in every state of every run with an instruction in the reorder buffer, a named step other than adding one is enabled, of its head or of the front of a ready queue |
| `RegisterProgress.StepUsesWork` | `src/ooo_cpu.cc:632-985` | every step but an addition lowers the work left, the sum over entries of the stages and memory operations still to go |
| `RegisterProgress.QuietRunsEnd` | `src/ooo_cpu.cc:632-985` | so a run without additions is no longer than the work at its start |
| `RegisterProgress.Drains` | `src/ooo_cpu.cc:2234-2260` | and every run can be continued without additions until every instruction has retired |
| `RegisterTrace.WindowIsProgram` | `src/ooo_cpu.cc:402-438` | over every run each instruction in the reorder buffer has the registers and memory flag of the instruction that was added with its id |
| `RegisterTrace.ProgramRawSafety` | `src/ooo_cpu.cc:679-818` | over every run, when an instruction has left the idle state, the latest earlier instruction of the added program that writes one of its sources has retired or has completed |
| `RegisterTrace.WaitsForWriter` | `src/ooo_cpu.cc:721-818` | an instruction that is scheduled but not register-ready waits for an earlier instruction of the program that writes one of its sources and has not completed, so no wait is without cause |
| `RegisterTrace.RetiresProgram` | `src/ooo_cpu.cc:2234-2340` | what has retired is exactly a prefix of the program, in order |
| `RegisterTrace.OperationsLeft` | `src/ooo_cpu.cc:820-985` | over every run an entry still counts as many memory operations as its instruction has in the program and have not completed |
| `RegisterTrace.CompletesAfterMemory` | `src/ooo_cpu.cc:1650-1707` | a memory instruction completes only when all its memory operations have |
| `DependenceScan.YoungestExists` | `src/ooo_cpu.cc:721-778` | among the window's incomplete writers of a register there is a youngest one whenever there is any |
| `DependenceScan.HitsIffProduces` | `src/ooo_cpu.cc:781-818` | the scan links a source to an entry exactly when that entry is the youngest older incomplete writer of the register |
| `DependenceScan.LinksStep` | `src/ooo_cpu.cc:721-778` | one step of the young-to-old scan adds one link exactly when the entry is that writer, and none otherwise |
| `ReadyQueue.ReadyRing.Push` | `src/ooo_cpu.cc:699-717` | the RTE ring as an array with head and tail: a push appends to its contents, and the slot at the tail is empty as the sanity check demands |
| `ReadyQueue.ReadyRing.Pop` | `src/ooo_cpu.cc:820-879` | the oldest element leaves and its slot is marked empty |
| `ReorderBuffer.O3Cpu.AddToRob` | `src/ooo_cpu.cc:402-438` | the slot at the old tail takes the registers, memory flag and operation count of the instruction, with the next id and nothing scheduled; no other slot changes, and this is the Add step of the state machine |
| `ReorderBuffer.O3Cpu.RegRawDependency` | `src/ooo_cpu.cc:781-818` | links one source slot to a prior entry exactly when one of the entry's destinations is the source register, and changes nothing otherwise |
| `ReorderBuffer.O3Cpu.RegDependency` | `src/ooo_cpu.cc:721-778` | the two scans over the ring link every source to its youngest older incomplete writer |
| `ReorderBuffer.O3Cpu.DoScheduling` | `src/ooo_cpu.cc:679-717` | is the Schedule step: links, stage and the push to RTE0 or RTE1 for a ready non-memory instruction |
| `ReorderBuffer.O3Cpu.RegRawRelease` | `src/ooo_cpu.cc:1709-1758` | passes completion on to every consumer in index order; consumers whose last link goes become ready and are pushed to RTE0 in that order |
| `ReorderBuffer.O3Cpu.CompleteExecution` | `src/ooo_cpu.cc:1650-1707` | is the Finish step for an entry in flight that is due, and nothing otherwise |
| `ReorderBuffer.O3Cpu.ScheduleInstruction` | `src/ooo_cpu.cc:632-677` | walks from the head as far as entries are eligible and the search limit allows; exactly the idle entries passed on the way are scheduled, in that order, none passed stays idle, and the whole state is otherwise unchanged |
| `ReorderBuffer.O3Cpu.ExecuteInstruction` | `src/ooo_cpu.cc:820-879` | RTE0 and then RTE1 lose exactly their first entries, which start executing, at most the execution width in all, and nothing else changes; each loop stops only at the width, at a front that is missing or not due, or when the ring has been walked once |
| `ReorderBuffer.O3Cpu.DoMemoryScheduling` | `src/ooo_cpu.cc:962-982` | is the MemIssue step for an instruction whose memory operations all have queue slots |
| `ReorderBuffer.O3Cpu.UpdateRob` | `src/ooo_cpu.cc:1777-1811` | the window is visited in age order and exactly the entries in flight that are due complete, each passed on to its consumers, with the whole new state given; no entry goes back a stage |
| `ReorderBuffer.O3Cpu.RetireRob` | `src/ooo_cpu.cc:2234-2340` | the new state is the old one after n enabled retirements of the head, at most the retire width, and nothing else; it stops early only at a head that is empty, incomplete or without room for its stores |
| `StoreOrder.StoresEnterInOrder` | `src/ooo_cpu.cc:986-1042` | over every run the stores that have entered the store queue are a prefix of the stores fetched, and the fetched ones not yet released are exactly the operands in the window |
| `StoreOrder.StaNeverOverflows` | `src/ooo_cpu.cc:103-132` | over every run the STA ring holds at most four ids per reorder-buffer slot, which is its size |
| `StoreOrder.QueueIsContiguous` | `src/ooo_cpu.cc:1267-1328` | over every run the occupied store-queue slots are the `occupancy` slots from the head, and the tail is that far from the head |
| `StoreOrder.AddsOldest` | `src/ooo_cpu.cc:1006-1030` | the conditions tested before adding a store single out the oldest operand without a slot, and the slot at the tail is free |
| `StoreOrder.ReleaseFreesHead` | `src/ooo_cpu.cc:2298-2321` | the slot released at retirement is the head of the store queue and holds that very operand |
| `StoreOrder.ReleaseReady` | `src/ooo_cpu.cc:2298-2321` | an operand at the head of the window whose instruction has executed has its slot, because the instruction was issued only with all its slots; so what retirement tests is enough to release it |
| `StoreOrder.StepKeeps` | `src/ooo_cpu.cc:986-1042` | every step of the store side keeps its invariant |
| `StoreOrder.OperandsComplete` | `src/ooo_cpu.cc:278-306` | an instruction has a store operand for each nonzero destination address and for no other, with that address |
| `StoreProgress.NeverStuck` | `src/ooo_cpu.cc:962-1042` | while an instruction is in the window and the queue is not jammed, some step other than a fetch moves it on |
| `StoreProgress.StepUsesWork` | `src/ooo_cpu.cc:962-1042` | every such step uses up work |
| `StoreProgress.Drains` | `src/ooo_cpu.cc:2298-2338` | with at least as many slots as an instruction has destinations, every run of such steps is bounded and goes on until the window is empty and every slot is free |
| `StoreProgress.JamStays` | `src/ooo_cpu.cc:986-1042` | the exact exception: once the oldest instruction holds every slot and needs another, it never leaves, whatever happens |
| `StoreProgress.JamHappens` | `src/ooo_cpu.cc:986-1042` | a run to such a jam, with one slot and an instruction of two stores |
| `StoreQueue.StaRing.Push` | `src/ooo_cpu.cc:278-306` | the STA ring as an array: a push appends, and the sanity check before it holds |
| `StoreQueue.StaRing.Pop` | `src/ooo_cpu.cc:1310-1316` | the oldest id leaves and its slot is marked empty |
| `StoreQueue.StoreUnit.PushStores` | `src/ooo_cpu.cc:278-306` | reading an instruction pushes its id once per nonzero destination address, and there is always room |
| `StoreQueue.StoreUnit.Fetch` | `src/ooo_cpu.cc:278-306` | is the Fetch step |
| `StoreQueue.StoreUnit.AddStoreQueue` | `src/ooo_cpu.cc:1267-1328` | is the AddStore step; the sanity check on the tail slot holds |
| `StoreQueue.StoreUnit.CheckAndAdd` | `src/ooo_cpu.cc:986-1042` | adds what it can, reports zero exactly when every operand of the instruction has a slot, and otherwise the queue is full or an older store still waits |
| `StoreQueue.StoreUnit.DoMemoryScheduling` | `src/ooo_cpu.cc:962-982` | the instruction is issued exactly when all its store operands have slots, and otherwise waits |
| `StoreQueue.StoreUnit.ReleaseHead` | `src/ooo_cpu.cc:2298-2321` | frees the slot the operand names, which is the head, and advances the head around the ring |
| `StoreQueue.StoreUnit.Retire` | `src/ooo_cpu.cc:2298-2338` | the operands of the oldest instruction, and only those, leave with it |
| `DramAddress.DecodeIsLossless` | `src/dram_controller.cc:648-696` | the five fields decoded from an address within capacity determine it |
| `DramAddress.NextBank` | `src/dram_controller.cc:648-696` | successive addresses go round the channels, and those of one channel round its banks |
| `DramAddress.NextColumn` | `src/dram_controller.cc:648-696` | the next address of a bank is in its next column |
| `DramAddress.NextRank` | `src/dram_controller.cc:648-696` | after a row of columns comes the next rank, with the same channel, bank and column |
| `DramAddress.NextRow` | `src/dram_controller.cc:648-696` | and after the ranks the next row |
| `DramRuns.BankNamesItsRequest` | `src/dram_controller.cc:253-278` | over every run of all channels a bank is working exactly when one slot of the current-mode queue is scheduled and maps to it, request_index names that slot, and nothing of the other queue is in flight |
| `DramRuns.BookkeepingExact` | `src/dram_controller.cc:564-618` | over every run the scheduled counters and occupancies are the true counts, addresses in a queue are distinct, and the cached next indices agree with a full scan except at the sentinel cycle |
| `DramRuns.RequestsConserved` | `src/dram_controller.cc:433-552` | over every run each accepted request is pending in one queue or was served, and is counted once |
| `DramRuns.TransfersRespectTiming` | `src/dram_controller.cc:315-341` | over every run no transfer comes before tCAS (row hit) or tRP+tRCD+tCAS after its latest scheduling, nor within the bus time of any earlier transfer on its channel |
| `DramRuns.OperateStays` | `src/dram_controller.cc:86-138` | one cycle keeps every waiting request in its slot, through any mode switch, unless that cycle transfers it |
| `DramRuns.RequestStays` | `src/dram_controller.cc:86-138` | over any run a waiting request stays in its slot through all events and mode switches, up to the very event that logs its transfer |
| `DramRuns.AddressZeroIsLost` | `src/dram_controller.cc:433-552` | a request for address 0 never reaches a queue, because address 0 marks a free slot |
| `DramRuns.OperateKeeps` | `src/dram_controller.cc:86-138` | a cycle keeps the channel invariant |
| `DramRuns.AddReadKeeps` | `src/dram_controller.cc:433-509` | adding a read keeps it, whatever the outcome |
| `DramRuns.AddWriteKeeps` | `src/dram_controller.cc:512-552` | adding a write keeps it, whatever the outcome |
| `DramRuns.RunInv` | `src/dram_controller.cc:86-138` | the invariant holds for every channel in every state of every run |
| `DramProgress.ModeRule` | `src/dram_controller.cc:86-110` | the mode after a cycle, from occupancies and watermarks, both ways in each mode |
| `DramProgress.SlackServes` | `src/dram_controller.cc:86-138` | progress: among any growing cycles that span a latency, a turn-around and a bus time, one transfers a request if one is pending at the first, given a positive high watermark not below the low one |
| `DramProgress.EveryCycle` | `src/dram_controller.cc:86-138` | ticks in every cycle, as the simulator makes them, span that in two cycles more than it is long |
| `DramProgress.ServesAll` | `src/dram_controller.cc:86-138` | so in that many cycles for each pending request all of them are served, reads and writes, across all mode switches |
| `DramProgress.WritesServed` | `src/dram_controller.cc:86-110` | with only writes pending, that many cycles transfer a write |
| `DramProgress.ServesEventually` | `src/dram_controller.cc:86-138` | and for every state of every run there is a time from which this holds |
| `DramProgress.MarksIff` | `inc/defs.h:147-160` | watermarks are of that kind exactly when no occupancies make the channel want to leave both modes |
| `DramProgress.FlapsForEver` | `src/dram_controller.cc:86-110` | with other watermarks and such occupancies the channel changes mode in every cycle and never transfers anything |
| `DramRows.WorkingRowOpen` | `src/dram_controller.cc:253-278` | over every run a working bank has the row of the request it works for open |
| `DramRows.HitIff` | `src/dram_controller.cc:140-278` | a request is scheduled as a row hit, with the short latency, exactly when its row was open |
| `DramRows.TransferLeavesRow` | `src/dram_controller.cc:315-341` | a transfer leaves its row open in a bank that is free |
| `DramRows.SwitchTakesBack` | `src/dram_controller.cc:24-84` | a change of mode makes exactly the requests in flight due again at once, changes nothing else in the queues, and leaves a row open only if it had been opened by then; exactly then, unless the bank was waiting for the bus |
| `DramSafety.ChoiceMeaning` | `src/dram_controller.cc:140-252` | schedule picks the oldest row hit among idle banks, else the oldest request for an idle bank, and picks something whenever any request is eligible |
| `DramSafety.ScanMeaning` | `src/dram_controller.cc:140-252` | a scan finds the first wanted packet with the least event cycle, if there is one |
| `DramSafety.ResetKeeps` | `src/dram_controller.cc:24-84` | taking back everything in flight leaves no bank working and both counters zero, so the sanity check holds |
| `DramSafety.CachedRequestOwned` | `src/dram_controller.cc:291-313` | the request process() is about to transfer is in flight and its bank names it, so the sanity checks hold |
| `DramSafety.AcceptedIffRoom` | `src/dram_controller.cc:433-552` | a request reaches its queue exactly when its address is queued nowhere it is looked for and the queue has room |
| `DramSafety.SwitchKeeps` | `src/dram_controller.cc:86-110` | switching between read and write mode keeps the invariant |
| `DramSafety.ScheduleKeeps` | `src/dram_controller.cc:140-289` | scheduling keeps it |
| `DramSafety.ProcessKeeps` | `src/dram_controller.cc:291-431` | transferring, or waiting for the bus, keeps it |
| `DramController.PacketQueue.UpdateScheduleCycle` | `src/dram_controller.cc:564-594` | caches the result of a full scan over unscheduled packets |
| `DramController.PacketQueue.UpdateProcessCycle` | `src/dram_controller.cc:596-618` | caches the result of a full scan over scheduled packets |
| `DramController.PacketQueue.CheckDramQueue` | `src/dram_controller.cc:620-646` | the first slot with the address, or the queue size |
| `DramController.ChannelController.AddRq` | `src/dram_controller.cc:433-509` | on arrays: the AddRead event with its outcome; an accepted request takes a slot that was free, a forwarded one names a queued write of its address, a merged one a queued read |
| `DramController.ChannelController.AddWq` | `src/dram_controller.cc:512-552` | on arrays: the AddWrite event with its outcome; an accepted request takes a slot that was free, a merged one names a queued write of its address |
| `DramController.ChannelController.ResetRemainRequests` | `src/dram_controller.cc:24-84` | the loop over the queue is the Reset of the model |
| `DramController.ChannelController.Select` | `src/dram_controller.cc:140-252` | the two selection loops compute the model's choice |
| `DramController.ChannelController.Schedule` | `src/dram_controller.cc:140-289` | is the model's schedule |
| `DramController.ChannelController.Process` | `src/dram_controller.cc:291-431` | is the model's process |
| `DramController.ChannelController.Operate` | `src/dram_controller.cc:86-138` | is one tick of the model, and leaves the object in a reachable state; from read mode it goes to write mode exactly at the high watermark or when only writes wait, and back exactly when no write waits or when reads wait and writes are below the low watermark |
| `SppPattern.UpdateKeeps` | `prefetcher/spp_dev2_helper.cc:147-208` | training keeps c_sig <= 15, the sum of c_delta below c_sig, and distinct nonzero deltas, exactly when it does not train an untrained set with delta 0 |
| `SppPattern.ZeroDeltaBreaksStrictness` | `prefetcher/spp_dev2_helper.cc:147-208` | the failing case: an empty set trained with delta 0 has a counter equal to c_sig |
| `SppPattern.VictimExists` | `prefetcher/spp_dev2_helper.cc:170-200` | a victim way always exists and is the first with the least counter, so the replacement assertion cannot fire |
| `SppPattern.TrainedOk` | `prefetcher/spp_dev2_helper.cc:147-208` | any sequence of nonzero deltas leaves a consistent set |
| `SppPattern.ConfidencesAtMost` | `prefetcher/spp_dev2_helper.cc:210-235` | for every accuracy: if the damping times 14/15 stays below cap + 1 percent, the confidences read at one level add up to at most cap percent of the path confidence |
| `SppPattern.LocalConfidencesAtMost93` | `prefetcher/spp_dev2_helper.cc:210-235` | at depth 0 they add up to at most 93 |
| `SppFilter.CheckKeeps` | `prefetcher/spp_dev2_helper.cc:253-341` | every filter request keeps the account: pf_issued within ten bits, pf_useful plus unused valid slots at most pf_issued plus the filter size |
| `SppFilter.AccountedAlways` | `prefetcher/spp_dev2.cc:121-126` | hence the account holds after any sequence of requests, across every halving of the counters |
| `SppFilter.AccuracyCanReach200` | `prefetcher/spp_dev2.cc:121-126` | a concrete request sequence after which pf_useful is twice pf_issued: accuracy is not bounded by 100 |
| `SppLevel.LevelCost` | `prefetcher/spp_dev2_helper.cc:217-250` | for every accuracy: the candidates queued at one level lie between the threshold and the path that is followed, and the followed one plus 25 for each other one stays within cap percent of the path |
| `SppLevel.LevelIff` | `prefetcher/spp_dev2_helper.cc:217-250` | a level queues exactly the ways whose confidence reaches the threshold, each with its own delta |
| `SppLevel.FollowsFirstBest` | `prefetcher/spp_dev2_helper.cc:217-250` | the way followed is the first of the most confident candidates, and none is when none has any confidence |
| `SppRuns.RunBounded` | `prefetcher/spp_dev2.cc:99-175` | for every table and every number of passes, at an accuracy of at most 106 the candidates queued and those the path can still pay for are at most 47, at most 100 they are at most 37 |
| `SppRuns.FitsIff` | `prefetcher/spp_dev2.cc:99-175` | the loop stays inside its 48-entry arrays for every consistent table and every signature exactly when the accuracy is at most 106, at every threshold from the default 25 over the configured 40 up to 45 |
| `SppRuns.EndsIff` | `prefetcher/spp_dev2.cc:99-175` | at these thresholds the loop ends for every consistent table and every signature exactly when the accuracy is at most 107 |
| `SppRuns.TameIff` | `prefetcher/spp_dev2_helper.cc:343-390` | at these thresholds no candidate of any run reaches a confidence of 100, which is when the global register can run out of victims, exactly when the accuracy is at most 109 |
| `SppRuns.SureFails` | `prefetcher/spp_dev2.cc:99-175` | over any table with that one set at the fixed signature the loop leaves its arrays from 107 on, never ends from 108 on, and reaches confidence 100 from 110 on |
| `SppRuns.SixtyNineAt107` | `prefetcher/spp_dev2.cc:99-175` | the failing run: at accuracy 107 a signature that maps to itself queues 69 candidates in 48 slots |
| `SppRuns.SureOk` | `prefetcher/spp_dev2_helper.cc:147-208` | the set used in the failing runs is what training an empty set fifteen times with one delta gives |
| `SppRuns.FixedSignature` | `prefetcher/spp_dev2.cc:154-162` | signature 1 extended by delta 9 is 1 again, and delta 1 leads to it from the empty signature |
| `SppTables.GhrWayIff` | `prefetcher/spp_dev2_helper.cc:343-394` | update_entry finds a way exactly when some entry has the offset or a confidence below 100, otherwise its assertion fires; the way is the first with the offset, or the first of least confidence |
| `SppTables.GlobalRegister.UpdateEntry` | `prefetcher/spp_dev2_helper.cc:343-394` | for every confidence: exactly that way is overwritten, and while all confidences stay below 100 there always is one |
| `SppTables.GlobalRegister.CheckEntry` | `prefetcher/spp_dev2_helper.cc:396-409` | the first most confident entry for an offset, and none when every such entry has confidence zero |
| `SppTables.PatternTable.UpdatePattern` | `prefetcher/spp_dev2_helper.cc:147-208` | the in-place update of one set is the model's update and leaves the other sets alone |
| `SppTables.PrefetchFilter.Request` | `prefetcher/spp_dev2_helper.cc:253-341` | the in-place check, with the issue count of an accepted L2 prefetch, is the model's check |
| `SppLookahead.ReadPattern` | `prefetcher/spp_dev2_helper.cc:210-251` | queues exactly the ways that reach the threshold, in way order, and follows the most confident one |
| `SppWalk.HandleAllMeaning` | `prefetcher/spp_dev2.cc:105-152` | the candidates of a level are handled once each, in queue order, each on the line its level started at plus its delta; it crosses exactly when that is another page, and goes to L2 only at the fill threshold |
| `SppWalk.WalkIsRun` | `prefetcher/spp_dev2.cc:99-175` | the walk over the whole state follows the run of the pattern table |
| `SppWalk.WalkHandles` | `prefetcher/spp_dev2.cc:99-175` | after every pass everything queued has been handled, and nothing else |
| `SppWalk.WalkRemembers` | `prefetcher/spp_dev2_helper.cc:253-341` | in every state of every lookahead no line has been prefetched into L2 twice, unless another prefetch took its filter slot in between |
| `SppWalk.WalkEnded` | `prefetcher/spp_dev2.cc:174-175` | a walk that has ended stays as it is, so the number of passes does not matter |
| `SppWalk.PassFollows` | `prefetcher/spp_dev2.cc:154-172` | a pass goes on from the first of its most confident candidates: the base line moves by its delta, the signature takes that delta in, and its confidence becomes that of the path |
| `SppWalk.AccessKeeps` | `prefetcher/spp_dev2.cc:56-181` | an access at an accuracy of at most 106 keeps the signature table, every pattern set, the account of the filter and the register as they should be |
| `SppLookahead.SppDev2.Handle` | `prefetcher/spp_dev2.cc:107-150` | on arrays, one candidate is handled as in the walk: through the filter, or into the register in the way its scan finds |
| `SppLookahead.SppDev2.HandleLevel` | `prefetcher/spp_dev2.cc:105-152` | the loop over the queued candidates has the effect of the whole level, and each is handled |
| `SppLookahead.SppDev2.OneLevel` | `prefetcher/spp_dev2.cc:99-175` | one pass of the loop on the arrays is one pass of the walk: signature, path, depth, base line, tables and what was handled |
| `SppLookahead.SppDev2.Lookahead` | `prefetcher/spp_dev2.cc:99-175` | for every accuracy up to 106 the loop ends in the state in which the walk ends, with the tables and actions of that walk; at most 47 candidates are ever queued, 37 up to accuracy 100 |
| `SppLookahead.SppDev2.Learn` | `prefetcher/spp_dev2.cc:80-89` | the new state and the signatures and delta are those that the page, its offset and the register's hint determine: the demand is checked; with an old signature its set becomes the update of what it was with the delta and every other set stays, and without one no set changes |
| `SppLookahead.SppDev2.InvokePrefetcher` | `prefetcher/spp_dev2.cc:56-181` | one access to this page and offset, from the whole state before it to the whole state after it, with the accuracy measured before |
| `SppLookahead.NewSpp` | `inc/spp_dev2_helper.h:57-155` | all four tables start empty: the state of the prefetcher that has seen nothing |
| `SppOverflow.AccessesOverflow` | `prefetcher/spp_dev2.cc:56-181` | the failing history in one piece: from an empty prefetcher of the source's sizes, with keys as their own hashes, accesses whose lookaheads all end within two passes reach accuracy 197, and the lookahead of the next access leaves its arrays and never ends |
| `SppSignature.SignatureTable.ReadAndUpdateSig` | `prefetcher/spp_dev2_helper.cc:33-145` | a known page reports its old signature with the delta and never with delta 0; an unknown page takes the first free line or the least recent one; tags stay distinct and ranks a permutation; table and answer are one function of the old table |
| `SppSignature.ReadSigKeeps` | `prefetcher/spp_dev2_helper.cc:33-145` | that function keeps tags distinct and ranks a permutation, and hands out no signature with delta 0 |
| `SppSignature.SignatureTellsDeltas` | `prefetcher/spp_dev2_helper.cc:46-56` | different deltas within a page lead from one signature to different signatures |
| `SppLaw.SignatureForgets` | `prefetcher/spp_dev2_helper.cc:46-56` | a signature depends on the last four deltas only |
| `SppLaw.PagesTrain` | `prefetcher/spp_dev2.cc:80-89` | pages walked at the same three offsets train the set of the signature before the third one, with the last delta, and no other set |
| `SppLaw.StreamLearned` | `prefetcher/spp_dev2.cc:80-150` | after two or more such pages, a new page accessed at the first two offsets has its line at the third one queued first and handled |
| `SppLaw.BootstrapsNextPage` | `prefetcher/spp_dev2_helper.cc:105-130` | a candidate that left its page, if the register keeps it as the most confident one for its offset, gives the page first accessed at that offset the signature of the stream |
| `SppLaw.FilterLaws` | `prefetcher/spp_dev2_helper.cc:253-341` | an L2 prefetch puts its line in the filter, the first demand counts it as used and no later one does, an eviction lets it be prefetched again, and a last-level prefetch changes nothing |
| `LruStack.PromoteKeeps` | `replacement/base_replacement.cc:59-68` | lru_update keeps the ranks a permutation |
| `LruStack.PromoteIsMoveToFront` | `replacement/base_replacement.cc:59-68` | and is move-to-front: the way comes first and all others keep their order |
| `LruStack.VictimExists` | `replacement/base_replacement.cc:37-54` | a full set always has a way of the last rank, so the no-victim assertion is unreachable |
| `LruStack.RankIsRecency` | `replacement/base_replacement.cc:59-68` | after any history of touches the ranks order the ways by recency |
| `LruStack.VictimIsLeastRecent` | `replacement/base_replacement.cc:37-54` | the victim is the least recently touched way |
| `LruStack.LruUpdate` | `replacement/base_replacement.cc:59-68` | the in-place loop computes the promotion |
| `LruStack.LruVictim` | `replacement/base_replacement.cc:19-57` | the first invalid way, else the way of the last rank |
| `IndexHash.HashTwice` | `src/bakshalipour_framework.cc:3-17` | hashing twice is the identity, as the comment in the source promises |
| `IndexHash.HashInjective` | `src/bakshalipour_framework.cc:11-17` | distinct keys have distinct hashes |
| `IndexHash.HashHigh` | `src/bakshalipour_framework.cc:11-17` | only the lowest block of a key changes |
| `IndexHash.HashFits` | `src/bakshalipour_framework.cc:11-17` | a hash has no more bits than its key |
| `IndexHash.HashLow` | `src/bakshalipour_framework.cc:3-17` | the lowest block of a hash is the exclusive or of all blocks of the key |
| `IndexHash.OneBlockSpreads` | `src/bakshalipour_framework.cc:3-17` | keys that differ in exactly one of their blocks, whichever it is, go to different sets |
| `IndexHash.HashIndex` | `src/bakshalipour_framework.cc:11-17` | the folding loop computes the hash |
| `IndexHash.IndexLength` | `inc/bakshalipour_framework.h:136-138` | the counting loop finds the least length whose power of two covers the set indices |
| `SetAssociative.IndexIsScan` | `inc/bakshalipour_framework.h:193-203` | looking a tag up in cams is a linear scan of the valid ways, and the match is unique |
| `SetAssociative.KeysFitWays` | `inc/bakshalipour_framework.h:145-203` | a set never holds more keys than it has ways |
| `SetAssociative.VictimIsLeastRecent` | `inc/bakshalipour_framework.h:267-270` | if every inserted key was touched, the victim of a full set was touched before every other key of the set |
| `SetAssociative.LruCache.Find` | `inc/bakshalipour_framework.h:193-203` | finds the way of a key exactly when the map holds it |
| `SetAssociative.LruCache.Insert` | `inc/bakshalipour_framework.h:161-191` | inserts as on a map; a key is displaced exactly from a full set, and then the least recently touched one, which is returned |
| `SetAssociative.LruCache.Erase` | `inc/bakshalipour_framework.h:145-156` | removes the key and returns what it held |
| `SetAssociative.LruCache.SetMru` | `inc/bakshalipour_framework.h:261-281` | records the touch and changes nothing else |
| `SetAssociative.LruCache.SelectVictim` | `inc/bakshalipour_framework.h:267-270` | the first way with the least touch time |
| `SetAssociative.LruCache.Put` | `inc/bingo.h:50-58` | insertion followed by set_mru: the displaced key is always the least recently touched of its set |
| `BingoKeys.OneSetLookup` | `inc/bingo.h:244-277` | for keys of any two entries, same set and short comparison together mean the same truncated PC and offset, same set and long comparison together mean the same truncated PC and address |
| `BingoKeys.SameOffsetSameSet` | `inc/bingo.h:307-318` | entries with the same truncated PC and offset are in the same set |
| `BingoKeys.KeyIff` | `inc/bingo.h:307-318` | keys are equal exactly when PC and address agree on the bits that are kept |
| `BingoKeys.LowKeyIff` | `inc/bingo.h:307-318` | the part of the key below the base identifies truncated PC and offset |
| `Rotation.RotateBack` | `inc/bingo.h:194-201` | rotating back undoes a rotation, for every integer amount |
| `Rotation.RotateMoves` | `inc/bingo.h:194-201` | a rotation by n moves what is at place i to place i + n, around the footprint |
| `Rotation.MyRotate` | `inc/bingo.h:194-201` | the loop, with the truncating remainder of C, rotates right by any integer amount |
| `PatternHistory.ScanRow` | `inc/bingo.h:255-272` | the loop over the ways: an exact match ends it, the other matches are collected in way order |
| `PatternHistory.LookupRow` | `inc/bingo.h:255-272` | scanning one set finds the entry of this PC and address if the table has one, otherwise every entry of this PC and offset in the whole table, once each |
| `PatternHistory.PatternHistoryTable.Insert` | `inc/bingo.h:228-238` | stores the footprint rotated to its trigger under its key; at most one other entry is displaced and all others stay as they are |
| `PatternHistory.PatternHistoryTable.Find` | `inc/bingo.h:244-277` | returns those footprints turned to the offset of the access, and says which kind of match it was |
| `BingoGenerations.RebuiltKey` | `prefetcher/bingo.cc:277-286` | the address rebuilt from the truncated region and the trigger offset has the key of the block itself |
| `BingoGenerations.ReturnsSent` | `inc/bingo.h:228-277` | a footprint comes back as it was sent, although it was stored rotated |
| `BingoGenerations.TurnedIsRelative` | `inc/bingo.h:228-277` | turned to another trigger, a stored footprint has each block at the distance from it that it had from its own |
| `BingoLife.GenerationsConserved` | `prefetcher/bingo.cc:77-124` | over every run no truncated region is in both tables, generations begun are those accumulating plus those sent, and all of them hold their trigger and a second block; a generation begins only from a filter entry that sees another offset |
| `BingoLife.FootprintsExact` | `prefetcher/bingo.cc:77-124` | over every run the footprint of each generation, sent or accumulating, is exactly the set of offsets of its region accessed from its trigger to its end or to now, and its PC and offset are those of the access at its trigger |
| `BingoLife.LookupReturnsLatest` | `prefetcher/bingo.cc:237-262` | over every run, while the history has an entry for a PC and block, looking it up gives the latest footprint sent for them, bit for bit |
| `BingoLife.EvictedThenTriggered` | `prefetcher/bingo.cc:113-124` | evicting an accumulating region leaves its footprint to be found by the PC and the block of the access that triggered it |
| `BingoHistory.LookupIsLatestGeneration` | `prefetcher/bingo.cc:237-286` | over every run, while the history has an entry for a PC and block, looking it up gives the footprint of the latest generation that an access with this PC to this block began, which is the set of offsets accessed in it |
| `BingoHistory.PlanLearnt` | `prefetcher/bingo.cc:237-262` | so the plan made from it holds the fill level at exactly those offsets |
| `BingoLife.StepKeeps` | `prefetcher/bingo.cc:77-124` | every step of a region's life keeps the invariant |
| `BingoPrefetcher.Bingo.SetPattern` | `inc/bingo.h:121-137` | marks the block in the footprint of an accumulating region, and reports whether there was one |
| `BingoPrefetcher.Bingo.InsertInPht` | `prefetcher/bingo.cc:277-286` | stores the footprint under its PC and the address rebuilt from the table key |
| `BingoPrefetcher.Bingo.FindInPht` | `prefetcher/bingo.cc:237-272` | an address match gives exactly the latest footprint as fill levels, an offset match the vote among all footprints of this PC and offset, a miss nothing |
| `BingoPrefetcher.Bingo.Promote` | `prefetcher/bingo.cc:97-110` | the region moves to the accumulation table with two blocks; a generation displaced by it is sent exactly once |
| `BingoPrefetcher.Bingo.Access` | `prefetcher/bingo.cc:77-111` | the four cases of an access, each as a step of the region's life; a trigger answers with the latest footprint of its PC and block, else with the vote among all entries of its PC and offset, else with nothing, and every other access with nothing; an address match plans exactly the blocks accessed in the latest generation that an access with this PC to this block began |
| `BingoPrefetcher.Bingo.Eviction` | `prefetcher/bingo.cc:113-124` | the region leaves the filter table, and its generation, if any, is sent |
| `Fastset.Fastset.Insert` | `inc/set.h:157-182` | adds exactly one element, across the change from sorted array to bit set |
| `Fastset.Fastset.InsertSmall` | `inc/set.h:58-76` | keeps the array strictly increasing and adds the element |
| `Fastset.Fastset.SmallToBit` | `inc/set.h:129-139` | the bit set has the elements of the array |
| `Fastset.Fastset.SearchSmall` | `inc/set.h:94-125` | membership by linear or binary search; the binary search ends |
| `Fastset.Fastset.Search` | `inc/set.h:186-205` | is membership |
| `Fastset.Fastset.Join` | `inc/set.h:210-240` | is union with a small set; with a large set it adds the elements below n rounded up to the next word; so it is a union exactly when the other set is small or every element at or above that bound is already there |
| `Fastset.JoinLosesElement` | `inc/set.h:210-240` | the failing case, on objects: joining a large set that holds 64 into an empty set with bound 1 loses 64 |
| `Fastset.Fastset.Expand` | `inc/set.h:244-274` | lists the elements in strictly increasing order: all of a small set, those below n of a large one |
| `Fastset.IncreasingUnique` | `inc/set.h:244-274` | such a list is unique |
| `L1dState.AddressInOnePlace` | `src/cache.cc:1862-1920` | over every run an address is in at most one valid way of any set or one MSHR slot, never in both |
| `L1dState.BookkeepingExact` | `src/cache.cc:1818-1860` | over every run MSHR occupancy counts the nonzero slots, next_fill is the true minimum over returned slots, the ranks of each set are a permutation, and a victim exists |
| `L1dState.HitKeeps` | `src/cache.cc:639-745` | a hit keeps the invariant |
| `L1dState.MergeKeeps` | `src/cache.cc:763-896` | merging a demand onto a prefetch keeps it, next_fill included |
| `L1dState.MissKeeps` | `src/cache.cc:1897-1920` | a new miss keeps it |
| `L1dState.ReturnKeeps` | `src/cache.cc:1771-1800` | returned data keeps it |
| `L1dState.NextFillIsNext` | `src/cache.cc:1818-1860` | the scan for the next fill finds the first returned slot of least cycle, or none when no slot has returned |
| `L1dState.FillIsNew` | `src/cache.cc:86-120` | the slot chosen for filling is in use and its address is in no way |
| `L1dState.FillKeeps` | `src/cache.cc:86-335` | filling a block keeps it |
| `L1dState.FillReady` | `src/cache.cc:86-120` | whenever next_fill names a slot, a victim exists and the fill is enabled, so no run is cut short by the guards |
| `L1dState.RoomIff` | `src/cache.cc:1897-1920` | a free slot exists exactly when the occupancy is below the size |
| `L1dHistory.SlotHistory` | `src/cache.cc:763-896` | over every run a slot in use is that of the latest miss to its address, with the kind of the first demand since, or prefetch while there is none |
| `L1dHistory.BlockHistory` | `src/cache.cc:86-335` | over every run a valid block is that of the latest miss and fill of its address; it counts as prefetched exactly when no demand came before the fill and no load since, as used exactly when a load came since, and as dirty exactly when the first demand before the fill was a write or a write came since |
| `L1dHistory.RanksFollowUses` | `replacement/base_replacement.cc:59-68` | over every run the ranks of a set are those of its ways hit and filled so far, in that order |
| `L1dHistory.ReplacesLeastRecent` | `replacement/base_replacement.cc:37-54` | a fill that replaces a valid block replaces the one hit or filled least recently in its set |
| `L1dHistory.ReturnHistory` | `src/cache.cc:1771-1800` | a returned slot is due no earlier than its latency after the return and after the cycle it had before |
| `L1dCache.Cache1D.CheckHit` | `src/cache.cc:1305-1360` | the way that holds the address, or none |
| `L1dCache.Cache1D.CheckMshr` | `src/cache.cc:1862-1895` | the slot with the address, or none |
| `L1dCache.Cache1D.AddMshr` | `src/cache.cc:1897-1920` | the first free slot takes the miss; there is one |
| `L1dCache.Cache1D.UpdateFillCycle` | `src/cache.cc:1818-1860` | the first slot of least cycle among the returned ones |
| `L1dCache.Cache1D.HandleAccess` | `src/cache.cc:639-957` | the outcome of a request for every combination of hit, match, room and lower-level refusal |
| `L1dCache.Cache1D.ReturnData` | `src/cache.cc:1771-1816` | marks the slot returned, moves its cycle, and recomputes the next fill |
| `L1dCache.Cache1D.HandleFill` | `src/cache.cc:86-335` | when a slot is due, the victim way is filled from it and the slot freed, except exactly when the victim is dirty and the lower level is full, where nothing changes |
| `ScoobyTracker.LearnsConsecutivePairs` | `prefetcher/scooby.cc:497-548` | over every run the calls to the learner are exactly the consecutive pairs of decisions in insertion order, up to the decision that left the tracker last |
| `ScoobyTracker.RewardedAsDeserved` | `prefetcher/scooby.cc:619-700` | over every run a trained prefetch was rewarded as correct exactly when its address was demanded while it was tracked, and as timely exactly when a fill came before the first such demand |
| `ScoobyTracker.NoPrefetchReward` | `prefetcher/scooby.cc:667-687` | a decision not to prefetch is trained with the reward assigned on the spot, or as no prefetch |
| `ScoobyTracker.RewardsAreFinal` | `prefetcher/scooby.cc:619-665` | a reward, once assigned, is never changed |
| `ScoobyTracker.ReservedDemandMisleads` | `prefetcher/scooby.cc:619-665` | the failing case: a demand to the reserved address, which no block-aligned address equals, rewards a decision not to prefetch as a correct prefetch |
| `ScoobyTracker.DemandKeepsIff` | `prefetcher/scooby.cc:619-665` | a demand keeps every tracked reward as deserved exactly unless it is to the reserved address and finds an unrewarded decision not to prefetch; the demands of the cache are block aligned (src/cache.cc:687) and never do |
| `ScoobyTracker.StepKeeps` | `prefetcher/scooby.cc:497-700` | every step keeps the invariant that ties tracker, records and events together |
| `ScoobyTrace.TrackerIsLatest` | `prefetcher/scooby.cc:497-548` | over every run the decisions taken up are those of the calls, all but prefetches of an address among the latest ones, and the tracker holds the latest of them with their addresses, states and actions |
| `ScoobyTrace.LearnsFromCalls` | `prefetcher/scooby.cc:497-700` | over every run the learner was given exactly the consecutive pairs of those decisions, each prefetch with the reward that demands and fills deserve from when it was made until the decision one tracker size later was |
| `Scooby.Scooby.SearchPt` | `prefetcher/scooby.cc:825-837` | the oldest tracked decision with the address |
| `Scooby.Scooby.Train` | `prefetcher/scooby.cc:757-784` | calls the learner with the previous decision, its reward, and the current one |
| `Scooby.Scooby.TrackDecision` | `prefetcher/scooby.cc:497-548` | is the model's track; the tracker stays within its size |
| `Scooby.Scooby.Reward` | `prefetcher/scooby.cc:619-665` | is the model's demand, for block-aligned addresses |
| `Scooby.Scooby.RegisterFill` | `prefetcher/scooby.cc:789-806` | is the model's fill |
| `MlopScores.ScoredKeeps` | `prefetcher/mlop.cc:124-148` | an access keeps scores at greater depths pointwise at most those at smaller ones, all within the number of updates, and zero at offset 0 |
| `MlopScores.LevelsArePrefix` | `prefetcher/mlop.cc:160-199` | the depths chosen at the end of a round are a prefix, and no depth prefetches nearer than a smaller one |
| `MlopScores.OffsetsChosenOnce` | `prefetcher/mlop.cc:160-199` | no offset is chosen at two depths, and with positive thresholds offset 0 is never chosen |
| `MlopScores.BestIsChosen` | `prefetcher/mlop.cc:183-199` | every offset with the best score of a chosen depth is chosen there or at a greater depth |
| `MlopScores.ChosenIsPlan` | `prefetcher/mlop.cc:160-199` | so every choice is a plan: chosen depths a prefix with non-nearing levels, no offset twice, none at depths without a level |
| `MlopScores.LevelsByScore` | `prefetcher/mlop.cc:169-199` | a depth prefetches to the L2 exactly when some offset reaches the first threshold there, to the last level exactly when some reaches the second and none the first, and its offsets score as much as any |
| `MlopScores.ScoresIff` | `prefetcher/mlop.cc:129-148` | an access raises a score by one exactly when that offset leads to its block from another block marked without the latest accesses, one for each depth |
| `MlopLaw.ZoneRemembers` | `inc/mlop.h:54-110` | the queue of a zone holds its latest accesses, newest first, one less than there are depths, and the map marks exactly the blocks accessed |
| `MlopLaw.SetBlockMeans` | `inc/mlop.h:54-110` | a new state changes its block and no other, and only an access enters the history |
| `MlopLaw.StreamScoresStride` | `prefetcher/mlop.cc:129-148` | an ascending stream gives the offset of its stride a point with every access after the first, and no descending offset any |
| `Mlop.AccessMapTable.SetState` | `inc/mlop.h:54-110` | a zone is stored exactly while some block of it is not in its initial state, its history queue stays shorter than the number of depths, and at most one other zone is displaced while all others stay as they are |
| `Mlop.Update` | `prefetcher/mlop.cc:129-148` | the nested loops: at each depth, the score of an offset rises by one exactly when it leads to the block from another one marked in the zone without its latest accesses, and no other score changes |
| `Mlop.Maxima` | `prefetcher/mlop.cc:160-167` | the maximum of each row |
| `Mlop.Choose` | `prefetcher/mlop.cc:169-199` | the choice of levels and offsets, from the greatest depth down |
| `Mlop.Mlop.Access` | `prefetcher/mlop.cc:97-202` | ignores unknown zones and repeated accesses, updates the scores, and at the end of a round chooses and starts again; the offsets in use form such a plan in every state |

## Left out

- Clocks and latencies in the core: event cycles become choices of the environment (`due`, `eligible`), and memory completion is a step of its own.
- Loads, store-to-load forwarding, the load queue, TLB traffic and the RTS/RTL rings of the core.
- The second half of `schedule_instruction`'s scan, which is dead code because `next_fetch[1]` stays zero.
- The per-entry arrays of store operands: `StoreOrder` keeps the operands of the window as one list in program order, so `StoreUnit` walks that list instead of a fixed array per reorder-buffer slot.
- Statistics, debug printing, knobs, configuration parsing, the trace reader, the driver loop and the scripts.
- DRAM during warm-up, where requests are answered at once; queue head and tail, which the DRAM code does not use to find slots; bus turn-around penalties, which the code does not keep as a guarantee. A cycle may carry any clock value below the sentinel, also an earlier one than the cycle before, and packets arrive unscheduled and for the channel their address selects.
- Upper bounds of machine integers, except where they are part of the logic (sentinel cycles, counter widths, masks). Addresses, ids and cycles are natural numbers; SPP's cache-line arithmetic is over integers.
- DramProgress.ServesAll: the channel receives no requests meanwhile; requests that keep coming can make it change mode again and again, and each change takes back what is in flight.
- The hash functions of SPP's tables and filter: arbitrary functions given as parameters.
- SppLookahead.SppDev2.Lookahead: requires an accuracy of at most 106, exactly the values for which SppRuns.FitsIff shows the arrays large enough (beyond, the source writes past them), and a threshold of at least 25, the default (`src/knobs.cc:80`; `config/spp_dev2.ini:2` sets 40).
- SppLookahead.SppDev2.InvokePrefetcher: the same bound, on the accuracy the counters give before the access.
- ReorderBuffer.O3Cpu.ExecuteInstruction: a reorder buffer of one entry stops after one iteration, where the source, testing for equality with size minus one, would go on.
- SppOverflow.AccessesOverflow: keys are their own hashes; the source's hash function is not computed.
- StoreQueue.StoreUnit.DoMemoryScheduling: load operands play no part in it.
- StoreQueue.StoreUnit.CheckAndAdd: only the store half of check_and_add_lsq; loads are not modelled.
- BingoPrefetcher.Bingo.FindInPht: the vote is a function given to the object, because its thresholds are floating point.
- Bingo's prefetch streamer and its statistics; table index lengths other than the configured ones are allowed, but the history table must have a power-of-two number of sets, an index no longer than PC plus offset bits, and address widths for which the truncated region keeps every bit of the key.
- Fastset.Fastset.Insert: values at or above 2048 are excluded, as the comment in the source says; a 64-bit word is the set of its bit positions.
- Fastset.Fastset.SmallToBit: the two representations, which share memory in the source, are two arrays of which one is in use, so the temporary copy made by the source has no counterpart.
- Fastset.Fastset.Join: a bound of 2048 or more, for which the source would read past its words, is excluded; joining a small set with itself is skipped, since inserting its own elements changes nothing.
- Tag uniqueness at the L2 and last-level caches, where write-back misses fill beside requests in flight; data values, the write-backs of dirty victims, the RQ, WQ and PQ rings and merged-consumer lists of the L1 data cache. A cache with the perfect or semi-perfect knobs is not modelled, and returned data is for a request in flight.
- Scooby's Q-values, feature weights, state features and numeric rewards: a reward is its kind, and the learner is the record of its calls. The options to track an address twice and to reward all matches are off.
- Scooby.Scooby.Reward: takes block-aligned addresses, as the cache passes them (`src/cache.cc:687`); ScoobyTracker.DemandKeepsIff says exactly which other demands would mislead it.
- MLOP's prefetch issue and statistics; its thresholds are integers.
- BOP, AMPM, stride, streamer, next-line, POWER7, sandbox, IPCP, SMS, PPF and DSPatch, which would add easier members or variants.
