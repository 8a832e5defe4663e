# Request lifecycle of the SAS/SATA host driver: a verified model

The driver accepts SCSI commands, merges sequential ones, hands them to the core and completes
them; beside that it keeps timers, a message queue for hot-plug work, an event log, and the pools
and lists all of these are made of. This project models that machinery and proves what it keeps
over whole runs.

| files | component |
|---|---|
| Consolidator, ConsolidatorInvariant, ConsolidatorCounter, ConsolidatorShape, ConsolidatorRuns, ConsolidatorJoin, ConsolidatorCoverage, ConsolidatorEdges, ConsolidatorDrain, ConsolidatorModule | the command consolidator of hba_sm/cc.c, with the queueing and completion routines of linux/linux_main.c |
| MsgQueue, HouseKeeper, HouseKeeperExit | the house-keeper message queue of linux/hba_timer.c |
| Timers, TimerRuns, TimerRequests, TimerEdges, TimerModule | the software timers of the same file |
| DixInterleave | the weaving of data and protection scatter-gather lists in linux/linux_main.c |
| IntrusiveList | include/com_list.c, and the consolidator's fan-out over a ring without a head |
| Tags, TagService | the tag pools of include/com_tag.h and lib/common/com_tag.c |
| EventLog, EventContents | the bounded event log of linux/hba_exp.c |
| ModuleStart | the module chain of linux/hba_mod.c and its asynchronous start |
| ExpanderQuery, ExpanderAnswers, ExpanderShortage | the expander information query of core/api/core_api_exp.c |
| Common | options, counting along sequences, slot numbers |

Each component has the same layout. Functions on values specify one operation each; a class with
the fields of the C structure has methods with the loops and early exits of the C code, and each
method's `ensures` ties the new fields to the specification. Runs are sequences of such steps:
`IsRun` says that each state is what a possible event makes of the one before, and the main
theorems hold at the end of every run. Places and pool slots are counted (`Common.Count` and
`Common.Sum`), so "in exactly one place" is an equation. Fields called `handed`, `done`,
`accepted`, `processed`, `refused`, `scanned`, `armed`, `fired`, `cancelled`, `lost`,
`stale`, `delivered`, `answers` and `releases` are history that no decision reads. In the table below
a Dafny member is cited with the C lines it models; paths begin at the directory that holds the driver.

## Where the code does less than it seems to

* **Reads and writes of no sectors.** They are completed without being submitted
  (linux/linux_main.c:2067-2074), but the completion pushes the consolidator, which counts the
  device's running requests down without ever having counted this one up. From then on the device
  seems busy at rest, and a request can be held with nothing below whose completion would push it
  (`StrandsExactly`: unless their number is a multiple of 2^16).
* **Transfers with an empty buffer.** The consolidator marks an unused internal request by zero
  length, so a held read or write of some sectors but no buffer is overwritten by the next one that
  joins it and never completes (`EmptyBufferForgotten`). `KeepsLineExactly` and `OrderExactly` give
  the exact condition for a submission and for a run.
* **Transfers with protection information.** Their length is that of the data and of the protection
  together (linux/linux_main.c:1647), and a merged request takes its sectors from its length. So a
  merged request of such transfers with 64 sectors or more asks for more blocks than its members
  (`ProtectedCoverage`; `CoversExactly` for transfers of any length).
* **Messages before the start.** A message inserted before `hba_house_keeper_run` can use up its
  wake-up while the handler still declines (`EarlyMessageIsStuck`); `WakeUpLostExactly` gives the
  exact condition over every run.
* **A stop while the handler works.** A handler past its look at the state puts the queue back to
  idle when it is done, after `hba_house_keeper_exit` too (`ExitHoldsExactly`).
* **Refused messages.** Of several adapters whose messages are refused only the last is remembered
  (`TwoRefused`), and it is not scanned if it runs RAID (`OnlyLastIsScanned`).
* **Timers cancelled while they are due.** A sweep gives up its lock between finding a slot due and
  reading the routine from it (linux/hba_timer.c:689-690). If the handle is cancelled there, the
  routine of the cancelled timer is called (`CalledThoughCancelled`), or that of a timer added in its
  place meanwhile, before its time (`FiredEarly`); `CallsExactly` says when. If it is cancelled later,
  while the routine runs, the next addition can get the slot, and the sweep then drops that timer
  (`DroppedOnce`, `DroppedExactly`). All of this takes a sweep whose stamp is exactly the timer's
  deadline (`CallsExactly`, `DropNeedsTheDeadline`), because a timer past its deadline cannot be
  cancelled.
* **Large tuned tag pools.** The ring of include/com_tag.h is right up to 0x8000 tags
  (`FirstTagExactly`); beyond that bit 15 of an index collides with the lap parity.
* **Expander ranges that fill early.** Such a query gets its Cmd_Initiator back at the end of the
  pass, so the re-queueing on the last answer starts it anew, for ever (`LastAnswerRestarts`,
  `EarlyNeverFinishes`, `FinishesUnlessEarly`). The header's comment promises a next starting
  index for exactly these queries.
* **Expander queries short of internal requests.** `core_generate_exp_hardware_req` reads through
  the null pointer it got (core/api/core_api_exp.c:325) before the check that would end the pass
  (327), and the loop that should free what was generated in vain releases the query itself instead,
  once for each sub-request (244). `ShortExactly` says which passes fall short and
  `VainExactly` and `ReleasedExactly` when the query is released. The theorems over runs with such passes (`FanIn`,
  `ReportsEachOnce`, `BoundedSteps`, `FinishesUnlessEarly`, `AssertionFailsExactly`) speak of the
  code around that read, with the releases counted and without further effect. Of runs in which no
  pass falls short they hold as they stand; there, by `AmpleRuns` and `AmpleIsOnePass`, nothing is
  resumed, the refusals of `BoundedSteps` are none, and the assertion always holds.
* **An assertion.** A resumed pass that finds no ready expander left finishes the query with
  something returned, against the assertion at core/api/core_api_exp.c:235
  (`AssertionFailsExactly`).
* **Two completions of the start.** `HBA_ModuleStarted` signals twice when the last other module
  reports between the marking of the HBA module and its own report (`SignalsExactly`).

## What callers and surroundings owe

* Consolidator: a read or write submitted names an existing device (the send macro indexes the
  device table without a check); the next module completes what it was handed, once, and not before
  the hand-over has returned. What `MergedRequestsCover` and the shape lemmas say asks that reads and
  writes submitted have a length of 512 times their sector count, not zero (`Proper`); transfers with
  protection information do not, and for them there is ConsolidatorCoverage.
* Message queue: one inserter at a time, since an entry is filled outside the lock, and one
  handler, as for any work item.
* Timers: additions, cancellations and the pieces of a sweep under its lock are atomic, and a routine
  is read together with its contexts.
* Weaving: no segment is empty, and the data list holds the command's transfer length.
* Tags: a tag is asked for only when there is one, and released only when there is room.
* Event log: the buffers passed are as long as the counts passed with them.

## Model

| member | source | states |
|---|---|---|
| ConsolidatorRuns.OrderExactly | mv-6.0.0.1009N_ubuntu/hba_sm/cc.c:200-349 | Order over every run, any number of devices and any interleaving of submissions, completions, failures, setting changes and requests completed without a submission: first hand-overs below (a merged request expanded in ring order) followed by what is held are the submissions to the device if and only if no submission took a held request of zero length for an unused one. |
| ConsolidatorCoverage.OrderOverRuns | mv-6.0.0.1009N_ubuntu/hba_sm/cc.c:200-349 | In particular when no read or write submitted has an empty buffer; without a failed merge these are then all the hand-overs. |
| ConsolidatorRuns.ExactlyOnce | mv-6.0.0.1009N_ubuntu/hba_sm/cc.c:351-400 | In every run a request that came once, submitted or not, is in exactly one of completed, below (alone or in one merged request), held and forgotten; it goes below for the first time at most once and is handed over again at most once. |
| ConsolidatorRuns.NothingStranded | mv-6.0.0.1009N_ubuntu/hba_sm/cc.c:484-509 | In every run `io_count` is the number of read and write requests below (a merged one counts once) less the number z of reads and writes completed without a submission, modulo 2^16; if z is a multiple of 2^16, something is held only while something is below, and at rest everything that came is completed as often as it came, or was forgotten. |
| ConsolidatorEdges.StrandsExactly | mv-6.0.0.1009N_ubuntu/linux/linux_main.c:2067-2074 | Exact condition: with z reads and writes of no sectors for a device, completed without a submission, a run from the initial state that leaves a request held with nothing below exists if and only if z is not a multiple of 2^16. |
| ConsolidatorRuns.MergedRequestsCover | mv-6.0.0.1009N_ubuntu/hba_sm/cc.c:91-101 | In every run whose reads and writes have a length of 512 times their sectors, at least one, a merged request below covers exactly the blocks of its members in ring order, all with its opcode, is between one sector and 128 KiB long, and has at most half as many members as the table has entries. |
| ConsolidatorCoverage.CoversExactly | mv-6.0.0.1009N_ubuntu/hba_sm/cc.c:91-101 | Exact condition in every run in which no read or write submitted is empty: a merged request below asks for exactly its members' blocks if and only if its length, the sum of theirs, holds as many sectors as they have. |
| ConsolidatorCoverage.ProtectedCoverage | mv-6.0.0.1009N_ubuntu/linux/linux_main.c:1645-1650 | With 8 bytes of protection for every sector counted into the length, a merged request asks for n + n/64 blocks for n sectors, so for too many if and only if there are 64 or more. |
| ConsolidatorCoverage.EveryRunOrdered | mv-6.0.0.1009N_ubuntu/hba_sm/cc.c:143-170 | Behind these: in every such run rings are of one opcode and contiguous, a held request has a length and ends where the next must start, and nothing is forgotten. |
| ConsolidatorRuns.PoolConserved | mv-6.0.0.1009N_ubuntu/hba_sm/cc.c:293-307 | In every run each slot of the pool is in one place only: the free queue, one device's hold, or one merged request below; no slot is released twice or shared. |
| ConsolidatorRuns.MembersAtHome | mv-6.0.0.1009N_ubuntu/hba_sm/cc.c:153-161 | In every run the ring of a merged request below is never empty and has only requests of the device it was sent for, which is what the completion routine relies on. |
| ConsolidatorRuns.UnknownPassedOn | mv-6.0.0.1009N_ubuntu/hba_sm/cc.c:211-212 | In every run what was submitted for devices without a record went below, each once and in order. |
| ConsolidatorDrain.CompletionsBounded | mv-6.0.0.1009N_ubuntu/hba_sm/cc.c:351-509 | From any state, the completions of any run, whatever fails, are at most the work there was and two for each submission since. |
| ConsolidatorDrain.Drains | mv-6.0.0.1009N_ubuntu/hba_sm/cc.c:351-509 | From any state there is a run of completions alone, no more than its work, that ends with nothing below. |
| ConsolidatorDrain.EverythingCompletes | mv-6.0.0.1009N_ubuntu/hba_sm/cc.c:484-509 | Every run can be ended by completions alone; what came to a device is then completed or was forgotten, unless reads and writes never submitted have put its counter out. |
| ConsolidatorRuns.EveryRun | mv-6.0.0.1009N_ubuntu/hba_sm/cc.c:200-400 | Behind these: after every event of every run the line, the places, the hand-overs and the forgotten requests of a device balance with what came to it. |
| ConsolidatorRuns.EveryRunCounts | mv-6.0.0.1009N_ubuntu/hba_sm/cc.c:108-113 | The counter, after every event of every run. |
| ConsolidatorRuns.EveryRunShape | mv-6.0.0.1009N_ubuntu/hba_sm/cc.c:143-170 | In runs of well-formed submissions: the shape of what is held and sent, and nothing is forgotten. |
| ConsolidatorRuns.StepMoves | mv-6.0.0.1009N_ubuntu/hba_sm/cc.c:200-400 | Each event adds exactly the request it carries to the line and to the places of its device, less what it overwrites, and nothing but a failed merge re-sends anything. |
| ConsolidatorRuns.StepCounts | mv-6.0.0.1009N_ubuntu/hba_sm/cc.c:108-509 | Each event keeps the counter what it should be; a read or write completed without a submission takes one from it. |
| ConsolidatorRuns.StepShape | mv-6.0.0.1009N_ubuntu/hba_sm/cc.c:200-567 | Each event, setting changes included, keeps the shape. |
| ConsolidatorRuns.StepKeepsSlots | mv-6.0.0.1009N_ubuntu/hba_sm/cc.c:293-399 | Each event leaves every pool slot in as many places as before. |
| ConsolidatorInvariant.KeepsLineExactly | mv-6.0.0.1009N_ubuntu/hba_sm/cc.c:143-170 | Exact condition: a submission goes to the end of the line if and only if it does not join, in a stream, a held request of zero length that has members; otherwise those members go out of it. |
| ConsolidatorInvariant.AttachKeepsHeld | mv-6.0.0.1009N_ubuntu/hba_sm/cc.c:143-164 | The same for the attaching step. |
| ConsolidatorEdges.EmptyBufferForgotten | mv-6.0.0.1009N_ubuntu/hba_sm/cc.c:143-158 | Counterexample: a run from the initial state in which a write of eight sectors with an empty buffer, submitted in a stream and held, is afterwards neither completed nor below nor held. |
| ConsolidatorInvariant.SubmitMoves | mv-6.0.0.1009N_ubuntu/hba_sm/cc.c:200-349 | From any state: a submission puts its request at the end of the line and in one place, overwrites what KeepsLineExactly says, re-sends nothing, and takes from the pool what the device then uses. |
| ConsolidatorInvariant.MergeMoves | mv-6.0.0.1009N_ubuntu/hba_sm/cc.c:279-333 | The merging step does the same, with or without an internal request to be had. |
| ConsolidatorInvariant.BypassMoves | mv-6.0.0.1009N_ubuntu/hba_sm/cc.c:334-348 | The bypass sends what is held before the request itself. |
| ConsolidatorInvariant.AttachMoves | mv-6.0.0.1009N_ubuntu/hba_sm/cc.c:129-187 | Attaching puts the request behind the members held, or in their place. |
| ConsolidatorInvariant.ReturnMoves | mv-6.0.0.1009N_ubuntu/linux/linux_main.c:1561-1581 | Completing a request and pushing moves exactly that request to the completed ones and reorders nothing. |
| ConsolidatorInvariant.FanOutMoves | mv-6.0.0.1009N_ubuntu/hba_sm/cc.c:360-376 | Fan-out completes each member as often as it is in the ring, without moving anything else. |
| ConsolidatorInvariant.ResendAllMoves | mv-6.0.0.1009N_ubuntu/hba_sm/cc.c:377-396 | Every member of a failed merge goes below again, on its own, once. |
| ConsolidatorInvariant.CompleteSingleMoves | mv-6.0.0.1009N_ubuntu/linux/linux_main.c:1561-1581 | The completion of an unmerged request leaves every request in as many places as before and the line as it was. |
| ConsolidatorInvariant.CompleteMergedMoves | mv-6.0.0.1009N_ubuntu/hba_sm/cc.c:351-400 | So does that of a merged one, which also gives its slot back to the pool. |
| ConsolidatorJoin.JoinsExactly | mv-6.0.0.1009N_ubuntu/hba_sm/cc.c:205-323 | Exact conditions, on the request, the members held and the device's memory: a submission joins the members held if and only if it may be consolidated, has at most 128 KiB, keeps the direction, continues the last block on a busy device as the 65th or later, has the members' opcode, makes no more than 131072 bytes with theirs and fewer than 130 table entries; otherwise the members held go below first, all of them as one request. |
| ConsolidatorJoin.MergedExactly | mv-6.0.0.1009N_ubuntu/hba_sm/cc.c:205-349 | For any submission: it is alone below unless it continues so and joins, or finds a free internal request; the ring it is then the last of goes below if and only if it has 131072 bytes or 65 members. |
| ConsolidatorJoin.RemembersExactly | mv-6.0.0.1009N_ubuntu/hba_sm/cc.c:233-265 | What a device remembers of a submission: the direction of the last eligible one, and for one in the direction of the one before, the block after it and how many in a row it makes, 64 following 254. |
| ConsolidatorJoin.EnabledExactly | mv-6.0.0.1009N_ubuntu/hba_sm/cc.c:511-567 | In every run consolidation is on for the controller and a device exactly as the last change that concerns them says: on for the controller, and the cache of the device off. |
| ConsolidatorJoin.NotMergedWhileOff | mv-6.0.0.1009N_ubuntu/hba_sm/cc.c:207-209 | So in every run, while it is off for a device, whatever is submitted to it goes below on its own, with nothing left held. |
| ConsolidatorInvariant.MergesExactly | mv-6.0.0.1009N_ubuntu/hba_sm/cc.c:205-333 | From any state, by the branches of the code: a submission let through by the filters that fits the held ring or finds a free internal request is the last of its ring; otherwise it goes below on its own. JoinsExactly and MergedExactly say what these conditions come to. |
| ConsolidatorInvariant.StreamMeans | mv-6.0.0.1009N_ubuntu/hba_sm/cc.c:251-277 | Being in a stream is to continue the last block as at least the 65th request in a row, over the wrap of the counter of them. |
| ConsolidatorShape.FiredExactlyWhenFull | mv-6.0.0.1009N_ubuntu/hba_sm/cc.c:325-332 | Exact condition: the ring a submission has joined goes below if and only if it is full (128 KiB, or half as many members as table entries). |
| ConsolidatorCounter.FiredExactlyAtRest | mv-6.0.0.1009N_ubuntu/hba_sm/cc.c:484-509 | Exact condition: a completion fires the held request if and only if the counter, 16 bits wide and z short, says nothing is left below. |
| ConsolidatorInvariant.FanOutInOrder | mv-6.0.0.1009N_ubuntu/hba_sm/cc.c:360-376 | Fan-out completes the members in ring order. |
| ConsolidatorInvariant.ResendAllInOrder | mv-6.0.0.1009N_ubuntu/hba_sm/cc.c:383-396 | A failed merge hands its members over again in ring order, one by one. |
| ConsolidatorInvariant.MergingNeedsAStream | mv-6.0.0.1009N_ubuntu/hba_sm/cc.c:205-277 | A submission outside a stream goes below on its own, with nothing left held. |
| ConsolidatorInvariant.NoMergeAfterFailure | mv-6.0.0.1009N_ubuntu/hba_sm/cc.c:377-396 | After a merge failed the next submission is not merged, whatever it is. |
| ConsolidatorCounter.SubmitCounts | mv-6.0.0.1009N_ubuntu/hba_sm/cc.c:200-349 | A submission keeps the counter, and holds something only on a device that seems busy. |
| ConsolidatorCounter.MergeCounts | mv-6.0.0.1009N_ubuntu/hba_sm/cc.c:279-333 | So does the merging step, whether it closes, opens, joins, fires or finds the pool empty. |
| ConsolidatorCounter.FanOutCounts | mv-6.0.0.1009N_ubuntu/hba_sm/cc.c:360-376 | The completions of a successful merge, each with its own push, keep the counter right by the compensating increments. |
| ConsolidatorCounter.ResendAllCounts | mv-6.0.0.1009N_ubuntu/hba_sm/cc.c:377-396 | The re-sends of a failed merge keep the counter right after its one decrement. |
| ConsolidatorCounter.CompleteSingleCounts | mv-6.0.0.1009N_ubuntu/linux/linux_main.c:1561-1581 | The completion of an unmerged request keeps the counter. |
| ConsolidatorCounter.CompleteMergedCounts | mv-6.0.0.1009N_ubuntu/hba_sm/cc.c:351-400 | So does that of a merged one, successful or not. |
| ConsolidatorCounter.UnsubmittedCounts | mv-6.0.0.1009N_ubuntu/linux/linux_main.c:2067-2074 | The completion of a read or write never submitted puts the counter out by one more. |
| ConsolidatorShape.SubmitShape | mv-6.0.0.1009N_ubuntu/hba_sm/cc.c:200-349 | A well-formed submission keeps the held request contiguous, of one opcode, with room left and ending where the next sequential request starts. |
| ConsolidatorShape.MergeShape | mv-6.0.0.1009N_ubuntu/hba_sm/cc.c:279-333 | So does the merging step. |
| ConsolidatorShape.CompleteSingleShape | mv-6.0.0.1009N_ubuntu/linux/linux_main.c:1561-1581 | So does the completion of an unmerged request. |
| ConsolidatorShape.CompleteMergedShape | mv-6.0.0.1009N_ubuntu/hba_sm/cc.c:351-400 | And that of a merged one. |
| ConsolidatorShape.RingCoverage | mv-6.0.0.1009N_ubuntu/hba_sm/cc.c:91-101 | A contiguous ring covers, block by block and modulo 2^64, the extent from its first LBA of its summed length. |
| ConsolidatorShape.SentCoversMembers | mv-6.0.0.1009N_ubuntu/hba_sm/cc.c:91-101 | A closed request asks for exactly the blocks of its members. |
| ConsolidatorModule.ModConsolidate.InitializeExtension | mv-6.0.0.1009N_ubuntu/hba_sm/cc.c:430-479 | Set-up gives every request of the pool to the free queue, in order, and new device records. |
| ConsolidatorModule.ModConsolidate.Send | mv-6.0.0.1009N_ubuntu/hba_sm/cc.c:108-113 | The send macro on an external request, against its specification. |
| ConsolidatorModule.ModConsolidate.CloseAndSendHeld | mv-6.0.0.1009N_ubuntu/hba_sm/cc.c:91-113 | The close and send macros on the held request. |
| ConsolidatorModule.ModConsolidate.ConsolidateRequest | mv-6.0.0.1009N_ubuntu/hba_sm/cc.c:129-187 | Attaching in place. |
| ConsolidatorModule.ModConsolidate.MustBypass | mv-6.0.0.1009N_ubuntu/hba_sm/cc.c:205-277 | The filters, the stream statistics and the two tests, with early exits: the device record changes only as the statistics say. |
| ConsolidatorModule.ModConsolidate.JoinHeld | mv-6.0.0.1009N_ubuntu/hba_sm/cc.c:279-333 | The merging step in place, free queue included. |
| ConsolidatorModule.ModConsolidate.ModuleSendRequest | mv-6.0.0.1009N_ubuntu/hba_sm/cc.c:200-349 | The whole submission: the module afterwards is that of the specification, other devices untouched; a request for an unknown device is passed on. |
| ConsolidatorModule.ModConsolidate.PushFireRequest | mv-6.0.0.1009N_ubuntu/hba_sm/cc.c:484-509 | The push in place; unknown devices are ignored. |
| ConsolidatorModule.ModConsolidate.CompleteExternal | mv-6.0.0.1009N_ubuntu/linux/linux_main.c:1561-1581 | The completion routine of an external request: to the OS, then the push. |
| ConsolidatorModule.ModConsolidate.QueueCommand | mv-6.0.0.1009N_ubuntu/linux/linux_main.c:2067-2087 | A read, write or verify of no sectors is completed at once, anything else submitted: the two events of a run. |
| ConsolidatorModule.ModConsolidate.RequestCallBack | mv-6.0.0.1009N_ubuntu/hba_sm/cc.c:351-400 | Both loops over the ring and the release of the slot, against the specification. |
| ConsolidatorModule.ModConsolidate.SetDevice | mv-6.0.0.1009N_ubuntu/hba_sm/cc.c:511-535 | The per-device setting, refused while the module is disabled. |
| ConsolidatorModule.ModConsolidate.ChangeConsSetting | mv-6.0.0.1009N_ubuntu/hba_sm/cc.c:537-567 | The loop over the devices (set-up, linux/hba_exp.c:631, makes the table as long as the loop) sets each one's flag, and its table limit only when enabling. |
| MsgQueue.ProcessedInOrder | mv-6.0.0.1009N_ubuntu/linux/hba_timer.c:235-269 | Inserter and worker interleaved at every lock boundary, any run: processed messages, then the waiting ones, then the one being inserted are the insertions that were not refused, in order; free and tasks partition the messages; one being filled is not among the tasks. |
| MsgQueue.AdmittedAccepted | mv-6.0.0.1009N_ubuntu/linux/hba_timer.c:446-494 | What the queue has accepted is what was inserted, payload for payload, although it is filled outside the lock. |
| MsgQueue.RunKeepsInv | mv-6.0.0.1009N_ubuntu/linux/hba_timer.c:235-494 | Every step of every run keeps the lists apart, undisturbed and in sequence. |
| MsgQueue.RefusalsLeadToScan | mv-6.0.0.1009N_ubuntu/linux/hba_timer.c:454-461 | In every run `need_rescan` is set exactly when something was refused since the last scan was due, for the last adapter refused, and there is then work for a handler; exact condition: a handler that comes to the scan is on its way if and only if none has declined since the last insertion. |
| MsgQueue.OnlyLastIsScanned | mv-6.0.0.1009N_ubuntu/linux/hba_timer.c:204-215 | In every run, of the adapters refused since the last scan the last one is scanned, and none if that one runs RAID; all are forgotten. |
| MsgQueue.TwoRefused | mv-6.0.0.1009N_ubuntu/linux/hba_timer.c:454-461 | For a queue of any depth, a run in which two adapters are refused and the second is remembered. |
| MsgQueue.StaysAwake | mv-6.0.0.1009N_ubuntu/linux/hba_timer.c:241-252 | No step of either party, after the start, takes away the last wake-up of a non-empty task list. |
| MsgQueue.WakeUpLostExactly | mv-6.0.0.1009N_ubuntu/linux/hba_timer.c:355-366 | Exact condition over every run: a non-empty task list is without a wake-up if and only if the handler found work while not started, with no other wake-up pending or about to be scheduled, and nothing was inserted since. |
| MsgQueue.StepLosesExactly | mv-6.0.0.1009N_ubuntu/linux/hba_timer.c:361-362 | One step loses the last wake-up if and only if it is that refusal; only an insertion brings a new one. |
| MsgQueue.WakeUpsAfterRun | mv-6.0.0.1009N_ubuntu/linux/hba_timer.c:418-421 | After hba_house_keeper_run, with no exit since, a wake-up is missing if and only if the handler had refused so before that call and nothing was inserted since. |
| MsgQueue.NoInsertBeforeStart | mv-6.0.0.1009N_ubuntu/linux/hba_timer.c:399-421 | That condition holds when nothing was inserted before the start. |
| MsgQueue.EarlyMessageIsStuck | mv-6.0.0.1009N_ubuntu/linux/hba_timer.c:355-366 | Counterexample run for any depth: a message inserted before the start is found by a handler that declines, and stays queued with nobody on the way after the start. |
| HouseKeeperExit.ExitHoldsExactly | mv-6.0.0.1009N_ubuntu/linux/hba_timer.c:423-443 | Exact condition: without a new start the house-keeper stays stopped after hba_house_keeper_exit if and only if no handler was then between its look at the state and putting it back to idle; and then nothing more is processed. |
| HouseKeeperExit.ClearOverRuns | mv-6.0.0.1009N_ubuntu/linux/hba_timer.c:259-266 | In every run a free message names no adapter, unless it is being filled. |
| HouseKeeperExit.RefusedExactly | mv-6.0.0.1009N_ubuntu/linux/hba_timer.c:454-461 | An insertion is refused if and only if no message is free; its adapter is then the one to be scanned, and no list changes. |
| MsgQueue.HandlerServes | mv-6.0.0.1009N_ubuntu/linux/hba_timer.c:235-269 | A handler left alone ends with an empty task list. |
| MsgQueue.AwakeIsServed | mv-6.0.0.1009N_ubuntu/linux/hba_timer.c:235-366 | From any awake state at most one more start of the handler processes all that was accepted, and scans the last adapter refused, unless it runs RAID. |
| MsgQueue.WorkDecreases | mv-6.0.0.1009N_ubuntu/linux/hba_timer.c:241-268 | Each step of the handler brings it nearer its end. |
| HouseKeeper.MessageQueue.QueueInit | mv-6.0.0.1009N_ubuntu/linux/hba_timer.c:380-416 | All messages start in the free list, in order, and the state is not started. |
| HouseKeeper.MessageQueue.Insert | mv-6.0.0.1009N_ubuntu/linux/hba_timer.c:446-494 | The insertion as written is the four steps of the interleaved model, or the refusal. |
| HouseKeeper.MessageQueue.ProcessFirst | mv-6.0.0.1009N_ubuntu/linux/hba_timer.c:254-267 | The loop body is four steps of the model. |
| HouseKeeper.MessageQueue.ProcQueue | mv-6.0.0.1009N_ubuntu/linux/hba_timer.c:235-269 | The loop and the start of the scan are the model's handler from its start on. |
| HouseKeeper.MessageQueue.ScanHost | mv-6.0.0.1009N_ubuntu/linux/hba_timer.c:195-215 | The scan up to its loop, with both ways out, is the model's handler from there on. |
| HouseKeeper.MessageQueue.WorkHandler | mv-6.0.0.1009N_ubuntu/linux/hba_timer.c:355-366 | The work item's routine is the model's handler. |
| TimerRuns.FiresExactlyOnce | mv-6.0.0.1009N_ubuntu/linux/hba_timer.c:668-712 | Over every run of adds, cancels and sweeps, with other callers adding and cancelling wherever a sweep gives up the lock, but nobody cancelling a timer from the moment it is found due until its routine has returned: a timer of some delay whose deadline a sweep has reached has either fired once, not early, or been cancelled once, and its routine was not called otherwise. |
| TimerRuns.FiredOnTime | mv-6.0.0.1009N_ubuntu/linux/hba_timer.c:681-703 | Over every run: a firing is early if and only if it is at the stamp at which the timer was added, with some delay to go; otherwise it is less than one sweep interval late and after the stamp of the addition. A timer of no delay may be a whole interval late. |
| TimerRequests.FiresAsAsked | mv-6.0.0.1009N_ubuntu/linux/hba_timer.c:574-712 | Over every run without cancellations of timers being called: a request of 500 or 100 of the stamp for each unit, made when a slot is not in use, is recorded as due so much later; once a sweep has reached that stamp it has fired once, unless cancelled, and in the first sweep that did. |
| TimerRequests.ArmsAsAsked | mv-6.0.0.1009N_ubuntu/linux/hba_timer.c:626-647 | In any state: with a tag to be had, the slot is due after 500 (small requests: 100) of the stamp for each unit, modulo 2^32 for the product; without one, nothing changes. |
| TimerRequests.StampCountsSweeps | mv-6.0.0.1009N_ubuntu/linux/hba_timer.c:679 | The stamp is 1000 for every sweep there has been. |
| TimerRuns.ExactlyOneFate | mv-6.0.0.1009N_ubuntu/linux/hba_timer.c:611-735 | Over every run: fired, cancelled or dropped, one of the three and once; beyond that its routine is called at most once, and only if it was cancelled. |
| TimerRuns.SlotsAndTags | mv-6.0.0.1009N_ubuntu/linux/hba_timer.c:611-735 | In every run a tag is in the pool once if its slot is not valid and not at all if it is, whatever handles were cancelled. |
| TimerRuns.CallsExactly | mv-6.0.0.1009N_ubuntu/linux/hba_timer.c:687-690 | Exact condition for a slot found due: the routine called is that of the timer found due, unless it is cancelled at its very deadline before its routine is read; then it is that of the timer added in its place since, or, if there is none, that of a cancelled timer. |
| TimerEdges.FiredEarly | mv-6.0.0.1009N_ubuntu/linux/hba_timer.c:689-690 | For any number of slots, a run in which a timer fires at the stamp at which it was added, with its whole delay still to go. |
| TimerEdges.CalledThoughCancelled | mv-6.0.0.1009N_ubuntu/linux/hba_timer.c:689-690 | For any number of slots, a run in which the routine of a cancelled timer is called. |
| TimerRuns.DroppedExactly | mv-6.0.0.1009N_ubuntu/linux/hba_timer.c:690-697 | Exact condition: the sweep drops a timer if and only if the slot found due is armed anew after its routine was read. |
| TimerRuns.DropNeedsTheDeadline | mv-6.0.0.1009N_ubuntu/linux/hba_timer.c:690-697 | That needs a sweep whose stamp is the very deadline of the timer found due. |
| TimerRuns.LateIsNotRearmed | mv-6.0.0.1009N_ubuntu/linux/hba_timer.c:727 | A timer past its deadline keeps its slot, whatever is called. |
| TimerEdges.DroppedOnce | mv-6.0.0.1009N_ubuntu/linux/hba_timer.c:690-697 | For any number of slots, a run in which it happens: a routine cancels its own handle and adds a timer. |
| TimerRuns.OverdueFires | mv-6.0.0.1009N_ubuntu/linux/hba_timer.c:681-727 | A timer past its deadline at a slot still to be visited fires in that sweep, whatever other callers and routines do: cancelling it has no effect any more. |
| TimerRuns.CancelsExactly | mv-6.0.0.1009N_ubuntu/linux/hba_timer.c:714-735 | In every state between sweeps, cancelling a handle cancels the pending timer of that slot and frees the slot, and changes nothing if the slot holds none. |
| TimerRuns.AcceptedExactly | mv-6.0.0.1009N_ubuntu/linux/hba_timer.c:628-647 | In every such state an addition is accepted if and only if some slot is not in use; its handle names such a slot, due at the deadline. |
| TimerRuns.RearmedOwes | mv-6.0.0.1009N_ubuntu/linux/hba_timer.c:690-735 | Whether a routine leaves the slot armed can be read off its calls and their handles. |
| TimerRuns.NotRearmed | mv-6.0.0.1009N_ubuntu/linux/hba_timer.c:714-735 | A slot in use keeps its timer as long as its handle is not cancelled. |
| TimerRuns.NothingDropped | mv-6.0.0.1009N_ubuntu/linux/hba_timer.c:681-703 | In such runs no timer is dropped, called although cancelled, or fired early. |
| TimerRuns.EveryRun | mv-6.0.0.1009N_ubuntu/linux/hba_timer.c:611-735 | The invariant behind these, after every event of every run. |
| Timers.AddKeepsPartition | mv-6.0.0.1009N_ubuntu/linux/hba_timer.c:628-641 | An addition keeps free tags and valid slots complementary. |
| Timers.PerformKeepsPartition | mv-6.0.0.1009N_ubuntu/linux/hba_timer.c:714-735 | So does any call a routine can make. |
| Timers.VisitKeepsPartition | mv-6.0.0.1009N_ubuntu/linux/hba_timer.c:683-703 | So does the visit of a slot, whatever its routine calls. |
| Timers.SweepFromKeepsPartition | mv-6.0.0.1009N_ubuntu/linux/hba_timer.c:681-703 | So does a sweep, whatever other callers do between its slots. |
| TimerModule.TimerPool.Initialize | mv-6.0.0.1009N_ubuntu/linux/hba_timer.c:530-564 | Set-up: no valid slot, all tags free. |
| TimerModule.TimerPool.AddRequest | mv-6.0.0.1009N_ubuntu/linux/hba_timer.c:574-648 | Both additions in place: with a tag to be had, the slot of the handle is valid and due after the units asked for, their product with the interval taken modulo 2^32; as the specification. |
| TimerModule.TimerPool.ReleaseSlot | mv-6.0.0.1009N_ubuntu/linux/hba_timer.c:692-697 | The slot is invalidated and its tag becomes the next one. |
| TimerModule.TimerPool.CancelRequest | mv-6.0.0.1009N_ubuntu/linux/hba_timer.c:714-735 | Cancellation in place: overdue timers and unknown handles are left alone. |
| TimerModule.TimerPool.RunRoutine | mv-6.0.0.1009N_ubuntu/linux/hba_timer.c:690 | A routine that calls back into the module. |
| TimerModule.TimerPool.CheckSlot | mv-6.0.0.1009N_ubuntu/linux/hba_timer.c:683-703 | One slot of the sweep, before which others may have had the lock. |
| TimerModule.TimerPool.LookAt | mv-6.0.0.1009N_ubuntu/linux/hba_timer.c:683-703 | A slot that is due has its routine read and called without the lock, with others coming in before and during the call, and is released if it is still valid. |
| TimerModule.TimerPool.Call | mv-6.0.0.1009N_ubuntu/linux/hba_timer.c:690 | The routine is read from the slot as it then is. |
| TimerModule.TimerPool.CheckRequest | mv-6.0.0.1009N_ubuntu/linux/hba_timer.c:668-703 | The whole sweep, callbacks re-entering and others coming in between, is the specified one. |
| DixInterleave.AppendIntersectSgTable | mv-6.0.0.1009N_ubuntu/linux/linux_main.c:1112-1187 | For any segmentations: the bytes appended are, block by block, 512 of the data and 8 of the protection information; the final check never fails; for k > 0 blocks at most 2k + n + m - 2 descriptors are appended, none empty. |
| DixInterleave.WovenByte | mv-6.0.0.1009N_ubuntu/linux/linux_main.c:1127-1181 | What that means byte for byte: byte i of block j of the table is data byte 512j + i, or for i >= 512 protection byte 8j + i - 512. |
| DixInterleave.AppendBlock | mv-6.0.0.1009N_ubuntu/linux/linux_main.c:1127-1181 | One pass of the outer loop consumes one block of each list. |
| DixInterleave.AppendUnit | mv-6.0.0.1009N_ubuntu/linux/linux_main.c:1128-1153 | An inner loop ends at the next multiple of its unit, having described every byte up to there once, with at most one descriptor more than segments used up. |
| DixInterleave.AppendPiece | mv-6.0.0.1009N_ubuntu/linux/linux_main.c:1129-1152 | One pass of an inner loop, including the cursor that has run past the last segment. |
| DixInterleave.TakesPart | mv-6.0.0.1009N_ubuntu/linux/linux_main.c:1138-1139 | Cutting a segment leaves the cursor at the rest of it. |
| DixInterleave.TakesAll | mv-6.0.0.1009N_ubuntu/linux/linux_main.c:1148-1151 | Using a segment up leaves the cursor at the next one, or past the end, whatever was read there. |
| DixInterleave.TotalLength | mv-6.0.0.1009N_ubuntu/linux/linux_main.c:1268-1270 | The loop adds up the bytes of the protection list. |
| DixInterleave.GenerateDixTable | mv-6.0.0.1009N_ubuntu/linux/linux_main.c:1264-1278 | Exact condition for weaving: whole blocks of data, and 8 bytes of protection information for each with fewer than 8 more; otherwise the table is left alone. |
| IntrusiveList.FanOut | mv-6.0.0.1009N_ubuntu/hba_sm/cc.c:357-376 | Taking the node before the first as the head and popping until empty visits every member of the ring once in ring order, ends after as many, and reads no link of a completed request, whatever became of it. |
| IntrusiveList.LastAsHead | mv-6.0.0.1009N_ubuntu/hba_sm/cc.c:357-358 | Seen from its last member, the ring is the list of the others in order. |
| IntrusiveList.CompleteFirst | mv-6.0.0.1009N_ubuntu/hba_sm/cc.c:362-370 | Popping and completing the first leaves the rest a list. |
| IntrusiveList.Rotate | mv-6.0.0.1009N_ubuntu/include/com_list.c:102-139 | A ring read from any of its nodes is a ring. |
| IntrusiveList.AddBetween | mv-6.0.0.1009N_ubuntu/include/com_list.c:102-139 | Linking a node between two neighbours inserts it at that place, next and prev staying inverse. |
| IntrusiveList.Unlink | mv-6.0.0.1009N_ubuntu/include/com_list.c:186-190 | Linking the neighbours of a node to each other drops exactly that node. |
| IntrusiveList.Add | mv-6.0.0.1009N_ubuntu/include/com_list.c:149-152 | The new entry becomes the first. |
| IntrusiveList.AddTail | mv-6.0.0.1009N_ubuntu/include/com_list.c:168-171 | The new entry becomes the last. |
| IntrusiveList.Del | mv-6.0.0.1009N_ubuntu/include/com_list.c:199-231 | The entry leaves its list, and its links are cleared. |
| IntrusiveList.DelInit | mv-6.0.0.1009N_ubuntu/include/com_list.c:244-248 | The entry leaves its list and is a ring of its own. |
| IntrusiveList.MoveToTail | mv-6.0.0.1009N_ubuntu/include/com_list.c:266-271 | Within one list the entry goes to the end. |
| IntrusiveList.MoveTail | mv-6.0.0.1009N_ubuntu/include/com_list.c:266-271 | Between two lists it is removed from one and becomes the last of the other. |
| IntrusiveList.Empty | mv-6.0.0.1009N_ubuntu/include/com_list.c:277-280 | True exactly for no entries. |
| IntrusiveList.GetCount | mv-6.0.0.1009N_ubuntu/include/com_list.c:287-295 | The loop counts the entries. |
| IntrusiveList.GetFirst | mv-6.0.0.1009N_ubuntu/include/com_list.c:350-358 | The first entry is taken off, or null if there is none. |
| IntrusiveList.GetLast | mv-6.0.0.1009N_ubuntu/include/com_list.c:369-377 | The last entry is taken off, or null. |
| IntrusiveList.Splice | mv-6.0.0.1009N_ubuntu/include/com_list.c:389-401 | The entries of one list are put in front of those of another. |
| IntrusiveList.SpliceTail | mv-6.0.0.1009N_ubuntu/include/com_list.c:403-415 | Behind them. |
| IntrusiveList.AddList | mv-6.0.0.1009N_ubuntu/include/com_list.c:436-443 | The same in front, and the source is empty afterwards; an empty source changes nothing. |
| IntrusiveList.AddListTail | mv-6.0.0.1009N_ubuntu/include/com_list.c:472-478 | The same behind. |
| IntrusiveList.CountedListHead.AddFirst | mv-6.0.0.1009N_ubuntu/include/com_list.c:154-158 | The count stays the length. |
| IntrusiveList.CountedListHead.AddLast | mv-6.0.0.1009N_ubuntu/include/com_list.c:173-177 | The count stays the length. |
| IntrusiveList.CountedListHead.TakeFirst | mv-6.0.0.1009N_ubuntu/include/com_list.c:360-367 | The count stays the length. |
| IntrusiveList.CountedListHead.Delete | mv-6.0.0.1009N_ubuntu/include/com_list.c:233-237 | The count stays the length. |
| IntrusiveList.CountedListHead.TakeLast | mv-6.0.0.1009N_ubuntu/include/com_list.c:379-387 | The count stays the length. |
| IntrusiveList.CountedListHead.Count | mv-6.0.0.1009N_ubuntu/include/com_list.c:297-311 | Traversing and reading the count give the same. |
| IntrusiveList.CountedListHead.AddPlainList | mv-6.0.0.1009N_ubuntu/include/com_list.c:454-461 | Joining an ordinary list in front keeps the count. |
| IntrusiveList.CountedListHead.AddPlainListTail | mv-6.0.0.1009N_ubuntu/include/com_list.c:488-495 | Joining an ordinary list behind keeps the count. |
| IntrusiveList.CountedListHead.EmptyInto | mv-6.0.0.1009N_ubuntu/include/com_list.c:445-452 | Putting its entries in front of those of an ordinary list leaves it empty, with a count of none. |
| IntrusiveList.CountedListHead.EmptyIntoTail | mv-6.0.0.1009N_ubuntu/include/com_list.c:480-486 | Putting them behind does too. |
| IntrusiveList.CountedListHead.AddCountedList | mv-6.0.0.1009N_ubuntu/include/com_list.c:463-470 | Joining a counted list in front keeps both counts. |
| IntrusiveList.CountedListHead.AddCountedListTail | mv-6.0.0.1009N_ubuntu/include/com_list.c:497-504 | Joining a counted list behind keeps both counts. |
| TagService.Lockstep | mv-6.0.0.1009N_ubuntu/include/com_tag.h:104-138 | Both implementations, each asked for itself and driven by the same calls from the start for any number of laps, answer every call as the specified queue or stack does, and are empty exactly when it is. |
| TagService.ServesEach | mv-6.0.0.1009N_ubuntu/include/com_tag.h:75-78 | The specified pool answers every request for a tag, once and in order, and never has more tags than it began with. |
| TagService.FirstInFirstOut | mv-6.0.0.1009N_ubuntu/include/com_tag.h:75-78 | A FIFO pool hands out, in order, the tags there were and then those that came back; what is left follows. |
| TagService.LastInFirstOut | mv-6.0.0.1009N_ubuntu/include/com_tag.h:75-78 | A FILO pool hands out next the tag that came back last, and keeps the others as they were. |
| TagService.EveryTagOnce | mv-6.0.0.1009N_ubuntu/include/com_tag.h:75-78 | As long as users release what they hold, every tag is either available once or held once: none is handed out twice or lost. |
| Tags.EmptyExactly | mv-6.0.0.1009N_ubuntu/include/com_tag.h:138 | The cursors are equal exactly when no tag is available, after any number of wraps. |
| Tags.FirstTagExactly | mv-6.0.0.1009N_ubuntu/include/com_tag.h:104-118 | Exact condition on the size: the macros hand out tag 0 first if and only if the size leaves bit 15 free for the lap parity. |
| Tags.GetStep | mv-6.0.0.1009N_ubuntu/include/com_tag.h:104-118 | The get cursor steps to the oldest available cell and keeps the others in order. |
| Tags.ReleaseStep | mv-6.0.0.1009N_ubuntu/include/com_tag.h:120-136 | The release cursor steps to the cell behind the available ones. |
| Tags.CellsDiffer | mv-6.0.0.1009N_ubuntu/include/com_tag.h:104-136 | Available tags are in different cells. |
| Tags.RingGet | mv-6.0.0.1009N_ubuntu/include/com_tag.h:104-118 | Getting takes the head of the queue the ring stands for. |
| Tags.RingRelease | mv-6.0.0.1009N_ubuntu/include/com_tag.h:120-136 | Releasing puts the tag at its end. |
| Tags.QueueGet | mv-6.0.0.1009N_ubuntu/lib/common/com_tag.c:100-115 | Getting takes the head of the queue of the plain implementation. |
| Tags.QueueRelease | mv-6.0.0.1009N_ubuntu/lib/common/com_tag.c:117-127 | Releasing puts the tag at its end, the index wrapping. |
| Tags.StackRelease | mv-6.0.0.1009N_ubuntu/lib/common/com_tag.c:117-127 | In a FILO pool the tag is the next to be handed out. |
| Tags.FilledCells | mv-6.0.0.1009N_ubuntu/lib/common/com_tag.c:69-98 | Both initial fillings stand for the tags from 0 up. |
| Tags.TunedTagStack.Init | mv-6.0.0.1009N_ubuntu/include/com_tag.h:98-102 | A pool of up to 0x8000 tags starts with all of them available, from 0 up. |
| Tags.TunedTagStack.GetOne | mv-6.0.0.1009N_ubuntu/include/com_tag.h:104-118 | Hands out the next tag, FIFO and FILO. |
| Tags.TunedTagStack.ReleaseOne | mv-6.0.0.1009N_ubuntu/include/com_tag.h:120-136 | Takes a tag back, at the end or at the front. |
| Tags.TunedTagStack.IsEmpty | mv-6.0.0.1009N_ubuntu/include/com_tag.h:138 | True exactly if there is no tag to hand out. |
| Tags.TagStack.Init | mv-6.0.0.1009N_ubuntu/lib/common/com_tag.c:69-98 | A pool of any size starts with all tags available, from 0 up. |
| Tags.TagStack.GetOne | mv-6.0.0.1009N_ubuntu/lib/common/com_tag.c:100-115 | Hands out the next tag. |
| Tags.TagStack.ReleaseOne | mv-6.0.0.1009N_ubuntu/lib/common/com_tag.c:117-127 | Takes a tag back. |
| Tags.TagStack.IsEmpty | mv-6.0.0.1009N_ubuntu/lib/common/com_tag.c:129-136 | True exactly if there is no tag to hand out. |
| EventLog.LogOverRuns | mv-6.0.0.1009N_ubuntu/linux/hba_exp.c:729-822 | Over every run: free and stored entries partition the pool and the count is right; the stored entries hold the latest events, numbered consecutively modulo 2^32; delivered positions strictly increase; an accepted event neither stored nor delivered has MAX_EVENTS newer ones. |
| EventLog.RunRefines | mv-6.0.0.1009N_ubuntu/linux/hba_exp.c:729-822 | Every run delivers what an unbounded log with a read position that falls at most MAX_EVENTS behind would deliver. |
| EventLog.RefRunKeeps | mv-6.0.0.1009N_ubuntu/linux/hba_exp.c:744-820 | That log delivers in increasing order and misses a position only by an overrun. |
| EventContents.ContentsOverRuns | mv-6.0.0.1009N_ubuntu/linux/hba_exp.c:767-789 | Over every run: the events accepted are the reports of at most 4 parameters, one by one, each with its id, severity, device and time, its given parameters, and its given sense bytes up to 30, the length being 0 without a buffer. |
| EventContents.DeliveredSays | mv-6.0.0.1009N_ubuntu/linux/hba_exp.c:806-816 | So is every event delivered: it says what the report at its position said. |
| EventContents.AddStores | mv-6.0.0.1009N_ubuntu/linux/hba_exp.c:744-789 | What add_event stores and where: in the first free entry, or that of the oldest event if none is free; what was reported, the number modulo 2^32, and beyond that what the entry said before; nothing for more than 4 parameters. |
| EventLog.AddRefines | mv-6.0.0.1009N_ubuntu/linux/hba_exp.c:744-790 | One add_event, accepted or refused, is one step of that log. |
| EventLog.GetRefines | mv-6.0.0.1009N_ubuntu/linux/hba_exp.c:800-818 | The loop of get_event is that log's reading. |
| EventLog.AddKeeps | mv-6.0.0.1009N_ubuntu/linux/hba_exp.c:744-790 | add_event keeps the invariant and accepts exactly the events of at most MAX_EVENT_PARAMS parameters. |
| EventLog.ChosenInPool | mv-6.0.0.1009N_ubuntu/linux/hba_exp.c:753-764 | There is always an entry to take, one of the pool that is not kept. |
| EventLog.EventQueue.Initialize | mv-6.0.0.1009N_ubuntu/linux/hba_exp.c:601-615 | All entries start free, in order. |
| EventLog.EventQueue.Add | mv-6.0.0.1009N_ubuntu/linux/hba_exp.c:729-790 | add_event in place, including what an entry keeps of its former parameters and sense data. |
| EventLog.EventQueue.TakeOne | mv-6.0.0.1009N_ubuntu/linux/hba_exp.c:808-815 | One delivery is of the oldest stored event. |
| EventLog.EventQueue.GetLoop | mv-6.0.0.1009N_ubuntu/linux/hba_exp.c:806-816 | The loop delivers the oldest stored events in order, as many as there are and the answer holds. |
| EventLog.EventQueue.Get | mv-6.0.0.1009N_ubuntu/linux/hba_exp.c:792-822 | get_event answers with the oldest stored events, in order, as many as there are up to the answer's size, and adds them to what was delivered. |
| ModuleStart.CascadeOverRuns | mv-6.0.0.1009N_ubuntu/linux/hba_exp.c:108-147 | Over every run on a chain of any length: core and HBA were started, a module between them exactly when the one below has reported, and no module twice; completion is signalled only when all are started, and once all have reported it was signalled twice if the last other module reported between the marking of the HBA and its report, and once otherwise. |
| ModuleStart.RunKeeps | mv-6.0.0.1009N_ubuntu/linux/hba_exp.c:108-147 | The invariant behind it. |
| ModuleStart.SomebodyIsNext | mv-6.0.0.1009N_ubuntu/linux/hba_exp.c:140-144 | The start never gets stuck: below any module that has not reported there is one whose report is due, or it is the HBA's turn. |
| ModuleStart.SignalsExactly | mv-6.0.0.1009N_ubuntu/linux/hba_exp.c:124-139 | Exact count over every run, finished or not: one signal if the last other module reported between the marking of the HBA and its report, and one if all have reported. |
| ModuleStart.TwoSignals | mv-6.0.0.1009N_ubuntu/linux/hba_mod.c:734-738 | Both signals do occur: the HBA module is marked, the last other module reports, then the HBA does. |
| ModuleStart.Register | mv-6.0.0.1009N_ubuntu/linux/hba_mod.c:225-240 | A new module goes on top of the chain, its links and those of the one below made inverse. |
| ModuleStart.RegisterOnlineModules | mv-6.0.0.1009N_ubuntu/linux/hba_mod.c:194-288 | The chain is core, RAID, cache and HBA, the middle two as available and neither in a non-RAID run; the online list is the chain from the top, each module registered. |
| ModuleStart.GetLowest | mv-6.0.0.1009N_ubuntu/linux/hba_mod.c:472-487 | From any module the child links lead to the core. |
| ModuleStart.GetHighest | mv-6.0.0.1009N_ubuntu/linux/hba_mod.c:489-504 | The parent links lead to the HBA. |
| ModuleStart.IsAllStarted | mv-6.0.0.1009N_ubuntu/linux/hba_mod.c:618-631 | True exactly if every module of the chain is marked started. |
| ModuleStart.ModuleStarted | mv-6.0.0.1009N_ubuntu/linux/hba_exp.c:108-147 | On the linked descriptors it marks the module and answers as the protocol's step: a signal, the module above to start, or neither. |
| ModuleStart.RunningDownMeans | mv-6.0.0.1009N_ubuntu/linux/hba_mod.c:653-669 | The order of stopping, by positions in the chain: what runs, each once, highest first. |
| ModuleStart.StopAll | mv-6.0.0.1009N_ubuntu/linux/hba_mod.c:653-669 | Stops the modules that were running, and only them, a higher one always before a lower one, and leaves each at Inited. |
| ExpanderQuery.FanIn | mv-6.0.0.1009N_ubuntu/core/api/core_api_exp.c:369-424 | Over every run, whatever the devices do between passes: `remaining` counts the sub-requests under way, the query waits exactly while there are any, and when it finishes the range was gone through, Cmd_Initiator is its own again, every slot returned has all its answers, and the slots name different devices in order. |
| ExpanderQuery.ReportsEachOnce | mv-6.0.0.1009N_ubuntu/core/api/core_api_exp.c:156-226 | Over devices that stay as they are: a query that finishes, after however many refused and resumed passes, has reported exactly the ready expanders of its range, each once. |
| ExpanderAnswers.AnswersReported | mv-6.0.0.1009N_ubuntu/core/api/core_api_exp.c:381-408 | Over every run: when the query finishes well, the configuring flag and change count of each slot are those of the reply that answered its REPORT_GENERAL, and the id of each phy is that of the reply that answered its DISCOVER; zeros for those that failed. |
| ExpanderAnswers.AnswerChangesOne | mv-6.0.0.1009N_ubuntu/core/api/core_api_exp.c:369-408 | An answer puts its reply where it belongs and changes nothing else of any slot. |
| ExpanderAnswers.ReportsExactly | mv-6.0.0.1009N_ubuntu/core/api/core_api_exp.c:130-180 | Over devices that stay as they are: a query that finishes well reports a device if and only if it asks for its id (by range from the first id on, by id that one) and the device is an expander, ready, on a port or on an expander that is ready too; with as many phys as lead to that; by id one slot or none. |
| ExpanderAnswers.OutcomesExactly | mv-6.0.0.1009N_ubuntu/core/api/core_api_exp.c:107-128 | Exact conditions over every run: a query is rejected, by its first pass, for lack of a buffer or for its first id, and for nothing else. |
| ExpanderAnswers.NextExactly | mv-6.0.0.1009N_ubuntu/core/api/core_api_exp.c:138-139 | The next starting index of a query that finishes well is the end of the range if the last device filled the answer, and none otherwise. |
| ExpanderQuery.FinishesUnlessEarly | mv-6.0.0.1009N_ubuntu/core/api/core_api_exp.c:221-239 | Exact condition: over steady devices a query can finish if and only if the number asked for is not reached before the last id of the range. |
| ExpanderQuery.EarlyNeverFinishes | mv-6.0.0.1009N_ubuntu/core/api/core_api_exp.c:232 | If it is reached before, no run finishes the query. |
| ExpanderQuery.LastAnswerRestarts | mv-6.0.0.1009N_ubuntu/core/api/core_api_exp.c:409-423 | The last answer then queues the query again, and its next pass is that of a new one. |
| ExpanderQuery.RestartsAfresh | mv-6.0.0.1009N_ubuntu/core/api/core_api_exp.c:120-147 | A queued query with Cmd_Initiator restored begins again whatever was reported. |
| ExpanderQuery.FillsEarly | mv-6.0.0.1009N_ubuntu/core/api/core_api_exp.c:221-225 | Such queries exist: two expanders, one wanted. |
| ExpanderQuery.BoundedSteps | mv-6.0.0.1009N_ubuntu/core/api/core_api_exp.c:89-424 | Otherwise the events of any run, passes refused for want of requests left aside, are at most one plus three times the sub-requests needed. |
| ExpanderQuery.OnwardGetsOn | mv-6.0.0.1009N_ubuntu/core/api/core_api_exp.c:89-252 | A query not finished always has an event to come that gets somewhere, given enough internal requests. |
| ExpanderShortage.NothingReturnedAtOnce | mv-6.0.0.1009N_ubuntu/core/api/core_api_exp.c:233-236 | The assertion that a pass which sends nothing has returned nothing holds over steady devices. |
| ExpanderShortage.AssertionFailsExactly | mv-6.0.0.1009N_ubuntu/core/api/core_api_exp.c:233-236 | Exact condition in every run: it fails if and only if the pass is a resumed one, something was returned before it, and no expander ahead is ready any more. |
| ExpanderShortage.ReturnedAtOnce | mv-6.0.0.1009N_ubuntu/core/api/core_api_exp.c:233-236 | A run in which it fails: an expander goes away between two passes. |
| ExpanderShortage.ShortExactly | mv-6.0.0.1009N_ubuntu/core/api/core_api_exp.c:189-211 | Exact condition: a pass falls short if and only if it has fewer internal requests than the ready expanders up to a full answer take. |
| ExpanderShortage.DemandIsCost | mv-6.0.0.1009N_ubuntu/core/api/core_api_exp.c:156-226 | That demand is the sub-requests of all ready expanders ahead, unless the answer fills. |
| ExpanderShortage.VainExactly | mv-6.0.0.1009N_ubuntu/core/api/core_api_exp.c:189-211 | Exact condition before a pass: some sub-requests are generated in vain if and only if the internal requests last for the ready expanders before some id and for a part, but not all, of the one there, and the answer is not full by then; as many as are left there. |
| ExpanderShortage.ReleasedExactly | mv-6.0.0.1009N_ubuntu/core/api/core_api_exp.c:241-245 | Exact condition over every run, on the device table and the internal requests of its passes: the query itself is released to the pool if and only if in some pass the internal requests ended within a ready expander, before a full answer. |
| ExpanderShortage.AmpleRuns | mv-6.0.0.1009N_ubuntu/core/api/core_api_exp.c:241-251 | In runs without a pass that falls short, none is refused or resumed, Cmd_Initiator is the query's own between events, and the query is never released. |
| ExpanderShortage.AmpleIsOnePass | mv-6.0.0.1009N_ubuntu/core/api/core_api_exp.c:89-252 | Over steady devices a query that does not fill early is then done in one pass. |
| ExpanderQuery.RunKeeps | mv-6.0.0.1009N_ubuntu/core/api/core_api_exp.c:89-424 | The books (sub-requests under way against missing items) balance after every event. |
| ExpanderQuery.EnterKeeps | mv-6.0.0.1009N_ubuntu/core/api/core_api_exp.c:89-252 | A pass keeps them. |
| ExpanderQuery.AnswerKeeps | mv-6.0.0.1009N_ubuntu/core/api/core_api_exp.c:369-424 | A completion keeps them. |
| ExpanderQuery.VisitReports | mv-6.0.0.1009N_ubuntu/core/api/core_api_exp.c:156-226 | What a pass has reported and what it has left make up the whole range. |
| ExpanderQuery.VisitStops | mv-6.0.0.1009N_ubuntu/core/api/core_api_exp.c:156-251 | How a pass ends: full by its last expander, out of ids, or at a ready expander it had no requests for. |
| ExpanderQuery.VisitSends | mv-6.0.0.1009N_ubuntu/core/api/core_api_exp.c:181-217 | A pass sends exactly the sub-requests of the expanders it has passed. |
| ExpanderQuery.ExpanderRequest.Generate | mv-6.0.0.1009N_ubuntu/core/api/core_api_exp.c:189-211 | The generation loops build the sub-requests newest first, or fail exactly when the internal requests do not suffice, having used them up. |
| ExpanderQuery.ExpanderRequest.SendAll | mv-6.0.0.1009N_ubuntu/core/api/core_api_exp.c:213-217 | The list is handed down front to back, each counted. |
| ExpanderQuery.ExpanderRequest.Scan | mv-6.0.0.1009N_ubuntu/core/api/core_api_exp.c:155-226 | The loop over the ids against the specification. |
| ExpanderQuery.ExpanderRequest.HandleRequest | mv-6.0.0.1009N_ubuntu/core/api/core_api_exp.c:89-252 | The whole routine with its exits and result codes, the releases of the query included. |
| ExpanderQuery.ExpanderRequest.ReleaseFor | mv-6.0.0.1009N_ubuntu/core/api/core_api_exp.c:241-245 | The no_resource loop releases the query once for each sub-request it pops. |
| ExpanderQuery.ExpanderRequest.Callback | mv-6.0.0.1009N_ubuntu/core/api/core_api_exp.c:369-424 | The completion of a sub-request. |

## Left out

- Consolidator data path: copying of scatter-gather entries, CDB encoding, request flags and sense data; `MAX_SG_ENTRY` is the 130 of a build with large requests, and the ring of an internal request is a sequence there (its pointer form is IntrusiveList.FanOut).
- ConsolidatorModule.ModConsolidate.ModuleSendRequest: a request for a device without a record is recorded as passed on; its completion is not followed.
- HouseKeeper.MessageQueue.Insert: seen from one thread; what other threads see is in MsgQueue. The bodies of hba_proc_msg and of the per-target loop of hba_scan_host are left out; insertions made by that loop are insertions like any other, and whether an adapter runs RAID is a parameter.
- The house-keeper thread of kernels without work queues.
- TimerModule.TimerPool.AddRequest: does not model the two different locks of the two additions, nor the wrap of the 64-bit stamp; the tag pool is the FILO contents that Tags proves for the stack.
- TimerModule.TimerPool.CheckRequest: others come in where the lock is free, as the parameter says; the re-arming of the kernel timer and the push of the core's queues after a sweep are not part of it.
- DixInterleave.AppendIntersectSgTable: DMA addresses do not wrap at 64 bits; the capacity of the table is not modelled.
- IntrusiveList: the Windows spin-lock variants, and List_Move and List_Splice, which only combine operations modelled.
- Tags: no debug assertions; the pools' memory layout.
- EventLog.EventQueue.Add: the adapter id and the time source are parameters or left out.
- ModuleStart.RegisterOnlineModules: allocation failure, a missing core or HBA module, and everything about resources of a module.
- ModuleStart.ModuleStarted: which of completion and the HBA's own notification comes first, and a stop while modules are still starting.
- ExpanderQuery.ExpanderRequest.HandleRequest: the null pointer read in a pass that falls short, what the releases of the query do to it, what becomes of the sub-requests generated in vain, and the fields of an entry filled from memory.
- ExpanderQuery.ExpanderRequest.Callback: of the answers, the phy id, the configuring flag and the change count are modelled, the address bytes and their order are not; the write of Cmd_Initiator goes to the sub-request in the code and has no effect here.
- ExpanderQuery.FinishesUnlessEarly: speaks of devices that stay as they are; with changing devices only FanIn is claimed.
- The size of the answer buffer of an expander query against the number of expanders.
- PCI, interrupt and DMA set-up, register access, kernel memory wrappers, procfs, module parameters, ioctl paths, flash pages, LED and enclosure code, inquiry and capacity replies: plumbing over kernel calls or tables of constants.
- hba_sm/hba_timer.c: the same timer pool for other systems.
