# FabAccess server: verified models

Dafny models of the parts of the FabAccess server (bffh) whose correctness is hardest to see from the code:

- **The proc protocol** of `runtime/lightproc`. One packed 64-bit word holds seven flags and a reference count;
  wakers, `LightProc` references, ticks and the handle race on it. `StateWord` packs the word on either byte order,
  `Transitions` says what each compare-exchange makes of it, `AtomicLoops` are the compare-exchange loops themselves
  under arbitrary interference, `ProcProtocol` is the transition system, `ProcInvariant` its inductive invariant,
  `ProcTheorems` what follows for every run, `ProcEnding` what each poll result,
  cancel and drop leads to, `PackedRun` the refinement from records to packed words, `ProcDefects`
  the places where the code as written breaks its own comments, `AwaiterLock` the spin lock around the awaiter and
  `ProcLayout` the memory layout.
- **The worker loop** of `runtime/executor` (`Worker`): queues, stealing, park and unpark.
- **Object identifiers and varints** (`Varint`, `Oid`, with `Text` for splitting, joining and decimals).
- **The authorization chain**: permission order and rules (`Permissions`), search of the role graph (`Roles`), when that
  search ends (`RoleCycles`), session checks, machine states and offered capabilities (`Machine`).
- **The card login**: both FabFire servers (`CardServers`) under the SASL exchange of section 3 of RFC 4422 (`Login`).
- **The span stack** of `runtime/console` (`SpanStack`).

`dafny verify dfyconfig.toml` checks everything.

## How the models are built

A successful compare-exchange, a fetch operation or a deciding load is one step of the proc protocol; a failed exchange
changes nothing. A run is any sequence of enabled steps from a fresh proc, so every theorem about `Reached` covers every
interleaving. `AtomicLoops.ExchangeLoop` justifies this: whatever other threads do between a load and the exchange, and
however often the exchange fails spuriously, the call has the effect of one step on one word that was current.

Each `Resource` call is one step, because its body has no await point. The card library, UTF-8 checks and JSON parsing
are functions of a login's `Oracle`; the users, the random octets and the success of command building, serializing and
writing are parameters of each call (`Env`). A panic ends the exchange, which `step` has already marked as aborted.

Where the code and its own comments disagree, the code is modelled and the difference is proved:

- `ProcHandle::cancel` has its two arms the other way round than its comments. The protocol has both versions as steps. Over
  all runs of the code, the count is right throughout if and only if every cancel with the arms as written met a proc that had
  ended (`CodeCountsExactly`); those runs are the runs of `IsRun`, and all theorems hold on them. Two runs show what goes wrong
  otherwise: a queued reference to freed memory, and a proc that is never freed.
- `swap_awaiter` leaves its acquire loop when the lock bit *was* set. The protocol takes it apart as written: rounds of the loop,
  the replacement of the cell, the release. Two calls can be inside at once (`TwoInside`), but only once the proc has ended
  (`SharedOnlyAfterEnd`), and so the awaiter is woken all the same (`AwaiterIsWoken`, `NotifierWakes`). For any number of callers
  apart from the protocol, `WrittenExcludesExactly` shows that the lock excludes exactly when calls do not overlap.
- `!(RUNNING & SCHEDULED)` is a full mask, so neither completion nor an unwinding poll clears those flags: every completed proc
  carries RUNNING, and SCHEDULED exactly when it was woken after its last tick entry (`CompletedFlags`, with a run in
  `CompletedAndScheduled`), and the same of a proc closed by a panic (`UnwoundFlags`). The scheduling theorems speak of procs
  that are neither completed nor closed.
- `decrement` destroys an idle proc without dropping its future: `WhatDestroyLeaks` says exactly when,
  `IdleProcLeaksFuture` is a run. A future is therefore dropped at most once, not exactly once.
- `Executor::schedule` unparks nobody: `LeftInInjector` says, for every run, exactly what a worker on its way into park
  leaves in the shared queue, and `BlockedWithGlobalWork` is a run, for any number of workers, that ends with all of them
  blocked and work queued.
- `build` accepts a first node of 40 (`BuiltPrintsItsNodes`); `from_str` accepts arcs that `from_box` and the printer refuse
  (`PrintThenParse`); octets that are not minimal print as other octets (`BoxRoundTrip`).
- `Into<String>` writes a `Subtree` rule with a plus sign, and adds no dot to a path that ends in one. A stored `Subtree` rule
  loses the permission it names; a stored rule for `a.` comes back as one for everything below `a` (`StoredChanges`,
  `StoredExactly`).
- A role is marked as seen only after its parents. For a permission that is not granted the search ends exactly when no cycle
  is reachable (`EndsWithoutCycle`); in general it ends exactly when it can leave every role, or the first role it cannot
  leave leads straight to a matching rule (`EndsExactly`). Whenever it ends, its answer is right (`TallyCorrect`).
- `try_update` to Free does not record the previous user; only `give_back` does (`PreviousIsLastReturn`).

## Model

| member | source | states |
|---|---|---|
| StateWord.DecodeEncode | runtime/lightproc/src/state.rs:79-132 | on either byte order a word fits 64 bits and unpacks to the flags and count it was packed from |
| StateWord.PartsOfPack | runtime/lightproc/src/state.rs:81-98 | the two halves of a packed word are the count and the flags given |
| StateWord.FlagValues | runtime/lightproc/src/state.rs:63-74 | each flag has its own bit, in the order declared |
| StateWord.FieldsOf | runtime/lightproc/src/state.rs:88-132 | every 64-bit value is made of exactly its count half and its flags half, placed by byte order |
| StateWord.FetchAddExact | runtime/lightproc/src/state.rs:241-246 | adding one to the packed word adds one to the count and leaves the flags alone, exactly as long as no carry leaves the count's half |
| StateWord.FetchSubExact | runtime/lightproc/src/state.rs:248-252 | subtracting one takes one from a positive count; at zero the flags survive only on big-endian machines |
| StateWord.FetchOrExact | runtime/lightproc/src/state.rs:228-233 | `fetch_or` of a flag mask sets those flags and keeps the count |
| StateWord.FetchAndExact | runtime/lightproc/src/state.rs:234-240 | `fetch_and` of a flag mask keeps just those flags and the count |
| AtomicLoops.AtomicState.Load | runtime/lightproc/src/state.rs:192-197 | reads the word the packed value stands for |
| AtomicLoops.AtomicState.CompareExchange | runtime/lightproc/src/state.rs:202-227 | replaces the packed value exactly when the record is the expected one, and reports the record found |
| AtomicLoops.AtomicState.AddOne | runtime/lightproc/src/state.rs:241-246 | adds a reference and returns the word before |
| AtomicLoops.AtomicState.SubOne | runtime/lightproc/src/state.rs:248-252 | takes a reference away and returns the word before |
| AtomicLoops.AtomicState.SetFlags | runtime/lightproc/src/state.rs:228-233 | sets flags in place and returns the word before |
| AtomicLoops.AtomicState.KeepFlags | runtime/lightproc/src/state.rs:234-240 | clears flags in place and returns the word before |
| AtomicLoops.ExchangeLoop | runtime/lightproc/src/raw_proc.rs:158-216 | load, decide, exchange, reload: under any interference and spurious failures the call acts once, on one word that was current |
| AtomicLoops.Wake | runtime/lightproc/src/raw_proc.rs:149-218 | the whole `wake` loop is one step, and it schedules exactly when the proc met was idle and not ended |
| AtomicLoops.WakeByRef | runtime/lightproc/src/raw_proc.rs:221-286 | the same for `wake_by_ref`, which adds a reference for the new `LightProc` |
| AtomicLoops.EnterTick | runtime/lightproc/src/raw_proc.rs:395-441 | a tick polls exactly when it met a proc that is not closed, and has then moved SCHEDULED to RUNNING |
| AtomicLoops.CompleteTick | runtime/lightproc/src/raw_proc.rs:452-502 | after Ready the tick takes the output exactly when no handle is left or the proc was closed |
| AtomicLoops.ParkTick | runtime/lightproc/src/raw_proc.rs:503-546 | after Pending the reference is requeued exactly when a wake arrived and the proc is not closed |
| AtomicLoops.Close | runtime/lightproc/src/proc_data.rs:87-117 | `cancel` closes at most once and is told to notify exactly when it closed and an awaiter was there; with the other test, the drop guard and the poll that takes the output |
| AtomicLoops.HandleCancel | runtime/lightproc/src/proc_handle.rs:49-102 | the whole cancel loop as written is one step; where it schedules a new reference it has added none |
| AtomicLoops.CloneWaker | runtime/lightproc/src/raw_proc.rs:289-316 | a clone adds one reference and aborts exactly when the count was past 2^31 - 1 |
| AtomicLoops.DropHandlePass | runtime/lightproc/src/proc_handle.rs:205-277 | one pass of the handle's drop takes the output of a completed proc, or gives up HANDLE and schedules or destroys a proc without references |
| AtomicLoops.Decrement | runtime/lightproc/src/raw_proc.rs:320-344 | takes one reference away and destroys exactly on the last one without a handle |
| ProcInvariant.InitInv | runtime/lightproc/src/raw_proc.rs:53-104 | a fresh proc, one reference and one handle, satisfies the invariant |
| ProcInvariant.StepKeepsInv | runtime/lightproc/src/raw_proc.rs:149-549 | every step of every party keeps the invariant, the single actions of `swap_awaiter` as written included; of handle cancels the one with the commented arms, and the one as written on a proc that has ended |
| ProcInvariant.RunKeepsInv | runtime/lightproc/src/raw_proc.rs:149-549 | so does every run |
| ProcTheorems.ReferenceCount | runtime/lightproc/src/raw_proc.rs:149-549 | in every reachable state the stored count is the number of live `LightProc` references, wakers and releases under way; the proc is destroyed at most once, and exactly when none of them and no handle is left |
| ProcTheorems.NoUseAfterFree | runtime/lightproc/src/raw_proc.rs:320-392 | once destruction is decided it is the only step left, and after it there is none |
| ProcTheorems.CountBound | runtime/lightproc/src/raw_proc.rs:289-344 | no decrement starts at zero, and the count exceeds 2^31 + 1 only by releases under way |
| ProcTheorems.ScheduledExactly | runtime/lightproc/src/raw_proc.rs:149-286 | while a proc has not ended: one reference waits exactly when it is scheduled and not running, one tick is past its entry exactly when it is running, no reference exists exactly when it is idle |
| ProcTheorems.CompletedFlags | runtime/lightproc/src/raw_proc.rs:460-466 | in every run a completed proc carries RUNNING, and SCHEDULED if and only if it was woken after the entry of its last tick |
| ProcTheorems.UnwoundFlags | runtime/lightproc/src/raw_proc.rs:624-636 | the same of a proc closed by a panic, while its future is dropped and its awaiter notified |
| ProcTheorems.NoLostWake | runtime/lightproc/src/raw_proc.rs:149-286 | from a wake until the next tick entry, in every continuation, a proc that has not ended is marked scheduled and its reference is waiting or in a tick |
| ProcTheorems.PendingPollRequeues | runtime/lightproc/src/raw_proc.rs:503-546 | a poll that ends Pending after a wake puts the reference back in the queue |
| ProcTheorems.SlotDiscipline | runtime/lightproc/src/raw_proc.rs:412-502 | over every run, panics included, the future is dropped at most once and never polled after, the output is written once and read at most once after that |
| ProcTheorems.ReaderWonClosed | runtime/lightproc/src/proc_handle.rs:155-176 | a step that commits to read the output finds no other reader, and set CLOSED itself or completed a proc closed while running |
| ProcTheorems.WhatDestroyLeaks | runtime/lightproc/src/raw_proc.rs:320-392 | no output is lost with the memory, and a future exactly when the proc had neither completed nor closed |
| ProcTheorems.AwaiterIsWoken | runtime/lightproc/src/proc_handle.rs:115-153 | after a Pending poll the waker stays registered while the proc runs, and has been woken once the proc ended and no committed notifier is left; with the lock as written, under every overlap |
| ProcTheorems.NotifierWakes | runtime/lightproc/src/proc_data.rs:87-177 | a committed notifier needs at most five actions of its own, of the handle cancel or of the owner of the reference, to wake the waiting waker |
| ProcTheorems.SharedOnlyAfterEnd | runtime/lightproc/src/proc_data.rs:142-177 | two calls are inside the lock of the awaiter cell at once only when the proc has ended |
| ProcEnding.FlagsChangeExactly | runtime/lightproc/src/state.rs:4-61 | over every run each step leaves exactly the flags SCHEDULED, RUNNING, COMPLETED, CLOSED and HANDLE it is due to leave: which steps set and clear each, and that COMPLETED and CLOSED are never cleared |
| ProcEnding.PhasesFollow | runtime/lightproc/src/raw_proc.rs:395-549 | in every run a reference goes through its phases in order: a tick polls exactly on a proc that is not closed, and Ready, Pending and panic each have their own way on |
| ProcEnding.RunPolls | runtime/lightproc/src/raw_proc.rs:395-441 | running a queued reference polls the future, whatever others do before the entry, unless the proc is closed by then |
| ProcEnding.PanicIsFinal | runtime/lightproc/src/raw_proc.rs:600-640 | after a panic, in every continuation, no poll is under way or begins and no output is written; once no reference is left the proc is closed and its future was dropped, once |
| ProcEnding.CancelIsFinal | runtime/lightproc/src/lightproc.rs:171-178 | after the cancel of a reference on a proc that has not ended the same holds, with CLOSED set at once and for good |
| ProcEnding.DropIsFinal | runtime/lightproc/src/lightproc.rs:192-207 | after a reference is dropped without being run: no poll and no output in any continuation; once no reference is left the proc is closed and its future was dropped, once |
| ProcEnding.AbandonIsFinal | runtime/lightproc/src/proc_handle.rs:240-275 | the same, with CLOSED set at once and for good, after the handle of a proc without references is dropped, which queues it once more to have its future dropped |
| ProcEnding.HandleCancelIsFinal | runtime/lightproc/src/proc_handle.rs:49-102 | the same, with CLOSED set at once and for good, after a handle cancel, with the commented arms, of a proc that is not running |
| ProcEnding.ClosedForever | runtime/lightproc/src/state.rs:31-41 | CLOSED stays set in every continuation |
| ProcEnding.ClosedIsNotPolledAgain | runtime/lightproc/src/raw_proc.rs:410-441 | a closed proc is not polled again once the poll under way has returned, and its future is dropped by the time no reference is left |
| ProcEnding.ReadyCompletes | runtime/lightproc/src/raw_proc.rs:452-502 | after a poll returned Ready, in every continuation the proc is on its way to completion or has completed with its future dropped and its output written |
| ProcEnding.PendingParks | runtime/lightproc/src/raw_proc.rs:503-546 | after a poll returned Pending, whatever others do meanwhile, the tick stops running and keeps the future; it requeues exactly after a wake, closes nothing, and leaves a closed proc without RUNNING and SCHEDULED and about to drop its future |
| ProcEnding.PollTakesOutput | runtime/lightproc/src/proc_handle.rs:155-176 | a handle poll of a completed proc whose output is there takes it within seven steps of its own |
| ProcEnding.PollPends | runtime/lightproc/src/proc_handle.rs:115-153 | an undisturbed handle poll of a proc that has not ended returns Pending within six steps of its own, with its waker registered |
| ProcEnding.WakesExactly | runtime/lightproc/src/proc_data.rs:120-139 | over every run each step wakes exactly the waker a `notify` has in hand at its end, and a `notify_unless` all but the polling one's own |
| ProcDefects.CancelAsWrittenExact | runtime/lightproc/src/proc_handle.rs:49-102 | from any state of the invariant, a handle cancel with the arms as written keeps the count right if and only if the proc had ended |
| ProcDefects.CodeCountsExactly | runtime/lightproc/src/proc_handle.rs:49-102 | over all runs, with the arms as written at any cancel: the count is right all through if and only if every such cancel met a proc that had ended, and then the invariant holds |
| ProcDefects.CancelAsWrittenFreesQueued | runtime/lightproc/src/proc_handle.rs:66-88 | a run with those arms that frees a proc whose reference is still queued |
| ProcDefects.CancelAsWrittenLeaksProc | runtime/lightproc/src/proc_handle.rs:66-88 | a run with those arms after which nothing refers to the proc and it is never freed |
| ProcDefects.IdleProcLeaksFuture | runtime/lightproc/src/raw_proc.rs:320-344 | a run that frees a proc without dropping its future |
| ProcDefects.CompletedAndScheduled | runtime/lightproc/src/raw_proc.rs:460-466 | a run that ends with COMPLETED, RUNNING and SCHEDULED all set |
| ProcDefects.TwoInside | runtime/lightproc/src/proc_data.rs:150-165 | a run in which the tick that completed the proc and the poll that took its output are both past the lock, about to replace the cell |
| ProcDefects.CountHasNoBound | runtime/lightproc/src/raw_proc.rs:221-344 | for every m a run whose count is 2^31 - 1 + m, with m releases under way |
| ProcDefects.PackedWordOverflows | runtime/lightproc/src/state.rs:241-246 | a run with 2^31 + 1 releases under way after which the packed word does not unpack to the record, on either byte order |
| PackedRun.OpIsStep | runtime/lightproc/src/state.rs:184-252 | the atomic operation each protocol step performs has the step's effect on the record |
| PackedRun.ApplyRefines | runtime/lightproc/src/state.rs:184-252 | each operation on the packed value is the operation on the record |
| PackedRun.CompareIsExact | runtime/lightproc/src/state.rs:202-227 | packed words are equal exactly when the records are |
| PackedRun.PackedRefines | runtime/lightproc/src/state.rs:79-252 | over every run, on either byte order, the packed word unpacks to the record all through if and only if fewer than 2^32 references are live or being released all through |
| PackedRun.FewReleasesSuffice | runtime/lightproc/src/state.rs:79-252 | which is so while fewer than 2^31 - 1 releases are under way at a time |
| AwaiterLock.AwaiterCell.Swap | runtime/lightproc/src/proc_data.rs:142-177 | a swap that overlaps no other returns the old awaiter, stores the new one and moves AWAITER with it, after exactly two rounds of its loop |
| AwaiterLock.CommentedExcludes | runtime/lightproc/src/proc_data.rs:150-165 | with the test of the comment any number of callers exclude each other in every interleaving |
| AwaiterLock.WrittenAdmitsTwo | runtime/lightproc/src/proc_data.rs:150-165 | with the test as written any two unfinished callers can both be in |
| AwaiterLock.WrittenExcludesExactly | runtime/lightproc/src/proc_data.rs:150-165 | as written, from any state, exclusion holds in every continuation if and only if no two calls are unfinished |
| ProcLayout.MaskRoundsDown | runtime/lightproc/src/layout_helpers.rs:24-28 | the alignment mask rounds down to a multiple of the power of two |
| ProcLayout.PaddingIsLeast | runtime/lightproc/src/layout_helpers.rs:24-28 | the formula gives the least padding that aligns, without wrap-around |
| ProcLayout.ExtendCorrect | runtime/lightproc/src/layout_helpers.rs:5-21 | `extend` fails exactly when the result is no valid layout; otherwise the new part is aligned, after the old one and inside |
| ProcLayout.ProcLayoutCorrect | runtime/lightproc/src/raw_proc.rs:107-129 | header, schedule function and the future/output union come out aligned, disjoint and inside the allocation |
| ProcLayout.ProcLayoutTight | runtime/lightproc/src/raw_proc.rs:107-129 | each part comes at the least offset that suits it, and size and alignment are no larger than needed |
| Worker.NeverBlockedWithLocalWork | runtime/executor/src/worker.rs:80-175 | in every interleaving a worker blocked in park has in its local queue only tasks whose scheduling call has not returned |
| Worker.ParksWithEmptyDeque | runtime/executor/src/worker.rs:110-122 | over every run a worker that looks for shared work, steals or is parked has nothing in its own deque |
| Worker.LookRunsFront | runtime/executor/src/worker.rs:112-118 | a look at a local queue or deque that holds something runs its front task and takes just that one out |
| Worker.ChecksInOrder | runtime/executor/src/worker.rs:80-170 | the checks come in order, a worker parks only after all of them and begins again at the first after every task and every park |
| Worker.TokensExactly | runtime/executor/src/worker.rs:48-52 | a worker's token is set by an unpark for it and a wakeup, consumed by a return from park, and otherwise stays |
| Worker.EachTaskInOnePlace | runtime/executor/src/worker.rs:108-170 | every task is in exactly one place over every run: outside, in the injector, in one queue, or being run |
| Worker.LocalTaskRunsAtHome | runtime/executor/src/pool.rs:279-289 | a local task is only ever run by its own worker |
| Worker.InjectorExactly | runtime/executor/src/worker.rs:118-140 | over every run the shared queue is what it held and what was pushed, in order, less as many from the front as thieves took |
| Worker.LeftInInjector | runtime/executor/src/worker.rs:108-170 | over every run with any number of workers, past a worker's last look the shared queue holds exactly what was pushed since and not taken, so work is left behind if and only if more was pushed than taken |
| Worker.BlockedWithGlobalWork | runtime/executor/src/pool.rs:69-72 | for every number of workers a run after which all are blocked while the shared queue holds a task |
| Varint.Fill | bffhd/utils/varint.rs:46-66 | filling from the back never leaves the buffer and leaves the encoding at its end |
| Varint.VarUInt.Encode | bffhd/utils/varint.rs:46-114 | for each of the five widths the fixed buffer is long enough for every value |
| Varint.Gather | bffhd/utils/varint.rs:69-93 | shifting and or-ing seven bits at a time gives the number the octets stand for, cut to the type's width; no shift reaches that width |
| Varint.VarUInt.Decode | bffhd/utils/varint.rs:69-93 | decoding gives the number of the octets for every width |
| Varint.Through | bffhd/utils/varint.rs:46-114 | encoding and decoding gives back every value of every width |
| Varint.EncShape | bffhd/utils/varint.rs:46-66 | an encoding stands for its number, is delimited by its marks and does not begin with 0x80 |
| Varint.Shortest | bffhd/utils/varint.rs:46-66 | no octets that stand for the number are fewer |
| Varint.OnlyForm | bffhd/utils/varint.rs:46-66 | delimited octets that do not begin with 0x80 are the encoding of their number |
| Varint.UniquelyDecodable | bffhd/utils/oid.rs:153-172 | a concatenation of encodings is the encoding of one list only |
| Oid.FromBox | bffhd/utils/oid.rs:126-151 | accepts octets exactly when they are not empty, the root is at most 2 and the printer succeeds, with no overflow of 128 bits on the way |
| Oid.ConvertToString | bffhd/utils/oid.rs:316-351 | prints the numbers of the groups of octets, and fails exactly when a group, finished or not, reaches 2^128 - 128 |
| Oid.Build | bffhd/utils/oid.rs:153-172 | root octet and encoded children, or an error for a first node above 40 |
| Oid.FromStr | bffhd/utils/oid.rs:199-231 | parses the parts between dots, with the error of the first part that fails |
| Oid.ParseErrors | bffhd/utils/oid.rs:202-230 | which error a text gives: that of its first bad part, in order |
| Oid.GroupsOfEncAll | bffhd/utils/oid.rs:153-172 | the groups of encodings put together are those encodings |
| Oid.PrintBuilt | bffhd/utils/oid.rs:316-351 | built octets print as their nodes if every arc is below 2^128 - 128, and fail otherwise |
| Oid.PrintThenParse | bffhd/utils/oid.rs:199-231 | for every text that parses: its octets print exactly when all arcs are below 2^128 - 128, and then the printed text parses to the same octets |
| Oid.ParseThenPrint | bffhd/utils/oid.rs:316-351 | a text that parses prints back unchanged if and only if its parts are canonical decimals and its arcs are below 2^128 - 128 |
| Oid.MinimalExactly | bffhd/utils/oid.rs:126-151 | octets are encodings one after another exactly when nothing is left over and no group begins with 0x80 |
| Oid.BoxRoundTrip | bffhd/utils/oid.rs:126-151 | octets that `from_box` accepts come back from printing and parsing if and only if they are minimal |
| Oid.BuiltPrintsItsNodes | bffhd/utils/oid.rs:153-190 | built octets print as the nodes they were built from if and only if the first node is below 40 |
| Text.ParseDecimal | bffhd/utils/oid.rs:297-305 | parsing a printed number within the type's range gives it back |
| Text.DecimalOfValue | bffhd/utils/oid.rs:316-351 | canonical digits print back from their value |
| Text.SignAndZeros | bffhd/utils/oid.rs:202-230 | a plus sign or leading zeros before digits change nothing |
| Permissions.PartialCmp | bffhd/authorization/permissions.rs:160-186 | the part-by-part loop decides the order on texts: equal, or one continues the other after a dot |
| Permissions.PartialOrder | bffhd/authorization/permissions.rs:130-186 | Equal is string equality, the two directions agree, and the order is transitive |
| Permissions.AboveIsChain | bffhd/authorization/permissions.rs:130-186 | permissions above the same one are comparable: a tree |
| Permissions.Grants | bffhd/authorization/permissions.rs:198-228 | Children grants exactly what continues the path after a dot, Subtree exactly Base plus Children, and those two never overlap |
| Permissions.GrantsCompose | bffhd/authorization/permissions.rs:219-228 | grants compose down the tree |
| Permissions.ParseThenDisplay | bffhd/authorization/permissions.rs:256-282 | a string parses exactly when it is longer than two octets and its last two begin on a character boundary, and then displays unchanged |
| Permissions.DisplayThenParse | bffhd/authorization/permissions.rs:230-238 | exactly which rules parse back to themselves from their display |
| Permissions.DisplayKeepsGrants | bffhd/authorization/permissions.rs:230-282 | a Children or Subtree rule read back from its display grants the same permissions |
| Permissions.PermissionBuf.Push | bffhd/authorization/permissions.rs:63-76 | the longer path lies below the old one unless that was empty or ended in a dot |
| Permissions.IntoString | bffhd/authorization/permissions.rs:240-254 | what is stored for each kind of rule |
| Permissions.StoredReads | bffhd/authorization/permissions.rs:240-282 | every stored Children or Subtree rule reads back as a Children rule for the path without a dot at its end, except that the empty path and the single dot do not read back |
| Permissions.StoredRoundTrip | bffhd/authorization/permissions.rs:240-282 | a stored Subtree rule never reads back, a stored Children rule exactly when its path is not empty and does not end in a dot |
| Permissions.StoredChanges | bffhd/authorization/permissions.rs:240-282 | for every path that reads back: exactly which permissions the stored rule loses, and exactly which it gains |
| Permissions.StoredExactly | bffhd/authorization/permissions.rs:240-282 | storing widens a rule if and only if its path ends in a dot (or a Base rule looks like another kind), and narrows exactly the Subtree rules on other paths |
| Roles.TallyCorrect | bffhd/authorization/roles.rs:68-98 | on every graph, whenever the recursion with its seen set ends, it is true exactly with a reachable match, and leaves a closed set of roles without one |
| Roles.PermittedTally | bffhd/authorization/roles.rs:68-98 | the recursion itself, on every input on which it ends |
| Roles.IsPermitted | bffhd/authorization/roles.rs:100-110 | on every input on which it ends, cyclic graphs included: true exactly when some defined role reachable from the user's roles has a matching rule |
| Roles.TallyRole | bffhd/authorization/roles.rs:38-50 | the tally grows by reachable roles only and stays closed under parents |
| Roles.CollectPermRules | bffhd/authorization/roles.rs:52-66 | exactly the rules of the reachable roles, in whatever order the map gives them |
| Roles.PermittedByRules | bffhd/authorization/roles.rs:52-110 | the search and matching against the collected rules agree |
| Roles.RankGrounds | bffhd/authorization/roles.rs:68-98 | on an acyclic graph the rank of a role bounds the depth of its search |
| RoleCycles.EndlessIsCycle | bffhd/authorization/roles.rs:85-92 | the depth of the recursion is unbounded exactly when a walk from the role meets a role twice |
| RoleCycles.BoundedExactly | bffhd/authorization/roles.rs:38-66 | the depth collecting needs is bounded exactly when no cycle is reachable |
| RoleCycles.RankHasNoCycle | bffhd/authorization/roles.rs:68-98 | a graph with a rank has no cycle |
| RoleCycles.EndsExactly | bffhd/authorization/roles.rs:68-110 | for every list of roles and every permission: the search ends if and only if no role of the list is granted it or reaches a cycle, or the first that does leads, first parent by first parent, to a matching rule |
| RoleCycles.EndsWithoutCycle | bffhd/authorization/roles.rs:68-110 | without a reachable cycle every search ends, and for a permission that is not granted it ends only then |
| RoleCycles.OrderMatters | bffhd/authorization/roles.rs:85-92 | two graphs that differ in the order of two parents: one search ends, the other does not |
| Machine.HasPerm | bffhd/session/mod.rs:66-97 | a session may do something exactly when its user exists and a reachable role has a rule for it |
| Machine.Resource.constructor | bffhd/resources/mod.rs:36-62 | a new resource takes up the stored state or stores a free one, and signal and store agree |
| Machine.Resource.SetStatus | bffhd/resources/mod.rs:172-181 | the status changes, the previous user stays, signal and store agree |
| Machine.Resource.TryUpdate | bffhd/resources/mod.rs:183-236 | whenever the lookups of the session's user end, the state after the call is the one the update rules give; signal and store agree |
| Machine.Resource.GiveBack | bffhd/resources/mod.rs:238-248 | the user in whose use the machine is frees it and becomes its previous user; nobody else changes it |
| Machine.Resource.Use | bffhd/capnp/machine.rs:124-133 | `use_` is an update to use by the session's user |
| Machine.Resource.BuildInto | bffhd/capnp/machine.rs:42-79 | what is decided on the cached signal is true of the stored state |
| Machine.Resource.GetCurrentUser | bffhd/resources/mod.rs:139-152 | the current user is the one user for whom `is_owned_by` holds |
| Machine.PolicyWithoutManage | bffhd/resources/mod.rs:183-236 | without manage the decision tree is exactly: take for oneself with the write permission, or give up what is one's own |
| Machine.UpdateExactly | bffhd/resources/mod.rs:183-236 | for every session, exactly when an update is accepted, a manager's always, and the state then |
| Machine.ForceSets | bffhd/resources/mod.rs:250-252 | what a manager forces is the state afterwards |
| Machine.ChecksExactly | bffhd/session/mod.rs:82-97 | the write and manage checks are matches of the user's rules against the machine's own write and manage permissions |
| Machine.OthersLeaveIt | bffhd/resources/mod.rs:183-248 | without manage, someone else's machine is left alone |
| Machine.EnteringUse | bffhd/resources/mod.rs:183-236 | without manage, use begins only by the user's own request with the write permission, on a machine that is free or reserved by that user |
| Machine.LeavingUse | bffhd/resources/mod.rs:183-248 | without manage, use ends only by the user's own step, in Free or ToCheck |
| Machine.LockedForever | bffhd/resources/mod.rs:183-248 | over every run without manage, ToCheck, Blocked and Disabled are never left |
| Machine.KeptFromOthers | bffhd/resources/mod.rs:183-268 | over every run of others without manage, an owned machine keeps its state |
| Machine.Handover | bffhd/resources/mod.rs:183-248 | between use by one user and by another, the first user's own step made the machine free |
| Machine.UseWasPermitted | bffhd/resources/mod.rs:183-236 | every use in a run without manage goes back to the user's own permitted request, and has lasted since |
| Machine.PreviousIsLastReturn | bffhd/resources/mod.rs:172-248 | over every run, managers included, `previous` is the user of the last effective give-back, or else the initial value |
| Machine.OfferedUse | bffhd/capnp/machine.rs:42-55 | a session without manage is offered use exactly when using takes effect |
| Machine.OfferedGiveBack | bffhd/capnp/machine.rs:63-72 | giving back is offered exactly when it takes effect |
| CardServers.FabFireBin.Step | bffhd/authentication/fabfire_bin/server.rs:154-531 | each call of the raw server does what the exchange with the card prescribes, field by field, and answers accordingly |
| CardServers.FabFire.Step | bffhd/authentication/fabfire/server.rs:179-741 | the same for the JSON server, with its own first message, wrapping and ending |
| CardServers.TrimInfix | bffhd/authentication/fabfire_bin/server.rs:362-365 | the user name is the token without the NULs at its ends, and nothing else is cut |
| Login.Authentication.Step | bffhd/capnp/authenticationsystem.rs:99-180 | one call moves the exchange on or ends it, and returns at most the one session it opened |
| Login.Authentication.Abort | bffhd/capnp/authenticationsystem.rs:182-197 | the exchange is aborted |
| Login.CallMovesOn | bffhd/authentication/fabfire_bin/server.rs:160-467 | each of the first six calls goes on exactly when it brought what its step needs, and opens no session |
| Login.LastCall | bffhd/authentication/fabfire_bin/server.rs:468-530 | the seventh call ends the exchange, with a session exactly when the final verification passed and the user still exists |
| Login.SessionExactly | bffhd/capnp/authenticationsystem.rs:99-197 | over every run of either variant at most one session is opened, for the user whose token was read, if and only if the first seven calls were good |
| Login.SentExactly | bffhd/authentication/fabfire_bin/server.rs:160-449 | over every run of either variant, what was sent to the card is the script up to the first call that was not good: select the application, read files 1, 2 and 3, the challenge with key 1, the library's answer; wrapped as the variant does |
| Login.FinishedExactly | bffhd/capnp/authenticationsystem.rs:119-166 | the exchange is finished rather than aborted exactly after seven calls of which six were good and the last came to a conclusion |
| Login.SessionNeeds | bffhd/authentication/mod.rs:26-101 | a session needs the magic, the address of this space, a stored key for the token's user and the verification with that key |
| Login.UnwrapsHold | bffhd/authentication/fabfire_bin/server.rs:412-513 | the key and the drawn octets are there whenever a server unwraps them |
| Login.VariantsAgree | bffhd/authentication/fabfire/server.rs:179-741 | on the same card responses both variants take the same steps, send the card the same commands and open the same sessions |
| SpanStack.Stack.Push | runtime/console/src/stack.rs:31-39 | an entry is marked duplicate exactly when an earlier one has the same id, and true is returned exactly otherwise |
| SpanStack.Stack.Pop | runtime/console/src/stack.rs:41-53 | the last entry of the span leaves, the marks stay right, and true is returned exactly when the span was there and has now fully left |
| SpanStack.ListsFirstOccurrences | runtime/console/src/stack.rs:55-59 | `iter` lists each entered span once, in the order of first entry |

## Left out

- ProcTheorems.CountBound: the bound is 2^31 + 1 plus the calls that are between their last use of a reference and its decrement; without that term no bound holds, as ProcDefects.CountHasNoBound shows.
- ProcTheorems.SlotDiscipline: claims that the future is dropped at most once, not exactly once, because an idle proc is freed with its future in place.
- ProcTheorems.ReferenceCount: holds on the runs of `IsRun`; with the arms of handle cancel as written it fails on exactly the others, as ProcDefects.CodeCountsExactly says.
- Login.VariantsAgree: assumes equal addresses of the space, a first JSON message that is accepted, that what can be built can be serialized, and that the closing message, which only the JSON server has, is written; the JSON server has its address fixed in the code.
- Roles.CollectPermRules: asks for a bound on the depth, which RoleCycles.BoundedExactly shows to be the absence of a reachable cycle; collecting visits every role, so on a cycle it never returns.
- Oid.BoxRoundTrip: says nothing about what octets that are not minimal stand for; section 8.19.2 of ITU-T X.690 rules a leading 0x80 out.
- In `swap_awaiter` the replacement of the cell is one action even when two calls are inside, where the code races on the cell; the release and the wake that follows are one action. The increment of `clone_waker` and its overflow check are one step, and so is the call of the user's schedule closure.
- The optimistic first exchange in the handle's drop is the general branch of its loop on the word it expects.
- Memory orderings weaker than sequential consistency, spin backoff, panics inside destructors, and freeing the proc's memory while the schedule closure runs.
- The worker loop is a transition system over its checks rather than a loop in place, because other threads act between any two checks; the crossbeam queue and parker contracts are assumed.
- Supervision groups, the thread manager, load balancing and placement.
- LMDB, rkyv, serde and dhall: stored states and rules are values, serialization is the identity.
- TLS, MQTT, sockets, audit and key logs, tracing, and the building of Cap'n Proto results beyond which capabilities are set.
- AES, card commands, argon2, UTF-8 and JSON are uninterpreted functions; error codes of failed logins are not distinguished; the PLAIN mechanism is not modelled.
- The console aggregator, its visitors and attributes, and the process initiator's line scanner.
