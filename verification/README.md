# Verification of libdrainprof

libdrainprof tells an allocator which of its granules (arenas, epochs, slabs) still hold live
allocations when they are closed. This project models its core in Dafny and proves what the
public interface promises, and exactly where it stops holding.

Check it with `dafny verify dfyconfig.toml`.

## What is modelled

- `Hash`, `Probe`, `Counting`, `Rate`: the granule-id hash on 64-bit vectors; cyclic index arithmetic in 32
  bits; counting over sequences; the drainability rate as an exact rational.
- `SlotTable`: the production slot table, a class over an array of slots with the probing loops of
  the C code. Every method is proved against a function on the sequence of slots.
- `TableInvariant`, `TableHistory`: what each operation keeps, the exact effect of a close,
  refinement of a map over whole histories, last-in first-out runs.
- `Steps`, `StepsInvariant`, `StepsCounters`, `StepsHistory`, `StepsVerdicts`, `StepsResults`,
  `StepsRefinement`, `StepsLifo`, `StepsWitness`, `StepsIdZero`, `StepsAnswers`,
  `StepsProgress`, `StepsSolo`: the same table with its counters as a step system. Any number of
  threads, one atomic access a step, arbitrary interleaving. All atomics in the C code are
  sequentially consistent, so interleavings are the right model (section 7.17.3 of
  ISO/IEC 9899:2011). A weak compare-exchange may fail spuriously (section 7.17.7.4).
- `GranuleDiag`, `ReportBuffer`, `Summary`: a diagnostic granule with its growing record array and
  hinted free, the ring of pinning reports, the site summary with its two growing arrays.
- `DiagSlots`, `Profiler`: the diagnostic slot array, which owns granule objects, and the public
  interface over either storage, with all seven counters.
- `Ledger`, `ModeAgreement`, `Sweep`: a simple reference machine, a map from open granule to the
  multiset of its live allocation ids, and the proofs that both modes follow it.
- `RecordHistory`, `ReportFates`: what records and reports tell about the calls of a run, and what
  becomes of the reports.
- `LifoRuns`: last-in first-out use of the public interface, for which the modes agree without any
  condition on the table.
- `OutsideContract`: what the code does when the contract is broken, with inputs that show it.

## How the contract enters

The documentation asks for unique ids among open granules (include/drainprof.h:37-39), for opens
before registrations, and for quiescent closes (include/drainprof.h:221-224). In the step system
these are the conditions on beginning a call, and there are no others. They are not enough for the
code, so two of its steps carry a condition of their own, described below: the release of a slot
(`Steps.ReleaseSafe`) and the reading of an id in search of granule 0 (`Steps.ReadSafe`). In the sequential results they are the predicate
`Ledger.Respects`, and `ModeAgreement.CodesAgreeIff` shows that it is exactly what the two modes
need to agree. On runs whose records fit their arrays only its part about opens and deregistrations
is left to the caller (`Ledger.Orderly`, `Ledger.FitRunsRespect`).

A close frees its slot without a tombstone, while a lookup stops at the first free slot. A close can
therefore hide another open granule. `TableInvariant.CloseEffect` says exactly when, and histories
are restricted to chain-safe closes: closes that hide nothing. The condition cannot be weakened
(`TableHistory.UnsafeCloseBreaks`) and last-in first-out runs meet it (`TableHistory.LifoHistory`,
`LifoRuns.LifoIsChainSafe`).
In the step system the condition also protects openers that have already passed the slot, and it is
again exact (`StepsInvariant.ReleaseKeepsIff`). Concurrent runs that give slots up in reverse order of
their claims with no open in flight meet it (`StepsLifo.LifoExecutes`).

A slot that is being claimed or released shows the id 0. A thread in search of granule 0 that reads it
takes it for its own (src/slot_array.c:122-126, src/slot_array.c:133-135, src/slot_array.c:177-178).
`StepsIdZero.RepeatSeenIff` and `StepsIdZero.ForeignHitIff` say exactly when, executions exclude those
reads and nothing else, and calls for any other granule never meet the condition.

## Code and documentation

Where they differ the model follows the code.

- src/drainprof_internal.h:41 and docs/API.md give the production index as the id modulo the
  capacity, or ask for ids below the capacity; the code hashes the id and probes
  (src/slot_array.c:18-25, src/slot_array.c:41-42). Only the diagnostic table indexes by the id.
- docs/API.md says that opening an open granule returns -1. Production returns 0 and still counts an
  open granule (`OutsideContract.RepeatedOpenInflates`).
- include/drainprof.h:37-39 admits granule 0 like any other and test/test_diagnostic.c:148 opens it. Under
  interleaving its open can return 0 without a slot, and its registrations can be counted on another
  granule (`StepsIdZero.ZeroHappens`, `StepsIdZero.ForeignHitIff`). Calls one at a time have no such
  exception.
- A live count of UINT32_MAX is indistinguishable from the error value
  (`OutsideContract.CloseLeaksIff`, `OutsideContract.SurplusCloseLeaks`,
  `StepsWitness.LossHappens`, `TableHistory.CloseResultExact`).
- A site first pinned by granule UINT64_MAX is counted one granule short
  (`Summary.PinCountIsBlocks`, `Summary.SentinelOverlooked`).

## Model

| member | source | states |
|---|---|---|
| `Hash.XorShiftInvolution` | src/slot_array.c:18-25 | The shift-by-33 xor of the mix is its own inverse on every 64-bit value. |
| `Hash.MultiplyDivide` | src/slot_array.c:18-25 | Each odd multiplier of the mix is undone by an explicit inverse modulo 2^64, from either side. |
| `Hash.UnmixMix` | src/slot_array.c:18-25 | The 64-bit mix loses nothing: an explicit inverse gives back every id, so two ids collide only through the truncation. |
| `Hash.MixUnmix` | src/slot_array.c:18-25 | Every 64-bit value is the mix of some id, so the mix is a bijection. |
| `Hash.HashOfOne` | src/slot_array.c:18-25 | Known answer: the mix of id 1 is 0xb456bcfc34c2cb2c and its hash the low 32 bits. |
| `Probe.WalkMeetsEachIndexOnce` | src/slot_array.c:41-42 | A cyclic walk of `n` steps meets each index exactly once, at the step that is its distance from the start. |
| `Probe.Index32WalksIff` | src/slot_array.c:42 | The index expression `(slot_idx + probe) % capacity`, added in 32 bits, walks the table for every start if and only if the capacity is at most 2^31. |
| `Probe.ProbeIndex` | src/slot_array.c:42 | The 32-bit index expression computes the cyclic walk for capacities up to 2^31. |
| `SlotTable.CreateSlotArray` | src/slot_array.c:67-93 | No table for capacity 0; at every other 32-bit capacity a new table has every slot free with id 0 and count 0. |
| `SlotTable.ProbesWalk` | src/slot_array.c:41-42 | In a table of at most 2^31 slots the 32-bit index expression leads to the slot at probe depth `p`, so the order of probes is the probe path. |
| `SlotTable.SameHomeIff` | src/slot_array.c:37-38 | Two granules start their probes at the same slot if and only if their hashes differ by a multiple of the capacity. |
| `SlotTable.SlotArray.FindSlot` | src/slot_array.c:33-61 | At every capacity the loop returns the slot of the id unless a free slot comes first among its probes (`Find`). |
| `SlotTable.SlotArray.Open` | src/slot_array.c:107-144 | At every capacity, whole new table and code: the first probed slot that is free or has the id decides; 0 if the id is there, a claim if it is free, -1 without any. |
| `SlotTable.SlotArray.Alloc` | src/slot_array.c:187-199 | Adds one modulo 2^32 to the count of the found slot and nothing else; -1 and no change when nothing is found. |
| `SlotTable.SlotArray.Dealloc` | src/slot_array.c:201-213 | Subtracts one modulo 2^32 from the count of the found slot and nothing else; -1 and no change when nothing is found. |
| `SlotTable.SlotArray.Close` | src/slot_array.c:146-181 | Empties the found slot, with no tombstone and no shift, and returns its count; UINT32_MAX when nothing is found. |
| `SlotTable.SlotArray.Sweep` | src/drainprof.c:474-488 | Counts the occupied slots whose count is zero and those whose count is not. |
| `TableInvariant.FindIffReachable` | src/slot_array.c:41-60 | With ids stored once, a lookup returns a granule's slot exactly when no slot before it on its path is free, and nothing otherwise. |
| `TableInvariant.FindExact` | src/slot_array.c:33-61 | Under the invariant a lookup finds every open granule, in its slot, and no other. |
| `TableInvariant.OpenKeeps` | src/slot_array.c:115-143 | Open keeps the invariant, leaves the granule findable, and fails exactly when every slot holds another granule. |
| `TableInvariant.BumpKeeps` | src/slot_array.c:187-213 | Registering and deregistering keep the invariant. |
| `TableInvariant.CloseEffect` | src/slot_array.c:41-60 | Exact effect of a close: another open granule is still found, in its own slot, if and only if the freed slot is not strictly before it on its probe path. |
| `TableInvariant.CloseRemoves` | src/slot_array.c:176-178 | The closed granule itself is no longer found. |
| `TableInvariant.CloseKeepsIff` | src/slot_array.c:150-178 | The invariant survives a close if and only if the freed slot is strictly before no other open granule on that granule's path. |
| `TableInvariant.BothSidesOccur` | src/slot_array.c:41-60 | Granules 1 and 2 in a table of three slots, reached by two opens: closing 1 hides the open granule 2, closing 2 hides nothing. |
| `TableHistory.MapCountsSlots` | src/slot_array.c:107-144 | A refined map has as many granules as the table has occupied slots, so it is full exactly when the table is. |
| `TableHistory.RefineOpen` | src/slot_array.c:107-144 | Open refines the map: never a duplicate, 0 for an id that is open, -1 exactly when the map is full and the id is new. |
| `TableHistory.RefineBump` | src/slot_array.c:187-213 | Counting refines the map, modulo 2^32; a missing id gives -1 on both sides. |
| `TableHistory.RefineClose` | src/slot_array.c:146-181 | A chain-safe close removes the granule from the map and returns its count modulo 2^32; a missing id gives UINT32_MAX. |
| `TableHistory.RefineHistory` | src/slot_array.c:107-213 | Over every sequential history with chain-safe closes the table returns the codes of a map from id to live count and still refines it at the end. |
| `TableHistory.FreshRefines` | src/slot_array.c:83-90 | A fresh table refines the empty map. |
| `TableHistory.UnsafeCloseBreaks` | src/slot_array.c:150-178 | Chain safety is exactly what is needed: after closing an open granule the table refines the smaller map if and only if the close was chain-safe. |
| `TableHistory.CloseResultExact` | src/slot_array.c:153-155 | A close result is the true count and cannot be mistaken for the error value if and only if the count is in 0..2^32-2. |
| `TableHistory.PathHeldByElders` | src/slot_array.c:115-138 | In a last-in first-out run every slot on the probe path of any granule of the stack, before its own, was held below the stack or is held for a granule opened before it. |
| `TableHistory.LifoHistory` | src/slot_array.c:115-178 | Every history that closes in reverse order of opening is chain-safe, and each close restores the slot layout its matching open found. |
| `StepsInvariant.ReachableInv` | src/slot_array.c:31-213 | The invariant of the interleaved table (slots agree with their owners, no granule twice, no gap on any path, no call past its granule) holds at every state of every execution, for every granule id. |
| `StepsInvariant.ReleaseKeepsIff` | src/slot_array.c:176-178 | The concurrent invariant survives the release of a slot if and only if the slot is neither on the path of another granule nor already passed by an opener. |
| `StepsResults.ConcurrentOpens` | src/slot_array.c:107-144 | In every interleaving: claimed slots belong to distinct granules, every slot from a granule's home to its own is occupied, and a lookup finds every granule whose id is stored while other opens sit between claim and id store, except granule 0 if and only if such a slot comes before its own. |
| `StepsResults.StepEvents` | src/slot_array.c:31-61 | In every interleaving no open sees its id twice, no lookup misses its granule, and an open fails only when every slot is occupied; for granule 0 on reads of slots that are what they seem. |
| `StepsAnswers.OpenStepAnswers` | src/slot_array.c:107-144 | In every state of the invariant a step of an open is silent and the open goes on, or answers 0 with its granule open, or -1 with every slot occupied and none held for it; there is no other step or answer. |
| `StepsAnswers.SearchAnswers` | src/slot_array.c:33-61 | A step of a register, deregister or close in search leaves it searching for the same granule, or brings it to the fetch-add, fetch-sub or close of the granule's own slot. |
| `StepsAnswers.CountAnswers` | src/slot_array.c:196-197 | Once there, a register or deregister changes the count of its granule's own slot by one modulo 2^32, and nothing else. |
| `StepsAnswers.CloseAnswers` | src/slot_array.c:156-180 | Once there, a close passes through all its stages in order, on one slot and with one count; only a count of UINT32_MAX ends it after the release. |
| `StepsAnswers.OpenEnds` | src/slot_array.c:107-144 | In every execution an open that is over has left its granule open, or every slot occupied and none held for it. |
| `StepsAnswers.SearchEnds` | src/slot_array.c:33-61 | In every execution a search ends only at the slot of its granule, which is open. |
| `StepsProgress.StepsDown` | src/drainprof.c:137-277 | Every step of a call brings it closer to its end by a fixed measure, or is a failed compare-exchange on the peak; a lost claim moves on to the next probe. |
| `StepsProgress.CallsEnd` | src/drainprof.c:137-426 | In every execution, however the other threads are scheduled, a thread takes at most 2n + 7 steps on one call in a table of n slots, retries of the peak aside. |
| `StepsSolo.OpenAlone` | src/slot_array.c:107-144 | An open that runs without interference, from any state whatever, leaves the table of the sequential open and counts itself exactly when that returns 0, peak included: the step system and the sequential model are one program. |
| `StepsSolo.BumpAlone` | src/slot_array.c:187-213 | Likewise a register or deregister leaves the table of the sequential one. |
| `StepsSolo.CloseAlone` | src/drainprof.c:183-262 | Likewise a close leaves the table of the sequential close and moves the four counters by the count it read, or none of them if that is UINT32_MAX. |
| `StepsIdZero.RepeatSeenIff` | src/slot_array.c:122-126 | In any reachable state the next step of an open reports a repeated id if and only if it opens granule 0 and reads the id of a slot between its claim and the store of its id, or between the clearing of its id and its release. |
| `StepsIdZero.ForeignHitIff` | src/slot_array.c:52-54 | In any reachable state a register, deregister or close goes on to a slot that is not its own under the same condition and no other. |
| `StepsIdZero.ZeroHappens` | src/slot_array.c:133-136 | A run of two threads with distinct ids, one of them 0: the open of granule 0 returns 0 without a slot, and open_granules ends at 2 with one slot occupied. |
| `StepsRefinement.StepRefines` | src/slot_array.c:107-213 | Every step of every thread is one operation of the map from open granule to live count, or none: an open takes effect at its claim, a register or deregister at its fetch-add or fetch-sub, a close at its release, where it reports what the map answers. |
| `StepsRefinement.FullEvent` | src/slot_array.c:138-143 | An open that gives up does so when the map is full; that an open ends in no other way but with its granule open is `StepsAnswers.OpenStepAnswers`. |
| `StepsRefinement.Linearizes` | src/slot_array.c:107-213 | Every execution linearizes: the operations its steps perform, in order, lead the empty map to the map of its last state. That an open answered 0 has performed its operation is `StepsAnswers.OpenEnds`. |
| `StepsLifo.LifoExecutes` | src/slot_array.c:115-178 | Runs in which slots are given up in reverse order of their claims, no open is in flight when one is, and no call names granule 0, are executions: every release is safe and every read is of the slot it seems to be. |
| `StepsHistory.HistoryFaithful` | src/slot_array.c:187-213 | A slot's recorded registrations minus deregistrations start at zero with the claim and move exactly with the fetch-adds and fetch-subs that hit it. |
| `StepsHistory.SettledCount` | src/slot_array.c:187-213 | A settled slot's count is the completed registers minus the completed deregisters of its granule over the steps of the run since the slot was claimed, modulo 2^32. |
| `StepsHistory.CloseReports` | src/slot_array.c:146-181 | A close returns exactly that number, for its own granule, and gives up the occupancy flag last, on a slot already cleared. |
| `StepsHistory.NetTells` | src/slot_array.c:187-213 | The history fields of a held slot are the completions counted over the steps of the run. |
| `StepsHistory.LeakedTells` | src/drainprof.c:198-200 | No close has been lost to the error value if and only if no step of the run released a slot whose registers minus deregisters read UINT32_MAX. |
| `StepsResults.CountersConserved` | src/drainprof.c:163-178 | At every state: total_closes is drainable plus pinned plus the closers between the increments; open_granules is the occupied slots plus closers before their decrement minus openers before their increment plus closes lost to the error value. |
| `StepsVerdicts.VerdictsCounted` | src/drainprof.c:202-262 | At every state drainable_closes plus the closers on their way to it is the number of releases of slots whose registers and deregisters cancel, counted over the run; likewise pinned_closes for the others, less the closes lost to the error value. |
| `StepsVerdicts.QuiescentVerdicts` | src/drainprof.c:258-262 | At quiescence both verdict counters are exactly those numbers. |
| `StepsResults.OpenNeverWraps` | src/drainprof.c:255 | The decrement of open_granules never wraps in any interleaving. |
| `StepsResults.QuiescentCounters` | src/drainprof.c:441-452 | At quiescence total_closes is exact and the drainability rate lies in [0,1]; open_granules is the number of occupied slots if and only if no step of the run released a slot whose registers minus deregisters read UINT32_MAX. |
| `StepsWitness.LossHappens` | src/drainprof.c:198-200 | An execution of 19 steps that loses a close: open, one surplus deregister, close. All is quiet and no slot occupied, yet open_granules is 1. |
| `StepsResults.QuiescentSweep` | src/drainprof.c:473-488 | At quiescence after any interleaving the sweep total is open_granules less the lost closes, and its drainable count is the number of open granules whose registers and deregisters cancel. |
| `StepsResults.HighestIsMaximum` | src/drainprof.c:168 | The recorded maximum is the largest value open_granules has held. |
| `StepsResults.PeakNeverDecreases` | src/drainprof.c:170-178 | The peak never decreases in any interleaving of any number of threads. |
| `StepsResults.PeakIsHighWater` | src/drainprof.c:170-178 | The peak never exceeds the largest value open_granules has held, and equals it whenever no opener is between its fetch-add and the end of its loop. |
| `StepsResults.RetryShrinks` | src/drainprof.c:171-178 | Without spurious failures each retry of the compare-exchange loop strictly shrinks the gap between the new value and the peak, and keeps it positive. |
| `GranuleDiag.Granule.constructor` | src/diagnostic.c:116-146 | A new granule has no records, room for 64, and its hint at 0. |
| `GranuleDiag.Granule.AddAlloc` | src/diagnostic.c:158-211 | Appends exactly one live record with the given fields, through every doubling of the array; the cached count stays exact and the hint valid. |
| `GranuleDiag.Granule.FindLive` | src/diagnostic.c:224-230 | The cyclic loop finds the first live record with the id from the hint on, with no 32-bit wrap up to 2^31 records. |
| `GranuleDiag.Granule.MarkFreed` | src/diagnostic.c:213-242 | Whole new state and code: the first live record with the id from the hint on is freed and the hint moves behind it, or nothing changes. |
| `GranuleDiag.Granule.FillPins` | src/diagnostic.c:283-294 | The fill loop writes exactly the live records, in registration order, into an array sized from the cached count, without overrun; what an entry holds is `GranuleDiag.ReportExact`. |
| `GranuleDiag.Granule.GenerateReport` | src/diagnostic.c:244-299 | No report when nothing is live, else the report of the live records, which `GranuleDiag.ReportExact` states field by field. |
| `GranuleDiag.SearchExact` | src/diagnostic.c:227-230 | The hinted cyclic scan finds a record if and only if some live record has the id, whatever the hint. |
| `GranuleDiag.FreeExact` | src/diagnostic.c:227-241 | A free succeeds if and only if a live record has the id, takes one occurrence of the id out of the live ids, and leaves a valid hint. |
| `GranuleDiag.FlipsExactlyOne` | src/diagnostic.c:230-236 | A successful free changes exactly one record, the first live one with the id on the cyclic walk from the hint, and only its freed flag and time; the new hint is the place behind it. A failed free changes nothing, the hint included. |
| `GranuleDiag.HintIrrelevantIff` | src/diagnostic.c:224-230 | Any two hints lead to the same record if and only if at most one live record has the id. |
| `GranuleDiag.LiveIdsSize` | src/diagnostic.c:206 | The live count is the number of live ids with repetitions. |
| `GranuleDiag.ReportExact` | src/diagnostic.c:268-294 | Pinned plus drained is total, and the entries are the live records, each once, in registration order, with the id, site, time and size of the record and lifetime -1. |
| `GranuleDiag.PinIdsAreLive` | src/diagnostic.c:283-294 | The report names each live allocation as often as it is live. |
| `ReportBuffer.PushRing` | src/diagnostic.c:68-81 | Both cases of a push keep head at (tail + count) mod capacity and exactly the slots of the window occupied, and the window becomes the bounded FIFO's. |
| `ReportBuffer.Buffer.constructor` | src/diagnostic.c:17-41 | A new ring is empty and valid, at every capacity. |
| `ReportBuffer.Buffer.Push` | src/diagnostic.c:61-84 | Refines a bounded FIFO: a full ring drops its oldest report, which is freed once; a NULL report changes nothing. |
| `ReportBuffer.Buffer.Drain` | src/diagnostic.c:86-110 | At every capacity hands out the oldest min(count, max) reports in order, place by place, leaves the rest of the output and of the buffer alone, and clears the slots. |
| `ReportBuffer.Buffer.Destroy` | src/diagnostic.c:43-59 | Frees each report still buffered exactly once. |
| `ReportBuffer.RunAccounts` | src/diagnostic.c:61-110 | Over every run the reports that left, followed by those still buffered, are the reports pushed, each exactly once and in push order. |
| `ReportBuffer.RunThenDestroy` | src/diagnostic.c:43-110 | Over every run from an empty ring that ends with destroy, the reports delivered, dropped or freed are the reports pushed, each exactly once and in push order. |
| `ReportBuffer.PushesCounted` | src/diagnostic.c:61-110 | Pushes are delivered plus dropped plus buffered. |
| `ReportBuffer.ApplyFates` | src/diagnostic.c:61-110 | A push drops one report exactly when the ring is full and delivers none; a drain delivers min(count, max) and drops none. |
| `ReportBuffer.DropsBeyondRoom` | src/diagnostic.c:70-75 | Without drains a ring drops exactly the reports it has no room for. |
| `ReportBuffer.DrainsDeliverAll` | src/diagnostic.c:86-110 | Drains of at least one report each, as many as there are reports, empty the ring and deliver every report, oldest first. |
| `ReportBuffer.DrainWithRoom` | src/diagnostic.c:97 | One drain with room for all buffered reports empties the ring. |
| `Summary.FindOrCreateSite` | src/diagnostic.c:447-483 | Returns the index of the site's entry, adding one to an array that doubles when full; no other entry changes. |
| `Summary.GrowTracking` | src/diagnostic.c:553-570 | The tracking array becomes at least as long as the sites array, old places kept, new places at the sentinel. |
| `Summary.Enter` | src/diagnostic.c:540-573 | After both reallocations the arrays still hold the aggregate, unseen sites are at the sentinel, and the index is valid in both. |
| `Summary.Compute` | src/diagnostic.c:485-599 | The nested loops over ring and reports compute `Summarize` of the buffered reports, without consuming them. |
| `Summary.AbsorbAllExact` | src/diagnostic.c:536-585 | Entries are unique by file and line, cover exactly the sites that occur, and each has the count, bytes, granule changes and last granule of its records. |
| `Summary.SummaryCovers` | src/diagnostic.c:447-483 | The summary has an entry for a file and line exactly when some record of some report names both, and never two entries for the same. |
| `Summary.SummaryExact` | src/diagnostic.c:575-577 | Each entry's allocs and bytes are the count and the sum over all buffered records of its site, as the fields hold them. |
| `Summary.SummaryTotal` | src/diagnostic.c:575-578 | The entry counts add up to total_pinning_allocs modulo 2^32, and to the number of records exactly below 2^32. |
| `Summary.EveryReportAnalyzed` | src/diagnostic.c:533 | reports_analyzed is the number of buffered reports, exactly below 2^32. |
| `Summary.ChangesByReport` | src/diagnostic.c:580-584 | Several records of a site in one report count like one: the scan by record sees as many changes of granule as the scan by report. |
| `Summary.PinCountIsBlocks` | src/diagnostic.c:580-584 | A site's pinning_count is the number of maximal blocks of equal granule id among the reports that contain it if and only if the first of them is not for granule UINT64_MAX; for that granule it is one short. |
| `Summary.PinCountBounds` | src/diagnostic.c:580-584 | pinning_count lies between the distinct granules and the reports for the site, and equals both when no granule repeats. |
| `Summary.SentinelOverlooked` | src/diagnostic.c:510-522 | One report for granule UINT64_MAX with one record: the site is listed with one allocation and pinning_count 0. |
| `Ledger.LiveIsHistory` | include/drainprof.h:236-284 | On a run that respects the contract the live ids of an open granule are those registered since its open less those deregistered. |
| `Ledger.FitRunsRespect` | src/diagnostic.c:173-184 | On runs that give no granule more than 2^31 registrations between open and close, which is what the record array can hold, every count is countable and the contract is about opens and deregistrations only. |
| `Ledger.CloseVerdict` | include/drainprof.h:218-224 | A close returns 1 exactly when every registered allocation was deregistered beforehand, 0 when one was not, -1 when the granule is not open. |
| `Ledger.WholeRun` | src/drainprof.c:254-262 | drainable_closes, pinned_closes and total_closes count exactly the balanced closes, the unbalanced ones and both; open_granules counts the open granules. |
| `Ledger.PeakIsHighest` | src/drainprof.c:168-178 | In a sequential run the peak is the largest number of granules ever open at once. |
| `Ledger.DiagIndexIff` | src/diagnostic.c:353 | Two granules have the same diagnostic slot if and only if their 64-bit ids differ by a multiple of the capacity. |
| `Ledger.SmallIdsApart` | src/diagnostic.c:353 | Two granules with ids below the capacity never have the same slot. |
| `Ledger.CallsCounted` | src/drainprof.c:293-294 | In the ledger total_allocs and total_deallocs are the numbers of register and deregister calls, failing ones included. |
| `DiagSlots.DiagArray.Open` | src/diagnostic.c:344-370 | Puts a new granule into slot `id % capacity` if that is free; a slot in use refuses every id with -1. No other granule changes. Which ids clash is `ModeAgreement.DiagnosticOpenIff`. |
| `DiagSlots.DiagArray.Get` | src/diagnostic.c:372-392 | Returns the granule only from the slot of its id (`Ledger.DiagIndexIff`) and only if the id matches. |
| `DiagSlots.DiagArray.Close` | src/diagnostic.c:394-427 | Frees the slot of the id (`Ledger.DiagIndexIff`) and hands the granule's state out unchanged; -1 and no change when the granule is not there. |
| `DiagSlots.DiagArray.Register` | src/drainprof.c:305-326 | Adds one record to the named granule and leaves every other granule as it is; -1 when it is not open. |
| `DiagSlots.DiagArray.Deregister` | src/drainprof.c:407-422 | Frees one record of the named granule and leaves every other granule as it is; -1 when the granule or the record is missing. |
| `DiagSlots.DiagArray.Sweep` | src/drainprof.c:490-504 | At every capacity counts the granules with cached count zero and those with another, which by the invariant are those without and with live records. |
| `Profiler.Create` | src/drainprof.c:37-108 | No profiler for the unimplemented storage or a production table without slots; an empty one for every supported configuration, with a ring exactly when diagnostic without callback; either for a configuration that allocates an array of size 0. |
| `Profiler.Drainprof.GranuleOpen` | src/drainprof.c:137-181 | Whole new state and code in both modes: open and peak counters move only on success. |
| `Profiler.Drainprof.GranuleClose` | src/drainprof.c:183-277 | Whole new state and code in both modes: verdict from the live count, one report for a pinned diagnostic granule, counters unchanged on error. |
| `Profiler.Drainprof.HandleReport` | src/drainprof.c:219-238 | The report of a pinned granule goes to the ring if there is one and else to the callback, exactly once. |
| `Profiler.Drainprof.AllocRegisterLocated` | src/drainprof.c:283-385 | Whole new state and code in both modes: total_allocs counts the call even when it fails. |
| `Profiler.Drainprof.AllocDeregister` | src/drainprof.c:387-426 | Whole new state and code in both modes: total_deallocs counts the call even when it fails. |
| `Profiler.Drainprof.TakeSnapshot` | src/drainprof.c:432-453 | The counters, and a rate that times total_closes is drainable_closes, 0 before the first close. |
| `Profiler.Drainprof.Sweep` | src/drainprof.c:455-515 | Persistent counters kept; closes replaced by what the open granules are now, and the rate by the drainable share of them. |
| `Profiler.Drainprof.DrainReports` | src/drainprof.c:543-557 | Outside buffered diagnostic mode 0, and the output array is left as it is; else the oldest min(buffered, max) reports in order, the rest of the array left as it is. |
| `ModeAgreement.Follows` | src/drainprof.c:137-426 | One call that respects the contract: a profiler of either mode moves with the ledger of live ids, with its code and its counters. |
| `ModeAgreement.FollowsRun` | src/drainprof.c:137-426 | Whole runs: slot counts (production) or live records (diagnostic) show the ledger of the run. |
| `ModeAgreement.CodesAgreeIff` | src/drainprof.c:137-426 | From matching states the two modes return the same code if and only if the call respects the contract: an open names a new id with room in both tables or neither, a deregistration names a live allocation, a close has a count that 32 bits do not disguise. |
| `ModeAgreement.ModesAgree` | test/test_diagnostic.c:132-195 | Mode agreement: on every run that respects the contract, with chain-safe closes in production mode, both modes return the same codes and have equal counters after every call. |
| `ModeAgreement.NewProfilersShow` | src/drainprof.c:37-108 | New profilers of both modes match the empty ledger. |
| `ModeAgreement.FitRunsMayBeServed` | src/drainprof.c:283-426 | On orderly runs whose records fit, every registration and deregistration meets the precondition of its method. |
| `ModeAgreement.RunCounters` | src/drainprof.c:183-262 | Whole-run accounting in either mode: drainable closes are those whose every registered allocation was deregistered beforehand, pinned the others, open and peak exact. |
| `ModeAgreement.RunRate` | src/drainprof.c:449-452 | In either mode the rate after a run is the share of the closes whose every registered allocation was deregistered beforehand, 1 exactly when there are closes and none is pinned, 0 exactly when none is drainable. |
| `ModeAgreement.EveryCallCounted` | src/drainprof.c:293-294 | On every run in either mode, whether or not it respects the contract, total_allocs and total_deallocs are the numbers of register and deregister calls modulo 2^64, failing ones included. |
| `ModeAgreement.DiagnosticOpenIff` | src/diagnostic.c:353-360 | A diagnostic open returns 0 if and only if no open granule's 64-bit id is congruent to the new one modulo the capacity, and -1 otherwise. |
| `ModeAgreement.SmallIdsOpen` | src/diagnostic.c:353-360 | While all ids are below the capacity, every open of a granule that is not open succeeds in diagnostic mode. |
| `ModeAgreement.ReportNamesLeaks` | src/drainprof.c:222-241 | The newest report in ring or callback after a pinned close is for that granule and names exactly the allocations registered since the open and not deregistered, with repetitions. |
| `ModeAgreement.PinnedReports` | src/drainprof.c:215-262 | On every diagnostic run pinned_closes is the reports delivered plus dropped plus still buffered, or, with a callback, the reports passed to it. |
| `RecordHistory.RecordsTellCalls` | src/drainprof.c:316-381 | On every run, whether or not it respects the contract, record k of an open granule holds id, granule, size, file, line and time of the k-th registration that named it since its open; a freed record also the time of a deregistration of its id; the granule holds the time of that open. |
| `RecordHistory.ReportTellsCalls` | src/diagnostic.c:268-294 | On every run the newest report after a pinned close has the times of the open and the close, counts the registrations since that open, and each entry holds id, size, file, line and time of one of them, in order and none twice. |
| `RecordHistory.HistoryIsRegistered` | src/drainprof.c:305-381 | On runs that respect the contract these registrations have the ids registered since the last open call, so with `ReportNamesLeaks` the entries are those of the leaked allocations. |
| `ReportFates.RingHoldsConfigured` | src/drainprof.c:90-94 | On every run of a new profiler with a ring: reports delivered are what the drains returned, all others of pinned closes are dropped or buffered, the first max_buffered_reports drop nothing, and without deliveries exactly those beyond that number are dropped. |
| `ReportFates.DrainsEmptyRing` | src/drainprof.c:543-557 | Drains of at least one report each, as many as there are buffered reports, empty the ring of a profiler without dropping. |
| `LifoRuns.LifoIsChainSafe` | src/slot_array.c:115-178 | Every run of calls that respects the contract and closes in reverse order of opening is chain-safe; the order of the slots' claims is the stack of opens. |
| `LifoRuns.LifoModesAgree` | test/test_diagnostic.c:132-195 | New profilers of the two modes agree on every orderly last-in first-out run whose records fit, all three conditions being on the calls alone. |
| `OutsideContract.ClashWitness` | src/diagnostic.c:353-360 | Granules 1 and 4 at capacity 3: the second open succeeds in production mode and fails in diagnostic mode. |
| `OutsideContract.RepeatedOpenInflates` | src/slot_array.c:123-126 | A repeated production open returns 0, changes no slot, and still counts one open granule more. |
| `OutsideContract.OpenCountsIff` | src/drainprof.c:163-168 | After a successful production open, open_granules counts the occupied slots if and only if the id was not open before. |
| `OutsideContract.CloseLeaksIff` | src/drainprof.c:198-200 | For every history of registrations and deregistrations: a production close of an open granule frees the slot, yet returns -1 and counts nothing, if and only if the count modulo 2^32 is UINT32_MAX. |
| `OutsideContract.SurplusCloseLeaks` | src/slot_array.c:201-213 | A failing run, open, one surplus deregistration, close: the close returns -1 and open_granules stays 1 with no granule open. |
| `Sweep.SweepAgrees` | src/drainprof.c:455-515 | Sweep agrees with close in either mode: its drainable count is the number of open granules whose close would return 1 now, its total is the number of open granules, and its rate the share of the one in the other. |
| `Sweep.SweepTotal` | src/drainprof.c:455-515 | After a run that respects the contract the sweep total equals open_granules, in either mode. |

## Left out

- Clocks: readings are parameters of the calls that take them. Standard error output, verbose logging and periodic logging are not modelled.
- Failure of malloc, calloc and realloc: allocation succeeds.
- NULL arguments: references are non-null, except the report that a push accepts.
- Mutexes: each mutex-guarded diagnostic function is one atomic step, so only production mode is modelled under interleaving.
- The diagnostic claim (compare-exchange on `occupied`, then the store of `diag`) is one step for the same reason.
- HASH_MAP storage: an unimplemented stub; `Profiler.Create` returns no profiler for it.
- `drainprof_reset`: excluded from runs; diagnostic reset is declared unimplemented (src/drainprof.c:535-536).
- The user callback: an opaque consumer that borrows the report; the model records which reports it was given.
- Floating point: the drainability rate and the lifetime field are exact reals.
- A consistent concurrent snapshot: the fields are read one by one, so the statement is for quiescent states; `TakeSnapshot` reads them at once.
- StepsResults.CountersConserved: 64-bit wrap of the totals is not modelled under interleaving, except for the decrement of open_granules; the sequential profiler wraps all counters.
- The counters total_allocs and total_deallocs are not part of the step system, where they would be two more independent increments.
- The peak update of a sequential open is one comparison and assignment; the compare-exchange loop is in the step system.
- TableInvariant.FindExact: the invariant, and all that rests on it, is for tables of at most 2^31 slots. Above, the 32-bit probe skips slots (`Probe.Index32WalksIff`) and only the methods of `SlotArray` and `Drainprof` are modelled, each call on its own.
- ReportBuffer.Buffer.Push: a push into a ring without slots divides by zero and is not modelled.
- ReportBuffer.Buffer.Destroy: in a ring of more than 2^31 slots the 32-bit sum in the index can wrap; only states in which it does not are modelled, here and in `Summary.Compute`.
- DiagSlots.DiagArray.Open: a diagnostic table without slots divides by zero in every operation but creation and sweep; these are not modelled.
- Profiler.Create: that the allocation of an array of size 0 may fail is modelled as a free choice; what an object with such an array then does is covered by the two lines above.
- GranuleDiag.Granule.AddAlloc: does not model the record after 2^31, for which doubling the 32-bit capacity wraps to a reallocation of size 0, whose effect the C standard leaves open; likewise `DiagSlots.DiagArray.Register` and `Profiler.Drainprof.AllocRegisterLocated`.
- Summary.FindOrCreateSite: does not model more than 2^31 entries, for the same reason.
- Summary.Compute: at most 2^31-1 distinct sites, for the same reason; reports have as many entries as they count, which `GranuleDiag.ReportExact` provides; its NULL results for other modes are not modelled.
- Reports are values: that a report is one heap object, and that freeing it twice would be an error, is modelled by the record of what became of it (`gone`).
- The size of a request and the site of an allocation are unbounded numbers; a file name is its address, as the code compares it.
- `src/counters.c`, benchmarks, examples, the Redis patch and the demo: no property beyond those above.
