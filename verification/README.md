# SVS extension: verified model of its resource and replication bookkeeping

A Dafny model of the state-keeping core of a PostgreSQL extension that serves SVS (Vamana)
vector indexes from per-database background workers, with proofs of what that core promises.
`dafny verify dfyconfig.toml` checks everything.

Six parts, each a specification over values, the in-place algorithm refining it, and theorems
about whole inputs, histories or runs:

1. **CPU threads** (`CpuShares`, `CpuFairness`, `CpuRounding`, `CpuStarvation`, `CpuApportion`,
   `CpuFloors`, `CpuBudget`, `CpuCeilings`, `CpuPromises`, `CpuGrants`). `CpuShares.Grant` defines
   what a claim is owed by weighted water-filling with largest-remainder rounding.
   `ApportionRemainder` is the compacting, sorting loop over 32- and 64-bit integers, proved to pay
   exactly that. Fairness, priority, guaranteed shares, conservation, who is rounded up, order
   independence and who can starve are proved of it; `CpuBudget`, `CpuCeilings` and `CpuPromises`
   restate them for the grants `ComputeCpuGrants` returns, in terms of the catalog rows and the
   configuration alone.
2. **Memory ledger** (`MemoryLedger`, `MemoryAnswers`, `MemoryInvariants`, `MemoryGuards`,
   `MemoryAuthority`, `MemoryRuns`, `MemoryInserts`, `MemoryCredits`, `MemoryBudgets`). The ledger
   is specified with no running totals at all: what is committed is the sum over the records that
   commit it. The classes keep the source's counters and roll-ups and are proved to agree with
   those sums over every run, exactly as long as callers respect four guards the code does not
   check. When each call is granted, refused or an error, what a reap or a drop removes, rebuild
   rollback, raw-size tracking, the insert slots, the exact life of a credit and exactly when a
   budget is exceeded follow.
3. **Savepoint-tagged arrays, undo and index counts** (`PendingArray`, `UndoBatch`, `UndoRuns`,
   `ClippedRuns`, `UndoLog`, `UndoTransactions`, `IndexCounts`, `IndexCountRuns`). The flat
   retagged array refines a stack of frames; over every tree of savepoints the undo log submits
   each doomed insert exactly once while the worker is there, and never twice or wrongly
   otherwise, down to the deletes the worker receives, and a commit moves the live-index counters
   by exactly the surviving index changes.
4. **Launcher and worker scheduling** (`Launcher`, `RestartRuns`, `LauncherLoop`, `LauncherLaws`,
   `Orphans`, `CatchUp`). At most one unstopped worker per database over every run, exactly which
   workers a cycle signals, restart convergence in at most two respawns, an exact account of orphan
   release over histories, and starvation freedom of the catch-up round robin.
5. **TID maps and replay** (`TidMaps`, `TidCache`). Mutually inverse maps, ids never reused, and
   convergence of replay from an older confirmed point, through a save and a reload.
6. **Parked slots** (`SlotSet`). Distinct smallest-free labels and exact resizing over any
   sequence of resizes and deaths.

`Seqs` and `Common` hold the sums, filters, permutations, sorting and small types the parts share.

How the source is represented:

- Each locked section is one atomic step. Clocks, handle statuses, process liveness, worker
  replies, heap fetches and graph-library results are parameters, quantified over in the theorems.
- Oids, pids and subtransaction ids are naturals with 0 as the invalid one. CPU arithmetic uses
  the source's 32- and 64-bit widths; the live-index counter and the resident generation wrap at
  2^32; byte counts, TID map indexes and timestamps are unbounded.
- The fixed tables of a control block are sequences of constant length; a freed record is cleared
  whole, where the source clears its relid and overwrites the rest on reuse.
- The grant fields that the apportionment updates by address are an array of cells, with a
  ghost count of the writes to each.
- `qsort` is any sorted permutation; under the two strict orders that is a single result.
- Where code and comments disagree the code is followed: the header comment at
  src/svs_cpu_budget.c:27 says a lower-weight claim is never driven to zero by a larger demand.
  Both kinds of claim can be (`CpuStarvation.UnweightedCanStarve`,
  `CpuStarvation.WeightedCanStarve`), and so can a database with a floor within the configured
  ranges (`CpuPromises.SearchCanStarve`). `CpuStarvation.UnweightedServed` says exactly when a
  weight-0 claim gets a thread, `CpuStarvation.WeightedServed` when a weighted one is sure to.
- Other properties that do not hold unconditionally carry their exact condition and a witness:
  `MemoryAuthority.Authority.Perform` with `MemoryGuards.GuardsCanFail`;
  `MemoryCredits.CreditAppliesExactly` with `MemoryCredits.WrappedCreditApplies`;
  `MemoryBudgets.StaysWithinExactly` with `MemoryBudgets.MeasurementCanExceed`;
  `MemoryBudgets.BudgetsFitExactly` with `MemoryBudgets.RestoreCanExceed`;
  `UndoRuns.UndoIsCompleteExactly` with `UndoRuns.MissedAbortIsLost`; `UndoBatch.TrackedAll` with
  `UndoBatch.TrackedMissesSixtyFifth`, which takes a transaction that wrote more indexes than a
  database holds resident at once, and so one in which some were unloaded meanwhile;
  `TidMaps.LoadIsInverse` with `TidMaps.RepeatedTidBreaksLoad`, a map the code itself never
  saves (`TidMaps.RunKeeps`, `TidMaps.InverseInjective`) but a damaged file could hold.

## Model

| member | source | states |
|---|---|---|
| CpuShares.FractionsMakeLeftover | src/svs_cpu_budget.c:308-320 | the rounding fractions of a pass add up to exactly the leftover, in units of the denominator |
| CpuShares.LeftoverBelowFractions | src/svs_cpu_budget.c:308-320 | the leftover is 0 or strictly smaller than the number of claims with a nonzero fraction |
| CpuShares.LeftoverGoesToFractions | src/svs_cpu_budget.c:320-330 | a leftover thread only ever goes to a claim whose exact share was not whole |
| CpuShares.RanksBelow | src/svs_cpu_budget.c:231-245 | the leftover order is a strict total order on distinct claims: exactly n of them rank below n |
| CpuShares.SettleStep | src/svs_cpu_budget.c:284-306 | dropping the claims that fit in their share leaves a smaller contended problem in which every remaining claim's share has not shrunk |
| CpuFairness.GrantBounds | src/svs_cpu_budget.c:255-334 | every claim gets between nothing and its ask |
| CpuFairness.Conservation | src/svs_cpu_budget.c:255-334 | the grants add up to the smaller of the remainder and the total ask, and to 0 when nothing is left |
| CpuFairness.PositiveLevel | src/svs_cpu_budget.c:282-330 | one water level explains every weighted grant, and the level is at least the remainder over the total weight |
| CpuFairness.Fairness | src/svs_cpu_budget.c:255-334 | weighted max-min fairness to within one thread: if i is short of its ask then (g_j - 1) w_i < (g_i + 1) w_j for every weighted j |
| CpuFairness.FairnessUnweighted | src/svs_cpu_budget.c:255-334 | among weight-0 claims, nobody is more than one thread ahead of one that is short |
| CpuFairness.GuaranteedShare | src/svs_cpu_budget.c:282-330 | each weighted claim gets at least the smaller of its ask and its rounded-down proportional share of the initial remainder |
| CpuFairness.GuaranteedEqualShare | src/svs_cpu_budget.c:282-330 | when no claim has a weight, each gets at least the smaller of its ask and an equal rounded-down share |
| CpuFairness.Priority | src/svs_cpu_budget.c:282-330 | a weight-0 claim gets a thread only if every weighted claim got its whole ask |
| CpuFairness.OrderIndependence | src/svs_cpu_budget.c:231-245 | permuting the claims does not change what any claim gets |
| CpuRounding.RoundedUpOrDown | src/svs_cpu_budget.c:308-330 | in a pass in which no share covers its ask, every claim gets the whole part of its exact share or one thread more |
| CpuRounding.LargestRemainder | src/svs_cpu_budget.c:231-245 | whoever is rounded up has a larger fraction of a thread than whoever is rounded down, or as large a one and the larger weight, or equal ones of both and the lower database and requesting process |
| CpuRounding.LastPass | src/svs_cpu_budget.c:282-330 | every contended sharing comes down to such a pass, in which those left get what they get in all, while all others have their whole ask |
| CpuStarvation.UnweightedServed | src/svs_cpu_budget.c:282-330 | a weight-0 claim gets a thread if and only if the remainder, less the whole ask of every weighted claim, exceeds the number of weight-0 claims before it by database and process |
| CpuStarvation.WeightedServed | src/svs_cpu_budget.c:282-330 | a weighted claim gets a thread whenever its exact proportional share of the remainder is at least one |
| CpuStarvation.UnweightedCanStarve | src/svs_cpu_budget.c:22-28 | however large the remainder, one weighted claim that asks for all of it leaves a weight-0 claim with nothing |
| CpuStarvation.WeightedCanStarve | src/svs_cpu_budget.c:22-28 | a weighted claim can get nothing too, however large the remainder r: any whose weight is 2r times smaller than that of a claim asking for all of it |
| CpuStarvation.ScarceWhenNoneSettles | src/svs_cpu_budget.c:284-306 | if no claim fits in its share, the remainder does not cover the weighted asks |
| CpuStarvation.EqualSharesServe | src/svs_cpu_budget.c:282-330 | with no weights, a claim gets a thread if and only if the remainder exceeds the number of claims before it |
| CpuApportion.Totals | src/svs_cpu_budget.c:262-273 | the 64-bit accumulators hold the exact totals, for any mix of 32-bit asks and weights |
| CpuApportion.ShareOf | src/svs_cpu_budget.c:286-318 | the cast share fits 32 bits, never exceeds the remainder, and share and fraction are the exact quotient and remainder |
| CpuApportion.SettlePass | src/svs_cpu_budget.c:284-299 | in-place compaction keeps exactly the unsettled claims in order, pays exactly the settled ones, and touches no other cell |
| CpuApportion.FractionPass | src/svs_cpu_budget.c:308-320 | every survivor carries its fraction, and the distributed total is the sum of the shares |
| CpuApportion.SortPass | src/svs_cpu_budget.c:308-322 | after the sort each claim stands at its rank in the leftover order |
| CpuApportion.SortedByRank | src/svs_cpu_budget.c:231-245 | sorting under the comparator is a permutation that puts each claim at the position the order gives it |
| CpuApportion.PayPass | src/svs_cpu_budget.c:324-329 | each surviving claim's cell is written once, with its share plus one leftover thread when it ranks below the leftover |
| CpuApportion.RoundPass | src/svs_cpu_budget.c:308-332 | the final pass leaves every surviving claim with its largest-remainder share |
| CpuApportion.ContendedPass | src/svs_cpu_budget.c:282-333 | one pass either finishes with every claim paid what the specification grants it, or strictly shrinks the active set and stays on course |
| CpuApportion.ApportionPass | src/svs_cpu_budget.c:260-333 | the same for the uncontended pass, in which everyone is paid the ask |
| CpuApportion.ApportionRemainder | src/svs_cpu_budget.c:255-334 | the in-place loop pays every claim exactly its specified grant, in at most as many passes as claims, writing each cell at most once and no foreign cell at all |
| CpuFloors.CutsFormPrefix | src/svs_cpu_budget.c:152-182 | floors are cut in database-oid order: if a later floor is cut, every earlier one is cut to nothing |
| CpuFloors.HonoredTotal | src/svs_cpu_budget.c:152-182 | the honored floors add up to the smaller of the asked floors and the pool |
| CpuFloors.HonoredPermutation | src/svs_cpu_budget.c:137-144 | the order of the rows does not change any honored floor |
| CpuFloors.TotalFloor | src/svs_cpu_budget.c:156-161 | the 64-bit total is the exact sum of the floors |
| CpuFloors.CutFloors | src/svs_cpu_budget.c:166-178 | walking the rows in oid order cuts exactly the excess and leaves each row at its honored floor |
| CpuFloors.ClampFloorsToPool | src/svs_cpu_budget.c:152-182 | each row is left in place with exactly its honored floor, and clamping is reported exactly when the floors exceed the pool |
| CpuBudget.FloorBounds | src/svs_cpu_budget.c:86-119 | every honored floor lies between 0 and the asked floor, which is at most the desired count, which fits 32 bits |
| CpuBudget.FloorsFillPool | src/svs_cpu_budget.c:152-182 | the floors of all databases fill the pool or are all honored, and the remainder is a non-negative 32-bit number |
| CpuBudget.ClaimsWellFormed | src/svs_cpu_budget.c:184-225 | the claims built from distinct databases and distinct build requests have distinct keys and 32-bit asks and weights |
| CpuBudget.GrantsWithinBounds | src/svs_cpu_budget.c:336-385 | honored floor <= search grant <= desired for every database, and every build gets at most its ask |
| CpuBudget.BudgetConservation | src/svs_cpu_budget.c:73-78 | search and build grants together equal the smaller of everything asked for and the pool, which is max_parallel_workers, or the configured total of search threads where that is set and smaller |
| CpuBudget.BuildsYieldToFloors | src/svs_cpu_budget.c:184-225 | a build gets threads only if every database with a reserved floor got all it desired |
| CpuBudget.BudgetOrderIndependence | src/svs_cpu_budget.c:336-385 | permuting database rows or build requests only permutes the grants |
| CpuCeilings.GrantsWithinCeilings | src/svs_cpu_budget.c:9-13 | all grants together never exceed max_parallel_workers, nor the configured total of search threads where one is set |
| CpuCeilings.DatabaseCeilings | src/svs_cpu_budget.c:80-100 | no database gets more than its ceiling or than it or the default asks for, and one that is not live or has no index gets nothing |
| CpuCeilings.EnoughForAll | src/svs_cpu_budget.c:9-28 | where the workers suffice, every database gets exactly what the catalog and the configuration say it asks for, and every build its ask |
| CpuCeilings.ReservationsKept | src/svs_cpu_budget.c:21-22 | where the reservations of all databases fit, each gets at least its own |
| CpuCeilings.FloorsReported | src/svs_cpu_budget.c:152-182 | the reservations are reported as too many exactly when their sum exceeds either limit, and are otherwise kept whole |
| CpuPromises.SearchFairness | src/svs_cpu_budget.c:336-385 | between databases with honored floors, the grant beyond the floor is fair to within one thread, weighted by floor |
| CpuPromises.SearchGuarantee | src/svs_cpu_budget.c:336-385 | a database with an honored floor gets all it desires or at least the part of the remainder its floor is of the floors still asking |
| CpuPromises.SearchEqualFairness | src/svs_cpu_budget.c:336-385 | among databases without a floor, nobody is two threads ahead of one that is short |
| CpuPromises.BuildServed | src/svs_cpu_budget.c:336-385 | a build is granted a thread if and only if the remainder, less what databases with floors still ask for, exceeds the number of floorless claims before it |
| CpuPromises.SearchCanStarve | src/svs_cpu_budget.c:22-28 | inputs within the ranges of the catalog and the configuration on which a database with a floor, wanting more, gets none of the r threads left, because the other floor is 2r times as large |
| CpuPromises.CompetingWeight | src/svs_cpu_budget.c:184-225 | the weights that compete are exactly the honored floors of the databases that still ask |
| CpuGrants.BuildDbWorkingSet | src/svs_cpu_budget.c:102-119 | the working rows are the per-database desired counts and floors |
| CpuGrants.CollectClaims | src/svs_cpu_budget.c:184-225 | the claim array holds exactly the databases and builds that still ask for something, each with its own cell |
| CpuGrants.PrepareFloors | src/svs_cpu_budget.c:339-352 | working rows, remainder and the overcommit flag come out as the clamp specifies |
| CpuGrants.GrantCells | src/svs_cpu_budget.c:354-356 | every claim's cell ends up holding the claim's specified grant, every other cell 0 |
| CpuGrants.ComputeCpuGrants | src/svs_cpu_budget.c:336-385 | the whole computation returns, per database and per build, the specified grant; the returned grants together stay within max_parallel_workers and the configured total, each lies between the kept reservation and what is asked for, and the flag says exactly whether the reservations exceed the limits |
| MemoryLedger.Find | src/svs_memory.c:119-126 | the first record of an index, or none exactly when no record has it |
| MemoryLedger.Oldest | src/svs_memory.c:276-291 | the pending insert of an index with the earliest reservation time, the lowest slot among equals, or none |
| MemoryInvariants.PutSums | src/svs_memory.c:317-370 | replacing one record changes the committed, peak and reclaimable sums by exactly that record |
| MemoryInvariants.BlockStepKeeps | src/svs_memory.c:386-1355 | every step on a control block keeps its records well formed, relids unique, and no build total past the ceiling |
| MemoryInvariants.StepKeeps | src/svs_memory.c:386-1585 | every guarded public call keeps the whole cluster well formed, with the build total within its ceiling |
| MemoryInvariants.RunKeeps | src/svs_memory.c:386-1585 | and so does every guarded run of calls |
| MemoryAuthority.Header.Subtract | src/svs_memory.c:317-330 | floored subtraction, with a count of how often the floor was needed |
| MemoryAuthority.Entry.ReserveBuild | src/svs_memory.c:479-583 | the in-place update does what the counter-free ledger step does, same errors included; its counters stay the exact sums of the records and nothing is clamped |
| MemoryAuthority.Entry.ConfirmBuild | src/svs_memory.c:617-712 | the in-place update does what the counter-free ledger step does, same errors included; its counters stay exact, with nothing clamped, if and only if the guard holds |
| MemoryAuthority.Entry.HandoffBuild | src/svs_memory.c:714-743 | the in-place update does what the counter-free ledger step does, same errors included; its counters stay the exact sums of the records and nothing is clamped |
| MemoryAuthority.Entry.AbortBuild | src/svs_memory.c:745-801 | the in-place update does what the counter-free ledger step does, same errors included; its counters stay the exact sums of the records and nothing is clamped |
| MemoryAuthority.Entry.ReconcileLoad | src/svs_memory.c:803-890 | the in-place update does what the counter-free ledger step does, same errors included; its counters stay exact, with nothing clamped, if and only if the guard holds |
| MemoryAuthority.Entry.AccountUnload | src/svs_memory.c:892-938 | the in-place update does what the counter-free ledger step does, same errors included; its counters stay exact, with nothing clamped, if and only if the guard holds |
| MemoryAuthority.Entry.ReserveInsert | src/svs_memory.c:940-988 | the in-place update does what the counter-free ledger step does, same errors included; its counters stay the exact sums of the records and nothing is clamped |
| MemoryAuthority.Entry.ReanchorInsert | src/svs_memory.c:1017-1065 | the in-place update does what the counter-free ledger step does, same errors included; its counters stay exact, with nothing clamped, if and only if the guard holds |
| MemoryAuthority.Entry.ReconcileResident | src/svs_memory.c:1067-1105 | the in-place update does what the counter-free ledger step does, same errors included; its counters stay the exact sums of the records and nothing is clamped |
| MemoryAuthority.Entry.CloseInsertReservation | src/svs_memory.c:1113-1123 | the in-place update does what the counter-free ledger step does, same errors included; its counters stay the exact sums of the records and nothing is clamped |
| MemoryAuthority.Entry.AbortInsert | src/svs_memory.c:1125-1151 | the in-place update does what the counter-free ledger step does, same errors included; its counters stay the exact sums of the records and nothing is clamped |
| MemoryAuthority.Entry.CreditAbortedInserts | src/svs_memory.c:1153-1190 | the in-place update does what the counter-free ledger step does, same errors included; its counters stay the exact sums of the records and nothing is clamped |
| MemoryAuthority.Entry.Reap | src/svs_memory.c:1247-1296 | the in-place update does what the counter-free ledger step does, same errors included; its counters stay the exact sums of the records and nothing is clamped |
| MemoryAuthority.Entry.DropStale | src/svs_memory.c:1307-1335 | the in-place update does what the counter-free ledger step does, same errors included; its counters stay the exact sums of the records and nothing is clamped |
| MemoryAuthority.Entry.SeedDurableResidency | src/svs_memory.c:1337-1355 | the in-place update does what the counter-free ledger step does, same errors included; its counters stay the exact sums of the records and nothing is clamped |
| MemoryAuthority.Entry.Admit | src/svs_memory.c:386-442 | the in-place update does what the counter-free ledger step does, same errors included; its counters stay the exact sums of the records and nothing is clamped |
| MemoryAuthority.Entry.RestoreBudget | src/svs_memory.c:445-477 | the in-place update does what the counter-free ledger step does, same errors included; its counters stay the exact sums of the records and nothing is clamped |
| MemoryAuthority.Entry.Release | src/svs_memory.c:1562-1585 | the in-place update does what the counter-free ledger step does, same errors included; its counters stay the exact sums of the records and nothing is clamped |
| MemoryAuthority.Entry.SumReclaimableBytes | src/svs_memory.c:229-239 | the loop returns the sum of the reclaimable bytes of all records in use |
| MemoryAuthority.FindReservation | src/svs_memory.c:119-126 | the scan finds the first record of the index |
| MemoryAuthority.FindOldestInsertReservation | src/svs_memory.c:276-291 | the scan finds the oldest pending insert of the index |
| MemoryAuthority.StepTotals | src/svs_memory.c:347-370 | a step moves the cluster totals by exactly the change in its own block |
| MemoryAuthority.Authority.Perform | src/svs_memory.c:386-1585 | any public call, errors included, is one ledger step; the counters, roll-ups and relid uniqueness survive it without clamping exactly when the guard holds |
| MemoryAuthority.Authority.Execute | src/svs_memory.c:386-1585 | over every guarded run the stored counters equal the sums they stand for and the clamping branch is never taken |
| MemoryAnswers.ReserveBuildAnswers | src/svs_memory.c:479-583 | a build is reserved if and only if there is a budget, no build under way, room in the budget in place of what the index holds, a slot, and room for the peak under the cluster's ceiling; an error names a reason that holds |
| MemoryAnswers.ConfirmBuildAnswers | src/svs_memory.c:617-712 | a pending build is confirmed if and only if its measured size fits in place of what was held; anything else is an error |
| MemoryAnswers.LoadAnswers | src/svs_memory.c:803-890 | when a load is accepted, refused or an error, and that a seed of a known index does nothing |
| MemoryAnswers.MeasurementAnswers | src/svs_memory.c:1017-1105 | an insert's measurement answers the growth beyond the last raw size and the generation; the other measurements are accepted exactly in their phase |
| MemoryAnswers.CreditAnswers | src/svs_memory.c:1153-1190 | a compaction is called for if and only if the credit applies and reclaimable bytes then exceed the percentage of the budget |
| MemoryAnswers.ReserveInsertAnswers | src/svs_memory.c:940-988 | an insert is reserved if and only if there is a budget, its bytes fit or spare capacity makes them free, and a slot is left |
| MemoryAnswers.BudgetAnswers | src/svs_memory.c:386-477 | when a budget is admitted, that a restored one is raised to what is held, and that no other call but a release changes a budget |
| MemoryAnswers.DropStaleExactly | src/svs_memory.c:1307-1335 | a record disappears if and only if its index is resident and not in the live set; every other record is unchanged |
| MemoryAnswers.ReapExactly | src/svs_memory.c:1247-1296 | exactly the pending builds of dead owners are given up: a first build disappears, a rebuild is resident again as before |
| MemoryAnswers.RefusedChangesNothing | src/svs_memory.c:386-1355 | a call that raises an error or says no changes nothing, but for a rejected confirm and a credit |
| MemoryAnswers.UnknownDatabase | src/svs_memory.c:54-88 | what a call on a database without a control block does |
| MemoryInserts.InsertSlots | src/svs_memory.c:940-1150 | which pending slot each call takes or frees: reserving takes a free one and notes whether it drew on spare capacity, settling frees the oldest, aborting the caller's own, reaping exactly those of dead owners |
| MemoryInserts.CapacityKept | src/svs_memory.c:940-1150 | reserving and aborting an insert neither make nor lose spare capacity, counting what pending inserts drew |
| MemoryInserts.CapacityRun | src/svs_memory.c:940-1150 | over any run that does not set it anew, that capacity falls by exactly what the settled inserts had drawn |
| MemoryInserts.SettledOnce | src/svs_memory.c:1113-1123 | settling an insert uses up at most one draw |
| MemoryRuns.StepFollows | src/svs_memory.c:479-1355 | what a call does to one index's record, headroom included, depends only on that record, the call, its outcome and whether an aborted insert had used headroom |
| MemoryRuns.RecordStep | src/svs_memory.c:479-1355 | a call on another database or another index leaves the record alone; one on this index moves it along its life cycle |
| MemoryRuns.SparedRun | src/svs_memory.c:521-580 | while a rebuild is under way its record changes only in headroom, by exactly what inserts took and gave back, under any calls but a confirm, abort, unload, accepted load, reanchor, release or the reaping of its owner |
| MemoryRuns.RebuildRollback | src/svs_memory.c:521-580 | a rebuild given up by abort, reap or rejected confirm, after any such run, is resident again at exactly the old size, debt and generation, with no peak and with the old headroom less what inserts took and plus what they gave back |
| MemoryRuns.RawIsAccountedFor | src/svs_memory.c:1017-1065 | over any guarded run, measured (or prior) plus reclaimable equals the last raw measurement taken of the index |
| MemoryCredits.CounterRun | src/svs_memory.c:692-881 | over any run a block's generation counter moves by exactly the loads, confirms and seeds of that block |
| MemoryCredits.SpinAdds | src/svs_memory.c:692-692 | and bumping is addition modulo 2^32 |
| MemoryCredits.GenerationRun | src/svs_memory.c:692-881 | over any run, wrapping or not, a built record carries the counter value of its own last load, confirm or seed, or else the generation it had, and then nothing replaced it |
| MemoryCredits.CreditAppliesExactly | src/svs_memory.c:1153-1190 | after any guarded run a credit citing a record's earlier generation applies if and only if credits are enabled, the index is resident, and it was not measured afresh or age plus the block's bumps up to its last measurement is 0 modulo 2^32 |
| MemoryCredits.StaleCreditIgnored | src/svs_memory.c:1153-1190 | a credit recorded by a reanchor changes nothing if the index was loaded, confirmed or in any way removed since (unloaded, released, dropped as stale, its build aborted, rejected or reaped), as long as the generation's age and the bumps of this block stay below 2^32 |
| MemoryCredits.WrappedCreditApplies | src/svs_memory.c:1169-1172 | after exactly 2^32 reloads the old generation is current again and a stale credit applies |
| MemoryCredits.IterateCounts | src/svs_memory.c:865-881 | n loads advance the 32-bit generation counter by n, modulo its width |
| MemoryCredits.CreditConserves | src/svs_memory.c:1174-1181 | an applied credit keeps measured plus reclaimable, and moves exactly the smaller of the growth and the measured bytes |
| MemoryBudgets.BlockStepWithin | src/svs_memory.c:386-1355 | no call but a fresh measurement takes a database that is within its residency budget over it |
| MemoryBudgets.StaysWithinExactly | src/svs_memory.c:386-1355 | a database within its budget is within it after a call if and only if the call is not a fresh measurement, or what is committed with the new size, less the insert it settles, fits the budget |
| MemoryBudgets.RunWithinBudget | src/svs_memory.c:386-1355 | over any guarded run a database that starts within its budget is within it after every call if and only if every measurement of its indexes fits when it is made |
| MemoryBudgets.MeasurementCanExceed | src/svs_memory.c:1067-1105 | a measurement that does not fit is accepted: the code takes any resident size beyond the budget |
| MemoryBudgets.BudgetsFitExactly | src/svs_memory.c:386-477 | budgets under the residency ceiling are under it after a call if and only if the call does not restore a budget, or the restored one, raised to what the database holds, fits in place of the old |
| MemoryBudgets.RunBudgetsFit | src/svs_memory.c:386-477 | over any run the budgets that start under the ceiling are under it after every call if and only if every restored budget fits when it is restored |
| MemoryBudgets.RestoreCanExceed | src/svs_memory.c:445-477 | admit a database, lower its budget, admit another into the room, restore the first: every call is accepted and the budgets end up over the ceiling |
| MemoryGuards.GuardsCanFail | src/svs_memory.c:617-1065 | for every database, budget, peak and size that fit: after enrolling, admitting and reserving a build, a load, an unload, a reanchor and a confirm with another peak are each accepted by the code and each break their guard |
| MemoryGuards.OpeningIsGuarded | src/svs_memory.c:386-583 | the three calls that lead there keep every guard |
| PendingArray.Buffer.constructor | src/vamana_subxid_pending_array.c:21-38 | a new array is empty with the requested capacity |
| PendingArray.Buffer.EnsureSpace | src/vamana_subxid_pending_array.c:40-60 | growth loses and moves nothing, doubles up to the cap, leaves room unless the cap is reached, and fails exactly when full past half the integer range |
| PendingArray.Buffer.Append | src/vamana_subxid_pending_array.c:62-77 | one element more, tagged with the current subtransaction; the capacity error, exactly when full past half the integer range, changes nothing |
| PendingArray.Buffer.HasLiveEntries | src/vamana_subxid_pending_array.c:79-88 | true exactly when some element is not discarded |
| PendingArray.Buffer.ReplaceMatchingSubxid | src/vamana_subxid_pending_array.c:90-99 | exactly the elements with the tag are retagged, in place |
| PendingArray.Buffer.Prune | src/vamana_subxid_pending_array.c:101-106 | exactly the elements of the rolled back subtransaction become discarded |
| PendingArray.Buffer.Reparent | src/vamana_subxid_pending_array.c:112-118 | exactly the elements of the released subtransaction become the parent's |
| PendingArray.LiveRetag | src/vamana_subxid_pending_array.c:90-99 | a retag of a live tag cannot revive a discarded element |
| PendingArray.StepRefines | src/vamana_subxid_pending_array.c:62-118 | append, savepoint, release and rollback on the flat array are push-to-top, push, append-to-parent and drop on a stack of frames |
| PendingArray.RunRefines | src/vamana_subxid_pending_array.c:40-118 | under every nesting of events the live elements with their tags are the frames laid end to end |
| UndoBatch.MaxGenerationIs | src/vamana_undo.c:327-336 | the batch generation is an upper bound that some entry attains |
| UndoBatch.GrowthSnoc | src/vamana_undo.c:320-336 | keeping, adding to or restarting the running sum computes the growth at the newest generation |
| UndoBatch.GrowthOrderIndependent | src/vamana_undo.c:217-232 | the credit offered for a batch is the same for every feeding order |
| UndoBatch.FlushAllDeletes | src/vamana_undo.c:286-301 | one delete per batch, in order, with the batch's index and ids |
| UndoBatch.FlushAllCredits | src/vamana_undo.c:286-301 | the bytes credited are exactly the growth of the batches whose delete was confirmed |
| UndoBatch.BatchAtNewest | src/vamana_undo.c:320-336 | the running sum of a batch is its growth at the newest generation of the index when the batch reaches that generation, and otherwise contributes nothing to it |
| UndoBatch.CreditsAcrossCuts | src/vamana_undo.c:219-232 | however an abort is cut into batches, the bytes credited to an index at its newest generation are the growth of all its confirmed entries of that generation |
| UndoBatch.AllConfirmed | src/vamana_undo.c:286-301 | with every delete confirmed, those are all its entries |
| UndoBatch.TrackedMissesSome | src/vamana_undo.c:253-265 | any abort over more than 64 indexes leaves some of them off the list |
| UndoBatch.TrackedMissesSixtyFifth | src/vamana_undo.c:253-265 | for instance one over indexes 1 to 65 |
| UndoBatch.FlushAllCompacts | src/vamana_undo.c:219-240 | the indexes to compact are exactly those of the abort's credits that left the database over its cap |
| UndoBatch.CreditsArePositive | src/vamana_undo.c:217-232 | no credit is offered for nothing, and each is for an index of the abort |
| UndoBatch.FlushAllConsolidates | src/vamana_undo.c:286-301 | the indexes to consolidate are those of the batches, confirmed or not |
| UndoBatch.TrackedOnce | src/vamana_undo.c:253-265 | the maintenance list names each touched index once and at most 64 of them |
| UndoBatch.TrackedAll | src/vamana_undo.c:253-265 | every touched index is on the list if and only if there are at most 64 of them |
| UndoBatch.TrackRelid | src/vamana_undo.c:253-265 | the scan adds an index unless it is invalid, already listed, or the list is full |
| UndoBatch.ConsolidatingUndoBatch.FlushCurrent | src/vamana_undo.c:286-301 | a non-empty batch is submitted once with its ids, and credited only on success and when worth something |
| UndoBatch.ConsolidatingUndoBatch.Add | src/vamana_undo.c:308-337 | what has been fed grows by the entry; batches stay non-empty, of one index, at most 1000 ids, and closed only by a change of index or by being full |
| UndoBatch.ConsolidatingUndoBatch.Finish | src/vamana_undo.c:340-352 | everything fed has been submitted, then each affected index is consolidated, and compacted if over its cap |
| UndoRuns.UndoIsExact | src/vamana_undo.c:358-455 | for every tree of savepoints and every pattern of worker availability, the ids submitted are, with multiplicity, those whose innermost aborting subtransaction found the worker, or that were still unanswered when the whole transaction aborted with the worker there |
| UndoRuns.UndoExactlyOnce | src/vamana_undo.c:358-455 | with the worker available, each insert is submitted once if its own or an enclosing (sub)transaction aborts, and never otherwise |
| UndoRuns.UndoIsCompleteExactly | src/vamana_undo.c:358-455 | every doomed insert is submitted if and only if the transaction aborts with the worker there, or no insert was left to an abort the worker missed |
| UndoRuns.UndoAtMostOnce | src/vamana_undo.c:358-455 | whatever the availability, no surviving insert is submitted and none twice |
| UndoRuns.MissedAbortIsLost | src/vamana_undo.c:430-431 | a rollback while the worker is away is not made up for when the transaction then commits |
| UndoRuns.ExecAppends | src/vamana_subxid_pending_array.c:62-118 | a whole nested run only appends to the log, and its survivors, prompt undos and abandoned entries are those the tree names |
| UndoRuns.RetagSelected | src/vamana_subxid_pending_array.c:90-99 | a release hands exactly its own entries to the parent and a rollback drops exactly its own |
| UndoLog.LivePermutation | src/vamana_undo.c:377-378 | sorting the log by index does not change which inserts are undone |
| UndoLog.LiveInOrder | src/vamana_undo.c:377-389 | the entries fed by a full abort come grouped by index |
| UndoLog.SortLog | src/vamana_undo.c:377-378 | the log becomes a permutation of itself ordered by index |
| UndoLog.UndoSubxact | src/vamana_undo.c:438-454 | submits exactly the entries of the subtransaction in insertion order, well batched, then discards exactly those |
| UndoLog.UndoXact | src/vamana_undo.c:371-391 | submits exactly the live entries, grouped by index, well batched |
| UndoLog.UndoState.Reserve | src/vamana_undo.c:118-136 | leaves the log as it was with room for one entry below the limit, or refuses because the limit or the capacity bound is reached |
| UndoLog.UndoState.Append | src/vamana_undo.c:146-159 | after a reservation, recording an applied insert cannot fail |
| UndoLog.UndoState.SubXactCallback | src/vamana_undo.c:415-455 | commit reparents; abort with the worker there submits and discards exactly the subtransaction's entries; anything else changes nothing |
| UndoLog.UndoState.XactCallback | src/vamana_undo.c:358-413 | abort submits the live entries; commit and prepare forget the log without submitting; a prepare is refused exactly when live entries remain |
| UndoTransactions.FlushSubmits | src/vamana_undo.c:286-301 | the (index, id) pairs in the deletes sent for one abort are exactly the entries fed to it, in order |
| ClippedRuns.ExecLength | src/vamana_undo.c:118-136 | the log only grows while a transaction runs, never passes the undo limit, and its length is that of the transaction less refused inserts |
| ClippedRuns.NothingClipped | src/vamana_undo.c:118-136 | within the limit nothing is refused |
| UndoTransactions.Insert | src/vamana_undo.c:118-159 | reserve then append adds exactly one entry under the current subtransaction, and is refused with nothing changed exactly when the log is at its limit |
| UndoTransactions.EndSubxact | src/vamana_undo.c:415-455 | the subtransaction callback does to log and worker what the end of a subtransaction should |
| UndoTransactions.EndTransaction | src/vamana_undo.c:358-413 | the transaction callback sends what the end of the transaction should, and forgets the log |
| UndoTransactions.RunItems | src/vamana_undo.c:358-455 | driving the entry points through any tree of savepoints, past the undo limit or not, leaves the log and the submissions of the value-level run |
| UndoTransactions.RunTransaction | src/vamana_undo.c:358-455 | end to end: over a whole transaction the worker is asked to delete, with multiplicity, exactly the (index, id) pairs the tree, less inserts refused at the undo limit, says are undone, and the log is gone afterwards |
| IndexCounts.Fold | src/vamanaworkershmem.c:823-833 | the net value is the sum of the database's live deltas, all of which are marked consumed and no other |
| IndexCounts.Slots.ApplyDelta | src/vamanaworkershmem.c:750-797 | the 32-bit counter moves by the signed delta with wrap-around, only if the database has a slot, and the launcher is kicked exactly when it crosses zero |
| IndexCounts.ApplyPending | src/vamanaworkershmem.c:805-837 | every counter moves by exactly the net of its live deltas, each database is applied at most once with its whole net, and the launcher is kicked once for each database whose count left zero or came to it |
| IndexCounts.CommitCountsSurvivors | src/vamanaworkershmem.c:839-890 | for every nesting of savepoints, the net folded at commit is the sum of the changes no enclosing savepoint rolled back |
| IndexCounts.PendingDeltas.Queue | src/vamanaworkershmem.c:701-710 | one tagged delta more; the capacity error comes exactly when 2^30 deltas are queued already |
| IndexCountRuns.RunTransaction | src/vamanaworkershmem.c:701-890 | end to end: over any tree of savepoints a commit moves every counter by exactly the changes no enclosing savepoint rolled back, less those refused at capacity, an abort moves none, the launcher is kicked once per counter that left zero or came to it, and the list is gone afterwards |
| IndexCounts.PendingDeltas.SubXactCallback | src/vamanaworkershmem.c:879-890 | rollback discards and release reparents exactly the subtransaction's deltas, and other events change nothing |
| IndexCounts.PendingDeltas.XactCallback | src/vamanaworkershmem.c:839-871 | only a commit moves counters, by exactly the live net changes, and kicks once per zero crossing; a prepare is refused exactly when live deltas remain |
| Launcher.Classify | src/vamanalauncher.c:1272-1284 | removal and disabling outrank a restart in flight |
| Launcher.StoppedHasOneOwner | src/vamanalauncher.c:1569-1720 | the per-entry case of StoppedIsDroppedOrRespawned: an entry seen stopped is kept exactly when the convergence pass will be told to respawn it; its slot is released exactly when its row is gone, and a crash is charged exactly when it was enabled and not restarting |
| Launcher.LivenessKeeps | src/vamanalauncher.c:1569-1635 | the liveness pass drops only stopped handles and keeps one entry per database |
| Launcher.ConvergeAtKeeps | src/vamanalauncher.c:1695-1720 | a respawn happens only on a stopped handle, so no unstopped handle is ever forgotten |
| Launcher.SpawnRowKeeps | src/vamanalauncher.c:1416-1447 | a spawn happens only for a database with no entry |
| Launcher.CycleKeeps | src/vamanalauncher.c:411-507 | every reconcile cycle keeps one entry per database and every unstopped handle in the ledger |
| Launcher.RunKeeps | src/vamanalauncher.c:411-507 | and so does every run of cycles, provided stopped handles stay stopped |
| Launcher.OneLiveWorker | src/vamanalauncher.c:1457-1476 | in every such state no database has two registered workers that have not stopped |
| RestartRuns.StoppedIsDroppedOrRespawned | src/vamanalauncher.c:1569-1720 | in every cycle an entry seen stopped is, before the spawn pass, either gone with nothing registered for it, or respawned in place under a new handle with exactly one registration, or, when registration failed, unchanged to be tried again |
| RestartRuns.CycleEntry | src/vamanalauncher.c:1695-1720 | through a whole cycle an enabled, uncrashed entry advances exactly one step and costs one registration exactly when it respawns |
| RestartRuns.StepPays | src/vamanalauncher.c:1306-1350 | each respawn pays off exactly one owed respawn, and each unhindered step shortens the way |
| RestartRuns.RestartCost | src/vamanalauncher.c:1306-1350 | once the generation settles, respawns made plus respawns still owed equal those owed at the start, never more than two however many bumps were coalesced |
| RestartRuns.RestartConverges | src/vamanalauncher.c:1306-1350 | three cycles in which the draining worker has stopped and registration succeeds bring any entry to the settled generation, and it stays there |
| LauncherLaws.CycleSignals | src/vamanalauncher.c:1645-1720 | a cycle signals a worker if and only if it is started and its database is not enabled, or the database is enabled, its generation has moved and no restart is in flight |
| LauncherLaws.SettledIsNotSignalled | src/vamanalauncher.c:1645-1720 | a worker that serves its enabled database's generation is never signalled |
| LauncherLaws.TerminateAsks | src/vamanalauncher.c:1645-1661 | the disable pass signals exactly the started workers of databases that are not enabled |
| LauncherLaws.SettleIs | src/vamanalauncher.c:1586-1629 | what each stopped worker's settlement asks for, and that a crash counts as recovered exactly after more than 9.999 seconds of running |
| LauncherLaws.ConvergeIs | src/vamanalauncher.c:1306-1350 | when convergence signals, warns, after the timeout in milliseconds on a microsecond clock, and publishes the drained-for generation |
| LauncherLaws.SurvivorsAre | src/vamanalauncher.c:1569-1635 | which entries stay through the liveness pass, and that one is stamped when first seen started |
| LauncherLaws.EntryAfterCycle | src/vamanalauncher.c:1306-1476 | where a cycle leaves an entry of an enabled database: replaced under a new handle and the drained-for generation, or kept with its restart moved one step |
| LauncherLaws.DisabledEntryWaits | src/vamanalauncher.c:1645-1661 | an entry of a database that is not enabled waits unchanged for its worker to stop |
| LauncherLaws.SpawnedAre | src/vamanalauncher.c:1416-1447 | the spawn pass keeps every entry and adds exactly one fresh entry, serving the row's generation, for each database that may have one |
| LauncherLaws.SpawnPublishes | src/vamanalauncher.c:1416-1447 | the generation published for a spawned worker is the one its entry serves |
| LauncherLaws.EnabledIs | src/vamanalauncher.c:1235-1260 | a database is enabled by its first row |
| LauncherLoop.AdvanceRestart | src/vamanalauncher.c:1306-1350 | state and action follow the restart state machine |
| LauncherLoop.Loop.FindLedgerEntry | src/vamanalauncher.c:1220-1233 | found exactly when the ledger tracks the database |
| LauncherLoop.Loop.SettleStopped | src/vamanalauncher.c:1586-1629 | the right calls for the stop reason, and a drop exactly when the entry is not kept |
| LauncherLoop.Loop.ReconcileLiveness | src/vamanalauncher.c:1569-1635 | deleting while scanning leaves exactly the survivors in order, and settles every stopped entry once |
| LauncherLoop.Loop.TerminateDisabled | src/vamanalauncher.c:1645-1661 | signals exactly the started workers of databases that left the enabled set |
| LauncherLoop.Loop.RespawnWorker | src/vamanalauncher.c:1457-1476 | in place, adopting the target generation; a failed registration changes nothing |
| LauncherLoop.Loop.ReconcileRestarts | src/vamanalauncher.c:1695-1720 | each entry is advanced once, in order, with the calls its action asks for |
| LauncherLoop.Loop.SpawnWorker | src/vamanalauncher.c:1416-1447 | a new entry seeded with the current generation, or nothing on failure |
| LauncherLoop.Loop.SpawnMissing | src/vamanalauncher.c:472-500 | one new entry with its serviced generation published, in table order, for each enabled database that is untracked, has no live worker, is not backing off and can be registered, and nothing else |
| LauncherLoop.Loop.ReconcileWorkers | src/vamanalauncher.c:411-507 | the four passes together are one cycle of the state machine, and ask for exactly its calls, in order |
| Orphans.SeenIsStreak | src/vamanalauncher.c:1783-1822 | a candidate's first-seen time is the clock of the cycle that began its unbroken streak |
| Orphans.ReleaseIsSafe | src/vamanalauncher.c:1768-1857 | over any history, a release at cycle k implies a cycle at least 5,000,000 microseconds earlier since which every cycle saw the database reserved and without a row, and no live worker at k |
| Orphans.ReleaseIsExact | src/vamanalauncher.c:1768-1857 | with a clock that does not step back, a block is released if and only if it is not live and an unreleased streak of at least 5,000,000 microseconds exists |
| Orphans.NapIsTimely | src/vamanalauncher.c:1845-1852 | a candidate's nap ends within a millisecond before its five seconds are over, or after a second if it is overdue but has a worker |
| Orphans.Tracker.RunCycles | src/vamanalauncher.c:1768-1857 | over a whole history of cycles the tracker's candidates and each cycle's releases are those the history theorems speak of |
| Orphans.Tracker.Prune | src/vamanalauncher.c:1783-1793 | forgets exactly the candidates that regained a row or are no longer reserved |
| Orphans.Tracker.Judge | src/vamanalauncher.c:1795-1852 | one reserved database: candidate, released or waiting, with its naptime contribution |
| Orphans.Tracker.ReleaseOrphaned | src/vamanalauncher.c:1768-1857 | one cycle steps every database as the history says, keeps one candidate each, releases exactly those due, and naps until the earliest falls due |
| CatchUp.CloserToNext | src/vamanaworker.c:1244-1276 | serving another index brings a waiting acquirable one strictly closer in the cycle |
| CatchUp.ServedWithinTurns | src/vamanaworker.c:1211-1298 | an index that stays eligible and acquirable is served before its distance in serving calls runs out |
| CatchUp.ServedWithinDueCalls | src/vamanaworker.c:1211-1298 | the same counted in due calls, with saves deferring as they may |
| CatchUp.NoStarvation | src/vamanaworker.c:1211-1298 | with n stable cached indexes: served within n serving calls, and within 6 n due calls |
| CatchUp.DefersAreCapped | src/vamanaworker.c:1224-1232 | in any run whose due calls all give way to saves, with any calls that are not due in between, there are at most five of them, less those already deferred |
| CatchUp.ServesWhenItCan | src/vamanaworker.c:1220-1276 | a call serves something if and only if it is due, does not give way to a save, and some cached index can be taken |
| CatchUp.TurnServes | src/vamanaworker.c:1220-1276 | a due turn left free by saves serves something if and only if some cached index has a slot, is past its backoff, and lets its slot be taken |
| CatchUp.CapIsInARow | src/vamanaworker.c:1224-1240 | the cap is on deferrals in a row: any opportunity not given to a save lets five more defer |
| CatchUp.OpportunitiesAreSpaced | src/vamanaworker.c:1220-1298 | after a call that deferred or looked for something to serve, the next is due exactly a second later |
| CatchUp.StalledIndexWaits | src/vamanaworker.c:1276-1291 | an index whose slice stalled again is not served in any history until a second, doubled per earlier stall and at most a minute, has passed |
| CatchUp.ProgressClearsBackoff | src/vamanaworker.c:1276-1281 | progress clears an index's backoff |
| CatchUp.ServedIsEligible | src/vamanaworker.c:1262-1274 | only an index with a slot, past its backoff, is served |
| CatchUp.BackoffDoubles | src/vamanaworker.c:1285-1290 | doubling with a cap is min(1000 * 2^(k-1), 60000) after k stalls, always between 1000 and 60000 |
| CatchUp.SlotScheduler.FindStart | src/vamanaworker.c:1244-1258 | the search starts after the index served last, or at the front |
| CatchUp.SlotScheduler.Charge | src/vamanaworker.c:1276-1291 | progress clears the backoff and a stall extends it; every backoff equals the value its stall count gives |
| CatchUp.SlotScheduler.ServeOne | src/vamanaworker.c:1260-1294 | the first acquirable index in cyclic order gets the slice, and only its cache changes |
| CatchUp.SlotScheduler.RunTurns | src/vamanaworker.c:1211-1298 | a whole history of calls is a run of the scheduler and serves exactly the indexes the starvation theorems say it serves |
| CatchUp.SlotScheduler.CatchUpSlots | src/vamanaworker.c:1211-1298 | one call is one step of the scheduler, and keeps the defer count and every backoff in range |
| TidMaps.LoadIsInverse | src/vamanacache.c:250-295 | the reverse hash built on load is the inverse of the forward map if and only if no TID occurs twice |
| TidMaps.RepeatedTidBreaksLoad | src/vamanacache.c:250-295 | a map with one TID twice loads into maps that are not inverse |
| TidMaps.ReloadRoundTrip | src/vamanacache.c:250-295 | saving mutually inverse maps and loading them again restores all of them and the deleted count; the vector count becomes the live count |
| TidMaps.TakeKeeps | src/vamana_replication.c:448-614 | every replayed insert or delete and every forget keeps the maps mutually inverse and every live id below the next id; the vector count leaves the live count only at a forget |
| TidMaps.RunKeeps | src/vamana_replication.c:448-614 | the same over every run; with replay steps only, the vector count equals the live count |
| TidMaps.IdsNeverReused | src/vamana_replication.c:502-546 | over every run an id once handed out keeps its TID or none |
| TidMaps.ReplayCounts | src/vamana_replication.c:448-614 | replay hands out one id per insert of a TID that was not live and counts each delete of one that was |
| TidMaps.GrowthDoubles | src/vamana_replication.c:514-531 | the forward map grows to twice its size, from 1024, or to just hold the id |
| TidMaps.ForgetKeepsCounts | src/vamanacache.c:320-336 | forgetting an id changes no counter |
| TidMaps.OverlapIsHarmless | src/vamana_replication.c:448-614 | for every log and c <= p <= e, applying L[c..e] to the state at p equals applying L[0..e] once |
| TidMaps.ReloadIsValid | src/vamanacache.c:250-295 | a valid map saved and loaded again with a next id no lower than its own is valid |
| TidMaps.ReplayConverges | src/vamana_replication.c:448-614 | the map saved at p, loaded again and replayed from an older point c, ends with the live TIDs of a single application of the log; with a next id no lower than the saved one the maps are valid again and the forward maps hold the same TIDs |
| TidCache.IndexCache.constructor | src/vamanacache.c:180-309 | the loaded entry has the given forward map, its reverse and its live count |
| TidCache.BuildReverse | src/vamanacache.c:269-294 | the loop computes the reverse map, smallest id first, and the number of live slots |
| TidCache.IndexCache.EnsureRoom | src/vamana_replication.c:514-531 | growth keeps every entry and leaves new slots empty |
| TidCache.IndexCache.ApplyInsert | src/vamana_replication.c:448-559 | one replay insert, or nothing when the TID is present, the graph absent, the tuple gone or null, or the add failed |
| TidCache.IndexCache.ApplyDelete | src/vamana_replication.c:569-614 | one replay delete, or nothing when the TID is absent, the graph absent or the delete failed |
| TidCache.IndexCache.ForgetExternalId | src/vamanacache.c:320-336 | clears both directions of one id, and nothing for an id out of range or empty |
| SlotSet.Pigeonhole | src/svs_cpu_slots.c:328-351 | n slots leave a label free among 1..n+1, so the unreachable branch is never reached |
| SlotSet.FreeLabelIsSmallest | src/svs_cpu_slots.c:328-351 | a new label is the smallest positive one not held, at most one more than the slots held |
| SlotSet.GrowKeeps | src/svs_cpu_slots.c:167-244 | growth keeps existing slots, stops short only when a slot fails to start, and gives distinct labels within the target |
| SlotSet.FitKeeps | src/svs_cpu_slots.c:139-249 | a resize never ends above target, never terminates below it, keeps survivors in order and labels distinct |
| SlotSet.ResizeKeeps | src/svs_cpu_slots.c:139-249 | the same for the slots found alive |
| SlotSet.ResizeIsOfTheLiving | src/svs_cpu_slots.c:139-249 | every slot held after a resize was held before and has not died, or is new and started; and every live one stays unless there were too many |
| SlotSet.GrowLabels | src/svs_cpu_slots.c:167-244 | each new slot takes the smallest label not in use when it is added |
| SlotSet.EndedIs | src/svs_cpu_slots.c:152-165 | surplus slots are terminated newest first |
| SlotSet.RunKeeps | src/svs_cpu_slots.c:139-249 | over any sequence of resizes and deaths, labels are pairwise distinct and the set is within the last target |
| SlotSet.ParkedSlots.EnsureCapacity | src/svs_cpu_slots.c:264-281 | the buffer has room and holds the same slots |
| SlotSet.ParkedSlots.RemoveAt | src/svs_cpu_slots.c:302-305 | sliding down removes one entry and keeps the order of the rest |
| SlotSet.ParkedSlots.ReapDeadSlots | src/svs_cpu_slots.c:290-313 | an order-preserving filter of the slots whose worker has not stopped |
| SlotSet.ParkedSlots.AllocateSlotIndex | src/svs_cpu_slots.c:328-351 | returns the smallest free label, between 1 and count + 1 |
| SlotSet.ParkedSlots.Shrink | src/svs_cpu_slots.c:152-165 | terminates from the newest end, in that order, down to the target |
| SlotSet.ParkedSlots.GrowTo | src/svs_cpu_slots.c:167-244 | registers until the target or the first failure |
| SlotSet.ParkedSlots.ResizeTo | src/svs_cpu_slots.c:139-249 | reap, then fit to the target (negative meaning 0), terminating exactly the surplus; a message only when a shortfall begins or ends |
| SlotSet.ParkedSlots.LogShortfallTransition | src/svs_cpu_slots.c:408-433 | reports exactly the transitions into and out of shortfall |
| SlotSet.ParkedSlots.ReleaseAll | src/svs_cpu_slots.c:251-255 | nothing is held afterwards |
| SlotSet.ParkedSlots.Count | src/svs_cpu_slots.c:257-262 | the number of slots still alive |

## Left out

- Byte totals near 2^64 and TID map indexes near 2^31: the source's own width is not modelled there, and callers keep sums below it.
- MemoryCredits.StaleCreditIgnored: speaks of one control block, since a database that is released and enrolled again may get another block with another counter.
- CpuStarvation.WeightedServed: sufficient only; whether a weighted claim below one whole share is rounded up depends on who settles first, and no condition simpler than the passes themselves decides it.
- MemoryAuthority.Entry.AbortBuild: does not model the debug assertion on the owner pid.
- CpuGrants.ComputeCpuGrants: bounds one call; builds already granted earlier are not counted again, as in src/vamanalauncher.c:900.
- UndoBatch.ConsolidatingUndoBatch.Add: does not model 64-bit wrap-around of the growth sum.
- TidCache.IndexCache.ApplyInsert: requires a map when an insert reaches the graph, since the source grows the map it has and an index loaded without one has none.
- Launcher.RunKeeps: speaks of the workers this launcher registered; survivors of an earlier launcher have no handle and appear only as databases that may not be spawned.
- LauncherLoop.Loop.ReconcileWorkers: a cycle whose table read failed does nothing and is not modelled; the disable pass reads the same statuses as the liveness pass.
- SlotSet.ParkedSlots.Shrink: does not model the bounded wait for a terminated slot, whose timeout only warns.
- Search scratch memory, statistics views, warnings and the size checks that only compare an estimate with a limit: they would add easy members.
- The SVS library itself, graph search, and memory estimation: foreign code, so its results are parameters.
- Logical decoding, snapshot building, WAL reading and replication slot internals: only the delivered list of insert and delete changes is modelled; updates are not applied by this code.
- Durability of the confirmed position across crashes, which rests on how the server persists slots.
- The request-slot protocol between backends and workers and the publication of build grants to waiting backends.
- Slot-drop and build-retire queues, which use the same pending array with other payloads.
- Crash-backoff thresholds, capacity bisection, catalog access, triggers, configuration variables, file access, permissions and message texts.
