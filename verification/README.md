# InferGlow: verified models

Models in Dafny of the parts of InferGlow that decide what an agent remembers,
what it may do and what can be proved about it afterwards, and proofs of what
these parts promise. `dafny verify dfyconfig.toml` checks everything.

Methods and classes take the form of the code: loops over the active steps that
read a record and write it back, a linked recency list beside a map, a worker that
fills and flushes a batch. Each is tied by its `ensures` to a function on values,
and the promises are theorems about these functions, mostly over whole runs.

| file | models |
|---|---|
| `Records`, `Decay`, `CitationWeights` | the records of the context store; the pressure on a step and the level it asks for; when a citation can raise it |
| `Compression`, `Levels`, `CompressionRuns`, `Witnesses` | every mutator of the reference records, on values; what each asks for, exactly; all runs of them, with the writers that write late; concrete runs |
| `CompressionEngine` | the code of the mutators |
| `Render`, `Citations` | rendering, the marks of rendered steps and how citations read them, the render cache |
| `Truncation`, `WindowFit`, `ContextBuild`, `ContextBuilder` | truncation, the window fit and the build, on values and as code |
| `ContextRuns`, `Shown`, `SharedRecords`, `Locks` | runs of mutators, text writes, invalidations and builds together; what is read in a context; how a user step is lost in a store that hands out its own records; what a lock is worth |
| `SweetSpot` | the self-adjusting token budget |
| `CompactionLock` | the compression lock and its marker log, with concurrent callers and crashes |
| `SummaryCompaction`, `SummaryRuns` | session compaction with its archive, its saved counters and its stuck flag |
| `IngestPipeline` | the asynchronous pipeline, as transitions and as code |
| `CanonicalJson`, `JsonText`, `Numerals`, `AuditLog`, `AuditNames` | the key-sorting printer, its texts and the numbers in them, the hash chain, its verifier and its signatures; when a hashed text determines its fields |
| `ResultCache` | the result cache with its two limits and deadlines |
| `AccessPolicy`, `ApprovalManager` | policies, their merge, and the manager with its records |
| `Base64` | the terminal clipboard's encoder |
| `Wrappers`, `Decimals`, `Reals` | `Option` and `Result`; decimal digits; named products and quotients |

Conventions. Go's floats are real numbers. Strings whose length or bytes matter
are sequences of bytes. A mutator is one atomic step unless a theorem says
otherwise. The step store is maps that always succeed; a run says whether it hands
out copies of its records, as the SQL stores do, or its own, as the JSONL store
does, which is the one the program makes. What a clock, an LLM, a handler, a
wrapped executor, SHA-256 or HMAC would answer is a parameter; no theorem assumes
that a digest has no collisions.

Where the code and its own words differ, the model follows the code:

- `approval/types.go:133-135` says that `RequireApproval` forces every request
  through a handler. `MergePolicies` carries the flag along, and nothing reads it: a
  handler is asked exactly if the capability is on neither list and no set level is
  exceeded (`ApprovalManager.RequiredAskedIff`), and a listed capability is approved
  where there is no handler at all (`ApprovalManager.ApprovedUnasked`).
- `context/render_cache.go:53-59` says that the level in the cache's key covers every
  write path. It does not: rendering falls back on the original text for a level
  without one, and the text written later is not shown (`Render.LateTextIsStale`).
- `context/step.go:79-81` says that a lock prevents any compression. Emergency
  introspection, the late writes of the warm-up and of the engine, and the builds of
  the store that the program makes do not look. A step locked at level 0 stays there
  exactly as long as none of these comes to it, and it is neither unlocked nor
  cleared as transient (`Locks.LockKeptIff`); runs in which it does not stay are
  `Locks.WarmUpPassesLock`, `Locks.EnginePassesLock` and `Locks.BuildPassesLock`.
- `context/hybrid.go:540-541` says that the level raised for a window is not
  stored. `GetRef` of the JSONL store returns its own record, which the fit writes
  to. The records stay sound exactly if no build squeezes a user step that is stored
  at level 2 in front of the tail (`ContextRuns.RunValidIff`, and from the store
  alone `ContextRuns.RunValidFromStore`); otherwise a user step
  can be removed (`SharedRecords.UserLost`). It also lowers levels
  (`ContextRuns.BuildLowersIff`).
- `context/render_cache.go:53-57` says that levels only rise. The writes of the
  warm-up and of the compression engine can lower them, bring removed records back
  and forget citations (`CompressionRuns.LateWriteIff`).
- A citation is meant to slow the ageing of a step. The first one can raise it
  instead (`CitationWeights.FirstCitationIff`, `Witnesses.FirstCitationRaises`).
- The configuration takes every positive rate for the decay of the tolerance. The
  budget stays in its range exactly for the rates from 20/21 to 1
  (`SweetSpot.RunsInRangeIff`).
- `context/hybrid.go:579` means to step over the closing bracket of a marker and
  steps over the first of its three bytes. `Truncation.MarkerEnd` does the same;
  the marker survives all the same (`Truncation.MarkerKept`).
- The text that is hashed for an audit entry runs its fields together, so that two
  different entries can have one hash (`AuditLog.NumbersRunTogether`,
  `AuditLog.SourceActionBoundary`, `AuditNames.ActionRunsIntoValue`), and it leaves
  out the entry's other fields. All fields are determined together, but for four
  numbers that run together, exactly if of the sources and actions in use no two
  print alike and none goes on where another ends with what can be read as part of
  the values (`AuditNames.DeterminedIff`, `AuditNames.PlainDeterminedIff`). An action
  made of a request's path, as in `server/handlers_audit.go:56`, can.
- The merge of access policies is said to take the strictest of each. A merged
  policy can also deny what none of them denies (`AccessPolicy.MergedDeniesMore`).
- The stuck flag is said to be reset when the usage falls. The reset is not saved: a
  restart sets the flag again exactly if the last compaction was at least the second
  in a row and the usage has fallen since (`SummaryCompaction.RestartedStuckIff`,
  `SummaryCompaction.RestartUndoesClearingIff`); `SummaryCompaction.ClearingForgotten`
  is such a run.
- Level 4 has no text, so a reasoning step, a plan or a failure that decays that far
  is active and in no context (`ContextRuns.MissingIff`).

## Model

| member | source | states |
|---|---|---|
| `ContextRuns.UserInEveryBuild` | context/hybrid.go:400-447 | Over every run of ingestion, per-step decay, batch compression, mechanical reorganisation, emergency and global introspection, idle consolidation, citations, expansions, locks, transients, late writes of the warm-up and the engine, writes of texts, invalidations and builds, in which no build squeezes a user step past its cap, a user step that is not transient is active, at level 2 at most, and exactly once in the context that is built next, whatever the cache holds and the window is |
| `Shown.ContextReads` | context/hybrid.go:400-478 | After every run without a write that the cache should have noticed, every block of a step in the context built next reads, byte for byte, as the mark with that step's number, its type and the block's level, a space, and the text stored for that level or else the original; the step is active, and the level is 0 in the tail and the stored one before it, or one more if the window is too small for the blocks up to there |
| `Shown.BuiltFromIff` | context/hybrid.go:308-330 | The levels that a context is built from are those stored, or under pressure also those that an unforced reorganisation reaches |
| `Shown.BlockIsMarked` | context/hybrid.go:470-478 | Up to its first closing bracket such a block is its mark, which cites its step and nothing else |
| `Shown.QuotedBlockIsCited` | context/hybrid.go:1170-1194 | The round trip: quoting the mark of a block in the context adds one citation, at the newest step, to the record of the step that the block shows, and changes no other record |
| `Shown.TwelfthBlock` | context/hybrid.go:470-478 | The bytes of the block of an output with the number 12 and the level-1 text ok |
| `ContextRuns.RunValidIff` | context/hybrid.go:539-545 | At every point of a run the records are sound, within their caps, with every user step among them, if and only if no build in it, in a store that hands out its own records, squeezes a user step past its cap |
| `ContextRuns.RunValidFromStore` | context/hybrid.go:525-565 | In a run whose writes the cache need not notice, that can be told before each build from the store and the window alone: no user step at level 2 in front of the tail has a block such that the window is too small for the unfitted blocks also with any number of those in front of it raised |
| `ContextRuns.ThroughIff` | context/hybrid.go:525-565 | Through a coherent cache the fit goes through a block exactly if the window is too small with none, one, and so on up to all of the blocks in front of it raised |
| `ContextRuns.CountInRuns` | context/hybrid.go:400-447 | After any run, whatever is cached and the window is, a step has exactly one block in the next context if it is active, ingested, not transient, and in the tail or at a level from 0 to 3, and none otherwise |
| `ContextRuns.MissingIff` | context/render_cache.go:147-187 | So an active step that is not transient is missing from it exactly if it is at level 4 in front of the tail, which only reasoning, plans and failures can be: it is never shown there, though still active |
| `Locks.LockKeptIff` | context/step.go:79-81 | From any point of any run on, a step that is locked at level 0 stays so if and only if no later step of the run is an emergency introspection with the step in front of the tail, a late write of a record held for it, a build in a sharing store whose fit goes through it, a clearing of it as transient, or its unlocking |
| `Locks.KeptDownNext` | context/step.go:79-81 | The same of one step of a run, in any state that a run can reach |
| `Locks.LockPassedIff` | context/step.go:79-81 | One step of a run raises the locked step exactly if it is one of the first three, and removes it exactly if it clears it |
| `Locks.WarmUpPassesLock` | context/hybrid.go:1059-1075 | A run, under any configuration, that ingests and locks a step and in which the warm-up then raises it to level 1 |
| `Locks.EnginePassesLock` | context/compress/engine.go:151-245 | From any point of any run: the engine raises a step that was locked after it was chosen to the level that it was chosen for |
| `Locks.BuildPassesLock` | context/hybrid.go:539-545 | A run, under any configuration in a store that hands out its own records, in which a build for a full window raises the locked step to level 1 |
| `ContextRuns.BuildValidIff` | context/hybrid.go:539-545 | One build keeps the records sound exactly if the store hands out copies or the fit goes through no user step stored at level 2 in front of the tail |
| `ContextRuns.CopiesAreLawful` | context/store/sqlite/sqlite_store.go:219-240 | In a store that hands out copies every run is such |
| `ContextRuns.LevelsWithinCaps` | context/decay.go:252-264 | Over every such run no active step is above the level its type allows or below 0 |
| `ContextRuns.BuildLowersIff` | context/hybrid.go:539-545 | In a store that hands out its own records a build lowers a stored level exactly if the fit goes through a step of the tail that is stored above level 1 |
| `SharedRecords.UserLost` | context/introspect.go:167-224 | In such a store, whatever the tail and the pressure: after a user step and enough long tool outputs, a build for a full window takes the user step to level 3, and once batch compression has masked the uncited others, archiving their task group removes it |
| `ContextRuns.BuildsAreFresh` | context/hybrid.go:308-447 | In every run whose writes leave the cached block of their step as it would be rendered, or come after its invalidation, each context built, with the levels that earlier fits left in the cache, is the one rendered from the store |
| `ContextRuns.CacheAfter` | context/render_cache.go:61-101 | What every step of such a run does to the cache: a clean-up and an emergency drop what they change, an invalidation drops a step or all, a build leaves what it rendered |
| `ContextRuns.StepCoherentIff` | context/render_cache.go:57-59 | One step of such a run, be it a mutator, a write, an invalidation or a build, keeps the cache coherent if and only if it is not a write that changes the text at the cached level |
| `ContextRuns.FirstNoticedWriteShows` | context/render_cache.go:57-59 | The first write that does leaves a cache through which some step renders differently |
| `CompressionRuns.RunValid` | context/hybrid.go:185-228 | Over every run of the mutators and late writes the records are those of ingested steps, each under its own number, within its cap, and marked for discarding only if its type can be discarded; every user step that is not transient has one |
| `CompressionRuns.UserStepsStay` | context/hybrid.go:232-277 | Over every such run a user step that is not transient is active and at level 2 at most |
| `CompressionRuns.LevelsWithinCaps` | context/decay.go:252-264 | Over every such run no active step is above the level its type allows or below 0 |
| `CompressionRuns.LevelsNeverFall` | context/render_cache.go:53-57 | No mutator but the late writes of the warm-up and of the compression engine lowers a level or brings back a removed record |
| `CompressionRuns.LateWriteIff` | context/compress/engine.go:151-245 | A late write, of either, lowers a level exactly if the record was raised above the level written since it was read, revives one exactly if it was removed, and forgets citations exactly if there were some |
| `Witnesses.LateWriteLowers` | context/hybrid.go:1043-1075 | A run at 9 tokens against a budget of 10, where a warm-up starts, in which a user step at level 2 is set back to level 1 by a write read before two emergencies |
| `CompressionRuns.WarmRoundsAreWarmUp` | context/hybrid.go:1066-1074 | Rounds that nothing interrupts add up to the warm-up as one step |
| `CompressionRuns.LockHolds` | context/hybrid.go:249-251 | Per-step decay, batch compression and mechanical reorganisation leave a locked record as it is, at whatever level |
| `CompressionRuns.EmergencyPassesLock` | context/introspect.go:262-293 | Emergency introspection does not read the lock: a locked step at level 0 is raised exactly if it is in front of the tail |
| `CompressionRuns.GlobalRemoval` | context/introspect.go:135-224 | Global introspection removes only uncited steps at level 3 or more; it removes single steps only of the types that can be discarded, and otherwise a whole task group |
| `CompressionRuns.CitedAfterMarking` | context/compress/idle.go:104-120 | A step marked for discarding and cited afterwards is still discarded by the idle path, although both steps of global introspection keep it |
| `Levels.CompressedIff` | context/hybrid.go:631-661 | Batch compression takes a record to a level or beyond if and only if it was there already, or it is unlocked and below its cap and the pressure of all stored tokens reaches the threshold of a level from that one up to the cap; nothing else of it changes |
| `Levels.RisenReached` | context/hybrid.go:643-651 | What batch compression raises has reached the threshold of the level that it is then at |
| `Levels.DecayedIff` | context/hybrid.go:244-275 | Per-step decay takes a record to a level or beyond if and only if it was there already, or it is not the newest, unlocked and below level 3, and the pressure of the tokens stored since its last citation reaches the threshold of such a level |
| `Levels.IngestionIs` | context/hybrid.go:185-242 | An ingestion stores the step with a fresh record at level 0, and lets the others decay exactly if no budget is set or the tokens of the active steps have come up to it |
| `Levels.ReorganizedIff` | context/reorganize.go:146-195 | Mechanical reorganisation takes a record to a level or beyond if and only if it was there already, or it is stored, unlocked and below its cap, not among the newest numbers that are retained unless these are passed over, and its tokens times the active steps, discounted, reach the threshold of such a level |
| `Levels.EnginePicksIff` | context/compress/engine.go:355-397 | The engine picks a stored step of 4000 tokens or more that is unlocked and below its cap if and only if its weight reaches a level above its own, and for the highest such level |
| `Levels.BeforeTailIff` | context/hybrid.go:1066-1068 | A step is in front of the tail exactly if at least as many active steps as are kept have higher numbers |
| `Levels.UrgedIs` | context/introspect.go:262-293 | Emergency introspection raises each stored step in front of the tail by one, unless it is at its cap or at 3 |
| `Levels.WarmedIs` | context/hybrid.go:1066-1074 | The warm-up takes exactly the steps at level 0 in front of the tail to level 1 |
| `Levels.KeptByIntrospectionIff` | context/introspect.go:135-224 | Global introspection keeps a step if and only if it is not masked and uncited, or its type cannot be discarded, it is not marked, and its task group has a step that is not masked and uncited |
| `Levels.RemovedIff` | context/introspect.go:135-224 | What the clean-up removes, and what the archiving, each exactly |
| `Levels.IdleIs` | context/compress/idle.go:67-120 | What idle consolidation does to each record, and what its second half and the clearing of transient steps remove |
| `Levels.CitationsCount` | context/hybrid.go:1170-1194 | Each citation in an output counts for the step it names: a reference, a tenth of strength, the boost of heat up to 100, and a cross-group reference from another group |
| `Levels.MarkedThenCleared` | context/hybrid.go:1127-1163 | A step marked transient in one round goes with the clearing of a later round and not before, and marking changes nothing else |
| `Levels.PressureIs` | context/decay.go:69-99 | The pressure as one formula in the coefficients of a configuration without zeros |
| `Levels.SumIsStored` | context/hybrid.go:287-297 | The tokens of a range are those of the stored steps in it, each once |
| `Witnesses.OutputAlone` | context/hybrid.go:631-661 | A run for every size of a single output: at the default configuration its compression leaves it below 16000 tokens, and takes it to levels 1, 2 and 3 from 16000, 48000 and 128000 on |
| `Compression.CompressionFixpoint` | context/hybrid.go:631-661 | A second batch compression with nothing in between changes no record |
| `Compression.CompressionRaises` | context/hybrid.go:637-661 | Batch compression changes levels only, upwards only and within the cap, reaches the threshold table's target, and leaves locked steps alone |
| `Compression.ReorganizationIdempotent` | context/reorganize.go:146-195 | A second mechanical reorganisation with the same flag changes no record |
| `Compression.SortedIdsAscend` | context/store/jsonl/jsonl_store.go:343-353 | The active identifiers come in ascending order, each once |
| `CompressionEngine.HybridManager.Ingest` | context/hybrid.go:185-228 | Ingestion numbers the step, stores it with a level-0 record and applies per-step decay as the run step of that name does; it starts a warm-up exactly if none is pending and the tokens come near the budget, it resets the idle count, sets the drift hint exactly if drift was found, and then decays the tolerance |
| `CompressionEngine.HybridManager.PerStepDecay` | context/hybrid.go:232-277 | The loop raises every record to its decayed target on its own, or does nothing below the sweet-spot budget |
| `CompressionEngine.HybridManager.TriggerCompression` | context/hybrid.go:620-675 | The loop is the batch compression on values; its result lists exactly the steps whose level changed, ascending, with their new levels, their number and the first and last of them |
| `CompressionEngine.HybridManager.MechanicalReorganize` | context/reorganize.go:146-195 | Collecting the decisions and applying them is the reorganisation on values; the number reported is that of the steps whose level changed |
| `CompressionEngine.HybridManager.ApplyStepDecisions` | context/reorganize.go:120-137 | Every decision in turn discards, raises or leaves its step; the count is that of the decisions naming an active step |
| `CompressionEngine.DecisionIs` | context/reorganize.go:120-137 | One decision discards at -1, and otherwise raises its step to a higher level, if it is active |
| `CompressionEngine.HybridManager.WarmupCompress` | context/hybrid.go:1059-1075 | Uninterrupted, the loop brings the steps before the tail from level 0 to level 1 and changes nothing else; after it no warm-up is pending |
| `CompressionEngine.HybridManager.ProcessCitations` | context/hybrid.go:1170-1194 | Each citation of an active step counts, in order and with repetitions |
| `CompressionEngine.HybridManager.ClearStaleTransients` | context/hybrid.go:1145-1163 | Exactly the stale transient steps lose their records, and the count is their number |
| `CompressionEngine.HybridManager.Expand` | context/hybrid.go:903-962 | An expansion changes the record as the run step does, with one more reference, more strength, cited now, but no heat; it returns the text that the step is rendered with at level 0 or 1, and fails for a step that is not stored |
| `CompressionEngine.HybridManager.MarkTransient` | context/hybrid.go:1127-1141 | Marking fails for an unknown step and otherwise changes that step only |
| `CompressionEngine.Introspector.ExecuteL4Cleanup` | context/introspect.go:135-164 | The loop removes exactly the records that the cleanup condition names, and their cached blocks |
| `CompressionEngine.Introspector.ArchiveTaskGroups` | context/introspect.go:167-224 | Whatever order the groups are taken in, exactly the groups masked and uncited throughout are removed |
| `CompressionEngine.Introspector.EmergencyIntrospection` | context/introspect.go:251-297 | The loop raises every step in front of the tail by one, up to its cap and to 3, drops the cached blocks of the raised ones, and leaves the tail alone |
| `CompressionEngine.Introspector.GlobalIntrospection` | context/introspect.go:59-83 | Clean-up, then archiving, and a cache that is empty afterwards |
| `CompressionEngine.HybridManager.MaybeWarmup` | context/hybrid.go:1043-1056 | A warm-up is started exactly if there is a budget, none is pending, and the share of the budget reaches the ratio |
| `CompressionEngine.HybridManager.ProcessCitationsWithTolerance` | context/tolerance.go:36-66 | The loop cites as the plain one does, and the window learns how many different steps were cited and how many are active |
| `CompressionEngine.Engine.Candidates` | context/compress/engine.go:355-397 | The loop picks exactly the steps that the engine has a target for, with their targets |
| `CompressionEngine.Engine.CompressStepInBatch` | context/compress/engine.go:151-245 | For any target level: what was compressed is what the step is rendered with at levels 1 to 3, no other text changes but the facts behind a mask; at level 4 no text is written, the level is set, and the step is not rendered; an unknown step changes nothing |
| `CompressionEngine.CompressingWrites` | context/compress/engine.go:197-240 | What a compression writes: a text for level 1, its lines as facts for level 2, these and the mask for level 3, nothing for another level, and nothing of another step |
| `CompressionEngine.LinesJoined` | context/compress/engine.go:207-234 | A text split at its line feeds and joined again is the text, so that facts are rendered as they were written |
| `CompressionEngine.IdleConsolidator.Consolidate` | context/compress/idle.go:67-100 | Cited steps gain strength; uncited masked ones of a type that can be discarded are marked |
| `CompressionEngine.IdleConsolidator.ExecutePendingL4` | context/compress/idle.go:104-120 | Exactly the marked records are removed |
| `CompressionEngine.Store.SumTokensOf` | context/hybrid.go:287-297 | The loop adds the tokens of the stored steps of the range |
| `CompressionEngine.Store.TotalActiveTokens` | context/hybrid.go:1025-1039 | The loop adds the tokens of the active steps that are stored |
| `Decay.CitationsNeverRaise` | context/decay.go:50-99 | Citing an already cited step with positive heat, or with heat off, any number of times never raises the level a later pass asks for, over all tokens, groups, types and thresholds |
| `CitationWeights.NeverRaisesIff` | context/hybrid.go:252-261 | For any step cited or expanded before: citing it again raises its level in no pass if and only if its new heat and group factors, over the references and strength it adds, weigh no more than the old ones |
| `CitationWeights.HeatlessNeverRaisesIff` | context/decay.go:145-196 | For a step that was expanded but never cited, its first citation raises it in no pass exactly if a closed condition on the coefficients, its references and its strength holds |
| `CitationWeights.FirstCitationIff` | context/hybrid.go:253-257 | For a step as ingested, the first citation never raises a pass after it if and only if that pass is the very next one and the coefficients allow the first heat |
| `CitationWeights.DefaultsAllowFirstHeat` | context/decay.go:44-66 | The default coefficients do for a step as ingested, but not for one that was expanded before, and with a quarter of the reference weight not for the former either |
| `CompressionRuns.FirstCitationInRuns` | context/hybrid.go:1181-1189 | Over every run a step that was never cited or expanded is as ingested, so that this is exact for it, in every later pass |
| `Witnesses.FirstCitationRaises` | context/hybrid.go:253-257 | Two runs at the default configuration that differ by one citation of a user step: the cited one is at level 1 in the end, the other at level 0 |
| `Witnesses.ExpandedCitationRaises` | context/decay.go:145-196 | Two such runs in which the step was expanded before, and the citation raises it in the very next pass |
| `Decay.HeatlessCitation` | context/decay.go:145-174 | A citation of a step without heat does not raise its heat factor exactly if the boost leaves the decay zone or that zone is neutral |
| `Decay.DecayMonotone` | context/decay.go:69-86 | The pressure is monotone in each factor: tokens, references, strength, cross-group references and heat |
| `Decay.TargetMonotone` | context/decay.go:200-249 | More pressure never asks for a lower level, in whatever order the thresholds are |
| `Decay.TargetWithinCap` | context/decay.go:200-264 | The threshold table never asks for more than the cap of the type |
| `Decay.GroupModFalls` | context/decay.go:123-139 | The cross-group factor is at least 1 and falls with the number of cross-group references |
| `SweetSpot.RunInRange` | context/hybrid.go:1078-1116 | For a rate from 20/21 to 1, in every run 1.0 <= tolerance <= 1.5, the budget is the original one times the tolerance rounded down, and it is between the original and 1.5 times it |
| `SweetSpot.RunsInRangeIff` | context/hybrid.go:1078-1116 | Every run for every positive budget is in that range if and only if the rate is between 20/21 and 1; every positive rate can be configured |
| `SweetSpot.LowRateLeavesRange` | context/hybrid.go:1082-1084 | For every lower rate there is a budget that one report of cached tokens and one decay take out of range |
| `SweetSpot.HighRateLeavesRange` | context/hybrid.go:1082-1084 | So does every higher rate to the budget 2, from the tolerance 1.5 |
| `SweetSpot.NineteenFromTop` | context/hybrid.go:1082-1088 | At the default rate 18 decays do not bring the highest tolerance back, and 19 bring it to exactly 1.0 |
| `SweetSpot.BudgetComesBack` | context/hybrid.go:1078-1089 | After any run, 19 decays in a row restore tolerance 1.0 and the configured budget |
| `SweetSpot.CitationsAdjust` | context/tolerance.go:70-131 | A count of citations raises the tolerance by 15 or 8 percent, up to 1.5, exactly from 30 or 15 citations on per hundred active steps, on average since the first place with any; it lowers it by 5 percent, down to 1.0, below 5; and the budget goes with it |
| `SweetSpot.ReportRaises` | context/hybrid.go:1097-1116 | Reported tokens raise the budget to their sum with the tokens of the context, up to 1.5 times the original, with the tolerance in proportion, and never lower it |
| `SweetSpot.RunUnset` | context/hybrid.go:1104-1115 | Without a configured budget no operation changes anything |
| `SweetSpot.WindowHoldsLatest` | context/tolerance.go:74-76 | The circular buffer holds the last ten counts of the run, each in its place |
| `SweetSpot.SweetSpotBudget.DecayTolerance` | context/hybrid.go:1078-1089 | One decay, with the budget following the tolerance |
| `SweetSpot.SweetSpotBudget.UpdateCacheBudget` | context/hybrid.go:1097-1116 | Cached tokens raise the budget up to 1.5 times the original one, never lower it, and the tolerance with it |
| `SweetSpot.SweetSpotBudget.UpdateSlidingWindow` | context/tolerance.go:70-101 | One count is recorded in place and the tolerance adjusted by the rate of the window |
| `SweetSpot.SweetSpotBudget.AverageRecentRefs` | context/tolerance.go:118-131 | The loop averages the counts from the first positive place of the buffer on |
| `CompactionLock.MutualExclusion` | context/hybrid.go:682-701 | For any number of concurrent callers and every interleaving, at most one is between acquire and release |
| `CompactionLock.BusyIffInFlight` | context/hybrid.go:612-618 | A call gets the busy error exactly while another one is in flight, and then changes nothing |
| `CompactionLock.FreeLockIsTaken` | context/hybrid.go:682-694 | In every run a caller that finds nobody past acquiring gets the lock with the identity it drew |
| `CompactionLock.TransactionLogs` | context/hybrid.go:612-618 | One transaction from call to release adds a start and an end with its identity to the log and leaves the lock free |
| `CompactionLock.LogAlternates` | context/hybrid.go:617-618 | Without a crash the marker log is pairs of start and end with equal identities, and one start more, of the transaction in flight, while a caller is between its markers |
| `CompactionLock.ScanFindsUnfinished` | context/store/jsonl/jsonl_store.go:591-614 | If no two transactions drew one identity, the startup scan finds exactly those that crashes cut off, in order, and one under way |
| `CompactionLock.Lock.TryAcquire` | context/hybrid.go:682-694 | Takes the free lock with the new identity, or fails and leaves it |
| `CompactionLock.Lock.Bracket` | context/hybrid.go:612-618 | A call on its own writes a start and an end with its identity and frees the lock |
| `CompactionLock.Lock.OrphanCompactions` | context/store/jsonl/jsonl_store.go:591-614 | The loop computes the scan |
| `Render.TransparentIffCoherent` | context/render_cache.go:116-143 | Rendering through the cache is the same as rendering from the store, for every step and level, if and only if every cached block is what would be rendered now |
| `Render.RunTransparent` | context/render_cache.go:61-101 | In every run whose writes leave the cached block of their step as it would be rendered, or come after its invalidation, all rendering through the cache is as from the store |
| `Render.StepCoherentIff` | context/render_cache.go:57-59 | One operation keeps the cache coherent if and only if it is not a write that changes the text at the cached level |
| `Render.UnnoticedIff` | context/render_cache.go:57-59 | Writing a level-1 text is harmless exactly if the step is not cached at level 1 or renders the same |
| `Render.FirstNoticedWriteShows` | context/render_cache.go:57-59 | The first write that is not harmless makes some step render differently through the cache |
| `Render.LateTextIsStale` | context/compress/engine.go:200-208 | A step rendered at level 1 before it has a text of that level keeps showing its original text when the engine writes one |
| `Render.TransientUnnoticed` | context/hybrid.go:1127-1137 | Marking a step transient needs no invalidation |
| `Render.RenderedCache.RenderStepWithCache` | context/render_cache.go:116-143 | Returns the cached block of that level or renders and stores it; an unknown step or level is an error that stores nothing |
| `Render.RenderedCache.Get` | context/render_cache.go:61-73 | Hits exactly at the level cached; then the entry is what rendering through the cache shows, and, in a coherent cache, what rendering from the store would give |
| `WindowFit.FitKeepsAndRaises` | context/hybrid.go:518-567 | The fit replaces as few of the first blocks as it takes, each raised one level or truncated, and leaves the rest; if the result still does not fit, every block that could be was |
| `WindowFit.FitKeepsSteps` | context/hybrid.go:532-567 | The fit keeps the number of blocks, their order and their steps |
| `WindowFit.TotalOfBytes` | context/hybrid.go:518-523 | The total is a token for every four bytes of a block, rounded down in each |
| `WindowFit.ShortenedLength` | context/hybrid.go:547-553 | A block that cannot be rendered higher keeps half of its bytes behind the mark, the note of 15, and its closing tag |
| `WindowFit.FitThroughFresh` | context/hybrid.go:539-553 | Through a coherent cache the fit is the one rendered from the store, and the cache stays coherent |
| `WindowFit.FitThroughShape` | context/hybrid.go:532-567 | Through any cache the fit keeps the blocks in place, raises or truncates those it goes through, leaves the others, and goes through all before it gives up |
| `WindowFit.FitRefsSoundIff` | context/hybrid.go:542-545 | In a store that hands out its own records they are sound after a fit exactly if it raised no block past the cap of its step |
| `WindowFit.FitRefsLowersIff` | context/hybrid.go:542-545 | There the fit lowers a stored level exactly if it raises a block shown at a level lower by two or more |
| `ContextBuild.PressedIff` | context/hybrid.go:457-467 | A reorganisation comes before a build exactly if the tokens of the active steps exceed the share of the window |
| `ContextBuild.BuiltFresh` | context/hybrid.go:308-447 | Through a coherent cache the context built is the one rendered from the store, and the cache stays coherent |
| `Truncation.TruncatedLength` | context/hybrid.go:599-606 | The exact length after truncation: it grows exactly if less is cut off than the note put in its place |
| `Truncation.MarkerKept` | context/hybrid.go:573-606 | A cut of two bytes or more keeps the whole marker byte for byte |
| `ContextBuild.BuiltCount` | context/hybrid.go:400-447 | Through any cache of blocks rendered at the levels that there are, a step has exactly one block in the context built if it is shown, and none otherwise |
| `ContextBuilder.Builder.FitToWindow` | context/hybrid.go:518-567 | The in-place loop with its running total leaves blocks, cache and records as the fit does that counts afresh before each block, from any cache |
| `ContextBuilder.Builder.RenderHistory` | context/hybrid.go:400-432 | From any cache the loop yields the tail as original text, the rest at the stored level through the cache, and skips transient steps and those that cannot be rendered |
| `ContextBuilder.Builder.BuildContext` | context/hybrid.go:308-447 | From any cache, after a reorganisation under pressure, the context, the cache and the records are those of the build on values |
| `SummaryCompaction.NothingLost` | context/summary.go:365-416 | Over every run of appends, compactions and restarts with an archive, all user turns are in the session verbatim and in order; the other messages, in order, are the head, the archive and the rest of the session; session and archive are a permutation of everything appended and one summary for each compaction, and the counter counts these, over restarts too if it is saved |
| `SummaryRuns.CompactionLeaves` | context/summary.go:376-437 | A compaction leaves the head, the user messages behind it, one user message that holds the summary between its tags, or else the number of folded messages and the error, and the tail; the fold is archived, and the counters go up by one |
| `SummaryRuns.SummariesStay` | context/summary.go:395-412 | Over every run what a compaction put in place of a fold, the summary if there was one, is in the session inside its tags from then on |
| `SummaryRuns.CompactsIff` | context/summary.go:346-374 | A call compacts if and only if there are more messages than are always kept, one between the head and the longest tail that is no user's, enough tokens to fold unless forced, and no archive that fails |
| `SummaryRuns.ChecksAre` | context/summary.go:305-336 | A usage check notices once from the soft share on, clears below it or when it has noticed, and compacts from the third share on, forced from the last, unless the manager is stuck |
| `SummaryCompaction.CompactIdempotent` | context/summary.go:346-374 | A second compaction with the same force flag changes nothing, whatever the summarizer and archive answer |
| `SummaryCompaction.TailIsLongest` | context/summary.go:454-464 | The kept tail is the longest suffix behind the head within the token budget |
| `SummaryCompaction.AtMostTwoCompactions` | context/summary.go:325-333 | Until the usage falls below the threshold again, usage checks compact at most twice, less the compactions made before; restarts buy no more if the counters are saved |
| `SummaryCompaction.RestartedStuckIff` | context/summary.go:158-165 | After every run a manager that starts again is stuck exactly if the counters are saved and the last compaction of the run was at least the second in a row |
| `SummaryCompaction.RestartUndoesClearingIff` | context/summary.go:325-329 | So a restart sets a flag that is not set exactly if that compaction was one such and the usage has fallen since |
| `SummaryCompaction.ClearingForgotten` | context/summary.go:325-329 | A run of two forced compactions, a low usage and a restart, at the default limits among others: the flag is set, cleared, and set again |
| `SummaryCompaction.RunStuckAtTwo` | context/summary.go:421-424 | In every run the stuck flag is set exactly from the second compaction in a row on |
| `SummaryCompaction.SummaryManager.PlanCompaction` | context/summary.go:441-470 | The loops find the system head and the start of the longest tail, whatever the minimum number of recent messages |
| `SummaryCompaction.SummaryManager.PartitionFold` | context/summary.go:474-483 | The loop parts user messages from the others, both in order |
| `SummaryCompaction.SummaryManager.FoldEconomics` | context/summary.go:487-493 | The loop compares the tokens of the fold with the minimum |
| `SummaryCompaction.SummaryManager.Compact` | context/summary.go:339-437 | Compaction rewrites session, archive and counters as the compaction on values, and fails without changing anything if a part is missing or the archive fails |
| `SummaryCompaction.SummaryManager.MaybeCompact` | context/summary.go:305-336 | The usage check notices once, clears, stays stuck or compacts as the check on values; without a session or summarizer it does the same up to the compaction, which is then an error that changes nothing |
| `IngestPipeline.NothingLostOrReordered` | context/ingest_pipeline.go:152-193 | At every point of every interleaving, accepted = handed over ++ in the worker's hand ++ channel |
| `IngestPipeline.StopDeliversAll` | context/ingest_pipeline.go:110-123 | When Stop returns, every accepted step was handed over exactly once, in the order of acceptance |
| `IngestPipeline.CallsAreDelivered` | context/ingest_pipeline.go:110-143 | At every point of every run the steps of the calls that wait, and of those that do not and find fewer than 100 steps in the channel, are in the order of the calls what was handed over, what the worker holds and what is in the channel; when Stop returns exactly these have been handed over |
| `IngestPipeline.FailuresAreReported` | context/ingest_pipeline.go:159-174 | The errors that Ingest returned while fewer than ten were waiting are read once each, in order, or wait |
| `IngestPipeline.FlushBeginsIff` | context/ingest_pipeline.go:178-191 | A flush begins on a receive exactly if the batch is full with it or the channel is closed and empty, and on a tick exactly if the worker holds anything |
| `IngestPipeline.CancelNeverSeen` | context/ingest_pipeline.go:188-191 | The worker never takes the branch for a cancelled context |
| `IngestPipeline.RefinesSynchronous` | context/ingest_pipeline.go:127-143 | Every step of every run is a step of plain synchronous ingestion from a queue, or none |
| `IngestPipeline.DrainBound` | context/ingest_pipeline.go:177-193 | After the channel is closed the worker takes at most a fixed measure of effective steps in any run |
| `IngestPipeline.DrainProgress` | context/ingest_pipeline.go:177-193 | Until it has exited, such a step is possible |
| `IngestPipeline.DrainWorkBound` | context/ingest_pipeline.go:80-90 | That measure is bounded by the sizes of the channel and the batch |
| `IngestPipeline.FlushRounds` | context/ingest_pipeline.go:159-174 | Rounds of the flush loop, taken one at a time as transitions, add up to handing over the batch |
| `IngestPipeline.Pipeline.Flush` | context/ingest_pipeline.go:159-174 | The loop hands over the whole batch in order and empties it |
| `IngestPipeline.Pipeline.ReceiveStep` | context/ingest_pipeline.go:178-186 | One receive, of a step or of the close |
| `IngestPipeline.Pipeline.SubmitStep` | context/ingest_pipeline.go:127-134 | A step goes to the end of the channel exactly if there is room |
| `IngestPipeline.Pipeline.SubmitStepSync` | context/ingest_pipeline.go:137-144 | A step is taken, or the caller gave up and nothing changes |
| `IngestPipeline.Pipeline.StopBegin` | context/ingest_pipeline.go:110-119 | The first half of Stop; nothing if the pipeline is not running |
| `IngestPipeline.Pipeline.StopEnd` | context/ingest_pipeline.go:119-122 | The second half, once the worker has exited |
| `CanonicalJson.CanonicalIffEqual` | audit/hash.go:76-181 | Two JSON values print to the same text exactly if they are equal |
| `JsonText.ObjectText` | audit/hash.go:140-164 | An object prints as its quoted names, colons and values, between braces with commas, in ascending order of the names |
| `JsonText.KeyOrderIs` | audit/hash.go:140-146 | Names are ordered by their first different characters, a shorter one before the longer ones that it begins |
| `JsonText.ListText` | audit/hash.go:167-181 | A list prints as its items between brackets with commas |
| `JsonText.PlainText` | audit/hash.go:76-138 | Null, truth values, numbers and strings print as their word, numeral or quoted text |
| `JsonText.EscapedIsRead` | audit/hash.go:110-138 | A reader of section 7 of RFC 8259 reads what a string prints as back as the string |
| `JsonText.EscapedIsHarmless` | audit/hash.go:110-138 | It has no control character in it, none that matters in HTML, and no line separator |
| `CanonicalJson.PrintedCancels` | audit/hash.go:76-181 | Printing is uniquely readable in any context: equal texts with any ends behind them come from equal values and equal ends |
| `CanonicalJson.AscendingUnique` | audit/hash.go:140-146 | A set of keys has one ascending order, so the iteration order of the map cannot matter |
| `CanonicalJson.Marshal` | audit/hash.go:76-138 | The printer computes the canonical text of every value |
| `CanonicalJson.MarshalMap` | audit/hash.go:140-164 | The map loop computes it whatever order the keys were collected in |
| `CanonicalJson.MarshalSlice` | audit/hash.go:167-181 | The slice loop computes it |
| `CanonicalJson.CollectKeys` | audit/hash.go:141-146 | Keys collected in any order and sorted are the ascending list of them |
| `AuditLog.FinalHashPinsChain` | audit/verify.go:43-74 | Two chains that verify, start at a root and end in one hash are equally long and agree in every hashed text, link and hash, or two of their hashed texts are a collision of the digest |
| `AuditLog.SuffixPinned` | audit/verify.go:56-66 | Going back from equal final hashes the entries agree as far as both chains reach, or two of their texts collide |
| `AuditLog.AcceptedIff` | audit/verify.go:43-74 | A list is accepted if and only if it has no gap, each entry links to the one before it, has the digest of its own fields, and, with a key, carries the MAC of its hash |
| `AuditLog.FaultIff` | audit/verify.go:43-74 | Which fault is reported on an entry: a gap, else a broken link, else a wrong hash, else a wrong signature |
| `AuditLog.KeptSignatureFails` | audit/sign.go:51-63 | A list in which an entry keeps its signature while its hash comes to have another MAC is not accepted: there is a fault at that entry, if not before |
| `AuditLog.RunRecords` | audit/chain.go:100-152 | After every such run memory holds as many of the newest drafts as the limit allows; each entry has its draft's source, action, input, output and time, or the clock's, the MAC if there is a key, the digest of its fields, and the link to the one before it |
| `AuditLog.RunBeginsAtRoot` | audit/chain.go:112-132 | Without a limit its first entry is a root |
| `AuditLog.PreimageGivesLink` | audit/hash.go:49-56 | The link of an entry can be read off its hashed text |
| `AuditLog.RunVerifies` | audit/chain.go:100-152 | Every run of appends of blank entries to an enabled chain leaves one that verifies, with or without a key, and memory holds exactly the newest entries under the limit, sealed, in order |
| `AuditLog.AppendKeepsIntact` | audit/chain.go:100-152 | An append keeps a chain verifiable if and only if the entry is appendable: its link and hash are blank or already right |
| `AuditLog.PreimageDeterminesValues` | audit/hash.go:49-56 | With the other fields fixed, other values of input and output have the same hashed text exactly if all four are numbers whose numerals run together alike |
| `AuditLog.NumbersRunTogether` | audit/hash.go:49-56 | Two entries with different numbers have the same hashed text and hash |
| `AuditLog.SourceActionBoundary` | audit/hash.go:49-56 | Source and action share a hashed text exactly if their concatenations are equal |
| `AuditNames.DeterminedIff` | audit/hash.go:49-56 | Under any set of sources and actions the hashed text determines link, timestamp, source, action and values, but for four numbers that run together, if and only if no two names print alike and none goes on where another ends with what can be read as part of two values |
| `AuditNames.PlainDeterminedIff` | audit/hash.go:49-56 | For names without quotation marks and opening brackets that is: no name goes on where another ends with a word or number, the beginning of a number, or the one and then the other |
| `AuditNames.RunsIntoIff` | audit/hash.go:49-56 | Two values print as such a text followed by two values exactly if it is a word or number, the beginning of a number, or the one and then the other |
| `AuditNames.ClosedNamesDetermined` | audit/hash.go:49-56 | If every name ends in one character that no name has before, it is enough that no two print alike |
| `AuditNames.ActionRunsIntoValue` | audit/hash.go:49-56 | The action a1 with the input 2 and the action a with the input 12 have one text and hash |
| `AuditLog.SignedVerifies` | audit/sign.go:37-63 | A signed entry passes the check of its signature |
| `AuditLog.AuditChain.Append` | audit/chain.go:100-152 | Append fills, signs, links, counts and cuts as the append on values; a nil entry or a disabled chain changes nothing |
| `AuditLog.AuditChain.VerifyChain` | audit/verify.go:39-75 | The verifier accepts exactly the chains without a fault, and reports the least failing index with its first reason; what it accepts with a key carries the MAC in every entry |
| `AuditLog.AuditEntry.Seal` | audit/chain.go:112-132 | The blank timestamp, link and hash are filled in, and the signature set if there is a key |
| `ResultCache.EvictedIsLongest` | action/cache.go:198-206 | Eviction leaves the longest prefix of the recency order that fits both limits |
| `ResultCache.RunFits` | action/cache.go:165-206 | After every run the cache is within both limits, or empty |
| `ResultCache.RunWithinLimits` | action/cache.go:165-206 | That is, no more entries and no more bytes than the limits say |
| `ResultCache.PutIsHeld` | action/cache.go:165-206 | An item that fits on its own is in front after it was put |
| `ResultCache.ServedAgain` | action/cache.go:82-102 | A success that fits is served until its deadline: a second call is answered with it and not passed on |
| `ResultCache.PassedOn` | action/cache.go:82-102 | A call without a hit is passed on and its outcome returned; a failure leaves the cache as the lookup did |
| `ResultCache.HitIsLastPut` | action/cache.go:144-163 | In every run a get hits exactly if the key is still held and the deadline it was last put with has not passed, and it returns the value put last |
| `ResultCache.RunByRecency` | action/cache.go:144-195 | In every run the list is in the order of last use, so that eviction drops what was not used for longest |
| `ResultCache.RunDistinct` | action/cache.go:165-195 | In every run the recency list holds each key once |
| `ResultCache.ExecutedSuccesses` | action/cache.go:82-102 | Only successful results are ever kept |
| `ResultCache.LruTtlCache.Get` | action/cache.go:144-163 | Lookup, expiry and move to front, with map, list and byte count kept in step |
| `ResultCache.LruTtlCache.Put` | action/cache.go:165-195 | The put entry comes to the front and exactly the longest fitting prefix stays, with map, list and byte count kept in step |
| `ResultCache.LruTtlCache.Evict` | action/cache.go:198-206 | The loop drops from the back as the eviction on values does |
| `ResultCache.LruTtlCache.RemoveElement` | action/cache.go:208-213 | The element leaves list, map and byte count together |
| `ResultCache.CachedExecutor.Execute` | action/cache.go:82-102 | A hit is returned without calling the wrapped executor; otherwise its outcome is, and only a success is put |
| `AccessPolicy.EvaluationIs` | approval/access_policy.go:28-69 | One policy approves exactly what is allowed and not denied, denies exactly what is denied, or not allowed and above its level, and decides nothing otherwise |
| `AccessPolicy.MergedApprovesIff` | approval/access_policy.go:74-125 | The merged policy approves exactly what every non-nil policy approves, if there is one |
| `AccessPolicy.MergedDenies` | approval/access_policy.go:74-125 | It denies whatever any of them denies |
| `AccessPolicy.MergedDeniesIff` | approval/access_policy.go:74-125 | It denies exactly what is on some denied list, or not allowed by all and above a level that any of them sets |
| `AccessPolicy.MergedDeniesMore` | approval/access_policy.go:108-110 | So it can deny a request that one policy approves and the other leaves open |
| `AccessPolicy.MergeOrderIrrelevant` | approval/access_policy.go:84-116 | The order and repetition of the policies do not change any decision |
| `AccessPolicy.MergeInStages` | approval/access_policy.go:74-125 | Merging in stages decides as merging at once, provided no stage is without a policy |
| `AccessPolicy.MergePolicies` | approval/access_policy.go:74-125 | The loops compute a merge: union of the denied lists, intersection of the allowed ones, a strictest level; nil exactly for no arguments |
| `AccessPolicy.EvaluatePolicy` | approval/access_policy.go:28-69 | The loops compute the evaluation: denied list, allowed list, risk, in this order |
| `ApprovalManager.GlobalDenialStands` | approval/manager.go:159-210 | What the global policy denies is denied by Submit and Resolve whatever policy the request brings, and never stored as pending |
| `ApprovalManager.ApprovalNeedsEvery` | approval/manager.go:76-90 | A policy approval is one by the global policy and by the request's own, as far as they are set |
| `ApprovalManager.HandlerAnswers` | approval/manager.go:143-171 | Where the policies decide nothing a registered handler's answer is the answer, as it is |
| `ApprovalManager.PoliciesAnswer` | approval/manager.go:143-171 | Where they do, it is their decision under the handler's name; without such a handler it is an error either way |
| `ApprovalManager.StoredIff` | approval/manager.go:194-246 | A submission is stored as pending under the next number if and only if the policies decide nothing and there is no default handler, or that one leaves it pending |
| `ApprovalManager.AnsweredAtOnce` | approval/manager.go:194-246 | Otherwise it is answered at once, by the policies or by the default handler |
| `ApprovalManager.SettledOnce` | approval/manager.go:250-268 | A pending record is settled as the approver says, and what is said of it afterwards is an error that changes nothing |
| `ApprovalManager.HandlersAfter` | approval/manager.go:94-130 | The handlers and the default after registering, taking away and setting the default |
| `ApprovalManager.PolicyInForce` | approval/manager.go:68-72 | Over every run the global policy is the one that was set last |
| `ApprovalManager.RecordFate` | approval/manager.go:250-268 | Over every run a stored record is kept with its request and settled by the first attempt to resolve it, and never changes after |
| `ApprovalManager.SubmissionIsNew` | approval/manager.go:232-245 | A stored submission gets an identifier no earlier record has |
| `ApprovalManager.RunSound` | approval/manager.go:94-131 | Over every run records are numbered without a gap under their own identifiers, and a default handler is registered |
| `ApprovalManager.AskedIff` | approval/manager.go:143-171 | What a handler answers makes a difference to Resolve, and to Submit, exactly if the policies together decide nothing |
| `ApprovalManager.RequiredAskedIff` | approval/types.go:133-135 | Under a policy with RequireApproval set a handler is asked exactly if the capability is on neither list and no set level is exceeded |
| `ApprovalManager.ApprovedUnasked` | approval/types.go:133-135 | A request for a capability that such a policy lists as allowed is approved where there is no handler at all |
| `ApprovalManager.StoredIds` | approval/manager.go:232-245 | After every run the identifiers found are approval_1 to approval_n, n being the number of submissions stored |
| `ApprovalManager.PolicyApprovalManager.EffectivePolicy` | approval/manager.go:76-90 | The effective policy decides as both policies together |
| `ApprovalManager.PolicyApprovalManager.Resolve` | approval/manager.go:143-171 | Errors, then the policies, then the handler |
| `ApprovalManager.PolicyApprovalManager.Submit` | approval/manager.go:194-246 | Policies, then the default handler, then a pending record |
| `ApprovalManager.PolicyApprovalManager.ResolveRecord` | approval/manager.go:250-268 | Only a pending record changes, and only its status and approver |
| `Base64.DecodingIffEncoding` | cli/tui_selection.go:102-131 | A text decodes to some bytes, by section 4 of RFC 4648, if and only if it is the encoding of these bytes |
| `Base64.TestVectors` | cli/tui_selection.go:102-131 | The test vectors of section 10 of RFC 4648 |
| `Base64.EncodingShape` | cli/tui_selection.go:108-129 | The encoding is 4 x ceil(n/3) long and has `=` only at its end, in at most the last two places |
| `Base64.Encode` | cli/tui_selection.go:102-131 | The loop computes the encoding |
| `Decay.TargetIsHighestReached` | context/decay.go:200-249 | The target is the highest level that the type allows and whose threshold is reached |
| `Decay.ZeroFallsBack` | context/decay.go:44-66 | A zero coefficient stands for its documented default, and filling the defaults in changes no pressure |
| `Decay.HistoricalFormula` | context/decay.go:47-49 | With no configuration the pressure is the historical formula |
| `Decay.GroupModNeutralIff` | context/decay.go:118-127 | Cross-group ageing sets in exactly for steps of earlier groups |
| `Decay.GroupModProportional` | context/decay.go:122-139 | It grows in proportion to the distance between the groups |
| `Citations.MarkCitesStep` | context/hybrid.go:1167-1179 | Quoting the mark of a rendered step cites that step and nothing else |
| `Render.WrittenIsShown` | context/render_cache.go:147-187 | A text written for a level is what the step is rendered with at it, and no other step or level renders differently |
| `Truncation.ClosingTagIs` | context/hybrid.go:589-597 | The closing tag of a body is the first in the list that its last bytes spell, in capitals or not |
| `Truncation.TruncatedSuffix` | context/hybrid.go:589-606 | A closing tag stays at the end of what is truncated |
| `SummaryCompaction.Estimate` | context/summary.go:496-502 | A token for every four bytes, rounded down, and one at least |
| `CompactionLock.Lock.ReleaseLock` | context/hybrid.go:697-701 | The lock is free, as after the release transition |
| `IngestPipeline.Pipeline.StartWorker` | context/ingest_pipeline.go:98-107 | Starting a running pipeline changes nothing, a first start is the transition, and a start after a stop marks the pipeline as running |
| `IngestPipeline.Pipeline.constructor` | context/ingest_pipeline.go:80-95 | A new pipeline is the initial state, with a positive batch size |
| `ApprovalManager.PolicyApprovalManager.SetPolicy` | approval/manager.go:68-72 | Only the global policy changes |
| `ApprovalManager.PolicyApprovalManager.RegisterHandler` | approval/manager.go:94-103 | A name in use is an error unless it is to be replaced |
| `ApprovalManager.PolicyApprovalManager.UnregisterHandler` | approval/manager.go:107-118 | Taking a handler away also takes it away as the default |
| `ApprovalManager.PolicyApprovalManager.SetDefaultHandler` | approval/manager.go:122-130 | Only a registered handler becomes the default |
| `ApprovalManager.PolicyApprovalManager.GetRecord` | approval/manager.go:271-279 | Finds exactly the identifiers of the manager's value (`StoredIds` says which these are), as the record stands now (`RecordFate`) |
| `Render.RenderedCache.Set` | context/render_cache.go:76-87 | A coherent cache stays coherent if and only if the block set is what would be rendered now at that level |
| `Render.RenderedCache.Invalidate` | context/render_cache.go:97-101 | From then on the step renders as from the store at every level, whatever its texts are, and coherence is kept |
| `Render.RenderedCache.InvalidateAll` | context/render_cache.go:90-94 | From then on every step renders as from the store at every level, whatever the texts are |
| `SweetSpot.SweetSpotBudget.AdjustTolerance` | context/tolerance.go:105-115 | The tolerance is scaled and clamped to its range, and the budget follows |
| `CompactionLock.Lock.RecordMarker` | context/hybrid.go:715-723 | One marker with the identity of the transaction in flight |
| `ContextBuilder.Builder.UnderPressure` | context/hybrid.go:457-467 | Whether the active tokens exceed the threshold share of the window |
| `SummaryCompaction.SummaryManager.RewriteSession` | context/summary.go:376-437 | The second half of a compaction: archive, one tagged summary or marker in place of the fold, counters, and the counters saved |
| `SummaryCompaction.SummaryManager.constructor` | context/summary.go:128-168 | Missing settings take their defaults, and the counters are those saved, or zero, as after a restart |
| `AuditLog.AuditChain.Record` | audit/chain.go:112-148 | The part of an append under the lock |
| `ResultCache.CachedExecutor.constructor` | action/cache.go:63-79 | Missing limits and lifetimes take their defaults |

## Left out

- Decay.CitationsNeverRaise: for non-negative coefficients, as everywhere; a negative weight can make a denominator zero, which a float turns into an infinity.
- CompressionRuns.RunValid: level decisions by an LLM (`Reorganize`), which may exceed a cap, are not among the run's steps.
- CompressionEngine.HybridManager.Ingest: what the drift check finds is a parameter.
- CompressionEngine.HybridManager.Expand: the token counts and warnings beside the text are not modelled.
- CompressionEngine.Engine.CompressStepInBatch: what the model answers is a parameter, with its checks and fallbacks; that tool calls and their results are only compressed together is not modelled, it leaves candidates out.
- CompressionEngine.Introspector.GlobalIntrospection: the checkpoint and archive files are not modelled.
- ContextRuns.UserInEveryBuild: in a store that hands out its own records for the runs of `ContextRuns.RunValidIff`; `SharedRecords.UserLost` is a run outside them.
- ContextRuns.RunValidFromStore: for runs in which no write should have been noticed by the cache; `ContextRuns.RunValidIff` is for all, in terms of the fit.
- Locks.LockKeptIff: for steps locked at level 0; a lock set at a higher level does not bring the original text back, although the tool that sets it reports level 0.
- SharedRecords.UserLost: for the default coefficients and thresholds, outputs of 200000 tokens, and a window that the blocks around the history fill already.
- Witnesses.LateWriteLowers: for a kept tail of one step.
- One manager on a fresh store: every run begins at an empty one. A new manager on a store with content counts its steps from 1 again and overwrites them.
- CompressionRuns.LockHolds: for a store that keeps every field of a record, as the JSONL store does; the SQLite store has no columns for the lock, the heat and the cross-group references.
- CompactionLock.ScanFindsUnfinished: assumes that no two transactions drew the same random identity. Markers are always written; the code ignores a marker that fails.
- IngestPipeline.StopDeliversAll: one start, one stop and nothing submitted after it. A submit after the close, or a second stop after a restart, panics.
- IngestPipeline.Pipeline.StartWorker: the second worker that a start after a stop adds is not modelled; it finds the channel closed and ends.
- AuditNames.PlainDeterminedIff: for names without quotation marks and opening brackets; for others `AuditNames.DeterminedIff` speaks of values. Timestamps end in `Z`, as UTC ones do, and numbers are those of section 6 of RFC 8259.
- AuditLog.RunVerifies: drafts whose link and hash are blank; `AuditLog.AppendKeepsIntact` is exact for the others.
- SummaryCompaction.NothingLost: with an archive directory; without one the folded messages are dropped.
- SummaryCompaction.SummaryManager.RewriteSession: a state file that cannot be written, and the time and archive path in it, are not modelled.
- Truncation.Truncated: compares closing tags after lower-casing ASCII letters only; two letters outside ASCII lower-case to ASCII ones.
- ApprovalManager.PolicyApprovalManager.Submit: the times of a record and the wording of reasons are not modelled.
- The JSONL, SQL and Redis stores, files, networks, the sandbox, MCP, and the parsing of model output: input and output. The step store is maps; that two holders share one record is modelled where the fit or a late writer holds one.
- LLM calls: a summary is any text. `Reorganize` with its level decisions is not part of this model.
- The wording of context blocks other than the history (constitution, head, facts, backtrack, hint): they are any blocks with numbers that are no step's.
- Fusion retrieval, search, how drift is detected, long-term memory and health checks: heuristics with little to state.
- Shown.ContextReads: for runs in which no write should have been noticed by the cache, and blocks around the history with numbers that are no step's.
- Shown.QuotedBlockIsCited: for the five known types, as below.
- Levels.PressureIs: for a configuration without zeros; `Decay.ZeroFallsBack` says what zeros stand for.
- Citations.MarkCitesStep: for the five known types; the name of another type could itself contain a section sign.
- Escapes and numerals: strings are sequences of characters, escaped as encoding/json does for valid text, and a number is its one numeral; the printer's theorems hold for a wider class of numerals than section 6 of RFC 8259 has.
- IEEE rounding and integer width: floats are reals and Go's `int` is unbounded.
- `SourceStepIDs` of blocks and the hash kept beside a cached block: they are written and not read.
- Concurrent calls of the context manager's mutators other than the warm-up and the compression engine: each mutator is one step.
- Handlers that change state, `ListHandlers`, `ListRecords`, `Stats`, ring buffers, query filters and tool registries: they would only add easy members.
- The terminal user interface beside the encoder, and the command line.
