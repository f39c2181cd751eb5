# Verified model of the story engine's protocols

A Dafny 4.11 model of the parts of the Telegram/SillyTavern story engine that are protocols, state machines, budgets
and byte formats rather than plumbing, with proofs of what they promise. `dafny verify dfyconfig.toml` checks it all.

How the model is built:

- Every region under a lock, and every `write_transaction` with the triggers it fires, is one atomic step. Steps are
  total functions on a state value; classes carry the same steps as statements that update fields, and each method is
  proved equal to its function. Runs are sequences of steps with every interleaving allowed.
- Loops of the source are loops here, proved against recursive functions; the promises are lemmas about those functions.
- Foreign functions are parameters with a stated contract: JSON, base64, `struct` words and CRC-32 (inverse pairs or
  uninterpreted), `str.casefold`, and `str.strip` in World Info. A digest of a text is modelled by the text.
- Integers are unbounded as in Python; token ratios and budgets use exact reals.

Where a promise is false of the code, the code is kept, the condition under which it holds is proved, both ways unless
marked, and a concrete input or run shows the failure:

- A job the executor refuses while the scheduler still accepts is re-queued without a restart: `WakeupLostExactly` and
  `RefusalWakes` say when it is lost, `RefusalLosesAJob` is a run from the start.
- The finale triggers do not watch cross-session moves of unchanged rows: `TracksFinaleNext`, and the run
  `MovedRowIsStillNamed`. No code under bridge/ updates the chat or session of a message, so such a move takes direct SQL.
- Saving settings with the same text keeps a story ready, but blocks its finale: `SavedSettingsAndReadiness`, and the run
  `SavedAgainIsRefused`.
- Packing history fails on turns of more than 4096 pieces or encoded texts beyond the character limit: `PackIsLossless`,
  and the prompts of `LongTurnIsRefused`.
- Clearing a nested card field uncovers a top-level value under the same key: `WriteStoresFields`, and the card of
  `ClearedFieldComesBack`. A rewrite that crosses the 8 MiB image limit loses the fingerprint: `WriteKeepsFingerprint`,
  and the file of `FingerprintIsLost`.
- Over budget need not mean exhausted where a message carries no span record: `OverBudgetIsExhausted` gives a sufficient
  condition, one way, and `NestedSectionSurvives` the text.
- A World Info key with a newline can match across two texts: without one the bounds hold (`ActivatedIsBelowClosed`, one
  way), and `NewlineKeyEscapes` is the world.

| files | subject |
|---|---|
| `Scheduler`, `SchedulerRuns`, `SchedulerSafety`, `SchedulerWakeup` | ordered background scheduler |
| `Ending`, `EndingProofs`, `EndingStore`, `EndingWitness`, `EndingLaws` | ending lifecycle, its triggers and its leases |
| `ActionCheck`, `ActionLaws`, `Director`, `DirectorLaws` | action adjudication and Director planning leases |
| `Compaction`, `CompactionPhases`, `CompactionEstimates`, `CompactionSurvival`, `CompactionTheorems`, `CompactionLaws`, `PromptLaws`, `TagSections`, `TagWitness`, `ContextBudget` | prompt budgeting |
| `Spans`, `Selection` | optional spans and the memory selection that rewrites them |
| `HistoryCodec`, `HistoryRoundTrip`, `HistoryLoops`, `HistoryReading`, `HistoryLaws`, `HistoryWitness` | lossless history dictionary |
| `Png`, `PngProofs`, `PngLoops`, `PngLaws` | character metadata in PNG files |
| `CheckpointRemap`, `CheckpointProofs`, `CheckpointLaws` | row references in checkpoints |
| `WitnessCycles`, `Activation`, `WorldInfo` | cycle search and World Info activation |
| `Coverage`, `Documents` | source coverage, chunking and tag stripping |

## Model

| member | source | states |
|---|---|---|
| `Scheduler.ChatScheduler.SubmitChat` | bridge/background.py:349-375 | a chat job is refused after shutdown, for a new chat beyond the queue limit or on a full queue, and otherwise appended; a start is asked for exactly when the chat was not active |
| `Scheduler.ChatScheduler.TakeNextJob` | bridge/background.py:310-322 | nothing for a chat in flight, retirement of an empty queue, nothing without a permit of the head job, and otherwise the head popped with its permit and the chat put in flight |
| `Scheduler.ChatScheduler.ReturnRejectedJob` | bridge/background.py:324-330 | a job the executor refused goes back to the head of its queue, or after shutdown retires its chat |
| `Scheduler.ChatScheduler.BeginShutdown` | bridge/background.py:247-255 | one region ends acceptance and empties queues and the active set, leaving chats in flight and permits alone |
| `SchedulerSafety.SafeAlways` | bridge/background.py:286-375 | over every interleaving of submissions, starts, refusals, completions and shutdown: permits are conserved, one carrier per chat in flight, active set and queues agree, order and bounds hold |
| `SchedulerSafety.ReleaseNeverOverflows` | bridge/background.py:211-236 | in every run a thread about to release a permit holds one, so no bounded semaphore is released beyond its capacity |
| `SchedulerSafety.OneJobPerChat` | bridge/background.py:306-346 | in every run at most one thread carries a chat, from the pop to the end of its completion |
| `SchedulerSafety.StartsInSubmissionOrder` | bridge/background.py:306-375 | in every run what a chat has started is a prefix of what was accepted for it |
| `SchedulerSafety.NothingStartsAfterShutdown` | bridge/background.py:247-255 | after shutdown no step of any run accepts, queues or starts a job |
| `SchedulerSafety.SubmissionExactly` | bridge/background.py:349-375 | from every reachable state a job is appended exactly while the scheduler accepts, the chat has a queue or fewer than 1024 have one, and fewer than 256 of its jobs wait; only then a thread is started, and only for a chat that was idle |
| `SchedulerSafety.TakesExactly` | bridge/background.py:306-322 | a thread about to take a chat takes its head job exactly when the chat is not in flight and a permit of that job’s class is free; a chat with nothing left goes idle; nothing else changes |
| `SchedulerSafety.IdleExactly` | bridge/background.py:306-375 | in every run a chat is idle only with nothing queued and everything accepted started |
| `SchedulerSafety.PermitLimits` | bridge/background.py:22-24 | in every run at most six generation jobs and four of each other class hold a permit |
| `SchedulerWakeup.NoLostWakeup` | bridge/background.py:291-375 | if the executor refuses only after shutdown: queued work of a chat that is not in flight always has a thread about to try it, or an exhausted permit class with a holder that will dispatch |
| `SchedulerWakeup.WakeupLostExactly` | bridge/background.py:291-346 | whatever the executor answers, in any accepting state a step of a thread leaves an awake chat waiting with nobody to try it exactly when it puts a refused job of that chat back under a free permit, or releases without a dispatch the permit the chat waited for, and neither another thread nor this one is about to try it |
| `SchedulerWakeup.AwakeUntilLost` | bridge/background.py:291-375 | in every run, refusals included, a chat stays awake as long as no such step happens |
| `SchedulerWakeup.RefusalWakes` | bridge/background.py:323-335 | from any accepting state, a refused job is put back at the head with its permit free, and will be tried again exactly when another thread was about to try its chat or the refusing call resumes into it |
| `SchedulerWakeup.QuiescentIsDrained` | bridge/background.py:286-375 | when every thread has finished, all permits are free, nothing is queued, active or in flight, and every accepted job has started |
| `SchedulerWakeup.Progress` | bridge/background.py:291-346 | every step of a thread decreases a measure of unfinished jobs, pending dispatches and remaining regions |
| `SchedulerWakeup.EveryAcceptedJobStarts` | bridge/background.py:291-346 | from every reachable accepting state, letting the threads run leads to a state where every accepted job has started |
| `SchedulerWakeup.RefusalStrands` | bridge/background.py:323-332 | the last running thread strands the popped job exactly when the executor refuses it while the scheduler still accepts |
| `SchedulerWakeup.RefusalLosesAJob` | bridge/background.py:323-332 | a run from the start: one submission refused at once; all threads finish, all permits are free, and neither further steps nor further jobs for that chat ever start it |
| `EndingStore.Store.InsertMessage` | bridge/closed_story_schema.py:30-36 | an insert and the triggers it fires: the closing guard, the finale row, readiness, the clock, as one step |
| `EndingStore.Store.EditMessage` | bridge/ending_work_schema.py:29-38 | an edit or move and its triggers: guards, recomputed finale row, readiness, clock |
| `EndingStore.Store.SetEndingGoal` | bridge/ending_service.py:105-162 | a goal change drops readiness, bumps the goal revision, publishes by compare-and-set and appends to the history, or does nothing on any refusal |
| `EndingStore.Store.MarkFinaleReady` | bridge/ending_service.py:165-215 | readiness quotes the history, rewrite, settings and row clocks of the transaction that publishes it, and is refused with more than 128 unresolved arcs |
| `EndingStore.Store.AcceptResolution` | bridge/ending_reconciliation.py:36-86 | an accepted resolution copies the tracked finale row and moves to resolved, or leaves the story alone |
| `EndingStore.Store.ClaimEndingWork` | bridge/ending_repository.py:116-127 | the lease is taken only when none is live, and the new token replaces the old one |
| `EndingStore.Store.CommitEpilogueRow` | bridge/closed_story_schema.py:30-36 | the one insert a closing story admits, by the lease holder, with its lifecycle change |
| `EndingProofs.ReadinessIsCurrent` | bridge/ending_schema.py:19-49 | in every run a ready story quotes the live history revision, rewrite revision and latest row |
| `EndingProofs.ReadyFreezes` | bridge/ending_schema.py:30-49 | a story still ready at the revision of mark_finale_ready has seen no message inserted, edited, deleted or moved and no settings text changed |
| `EndingProofs.SavedSettingsAndReadiness` | bridge/ending_schema.py:47-50 | saving settings keeps readiness exactly when the text is the same, and even then no later run reaches a finale until readiness is marked anew |
| `EndingWitness.SavedAgainIsRefused` | bridge/narrative_checkpoints.py:88-112 | a run of a new story: ready, its settings saved again with the same text, still ready, and the start of its finale with every revision current refused |
| `EndingLaws.ReadyStoriesAreReconciled` | bridge/ending_service.py:65-72 | in every run a ready story has nothing invalidated, a reconciliation of the current history that reaches every row, and a row |
| `EndingLaws.StagesAreReconciled` | bridge/ending_service.py:65-72 | in every run the steps into readiness, the finale, the resolution, the epilogue and the close find the story so reconciled |
| `EndingLaws.ChangeUnreconciles` | bridge/narrative_runtime_schema.py:7-66 | in every run a change of the transcript leaves the story unreconciled |
| `EndingLaws.ReadyExactly` | bridge/ending_service.py:165-215 | readiness is given exactly to an open, reconciled, developed closed story with at most 128 open arcs, over the revisions the caller read |
| `EndingLaws.FinaleExactly` | bridge/narrative_checkpoints.py:88-112 | the finale starts exactly from readiness given for the current state and settings revisions, and its checkpoint is the last row |
| `EndingLaws.ResolvesExactly` | bridge/ending_reconciliation.py:36-86 | a resolution is accepted exactly in a finale reconciled through its last row, in its resolution phase, with no open arc, on evidence of assistant rows with the finale row among them |
| `EndingLaws.EpilogueCommitsExactly` | bridge/epilogue_service.py:226-246 | the epilogue is committed exactly by the worker that holds the lease over the clock and revision it read, as the one new row |
| `EndingLaws.ClosesExactly` | bridge/epilogue_service.py:249-275 | a story closes exactly when its epilogue is committed and reconciled, by the lease holder |
| `EndingLaws.GoalChangesExactly` | bridge/ending_service.py:105-162 | a goal changes exactly before the finale, to another text within the limit, over the revisions read, and for the Director only in a reconciled closed story; the history gets the change and readiness is gone |
| `EndingLaws.RowsChangeExactly` | bridge/finale_checkpoint_schema.py:20-40 | a row is edited or deleted exactly until the resolution and beyond the checkpoint, and each change moves state and history by one and invalidates from the row on |
| `EndingLaws.InsertsExactly` | bridge/narrative_runtime_schema.py:7-66 | an insert is a rewrite exactly when a reconciliation already reached beyond it |
| `EndingLaws.WorkLeaseHolds` | bridge/ending_repository.py:116-127 | in every run of a closing story a live work lease is neither taken nor lost within 600 seconds, and after them goes to who asks |
| `EndingProofs.ReadyHasSettingsNext` | bridge/ending_service.py:189-192 | every step keeps a settings row under a ready story |
| `EndingProofs.TracksFinaleNext` | bridge/ending_work_schema.py:24-46 | one step keeps the recorded finale row equal to the greatest assistant row after the checkpoint exactly when it is not a cross-session move the triggers do not watch |
| `EndingWitness.MovedRowIsStillNamed` | bridge/ending_work_schema.py:24-46 | a run of a new story into its finale, whose one finale row is moved to another session unchanged and is still named |
| `EndingProofs.FinaleRowInEveryRun` | bridge/ending_reconciliation.py:36-86 | in every run without such a move the finale row is the greatest assistant row and an accepted resolution names it |
| `EndingProofs.LifecycleStep` | bridge/ending_values.py:62-65 | every step, triggers included, takes at most one permitted edge |
| `EndingProofs.LifecycleNeverGoesBack` | bridge/ending_values.py:62-65 | from the finale on the lifecycle only moves forward |
| `EndingProofs.ChainNext` | bridge/ending_repository.py:94-103 | each step keeps the goal history a chain: consecutive revisions, each previous goal the one before, the newest the current goal |
| `EndingProofs.GoalFrozenFromFinale` | bridge/ending_service.py:133-134 | from the finale on goal, goal revision and history never change |
| `EndingProofs.PrefixFrozenFromFinale` | bridge/finale_checkpoint_schema.py:20-40 | from the finale on the rows up to the checkpoint are never edited, moved or deleted |
| `EndingProofs.ClosingStoryIsImmutable` | bridge/closed_story_schema.py:29-74 | in every run of a closing story rows, resolution and checkpoint stay, and the only new row is the epilogue of the commit stage |
| `EndingProofs.CompletedEndingIsFrozen` | bridge/closed_story_schema.py:50-81 | a closed ending keeps its frozen columns and every row |
| `EndingProofs.SupersededWorkerIsFenced` | bridge/ending_repository.py:116-149 | a worker whose lease was taken over can stage, publish, commit, close or release nothing, in every later run in which it does not claim the lease anew |
| `ActionCheck.PreflightTable.ReservePreflight` | bridge/action_repository.py:37-71 | a row is opened or an expired lease renewed with the new token; a live lease or a decided row is refused |
| `ActionCheck.PreflightTable.FinishPreflight` | bridge/action_repository.py:85-104 | a receipt is stored only over the caller’s own undecided token |
| `ActionCheck.PreflightTable.AbandonPreflight` | bridge/action_repository.py:106-119 | only the caller’s own undecided row is dropped |
| `ActionCheck.RollOnce` | bridge/action_adjudication.py:142-238 | in any stretch of any run between resets and rollbacks, whatever came before it: a key is rolled at most once, and not at all if a check was stored for it at the start; every roll and check turn carries the one stored check; a key is recorded at most once, against the admitted text |
| `ActionCheck.FencedWorkerIsHarmless` | bridge/action_repository.py:73-119 | a worker that no longer owns its row neither writes nor deletes it, in every run |
| `ActionCheck.OneHolder` | bridge/action_repository.py:73-83 | at most one worker owns a row |
| `ActionCheck.SinceAlways` | bridge/action_adjudication.py:72-100 | a stored check of any reachable state stays the same, in its preflight row or recorded, until a reset or rollback |
| `ActionLaws.LeaseKeepsOthersOut` | bridge/action_repository.py:37-71 | from every reachable state, whatever happens before a lease runs out except by its holder or through a reset, the row stays leased to it, no worker is added for the action, and a retry changes nothing |
| `ActionLaws.PreparesExactly` | bridge/action_adjudication.py:142-189 | a retry hands out a decision stored for the same story; is refused for a recorded key, another story, a live lease or beyond 64 rows; and otherwise gets the row for 120 seconds, also over an expired lease |
| `ActionLaws.DecidesExactly` | bridge/action_adjudication.py:205-238 | a decision is stored exactly under the same story and mode, over the worker’s own row and within its lease, if it fits; otherwise the worker goes to its clean-up and nothing is stored |
| `ActionLaws.FailureFreesTheAction` | bridge/action_repository.py:106-119 | a worker that raised removes its row, unless another one took it over |
| `ActionLaws.BindsExactly` | bridge/action_adjudication.py:72-100 | a turn is bound exactly to a user row with its action’s text while its decision is stored, and a check is recorded against that row |
| `Director.DirectorTable.ClaimRun` | bridge/director_repository.py:88-100 | a claim succeeds only over no or an expired lease and installs the new token |
| `Director.DirectorTable.PublishDirectorPlan` | bridge/director_repository.py:145-190 | a plan is stored only over the caller’s token and the revision it was computed from |
| `Director.DirectorTable.WriteManualDirection` | bridge/director_repository.py:213-251 | a manual direction over the expected revision bumps it and revokes the lease |
| `Director.DirectorTable.StoreDirectorGoal` | bridge/director_goal_repository.py:22-46 | an objective over the expected revision drops the AI plan, bumps the revision and revokes the lease |
| `Director.Linearizable` | bridge/director_service.py:280-326 | in every run the stored plan is the replay of the committed decisions, and each accepted AI plan was computed from exactly the decisions before it |
| `DirectorLaws.PlanFromDecisions` | bridge/director_goal_repository.py:22-46 | in every run, from the commits alone: the direction is the last one set, a manual one for good, the Director’s own until an objective, guidance or ending goal follows; the goal is the last objective, the guidance the last one |
| `DirectorLaws.DecisionsExactly` | bridge/director_repository.py:213-290 | a decision is committed exactly over the revision it was made on and frees the lease; a stale one changes and revokes nothing |
| `DirectorLaws.ClaimKeepsOthersOut` | bridge/director_repository.py:88-100 | from every reachable state a live claim is refused to others until it runs out, is released by its holder or revoked by a decision, and is taken over once it has run out |
| `DirectorLaws.ReleasesExactly` | bridge/director_repository.py:102-108 | a run that is over frees the lease at once if it still has it, and leaves the plan alone |
| `Director.RevokedForGood` | bridge/director_repository.py:88-108 | a token that is no longer the row’s never comes back |
| `Director.ExpiredClaimIsFenced` | bridge/director_repository.py:102-190 | a claim that was taken over or revoked publishes nothing and releases nobody, however long its worker keeps running |
| `Director.PublishesExactly` | bridge/director_repository.py:145-190 | in every run and at whatever time a plan is published exactly when the worker’s token is still the row’s, and then it was computed from the row’s revision |
| `Director.ExpiredClaimPublishes` | bridge/director_repository.py:88-190 | an expired claim that nobody took over still publishes |
| `Director.HolderIsUnique` | bridge/director_repository.py:88-100 | at most one worker holds the row’s token |
| `WitnessCycles.CycleCheck.Visit` | bridge/context_continuity_proof.py:217-234 | the shared-set search answers no only on a real cycle, and otherwise extends an order in which every fact follows its present dependencies; it terminates on every graph |
| `WitnessCycles.ReportsCausalCycle` | bridge/context_continuity_proof.py:215-238 | causal_cycle is reported exactly when some required fact reaches a cycle of present witnesses |
| `WitnessCycles.OrderedIsAcyclic` | bridge/context_continuity_proof.py:217-234 | facts in a finishing order reach no cycle |
| `Compaction.TrimMiddle` | bridge/context_compaction.py:218-228 | a trimmed text is never longer than its maximum or than the text, and is the text itself when that fits |
| `Compaction.TrimKeepsEnds` | bridge/context_compaction.py:226-228 | a long text keeps its beginning and end around the mark and loses only whitespace at the seams |
| `CompactionPhases.DropCount` | bridge/context_compaction.py:325-329 | the number of oldest removable turns marked is the least that meets the budget or the floor |
| `CompactionPhases.Compactor.DropTurns` | bridge/context_compaction.py:312-330 | the in-place loop marks exactly those turns and drops them |
| `CompactionPhases.Compactor.ShrinkUserSections` | bridge/context_compaction.py:332-354 | the kinds of the latest user message are visited in order until the prompt is within budget |
| `CompactionPhases.Compactor.Run` | bridge/context_compaction.py:369-424 | the phases run in their order, each only while over budget |
| `CompactionEstimates.CompactionNeverGrows` | bridge/context_compaction.py:287-424 | no phase raises the estimate |
| `CompactionEstimates.OneTrimSuffices` | bridge/context_compaction.py:346-366 | for every ratio in [1, 8], a target at or above its floor brings the whole prompt within budget in one trim |
| `CompactionTheorems.CompactionKeeps` | bridge/context_compaction.py:312-354 | only turns are dropped, never the newest nor a preserved assistant; all other messages keep order, identity, role and all text outside recorded spans |
| `CompactionTheorems.SystemMessagesSurvive` | bridge/context_compaction.py:383-385 | the non-turn messages of the result are those of the prompt, in order |
| `CompactionTheorems.TrimmedSectionsAreShort` | bridge/context_compaction.py:387-389 | still over budget after targeted trimming: no optional section of the visited message, recorded or found by its tags, exceeds 512 characters |
| `CompactionTheorems.SummaryComesAfterHistory` | bridge/context_compaction.py:391-398 | the summary is reached only with at most one unprotected turn left |
| `CompactionTheorems.OverBudgetIsExhausted` | bridge/context_compaction.py:400-424 | over budget at the end: only protected turns remain, every surviving user turn has empty optional sections, recorded or found by their tags, and the first system message an empty summary |
| `CompactionLaws.TurnsGoLast` | bridge/context_compaction.py:383-424 | fewer than minRecent - 1 unprotected turns survive only if the prompt was over budget with every section of the visited message at most 512 characters, and none only if it was with all of them and the summary empty |
| `CompactionLaws.RecentTurnsStay` | bridge/context_compaction.py:383-389 | through targeted trimming the smaller of minRecent - 1 and their number of unprotected turns stay |
| `CompactionLaws.DroppingSuffices` | bridge/context_compaction.py:383-389 | when dropping is enough, every message of the result is one of the prompt, unchanged |
| `CompactionLaws.OldestGoFirst` | bridge/context_compaction.py:325-330 | of two unprotected turns the later one is never dropped alone |
| `CompactionLaws.ShortSectionsStay` | bridge/context_compaction.py:346-349 | targeted trimming leaves sections of at most 512 characters alone |
| `CompactionLaws.ShortSummaryStays` | bridge/context_compaction.py:356-367 | the first pass over the summary leaves one of at most 1000 characters alone |
| `CompactionLaws.EmptyingComesAfterTheSummary` | bridge/context_compaction.py:395-405 | sections are emptied only with at most one unprotected turn left and the summary at 1000 characters or less |
| `CompactionLaws.KindsInOrder` | bridge/context_compaction.py:338-354 | a pass goes on to the next kind only if the prompt is over budget with all kinds before it trimmed |
| `PromptLaws.EstimateIsASum` | bridge/context_compaction.py:169-192 | an estimate adds up over messages and items: sixteen, eight a message, 1024 an image, and for a text the least positive number of tokens it fits into |
| `PromptLaws.TargetExactly` | bridge/context_compaction.py:346-349 | a targeted trim takes no more than what is missing in characters and 64, and not below the least length |
| `PromptLaws.SectionExactly` | bridge/context_compaction.py:257-260 | the section found by a pair of tags is the group of the first match in the order a search tries them, and there is none exactly when nothing matches |
| `TagWitness.NestedSectionSurvives` | bridge/context_compaction.py:332-354 | a text without a record whose memory section encloses a retrieval section: over budget, and the second retrieval section stays |
| `TagSections.OtherShows` | bridge/context_compaction.py:257-260 | trimming one tagged section leaves what another shows, if neither encloses the other’s opening tag |
| `TagSections.TrimBoundsOwn` | bridge/context_compaction.py:257-283 | after its trim a tagged section shows a part of its trimmed text, on any text |
| `TagSections.TrimStaysSeparate` | bridge/context_compaction.py:257-283 | tagged sections that enclose no other kind’s opening tag stay so under every trim |
| `CompactionSurvival.DropExhausts` | bridge/context_compaction.py:325-330 | dropping that ends over budget leaves no more unprotected turns than its floor |
| `ContextBudget.RequestsShareTheWindow` | bridge/context_compaction.py:98-134 | a request is refused exactly when it asks for nothing or leaves nothing, and otherwise input, output reserve and margin fit the window with the reserve never reduced |
| `ContextBudget.DefaultsShareTheWindow` | bridge/context_compaction.py:102-117 | for any window, reserve setting and cap: a default profile exists exactly when both settings are positive, and fits exactly when the margin, 512 tokens of output and 2048 of input, or what less is set, do |
| `ContextBudget.DefaultsAreRequests` | bridge/context_compaction.py:81-134 | every default profile that settings, catalogue and aliases can lead to fits its window and is the profile a request for its reserve gets |
| `ContextBudget.SafetyExactly` | bridge/context_compaction.py:98-101 | the margin is the least number of tokens that is a fiftieth of the window, within 512 and 8192 |
| `ContextBudget.NothingIsWasted` | bridge/context_compaction.py:102-117 | a request gets the cap or all the window leaves; a default keeps its reserve unless that leaves less than 2048 tokens of input |
| `ContextBudget.WindowExactly` | bridge/context_compaction.py:88-95 | the window is the alias’s, or the last in range of setting, discovery, provider and model entry |
| `ContextBudget.FiveTurnsAreSent` | bridge/context_compaction.py:291-389 | five old turns are sent, or all there were, unless the prompt was over budget without the others |
| `ContextBudget.AdmittedPromptsFit` | bridge/context_compaction.py:427-473 | an admitted prompt fits window, reserve and margin, a prompt within budget is admitted, and a compacted one is refused only when exhausted |
| `Spans.ShrinkAligned` | bridge/context_compaction.py:262-279 | a shrink trims its own section, changes no other section and no text outside spans, and leaves every span delimiting its section |
| `Spans.FixedTextStays` | bridge/context_selection_runtime.py:82-94 | replacing one section by any text changes no character outside the spans |
| `Spans.SwapInOrder` | bridge/context_selection_runtime.py:74-94 | the loop over one message’s spans |
| `Spans.SwapSucceeds` | bridge/context_selection_runtime.py:77-86 | in any visiting order the rewriter of a message succeeds exactly when every replaced section is unmatched and intact |
| `Spans.SwapOutcome` | bridge/context_selection_runtime.py:82-96 | each replaced section then holds its candidate; all other sections and all text outside spans are unchanged |
| `Spans.CandidateExists` | bridge/context_selection_runtime.py:72-98 | the candidate prompt exists exactly when all replaced sections are intact and each replaced kind stands in exactly one message |
| `Spans.CandidateIsAligned` | bridge/context_selection_runtime.py:72-98 | message by message the candidate differs in the replaced sections alone |
| `Selection.KeepFresh` | bridge/context_selection.py:140-150 | the inner loop keeps the leaves with new keys and counts the rest |
| `Selection.SelectBlocks` | bridge/context_selection.py:123-157 | block by block over one shared set of keys |
| `Selection.FreshOnce` | bridge/context_selection.py:141-150 | no key is kept twice, nor one seen before |
| `Selection.NothingIsForgotten` | bridge/context_selection.py:141-150 | every removed attestation is still there under its key |
| `Selection.KeepsExactly` | bridge/context_selection.py:140-150 | exactly the leaves without a key or with one not seen before are kept, in their order |
| `Selection.SelectsExactly` | bridge/context_selection.py:116-157 | each block keeps exactly the leaves new to it and to the deduplicated blocks before it; all other blocks stay |
| `Selection.CandidatesAreShorter` | bridge/context_selection_runtime.py:66-69 | no selected block is longer than its baseline, so the length guard never rejects a selection |
| `Selection.SelectionIsStable` | bridge/context_selection.py:116-157 | selecting from a selection removes nothing |
| `HistoryLoops.PackHistory` | bridge/context_history_codec.py:55-105 | the packing statements, refusals and early returns |
| `HistoryLoops.UnpackHistory` | bridge/context_history_codec.py:117-190 | the decoding loop with its usage counts and limits |
| `HistoryLoops.Validate` | bridge/context_history_codec.py:33-52 | the validation loop |
| `HistoryRoundTrip.PackIsLossless` | bridge/context_history_codec.py:55-105 | packing succeeds exactly on valid arguments whose encoded form, if any, is within the decoder’s limits, and what it returns always decodes to the original |
| `HistoryLaws.PackLeavesTheEnds` | bridge/context_history_codec.py:60-105 | packing changes only text and marker of turns that are neither the first nor one of the last minRecent, and adds one header |
| `HistoryLaws.PacksExactly` | bridge/context_history_codec.py:55-105 | a valid prompt is packed exactly when no message starts with the turn mark, four turns are in the middle, a paragraph is repeated in them, and the packed form is shorter |
| `HistoryLaws.ValidExactly` | bridge/context_history_codec.py:33-52 | a prompt is valid exactly with at most 288 messages, all texts without a codec mark, turns numbered from zero, at most 256, by user or assistant, and at most 1,000,000 characters |
| `HistoryRoundTrip.RoundTrip` | bridge/context_history_codec.py:81-100 | for any eligible set and valid dictionary the candidate decodes to the prompt exactly within 1,000,000 characters per encoded message and 4096 pieces per encoded turn, and is refused otherwise |
| `HistoryRoundTrip.DictionaryFacts` | bridge/context_history_codec.py:71-80 | every dictionary entry is valid for the decoder and occurs at least twice in the eligible turns |
| `HistoryRoundTrip.EncodedHasAll` | bridge/context_history_codec.py:81-89 | every one of those occurrences is in an encoded turn, so the usage check cannot fail |
| `HistoryRoundTrip.RankedBySavings` | bridge/context_history_codec.py:73-76 | candidates are sorted by savings, ties by text |
| `HistoryRoundTrip.KeptSaveMost` | bridge/context_history_codec.py:73-76 | if a repeated paragraph is left out, 64 are kept, and each of them saves more, or as much and comes first by text |
| `HistoryRoundTrip.ExpansionIsBounded` | bridge/context_history_codec.py:117-190 | on any input decoding never yields more than max_decoded_chars characters |
| `HistoryReading.UnpacksExactly` | bridge/context_history_codec.py:117-190 | the decoder accepts exactly prompts of at most 289 well-formed messages with at most one dictionary, before its turns and every entry used twice, that expand to the characters allowed and stand for a valid prompt; which it returns |
| `HistoryCodec.JoinSplit` | bridge/context_history_codec.py:26 | splitting at blank lines loses nothing |
| `HistoryWitness.LongTurnIsRefused` | bridge/context_history_codec.py:97-163 | valid prompts of 94 to 124 messages, shorter when packed by any compact JSON, refused because one turn has 4097 pieces |
| `PngLoops.WritePngChara` | bridge/character_quality.py:318-364 | the rewriting statements and refusals |
| `PngLoops.ReadChunks` | bridge/character_quality.py:325-346 | the chunk loop with its length, checksum, metadata and IEND checks |
| `PngLoops.ParsePngChara` | bridge/card_content.py:24-39 | the lenient reader’s loop |
| `PngLoops.ImageFingerprint` | bridge/character_identity.py:17-45 | the fingerprint’s loop |
| `PngProofs.WriteKeepsChunks` | bridge/character_quality.py:359-364 | the output walks into the same chunks, only metadata cards differing, each by exactly the merged changes |
| `PngProofs.WriteThenParse` | bridge/card_content.py:24-39 | the lenient reader finds in the output the canonical card with the changes merged |
| `PngProofs.WriteKeepsHashedBytes` | bridge/character_identity.py:27-45 | the bytes the fingerprint hashes are unchanged |
| `PngProofs.WriteKeepsFingerprint` | bridge/character_identity.py:20-21 | the file’s fingerprint is unchanged exactly when it has none or the growth of its card payloads does not take it across the 8 MiB image limit |
| `PngProofs.WrittenLength` | bridge/character_quality.py:359-363 | the output is longer than the input by the sum over the metadata chunks of new minus old payload length |
| `PngProofs.FingerprintIsLost` | bridge/character_identity.py:20-21 | a file of exactly 8 MiB whose new description encodes longer is written and has no fingerprint any more |
| `PngProofs.WriteStoresFields` | bridge/character_quality.py:273-304 | every requested text is stored exactly when no field is cleared over a top-level value |
| `PngProofs.ClearedFieldComesBack` | bridge/character_quality.py:301-304 | a card whose cleared description comes back |
| `PngProofs.MergedTouchesOnlyChanges` | bridge/character_quality.py:273-284 | merging changes the listed keys of the container and nothing else |
| `PngProofs.WriteIsStable` | bridge/character_quality.py:347-358 | when nothing is cleared, writing the same card again finds a consistent file and changes nothing |
| `PngLaws.FingerprintExactly` | bridge/character_identity.py:17-45 | a file has a fingerprint exactly with at most 8 MiB and an IHDR and an IDAT chunk among those a lenient reader sees, and what is hashed is kind and data of its IHDR, PLTE and IDAT chunks |
| `PngLaws.OneFingerprintOneImage` | bridge/character_identity.py:27-45 | two files have the same hashed bytes exactly when their concatenated image kinds and data are the same |
| `PngLaws.ParsesExactly` | bridge/card_content.py:24-39 | a card is read exactly from the first tEXt chunk labelled chara, if its text is not empty and decodes |
| `PngLaws.WritesExactly` | bridge/character_quality.py:318-364 | a rewrite is accepted exactly for a well-formed file of at most 10 MiB whose metadata agrees, if any new text merges and encodes and keeps it within 10 MiB |
| `WorldInfo.Activate` | bridge/card_content.py:168-196 | the three passes with their growing text |
| `WorldInfo.ActivatedOnce` | bridge/card_content.py:173-175 | each entry is activated at most once |
| `WorldInfo.ActivatedIsBelowClosed` | bridge/card_content.py:171-196 | with newline-free keys every activated entry lies in every set closed under the key, secondary-key and constant rules |
| `WorldInfo.SettledActivation` | bridge/card_content.py:195-196 | if a pass ends unchanged the activated entries are exactly the least closed set |
| `WorldInfo.ThreeRounds` | bridge/card_content.py:171-196 | settled or not: what the context justifies is active, what that justifies, and what that justifies in turn |
| `WorldInfo.ActivatedAreJustified` | bridge/card_content.py:173-195 | every activated entry is justified by the context and the activated contents, and after a quiet pass every justified one is activated |
| `WorldInfo.OrderDoesNotMatter` | bridge/card_content.py:171-196 | two visiting orders that settle activate the same entries |
| `WorldInfo.NewlineKeyEscapes` | bridge/card_content.py:182-193 | worlds in which a key with a newline matches across two texts and escapes the least closed set |
| `Activation.SettledIsLeast` | bridge/card_content.py:171-196 | the fixpoint argument for any monotone rule and any number of passes |
| `CheckpointRemap.CollectReferences` | bridge/checkpoint_remap.py:30-54 | the collecting walk over one shared set |
| `CheckpointProofs.WalkMeans` | bridge/checkpoint_remap.py:33-51 | the walk succeeds exactly on snapshots with a meaning, and collects its nonzero rows |
| `CheckpointProofs.RemapSucceeds` | bridge/checkpoint_remap.py:57-76 | after a successful walk, a map covering the collected ids and zero remaps at the same depth |
| `CheckpointProofs.RemapCovers` | bridge/checkpoint_remap.py:66-69 | a remap succeeds exactly when the map covers every row of the meaning |
| `CheckpointProofs.RemapPreservesMeaning` | bridge/checkpoint_remap.py:57-76 | the result means the same with rows moved, through nested evidence, and its references are exactly the image |
| `CheckpointProofs.RemapComposes` | bridge/checkpoint_remap.py:57-76 | two remaps equal one remap through the composed map, down to the evidence text |
| `CheckpointLaws.CollectsExactly` | bridge/checkpoint_remap.py:30-54 | the collector accepts exactly the snapshots in which, along every path into dicts, lists and evidence texts, values are at most 32 levels deep, rows are natural numbers and texts are JSON, with at most 20,000 rows; and returns exactly the rows some path leads to, but zero |
| `CheckpointLaws.RemapsExactly` | bridge/checkpoint_remap.py:57-76 | a remap succeeds exactly when along every path values are at most 32 levels deep, texts are JSON and every row, of whatever type, is found in the map |
| `Coverage.ProveRow` | bridge/context_native_receipt.py:114-135 | the running-offset loop |
| `Coverage.RowProofIffCovered` | bridge/context_hybrid_sources.py:107-126 | on segments sorted by start both proofs accept exactly when each segment reproduces its slice and their union is the message |
| `Coverage.ProvenExactly` | bridge/context_native_receipt.py:114-135 | both proofs succeed exactly when there are segments, 256 at most for the bounded one, each copies its interval of this very message character by character, and every character of the message is in one |
| `Coverage.CheckStream` | bridge/context_selection_store.py:55-68 | the streaming loop |
| `Coverage.StreamsIffTiled` | bridge/context_selection_store.py:47-68 | it accepts exactly when there is a message and every one is tiled with no gap or overlap |
| `Documents.Split` | bridge/document_extraction.py:109-124 | the chunking loop terminates for every text and setting and yields the stripped windows |
| `Documents.ChunksAreShort` | bridge/document_extraction.py:113-120 | every chunk is at most the window length |
| `Documents.WindowsTouch` | bridge/document_extraction.py:113-123 | windows start at zero, end at the end, and each starts after the last start and no later than the last end |
| `Documents.WindowsExactly` | bridge/document_extraction.py:109-124 | each window ends at its last newline beyond half of it, or at its length or the end; the next starts the overlap before that, but at least one character on, and there is one exactly until the end |
| `Documents.NothingIsLost` | bridge/document_extraction.py:109-124 | every character that is not whitespace lies in some chunk, at its place |
| `Documents.StripMarkup` | bridge/document_extraction.py:21-37 | the linear pass equals leftmost replacement of nonempty tags by a space |
| `Scheduler.ChatScheduler.ReleaseSlot` | bridge/background.py:331-335 | a permit goes back to its own class, never beyond capacity |
| `Scheduler.ChatScheduler.WaitingChats` | bridge/background.py:294-295 | a copy of exactly the queued chats, each once |
| `EndingStore.Store.DeleteMessage` | bridge/ending_work_schema.py:39-46 | a delete and its triggers: guards, recomputed finale row, readiness, clock |
| `EndingStore.Store.SaveNarrativeSettings` | bridge/closed_session_guard.py:40-48 | settings are refused once the story closes, mode and confirmation are locked in the finale, and the readiness trigger fires only on changed text |
| `EndingStore.Store.PublishEnding` | bridge/ending_service.py:89-102 | the row is replaced only over the revision the caller read and along a permitted edge |
| `EndingStore.Store.ReleaseEndingWork` | bridge/ending_repository.py:130-136 | only the holder’s token is cleared |
| `EndingProofs.ResolutionIsLastNext` | bridge/ending_reconciliation.py:36-86 | each step keeps an accepted resolution last among the assistant rows, but for the epilogue |
| `Director.DirectorTable.ReleaseRun` | bridge/director_repository.py:102-108 | only the caller’s own token is cleared |
| `Director.DirectorTable.EnsureRow` | bridge/director_goal_repository.py:22-46 | a row is inserted only for a caller that expects revision zero |
| `Director.DirectorTable.InvalidateAiDirection` | bridge/director_repository.py:264-274 | an AI direction is dropped, a user one kept, the lease revoked and the revision bumped |
| `WitnessCycles.CycleCheck.VisitAncestors` | bridge/context_continuity_proof.py:229-231 | the loop over ancestors stops at the first cycle and otherwise finishes every present one |
| `CompactionPhases.Compactor.ShrinkSection` | bridge/context_compaction.py:343-348 | one section is shrunk to its computed or zero target |
| `CompactionPhases.Compactor.ShrinkSystemSummary` | bridge/context_compaction.py:356-367 | the summary of the first system message is shrunk, if there is one |
| `CompactionSurvival.DropKeeps` | bridge/context_compaction.py:312-330 | dropping keeps every non-turn message, the newest turn and a preserved assistant, in order |
| `HistoryLoops.ReadPieceList` | bridge/context_history_codec.py:164-176 | the loop over one turn’s pieces with its usage counts and size |
| `HistoryLoops.ReadEncodedTurn` | bridge/context_history_codec.py:153-179 | one encoded turn |
| `HistoryLoops.EncodeAll` | bridge/context_history_codec.py:81-89 | exactly the eligible turns that use the dictionary are encoded |
| `HistoryLoops.Assemble` | bridge/context_history_codec.py:90-96 | the header stands once, before the first encoded turn |
| `HistoryRoundTrip.BaselineRoundTrips` | bridge/context_history_codec.py:182-190 | a valid prompt left as it is decodes to itself |
| `PngLoops.CheckChunk` | bridge/character_quality.py:325-345 | one turn of the chunk loop |
| `PngLoops.RewriteChunks` | bridge/character_quality.py:359-360 | each metadata chunk is replaced in place |
| `PngProofs.WalkOfChunks` | bridge/character_quality.py:325-346 | a file made of readable chunks that ends well walks into exactly those chunks |
| `PngProofs.ChunksOfWalk` | bridge/character_quality.py:325-346 | a file that walks is exactly its chunks, with IEND empty and last |
| `WorldInfo.OnePass` | bridge/card_content.py:172-194 | one pass over the entries, and whether it changed anything |
| `WorldInfo.RulesAreOnSets` | bridge/card_content.py:182-188 | with newline-free keys the growing text matters only through the set of active entries, monotonically |
| `CheckpointRemap.Collector.Visit` | bridge/checkpoint_remap.py:33-49 | the recursive walk adds exactly what the value holds to the shared set |
| `CheckpointRemap.Collector.VisitPart` | bridge/checkpoint_remap.py:38-46 | one dict entry: a reference, nested evidence or a value |

## Left out

- SchedulerWakeup.NoLostWakeup: assumes that the executor refuses jobs only after shutdown, because the re-queue at line 328 schedules no restart; `WakeupLostExactly` and `RefusalWakes` say what happens otherwise.
- SchedulerWakeup.EveryAcceptedJobStarts: shows that the threads can always drain the queues when no new work arrives; fairness of the operating system's scheduler is not modelled.
- EndingProofs.FinaleRowInEveryRun: excludes cross-session moves of rows, which the finale triggers do not watch; `TracksFinaleNext` says exactly which.
- EndingStore.Store.MarkFinaleReady: takes the number of unresolved arcs as an argument and leaves out the texts of reasons; goals are taken as already stripped.
- CompactionTheorems.OverBudgetIsExhausted: needs recorded spans in bounds, disjoint and one a kind, as prompt assembly records them, and in user messages without a record that no tagged section encloses another kind's opening tag; the latter is sufficient, not necessary, and `NestedSectionSurvives` shows why it is needed.
- CompactionEstimates.OneTrimSuffices: uses exact reals where the code divides floats.
- Spans.SwapSucceeds: takes the visiting order as given instead of sorting, and holds for every order; the comparison of channels and limits before it is represented by its outcome.
- HistoryRoundTrip.PackIsLossless: leaves errors inside `json.dumps` of other message fields out; whitespace in paragraph splitting is ASCII and Latin-1.
- HistoryWitness.LongTurnIsRefused: takes of the JSON text only that a character is written as one to six and that the other keys of a plain message fit in 200 characters.
- PngProofs.WriteThenParse: JSON objects are maps, so the order of keys inside a card is not part of the model.
- CheckpointProofs.RemapPreservesMeaning: integers of more digits than Python converts are not modelled; a float under a row key is treated as not found in the row map, where Python would find an integral one; the collector refuses such snapshots.
- WorldInfo.ActivatedIsBelowClosed: requires keys without a newline, see `NewlineKeyEscapes`; malformed entries that raise, macro replacement, sorting by order and the final length cut come after activation and are not modelled.
- Documents.NothingIsLost: needs at least one character a window and no negative overlap; whitespace is ASCII and Latin-1.
- The trimmed flags and token counts in the compaction report, beyond the over-budget flag and the dropped count.
- The durable backlog dispatcher callback, executor pools, drain timeouts, counters and logging of the background module.
- Session deletion, checkpoint restore, and the configuration guards on tables other than messages and the ending row.
- The Director's degraded marker and event-key observation, decision history, and its retry loop beyond repeated claims.
- Model calls, epilogue and narrative text, and the checks' dice: what they return is an arbitrary value of a step.
- Telegram panels, routing and keyboards, provider and HTTP code, settings normalisation, file-system safety, migrations and SQL text beyond the named triggers.
- Shadow evaluation policies and lexical anchors: regular-expression heuristics with little structure to prove.
