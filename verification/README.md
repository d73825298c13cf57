# Chaos and incident pipeline: a verified model

The pipeline injects faults into a set of services, collects and clusters their logs, lets language-model
agents debate the cause of an incident, and applies a bounded remedy in a shadow sandbox.  This project
models the stateful algorithms inside it and proves what they guarantee, for all inputs and all runs.

| module | component |
|---|---|
| `ChaosController`, `ClearRequest`, `ClearInterrupts` | the clearable deadlock endpoint: an interleaving step system of threads, locks, a cancel flag and requests, and what the answer of a clear request is worth |
| `ChaosEvents`, `ChaosHistory`, `ChaosHistoryReads`, `ChaosHistoryLoss`, `ChaosWatchdog` | the locked, atomically replaced history file, its migration, and the pass that closes stale faults |
| `Stitching`, `StitchingBlocks`, `StitchingStable`, `StitchingTexts`, `Clustering`, `ClusteringOrder` | multi-line log stitching with aliased buffers, clustering and ranking |
| `JsonRepair`, `JsonCuts`, `JsonProse` | repair of truncated JSON objects, and objects inside prose |
| `Scoring`, `ScoringBounds`, `ScoringNumbers`, `Debate`, `DebateRounds`, `ActionPublisher` | the confidence score, the two-round debate, the published envelope |
| `RemediationAgent`, `Guardrail`, `Harness`, `RemediationCalls` | text to proposal, the allowlist, the confidence ratio and the gated execution |
| `SeenWindow`, `SeedWindow`, `SeenBatches` | the deduplication window of the telemetry daemon |
| `Simulator`, `SimulatorRuns`, `SimulatorTimes` | the scheduler of the telemetry simulator |
| `ScenarioRunner`, `ScenarioRecovery`, `ScenarioWords` | one chaos scenario: selection, injection, recovery |
| `Wrappers`, `Text`, `Sequences`, `Steps` | optional values, Python's string operations, sequences without repetition, numbered steps |

`dafny verify dfyconfig.toml` checks everything.

Components that change objects in place are classes or methods with loops, proved against functions on
values; components that interleave are step systems whose runs are sequences of enabled actions.  Calls
into Docker, HTTP, language models, embeddings and the file system are inputs: what they answer, and
whether they raise, is arbitrary.

## Where the code and its words differ

The model follows the code in each case.

- The clear endpoint counts live threads only, so it can answer `deadlock_cleared` for threads that are listed
  and not started yet (`ClearRequest.ClearIsTrustworthyIff` says when).
- A recording that fails to read the history three times starts from an empty list and replaces the file
  (`ChaosHistoryLoss.GivingUpErases`; `NothingLostIff` gives the exact condition).
- The watchdog builds a set of recovered keys against double recovery and never reads it.
- A block of stitched text is cut at 4000 characters only if it absorbs a line or is open at the end.
- The high-risk cap of the evidence gate is dead: the risk is classified after it.  A score of 100, "reserved for
  flawless consensus", cannot be reached; 97 is the maximum.
- A command of white space only makes the scoring raise an index error, unless an executable command comes first.
- The memory bounds of Redis `maxmemory` are in the allowlist table and never compared.
- Resource and shell proposals are reported as executed although no tool runs.
- The confidence that the debate computed is read by the harness and not used.
- The bounded queue of the window drops an element by itself before the explicit removal; that hash stays in the set.
- Seeding the window does not skip repeated events; `SeedWindow.SeedIsContainedIff` says which repeats do harm.
- A CPU quota is read before a throttle, and recovery ignores it.
- A fault that takes effect although its call raises is not listed as injected, and so never recovered.

## Model

| member | source | states |
|---|---|---|
| `ChaosController.InvRun` | Arse_shadow/order-service/src/main/java/com/autosre/orderservice/chaos/ChaosController.java:120-208 | Every interleaving of any number of deadlock and clear requests and their threads keeps the lock owners in agreement with the threads' phases, and every count of live threads honest |
| `ChaosController.MutualExclusion` | Arse_shadow/order-service/src/main/java/com/autosre/orderservice/chaos/ChaosController.java:126-166 | In every reachable state two threads never hold the same lock, each owner is in a phase that holds it, and a finished thread holds none |
| `ChaosController.RankStep` | Arse_shadow/order-service/src/main/java/com/autosre/orderservice/chaos/ChaosController.java:126-166 | While the cancel flag is set, each thread step lowers a rank and no request step raises it |
| `ChaosController.CancelledRunsAreBounded` | Arse_shadow/order-service/src/main/java/com/autosre/orderservice/chaos/ChaosController.java:126-183 | A run on which the flag stays set has at most as many thread steps as the rank it starts from |
| `ChaosController.Progress` | Arse_shadow/order-service/src/main/java/com/autosre/orderservice/chaos/ChaosController.java:126-166 | Some thread step is enabled whenever a started thread is unfinished, deadlocked or not |
| `ChaosController.NoStepMeansAtRest` | Arse_shadow/order-service/src/main/java/com/autosre/orderservice/chaos/ChaosController.java:126-166 | No thread step is enabled exactly when every started thread is finished, and then both locks are free |
| `ChaosController.EveryCancelledRunFinishes` | Arse_shadow/order-service/src/main/java/com/autosre/orderservice/chaos/ChaosController.java:126-195 | After cancellation, and without a new deadlock request, every interleaving of threads and requests that has run until no thread can step leaves all started threads finished and both locks free, within a bounded number of thread steps |
| `ChaosController.CancelledThreadsFinish` | Arse_shadow/order-service/src/main/java/com/autosre/orderservice/chaos/ChaosController.java:126-166 | Such a run exists from every cancelled state, of thread steps alone |
| `ChaosController.DeadlockStep` | Arse_shadow/order-service/src/main/java/com/autosre/orderservice/chaos/ChaosController.java:126-166 | Once one thread holds lock1 as its outer lock and another holds lock2 as its outer lock, no step breaks that except a cancellation or an interrupt of one of the two |
| `ChaosController.DeadlockPersists` | Arse_shadow/order-service/src/main/java/com/autosre/orderservice/chaos/ChaosController.java:126-166 | The same over whole runs; no thread of either kind finishes meanwhile |
| `ChaosController.DeadlockArises` | Arse_shadow/order-service/src/main/java/com/autosre/orderservice/chaos/ChaosController.java:120-172 | The deadlock is reachable from one fresh pair of threads |
| `ChaosController.InterruptedThreadLeaves` | Arse_shadow/order-service/src/main/java/com/autosre/orderservice/chaos/ChaosController.java:131-143 | A thread with a pending interrupt leaves its polling loop and gives up its outer lock without the flag |
| `ClearRequest.ClearIsTrustworthyIff` | Arse_shadow/order-service/src/main/java/com/autosre/orderservice/chaos/ChaosController.java:168-203 | In every reachable state: a clear request that arrives answers `deadlock_cleared` only with every counted thread finished, whatever happens short of a later deadlock request, exactly when no listed thread is unstarted and no deadlock request has yet to list its threads |
| `ClearRequest.QuietClearIsTrue` | Arse_shadow/order-service/src/main/java/com/autosre/orderservice/chaos/ChaosController.java:120-203 | The guard a caller can keep: with no deadlock request under way, and none until the answer, `deadlock_cleared` means that every counted thread is finished, for good |
| `ClearRequest.ClearedTooEarly` | Arse_shadow/order-service/src/main/java/com/autosre/orderservice/chaos/ChaosController.java:168-203 | Right after a deadlock request a clear request can answer `deadlock_cleared` while a thread it counted is not finished |
| `ClearInterrupts.EveryLiveThreadIsInterrupted` | Arse_shadow/order-service/src/main/java/com/autosre/orderservice/chaos/ChaosController.java:183-188 | Over every interleaving: once a clear request is past its interrupts, every thread it found listed and alive is finished, past its loop, or has an interrupt pending |
| `ClearInterrupts.AnswerPrunesTheList` | Arse_shadow/order-service/src/main/java/com/autosre/orderservice/chaos/ChaosController.java:196-197 | With its answer a clear request takes exactly the threads off the list that are not alive, whatever was added meanwhile |
| `ChaosEvents.MigrateEntries` | Arse_shadow/utils.py:206-249 | The migration loop builds the migrated list, which the five rows below describe entry by entry, and the number of legacy entries |
| `ChaosEvents.MigratedPlacesEveryEntry` | Arse_shadow/utils.py:211-243 | Order and size: each dictionary entry keeps its place, a legacy entry becomes max(1, number of faults) unified events there, and nothing else is in the list |
| `ChaosEvents.LegacyFaultIsUnified` | Arse_shadow/utils.py:223-245 | The event for each fault of each legacy entry, at its place: that fault, the target of the same number or the last one, "unknown" for a missing one, scenario "legacy" if missing, from the parsed timestamp to that plus the duration, and "recovered" exactly for a status that is missing, "completed" or "recovered" |
| `ChaosEvents.OtherEntryStays` | Arse_shadow/utils.py:216-221 | Every other dictionary stands unchanged at its place |
| `ChaosEvents.LegacyAreCounted` | Arse_shadow/utils.py:212-249 | The number returned is the number of legacy entries |
| `ChaosEvents.MigratedHasNoLegacy` | Arse_shadow/utils.py:211-243 | After a migration no entry is in the legacy format |
| `ChaosEvents.NoLegacyMeansUnchanged` | Arse_shadow/utils.py:211-249 | A history of unified dictionaries is left as it is |
| `ChaosEvents.MigrationIsIdempotent` | Arse_shadow/utils.py:211-249 | A second migration returns 0 and leaves the history unchanged |
| `ChaosHistory.InvRun` | Arse_shadow/utils.py:40-166 | Every interleaving of recordings and migrations, with an exception possible at every step up to the replace and a death at every step, keeps the lock, the data in flight and the committed operations consistent |
| `ChaosHistory.RefinesAtomicLog` | Arse_shadow/utils.py:40-166 | The file is always the original or a complete list; its contents are the committed operations applied one at a time in lock order, none twice; a call that returned is among them and one that raised is not |
| `ChaosHistory.LockIsExclusive` | Arse_shadow/utils.py:98-125 | At most one call is in its critical section, and a call that died or raised holds nothing |
| `ChaosHistory.NothingLostIff` | Arse_shadow/utils.py:69-81 | The history is the initial one followed by every committed event exactly when no committed call gave up reading a non-empty history |
| `ChaosHistory.EveryEventOnce` | Arse_shadow/utils.py:127-166 | When all recordings return and none gave up reading, the file is the initial history plus each event exactly once, in lock order |
| `ChaosHistory.LaterReadsExtend` | Arse_shadow/utils.py:69-81 | Under recordings that do not give up reading, what an unlocked reader sees is a prefix of what every later reader sees |
| `ChaosHistoryLoss.GivingUpErases` | Arse_shadow/utils.py:69-81 | A run in which three failed reads make a recording replace the whole history by its own event |
| `ChaosHistory.EveryCallEnds` | Arse_shadow/utils.py:98-166 | Without new arrivals every run from a reachable state is bounded, and where no call can go on without failing every call has returned, raised or died |
| `ChaosHistoryReads.ThreeAttempts` | Arse_shadow/utils.py:69-81 | Over every run a call goes on without the history exactly after three failed attempts to read, and otherwise with what it read after at most two |
| `ChaosHistory.WritesIff` | Arse_shadow/utils.py:159-164 | After its read a recording always writes what it read and its own event; a migration writes exactly if it read a legacy entry, and otherwise leaves the file alone |
| `ChaosHistory.MigrationHasNoMore` | Arse_shadow/utils.py:198-249 | Over every run: once a migration has replaced the file, or found nothing to do in what it read, no later file has a legacy entry, whatever recordings and migrations follow, fail or die |
| `ChaosWatchdog.Reconcile` | Arse_shadow/chaos_watchdog.py:35-108 | A pass returns the number of injected events of its snapshot that are past start, duration and grace, and appends to the history exactly what it and the recoveries log, in order |
| `ChaosWatchdog.EveryRecordIsExact` | Arse_shadow/chaos_watchdog.py:72-101 | What a pass appends, entry by entry: nothing for one that is not stale; else what its recovery logs and then one record, "recovered" exactly if the recovery and that record succeed, and "failed" if not and that one can be written |
| `ChaosWatchdog.StaleInSeconds` | Arse_shadow/chaos_watchdog.py:53-65 | A fault is stale from the second on in which its duration and the grace have passed; without a readable start only if both are nothing |
| `ChaosWatchdog.StaleAreCounted` | Arse_shadow/chaos_watchdog.py:50-70 | The number returned is the number of stale entries |
| `ChaosWatchdog.ClosingsDoNotCount` | Arse_shadow/chaos_watchdog.py:50-66 | Recovery records never change how many events are stale |
| `ChaosWatchdog.PassesNeverSettle` | Arse_shadow/chaos_watchdog.py:43-66 | The recovered keys are never consulted: a second pass counts the same faults again, and any later pass over a longer history at least as many |
| `ChaosWatchdog.EveryStaleFaultIsClosed` | Arse_shadow/chaos_watchdog.py:66-100 | Every stale fault gets a recovered or failed record as long as one of the two can be written |
| `Stitching.StitchLogEvents` | Arse_shadow/phase1_processor.py:167-208 | The pass over mutable events, whose buffers alias emitted dictionaries, computes the stitched stream, returns fresh pairwise distinct objects, and rewrites each input's content to its cleaned text |
| `Stitching.RunPass` | Arse_shadow/phase1_processor.py:172-202 | The loop over the stream, with every open buffer mirroring the emitted object it aliases |
| `Stitching.FlushBuffers` | Arse_shadow/phase1_processor.py:204-206 | The final flush rewrites exactly the events that open buffers alias, in any order |
| `StitchingBlocks.ContainersDoNotMix` | Arse_shadow/phase1_processor.py:167-208 | For every stream and container, stitching and then restricting to the container is restricting and then stitching |
| `StitchingBlocks.StitchIsBlocks` | Arse_shadow/phase1_processor.py:172-208 | The output is the block heads in arrival order with their own metadata, each with its text joined by newlines to all its continuations and cut at 4000; a head that is closed without a continuation keeps its full length |
| `StitchingBlocks.EveryEventHasOneBlock` | Arse_shadow/phase1_processor.py:172-202 | Every event that is not blank belongs to exactly one emitted block, of its container, whose head came no later |
| `StitchingStable.StitchingIsIdempotent` | Arse_shadow/phase1_processor.py:157-208 | On streams without ANSI escapes whose blocks fit into 4000 characters the flush changes nothing and stitching twice is stitching once |
| `StitchingStable.FlushChangesNothing` | Arse_shadow/phase1_processor.py:204-206 | Whenever the blocks fit, the final flush changes nothing |
| `StitchingStable.FlushMattersIff` | Arse_shadow/phase1_processor.py:204-206 | The flush changes the output exactly when some head is still open at the end, absorbed nothing and is longer than 4000 |
| `StitchingTexts.StartIff` | Arse_shadow/phase1_processor.py:158 | A block starts with "Caused by:", or with a whole name that ends in Exception, Error or Throwable after at most six words |
| `StitchingTexts.ContinuationIff` | Arse_shadow/phase1_processor.py:159 | A continuation is, after white space, "at" and a space, three dots, or "Caused by:" |
| `StitchingTexts.SequenceIsRemoved` | Arse_shadow/phase1_processor.py:177 | A colour sequence of any parameters disappears, and the text around it stays |
| `Clustering.ClusterLines` | Arse_shadow/phase1_processor.py:334-387 | Every key with kept lines has a cluster that describes exactly them: count and samples, the severities, and the exact minimum and maximum time |
| `Clustering.KeyIsInjective` | Arse_shadow/phase1_processor.py:356-358 | The key of container and template number determines both, whatever the container is called |
| `Clustering.KeptAreDigested` | Arse_shadow/phase1_processor.py:356-371 | Lines that share a cluster share their container and template |
| `Clustering.ClustersCountKept` | Arse_shadow/phase1_processor.py:360-377 | The occurrence counts of the clusters the loop returns, over their insertion order, sum to the kept lines |
| `ClusteringOrder.OrderIsOfFirstLines` | Arse_shadow/phase1_processor.py:361-374 | The clusters come in the order of their first kept lines in the stream |
| `ClusteringOrder.LatestIsAttained` | Arse_shadow/phase1_processor.py:344-348 | The latest time is the maximum over the lines that are not noise, blank ones included |
| `Clustering.ReferenceIsNotBefore` | Arse_shadow/phase1_processor.py:398 | The reference time is not before the latest line of any cluster |
| `Clustering.RankedIsSorted` | Arse_shadow/phase1_processor.py:507 | Ranking permutes the incidents into descending priority |
| `ClusteringOrder.RankingIsStable` | Arse_shadow/phase1_processor.py:507 | Incidents of equal priority keep their order |
| `Clustering.FirstIsHottest` | debate/evidence_loader.py:111-112 | The incident that the loader takes by default has the highest priority, and is the first clustered among equals |
| `JsonCuts.PrintThenLoad` | debate/json_utils.py:17-21 | Printing an object of strings and parsing it gives back its dictionary |
| `JsonCuts.EveryPrefixIsACut` | debate/json_utils.py:17-57 | Every prefix of a printed object is one of nine kinds of cut |
| `JsonCuts.RepairIsExact` | debate/json_utils.py:30-57 | Every cut of every printed object is answered as its kind demands: the complete members, plus at most the cut one with a prefix of its value, or the fallback for a cut in or after a key or after a comma |
| `JsonCuts.EveryTruncationIsRepaired` | debate/json_utils.py:17-57 | The same for every length of the printed text, including the empty prefix and the whole text; `JsonProse` carries it to texts with prose |
| `JsonProse.ProseIsIgnored` | debate/json_utils.py:24-31 | An object with any text without "{" before it and any text without "}" behind it, and no backticks, is parsed to its dictionary, whether or not the whole text parses |
| `JsonProse.EveryTruncationBehindProse` | debate/json_utils.py:17-57 | Every truncation behind prose without quotes, braces and backticks is answered as without the prose |
| `JsonCuts.FencesAreIgnored` | debate/json_utils.py:17 | A Markdown fence around the text, or an opening one before it, changes nothing |
| `Scoring.CalculateConfidence` | debate/scoring.py:268-487 | The running score, part by part and gate by gate, is the specified one, with its metadata and its failure; `ScoringNumbers` says which number that is |
| `Scoring.PassGates` | debate/scoring.py:424-485 | The caps and deductions in order amount to one formula, and the high-risk branch at 439-441 never runs; `ScoreIsLeastBound` gives the formula without an order |
| `Scoring.AddPoints` | debate/scoring.py:311-420 | The additive part is the sum of the six parts and penalties |
| `ScoringNumbers.PointsAlike` | debate/scoring.py:335-420 | A second count of the six parts and penalties in whole numbers of votes, anchors, commands, fields and failures, without ratios and rounding down twice, is the same sum |
| `ScoringNumbers.CeilingsAlike` | debate/scoring.py:473-478 | So is a ceiling counted in fortieths |
| `ScoringNumbers.ScoreIsLeastBound` | debate/scoring.py:427-485 | The score is at least 0 and the least of: the points, 92 if flawed and 65 if not grounded, each less 0, 3 or 8 for quality and 5 without an executable command; the ceiling; 65 at high risk; 64 after a veto |
| `ScoringNumbers.MediumCostsThree` | debate/scoring.py:446-448 | Where nothing else caps the score, medium quality instead of a high one lowers it by exactly 3 |
| `ScoringNumbers.LowCostsEight` | debate/scoring.py:449-451 | Low quality lowers it by exactly 8 as long as it leaves the agreement alone |
| `ScoringNumbers.NoExecutableCostsFive` | debate/scoring.py:443-445 | Losing the last executable command lowers it by exactly 5, besides its part in the points |
| `ScoringNumbers.TierOneInPoints` | debate/scoring.py:443-485 | Tier 1 takes 85 points, 88 on medium quality, and never comes with low quality |
| `ScoringNumbers.MetadataInShares` | debate/scoring.py:337-362 | Agreement is the share of the votes for the known component, or for the most common one, at most half on low quality; grounding is the mean, at most a fifth on two anchors or fewer; both to the thousandth |
| `ScoringNumbers.MostCommonIsTheMaximum` | debate/scoring.py:349-350 | The votes of the most common component are the maximum over all components |
| `ScoringNumbers.ModeInWords` | debate/scoring.py:453-471 | Which mode of execution and which flags a score comes with |
| `ScoringBounds.ScoreBounds` | debate/scoring.py:427-485 | Every score is in 0..97, at most 64 after a veto, and at most 65 when evidence-gated or high risk |
| `ScoringBounds.NinetySevenIsReached` | debate/scoring.py:258-265 | 97 is reached, so the bound is exact; 100 never is |
| `ScoringBounds.TierOneIsUncapped` | debate/scoring.py:424-485 | 85 is reached exactly when nothing caps the score and the points less deductions reach 85 |
| `ScoringBounds.TierOneForces` | debate/scoring.py:335-485 | 85 points force: no veto, no parse failure, more than two anchors, grounding of 0.25, risk not high, an executable command, quality not LOW, and at least half the answers naming a known component |
| `ScoringBounds.TierOneUnknownIsFlawless` | debate/scoring.py:348-354 | Without a known component the score is at most 85, and 85 exactly for unanimous answers with every other part at its maximum |
| `ScoringBounds.FullPointsAreUnanimous` | debate/scoring.py:348-354 | Full agreement points without a known component mean a unanimous vote |
| `ScoringBounds.AgreeingHelpsIffKnown` | debate/scoring.py:337-354 | Moving any answers to the orchestrator's component never lowers the score, exactly when that component is not "unknown" |
| `ScoringBounds.AgreeingOnUnknownHurts` | debate/scoring.py:348-354 | Two agreeing answers lose points when one of them moves to "unknown" |
| `ScoringBounds.RaisesIffBlankIsReached` | debate/scoring.py:83-92 | With the embedder loaded and text root causes, the scoring raises exactly when a white-space command comes before every executable one: its first character is indexed |
| `Debate.RunDebate` | debate/debate_manager.py:54-221 | The loop with its early-consensus path, outlier re-sampling and tier decision computes the settled run, whose rounds `DebateRounds` describes by place and number |
| `Debate.FirstRound` | debate/debate_manager.py:77-118 | The comparison of the finished tasks, their keyword sets and the ratio of common keywords settles round 1 on two agents exactly for an early consensus of more than 60%, and fails on an early answer that is no dictionary |
| `Debate.NeverEndsInTier3` | debate/debate_manager.py:72-221 | Every run ends in Tier 1 or Tier 2, Tier 1 exactly for an unvetoed final score of at least 85, with a score in 0..97 and at most 64 after a veto |
| `Debate.SecondRoundIff` | debate/debate_manager.py:201-221 | Round 2 runs exactly when round 1 was unvetoed and below 65 |
| `Debate.OnlyTheOutlierChanges` | debate/debate_manager.py:118-152 | Every agent but the outlier keeps its answer; only "critic" can be added; the next row says who the outlier is |
| `DebateRounds.OutlierByPlace` | debate/debate_manager.py:118-152 | The answer replaced in round 2 is the dictionary with exactly as many dictionaries before it as the index of the least similar text says; the critic's, new or replaced, if there is no such one or the first solution was empty; all others were dictionaries and stay |
| `DebateRounds.FirstRoundInOrder` | debate/debate_manager.py:76-118 | Round 1 has the answers of all three agents, or of the two early ones that share more than three fifths of their keywords, in the order in which they were started |
| `DebateRounds.TheLastRoundCounts` | debate/debate_manager.py:160-221 | Solution, score and metadata of a run are those of its last round and last answers |
| `Debate.AutonomyIsEarned` | debate/debate_manager.py:206-209 | What a Tier 1 verdict says about the answers, the solution and the telemetry, over whole runs |
| `ActionPublisher.VetoReachesTheHarness` | debate/action_publisher.py:59-83 | A vetoed debate is published with at most 64 and HUMAN_REVIEW, and the harness blocks it without a call |
| `ActionPublisher.HandoverKeepsTheText` | debate/action_publisher.py:33-87 | The harness gets the problem, the commands and the score as the debate left them; the cap of the envelope changes nothing more |
| `ActionPublisher.HumanReviewIff` | debate/action_publisher.py:76-83 | HUMAN_REVIEW exactly after a veto, never Tier 3, Tier 1 exactly from 85 |
| `ActionPublisher.CallsComeFromUnvetoedDebates` | debate/action_publisher.py:33-83 | From debate to harness: a call on a container comes from an unvetoed debate, is bounded, and has a confidence ratio of at least 0.70 |
| `ActionPublisher.OnlyTheVetoCounts` | debate/action_publisher.py:40-54 | The sandbox form drops the tier and passes the confidence on, which the harness reads and ignores: unvetoed debates over the same commands are remedied alike |
| `Harness.DebateConfidenceIsIgnored` | Arse_shadow/shadow_sandbox/remediation/execution_harness.py:79-80 | Both confidences of the input file can be anything without changing what a run decides |
| `Guardrail.GuardrailIsAllowlist` | Arse_shadow/shadow_sandbox/remediation/guardrail.py:48-151 | Exactly which proposals pass, for every tool, target and parameters; the bounds of `maxmemory` are not among the conditions |
| `Guardrail.AllowedSettingsAreClean` | Arse_shadow/shadow_sandbox/remediation/guardrail.py:68-71 | The forbidden Postgres words never change what passes: no allowed setting contains one |
| `RemediationAgent.ExtractTargetService` | Arse_shadow/shadow_sandbox/remediation/remediation_agent.py:14-29 | The target is the one in backticks, else the first known service in the text, and always passes the shadow assertion |
| `RemediationCalls.NamedTargetIs` | Arse_shadow/shadow_sandbox/remediation/remediation_agent.py:16-18 | In any text the name in backticks after the first label "Target Service:", in any case and after any white space, is the one found |
| `RemediationCalls.TargetInWords` | Arse_shadow/shadow_sandbox/remediation/remediation_agent.py:17-29 | A named target is stripped and gets the prefix it lacks; otherwise it is the first of the seven known services, in their order, that the text mentions, and the gateway if it mentions none |
| `RemediationAgent.Bounded` | Arse_shadow/shadow_sandbox/remediation/remediation_agent.py:100-104 | The first number of the commands if it is in range, and otherwise the default; always in range |
| `RemediationCalls.WrittenNumberIsFound` | Arse_shadow/shadow_sandbox/remediation/remediation_agent.py:101-104 | The number taken from a text is the first one written in it, whatever surrounds it |
| `RemediationCalls.FirstDecimalIs` | Arse_shadow/shadow_sandbox/remediation/remediation_agent.py:70-71 | So is a fraction, of any number of digits before and after the point |
| `RemediationAgent.EveryProposalIsClassified` | Arse_shadow/shadow_sandbox/remediation/remediation_agent.py:31-166 | For every text and command list: a bounded typed change, which passes the guardrail; raw SQL, which does not; or a resource or shell change of the extracted target, which passes exactly on an unguarded one; the next row says which change, with which value |
| `RemediationCalls.RightCallIsMade` | Arse_shadow/shadow_sandbox/remediation/remediation_agent.py:42-166 | The one call of a run, from its texts: none for the fifteen resource and shell words; on Postgres the first number of the commands if in 20..500 and else 200; on Redis allkeys-lru exactly if the problem or commands say so and else volatile-lru; on RabbitMQ the first number if in 1..20 and else 5; else a restart of the extracted target |
| `RemediationAgent.SqlIsRejected` | Arse_shadow/shadow_sandbox/remediation/remediation_agent.py:47-58 | Every raw SQL proposal is rejected |
| `RemediationAgent.MentioningSqlIsRejected` | Arse_shadow/shadow_sandbox/remediation/remediation_agent.py:47-58 | Any mention of SQL in the problem or the commands, "PostgreSQL" included, ends in a rejection |
| `Harness.CountedRateIsAShare` | Arse_shadow/shadow_sandbox/remediation/confidence_analyzer.py:45-72 | A history without explicit rates yields a share: 1 exactly if all events of the tool succeeded, 0 exactly if none did |
| `RemediationCalls.FirstUsableRateCounts` | Arse_shadow/shadow_sandbox/remediation/confidence_analyzer.py:44-62 | The first usable rate among the events of the tool counts, whatever comes before and after |
| `RemediationCalls.CountedRate` | Arse_shadow/shadow_sandbox/remediation/confidence_analyzer.py:64-74 | Without one, the rate is the share of the tool's events that succeeded, and 85% without events |
| `Harness.CalculateConfidence` | Arse_shadow/shadow_sandbox/remediation/confidence_analyzer.py:77-112 | The step-by-step ratio is the penalised rate, clamped and rounded |
| `Harness.ConfidentIff` | Arse_shadow/shadow_sandbox/remediation/execution_harness.py:154 | The ratio is in 0..1 and reaches 0.70 exactly when the penalised rate reaches 0.695 |
| `RemediationCalls.RatioIsNearest` | Arse_shadow/shadow_sandbox/remediation/confidence_analyzer.py:107-112 | The reported ratio is a whole number of hundredths, the nearest to the penalised rate |
| `Harness.ExecutionHarness.Run` | Arse_shadow/shadow_sandbox/remediation/execution_harness.py:58-232 | A run appends exactly the calls of its decision to the calls made, and reports the gate that stopped it, a failure, or the execution; `RightCallIsMade` and `ExecutedIff` say which call and when |
| `RemediationCalls.StoppedBy` | Arse_shadow/shadow_sandbox/remediation/execution_harness.py:82-169 | Which gate stops which texts: a violation first; a command that is no text; texts without a mapping; of the guardrail only SQL, and resource or shell topics on a guarded target; the confidence the rest |
| `RemediationCalls.ExecutedIff` | Arse_shadow/shadow_sandbox/remediation/execution_harness.py:82-187 | Exactly which incidents get past every gate: no violation, commands that are all texts, no SQL word, an unguarded target for a resource or shell word, and a success rate of the tool of at least 139/150 on Postgres, 139/170 on Redis, 139/200 on RabbitMQ, and 139/170 or 139/200 for other targets |
| `RemediationCalls.ClearedIff` | Arse_shadow/shadow_sandbox/remediation/execution_harness.py:201-214 | When an executed run is reported as cleared, for each target |
| `RemediationCalls.SmallPoolsAreNotCleared` | Arse_shadow/shadow_sandbox/remediation/execution_harness.py:203-206 | A change of Postgres to 20..100 connections is carried out and never reported as cleared |
| `Harness.EveryCallIsBounded` | Arse_shadow/shadow_sandbox/remediation/execution_harness.py:109-187 | At most one call a run, never after a violation, at 0.70 or more: max_connections in 20..500 on shadow-postgres-db, an LRU policy on shadow-redis, 1..20 consumers on shadow-rabbitmq, or a restart of an unguarded shadow target |
| `Harness.ExecutedWithoutACallIff` | Arse_shadow/shadow_sandbox/remediation/execution_harness.py:171-187 | A run that gets past the gates is reported as executed without any call exactly when the problem or the commands mention a resource or shell keyword |
| `Harness.SqlNeverRuns` | Arse_shadow/shadow_sandbox/remediation/execution_harness.py:130-147 | No raw SQL proposal gets past the gates |
| `Harness.PostgresNeedsHistory` | Arse_shadow/shadow_sandbox/remediation/confidence_analyzer.py:94-112 | A Postgres change is confident enough exactly from a success rate of 139/150; the default rate gives 0.64 |
| `Harness.NoHistoryNoQuery` | Arse_shadow/shadow_sandbox/remediation/execution_harness.py:154-174 | With the default rate no call is ever made on Postgres |
| `Harness.DefaultHistory` | Arse_shadow/shadow_sandbox/remediation/confidence_analyzer.py:94-112 | Which proposals pass the confidence gate with the default rate |
| `SeenWindow.Daemon.ObserveLine` | Arse_shadow/continuous_telemetry.py:271-276 | A line is emitted exactly when its hash is not in the set, and the window moves as specified |
| `SeenWindow.Daemon.ObserveBatch` | Arse_shadow/continuous_telemetry.py:254-300 | A batch emits exactly its new lines, in order |
| `SeenBatches.EmittedInOrder` | Arse_shadow/continuous_telemetry.py:254-300 | Two batches emit what the first emits and then what the second emits after it |
| `SeenWindow.Daemon.Seed` | Arse_shadow/continuous_telemetry.py:53-66 | Seeding adds the last 500 hashes without looking |
| `SeenWindow.EveryRunIsClean` | Arse_shadow/continuous_telemetry.py:271-276 | From a duplicate-free start, over every run: no duplicates in the queue, queue inside the set, at most N in the set, at most one hash in the set only |
| `SeenWindow.TheOrphanStays` | Arse_shadow/continuous_telemetry.py:34-35 | The hash that the bounded queue drops silently at the first overflow is recognised for ever |
| `SeenWindow.RecognisedFor` | Arse_shadow/continuous_telemetry.py:271-276 | An emitted hash is recognised through the next N-2 emissions |
| `SeenWindow.RecognisedAfterwards` | Arse_shadow/continuous_telemetry.py:271-276 | And through any later lines with at most N-2 distinct hashes |
| `SeenWindow.ForgottenExactly` | Arse_shadow/continuous_telemetry.py:273-276 | After the first overflow N-2 is exact |
| `SeenWindow.EmittedAtMostOnce` | Arse_shadow/continuous_telemetry.py:271-276 | Lines with at most N-2 distinct hashes are emitted at most once each |
| `SeedWindow.SeedIsContainedIff` | Arse_shadow/continuous_telemetry.py:53-66 | For every capacity and every seed that fits: every queued hash stays recognised over all later lines exactly when no stored hash occurs twice at positions greater than the number of repeats |
| `SeedWindow.AlwaysContainedIff` | Arse_shadow/continuous_telemetry.py:271-276 | The same for every window in terms of the silent drops it has left |
| `SeedWindow.RepeatedSeedLosesALine` | Arse_shadow/continuous_telemetry.py:53-66 | At every capacity above the size of a seed there are stored events after which a queued hash gets lost |
| `Simulator.Scheduler.RunSimulation` | Arse_shadow/simulate_full_telemetry.py:800-860 | The tick loop computes the specified sequence of ticks, from any state |
| `Simulator.Scheduler.ApplyRestorations` | Arse_shadow/simulate_full_telemetry.py:307-318 | The due restorations fire in order and leave the list |
| `SimulatorRuns.EveryTickIsReached` | Arse_shadow/simulate_full_telemetry.py:823-859 | The whole state after every tick of every sorted timeline: launches, pending and fired restorations, and which containers are down |
| `SimulatorRuns.EveryScenarioLaunchesOnce` | Arse_shadow/simulate_full_telemetry.py:825-834 | Each scenario inside the window, and no other, is launched once, in order, at the tick of its start |
| `SimulatorRuns.EveryRestorationFiresOnce` | Arse_shadow/simulate_full_telemetry.py:307-318 | The fired restorations are exactly those whose end has come, as often as scheduled, each at the tick of its end |
| `SimulatorTimes.RestoredInSeconds` | Arse_shadow/simulate_full_telemetry.py:307-318 | After every tick the log of restorations names a container and a second exactly if a kill 35 or a pause 40 seconds before was aimed at it and that second has come |
| `SimulatorRuns.ExitedHasARestoration` | Arse_shadow/simulate_full_telemetry.py:546-556 | A container that is down has a restoration to come, or is payment-service after its OOM kill |
| `SimulatorRuns.OthersAreDownIff` | Arse_shadow/simulate_full_telemetry.py:546-556 | Every other container is down exactly during the 35 seconds after a kill |
| `SimulatorRuns.PaymentStaysDown` | Arse_shadow/simulate_full_telemetry.py:690-713 | If nothing kills or pauses payment-service it is down exactly from its first OOM kill on |
| `SimulatorRuns.DownIff` | Arse_shadow/simulate_full_telemetry.py:546-556 | After every tick a container is down exactly if a launched scenario took it down and no restoration of it has ended since; so a kill in the minute of the OOM kill brings payment-service back |
| `SimulatorRuns.TheDefaultRunEndsInAnOutage` | Arse_shadow/simulate_full_telemetry.py:735-760 | The default timeline launches all 22 scenarios and ends with payment-service alone down |
| `ScenarioRunner.Runner.RunScenario` | Arse_shadow/chaos_scenarios.py:69-158 | Selection, injection, recovery and restarts amount to the specified final state and order of calls |
| `ScenarioRecovery.TargetsAreDistinct` | Arse_shadow/chaos_scenarios.py:97-112 | Injected targets are pairwise distinct and suit their faults |
| `ScenarioWords.TargetIsFoundIff` | Arse_shadow/chaos_scenarios.py:96-112 | A fault finds a target exactly when one that suits it is unused: any of the seven containers, the four services for HTTP faults, RabbitMQ for a backlog |
| `ScenarioWords.EveryHitIsApplied` | Arse_shadow/chaos_scenarios.py:118-126 | A fault that finds a target is applied to it, and is listed for recovery exactly if that did not raise |
| `ScenarioWords.EveryScenarioIsInOrder` | Arse_shadow/chaos_scenarios.py:112-119 | The limits are read right before a memory limit or throttle of the same target and at no other time, and no target gets two faults |
| `ScenarioWords.KilledAreStarted` | Arse_shadow/chaos_scenarios.py:151-158 | Exactly the killed containers are started again, in their order |
| `ScenarioRecovery.EveryInjectionIsRecovered` | Arse_shadow/chaos_scenarios.py:137-157 | Wherever injections fail or shutdown lands, each injected fault gets exactly one recovery attempt, in order, after all injections |
| `ScenarioRecovery.LimitsAreReadFirst` | Arse_shadow/chaos_scenarios.py:117-121 | Limits are read before any fault touches their target |
| `ScenarioRecovery.RecordedLimitsAreOriginal` | Arse_shadow/chaos_scenarios.py:53-67 | What is recorded is what the limits were before the scenario, or the defaults if unreadable |
| `ScenarioRecovery.LimitsLeftBehind` | Arse_shadow/chaos_scenarios.py:120-146 | Exactly which limits a scenario leaves on a target, for every combination of failures |
| `ScenarioRecovery.MemoryIsRestoredIff` | Arse_shadow/chaos_orchestrator.py:269-274 | A memory limit that took effect is undone exactly if the injection succeeded, its recovery took effect and the limits were readable or absent |
| `ScenarioRecovery.QuotaIsNotRestored` | Arse_shadow/chaos_orchestrator.py:264-267 | A recovered CPU throttle ends without a quota, whatever it was |
| `ScenarioRecovery.RaisingFaultLeaks` | Arse_shadow/chaos_scenarios.py:120-130 | A fault that takes effect although its application raises stays in place and is never recovered |
| `ScenarioRecovery.OthersKeepTheirLimits` | Arse_shadow/chaos_scenarios.py:97-116 | Targets that no fault was aimed at keep their limits |

## Left out

- Docker, HTTP, AMQP, subprocess and socket effects: foreign calls, which succeed or raise as an input says. Docker's own reading of a zero memory limit is not modelled; an update stores the value it is given.
- Language models, prompts, embeddings, Drain3, SHA-256 and pydantic: their results are arbitrary inputs, hashes are opaque keys.
- Token validation, the other endpoints of the chaos controller, Spring configuration: single branches.
- The bounded wait of `Thread.join` in the clear request: a join may return at any time, which covers the timeout.
- The operating system's lock primitives behind the history lock, and the best-effort synchronisation of its directory: acquiring and releasing are single steps.
- Clock readings inside one watchdog pass coincide; times are numbers.
- Character classes are ASCII: Unicode white space, digits and case are not modelled.
- `JsonRepair.Loads`: parses objects of strings without escapes, not the other JSON values; the texts of the truncation theorem exclude quotes, backslashes, braces, colons and backticks, and its keys are not empty.
- The noise filters, masking and trace extraction of the log processor, the priority formula and the payload of an incident: predicates and inputs; only the order of priorities matters.
- `Scoring.Score`: keyword extraction, the veto patterns, the citation overlap and `shlex` appear as fields of an answer, a command or the telemetry, and binary floating point as real numbers.
- `Harness.ConfidentIff`: is about real arithmetic; the source's binary floating point can differ at the boundary itself.
- `Guardrail.GuardrailIsAllowlist`: values whose conversion raises something other than a value or type error, such as infinity, and keys that cannot be looked up, such as lists, are not modelled; of other values what `str` and `int` make of them is an input.
- The limit of Python's integer conversion on numbers of thousands of digits in commands.
- `ScoringBounds.RaisesIffBlankIsReached`: the error of an embedder that is not loaded, and root causes that are not text, are not modelled.
- Latencies, logs and Markdown output of the debate, and the transports of the publisher.
- The metrics, health and anomaly values of the simulator, the telemetry it writes, and its artifact files.
- The outcomes of starting killed containers again, and the wait between injection and recovery: they change nothing in the model.
