# Verified model of the benchmark's generators, Runner and graders

This project models, in Dafny, the parts of the benchmark platform whose correctness depends on how several
functions fit together, and proves what they promise:

- **Relay chains.** Cells act on vectors of eight residues modulo 257 by rotating lanes and adding a delta. Generated
  chains are the identity for all random draws; seven corruptions spread over five chains are jointly required, for
  every input and every subset left unrepaired; checkpoints locate what is still broken; the written history
  introduces the corruptions wave by wave while every text keeps denoting its cell. (`RelayCells`, `RelayFaults`,
  `RelayBundle`, `RelayDecoys`, `RelayCheckpoints`, `CellSource`, `Numerals`, `RelayHistory`, `RelayRotation`,
  `Distribution`)
- **Git history.** The mutable fast-import writer is proved against a grammar with a reader that undoes it, and the
  replay of what the reader gets back is the fold of the file maps that were committed. (`Utf8`, `Codecs`,
  `FastImport`, `FastImportWriter`, `FastImportReplay`; `RepositoryImport` and `RepositoryHead` follow the commits of
  `import_repository` to the files of HEAD; `RelayWorkspace`, `RelayRepository` and `RelayImport` lead from the random
  draws through the history to the replayed repository and its branches)
- **Tamper-evident records.** Hash-linked evidence chains and graph ledgers, with the verifiers that ship beside them.
  (`EvidenceChain`, `GraphLedger`, `TextOrder`)
- **Run lifecycle.** API requests, worker threads, the claim loop, crashes and restarts as one state machine whose
  transactions interleave in any order, with the event log and the budget override log of every run. (`RunBudget`,
  `RunLifecycle`; `RunnerMachine` for one thread, `RunnerRows` for one run, `RunnerSystem` for all; `RunnerHistory` and
  `RunnerFairness` over histories; `RunnerProtocol` and `RunnerTranscript` for what a log says a run went through;
  `RunnerService`)
- **Catalog sync.** The search for a free profile name and the idempotent sync around it. (`ProfileSync`)
- **Measurement and grading.** Pairing of calls and results, distributions, parameter trees, export sanitizing,
  subsequence search, caps, recovered faults and the overtime penalty. (`Telemetry`, `ModelParameters`,
  `ExportSanitizer`, `Scoring`, `GraderEvidence`, `Overtime`, `Rounding`)

`dafny verify dfyconfig.toml` checks the whole project.

Conventions. Random draws are parameters over their whole ranges. SHA-256 and canonical JSON are function parameters;
injectivity of a digest is never assumed: a theorem that needs it concludes "or here is a collision". Case folding,
key normalisation and the pattern for mutating commands are parameters with only the properties the code relies on.
Each request handler and each worker transaction is one atomic step, although cancel, pause, resume and
budget adjustments read their row without a lock; `complete` is the last step of its thread. The claim query skips rows
that another transaction holds (`skip_locked`), so a locked run can be passed over; with atomic steps no row is ever
held, and the order of claims is stated for that case.
There is one Runner process: the row lock of the claim query would let two claim side by side, but a restart of one
would fail the runs of the other. An outcome `Raise` is a Python `Exception`.
Measurements are exact rationals, rounded half to even.

Where the code and its documentation or comments differ, the model follows the code:

- The one-probe check of `identity_chain` never fires, but would not decide the identity by itself
  (`RelayCells.OneProbeIsNotEnough`, exact condition in `OneProbeDecidesIff`); the three probes of the shipped
  self-verification do.
- `_mutate_query_cell` never raises, for any chain at all and not only for identity chains.
- The comment on the query decoy promises a perturbation that leaves the literal-identity slot; the code draws two lanes
  once. The write changes nothing exactly if the lane already holds the successor, and leaves the slot exactly if it
  hits the one lane that reaches it with an amount that matters (`RelayDecoys.QueryDecoyIsVoidIff`,
  `QueryDecoyLeavesSlotIff`, inputs in `DecoysOfEveryKind`).
- Fewer than thirteen commits make two waves share a commit, and the import then fails its own final check
  (`RelayHistory.WavesFitIff`, `MissedWave`).
- The evidence verifier refuses generated chains of more than a million records
  (`EvidenceChain.GeneratedChainsAreAccepted`, `LongerChainsAreRefused`).
- An exception inside `fail` ends the worker thread with its run still interrupted. While the Runner stays up nothing
  brings such a run to an end but a cancel request; the next restart fails it (`RunnerHistory.LosingHistory`,
  `RestartFailsExactly`).
- The comment that HEAD holds exactly `file_count` files is true exactly if there are no more core files than that,
  variants and regression write core files only, and a maintenance commit deletes the freeze record
  (`RepositoryHead.ImportRepository`, `FreezeRecordStays`). The callers ask for at least twenty commits, so there is
  such a commit.
- The web client keeps showing an optional budget that was removed by a null override
  (`RunBudget.RemovedBudgetIsStillShown`, exact condition in `DisplayAgreesIff`).
- With a regression to introduce, a history without room for a noise commit gets one commit more than its snapshot, key
  commit, regression and variants, however few were requested (`RepositoryImport.CommitCountIsMetIff`,
  `OneCommitTooMany`).
- An overtime cap of zero switches off the censored outcome as well as the penalty (`Overtime.ExceedsIff`,
  `ZeroCapHidesOverruns`).
- A tool call id that is repeated after the last mutation lets a verification before it count as one after it; that is
  the only way (`GraderEvidence.AfterTheLastMutation`, `PostChangeVerified`, input in `RepeatedIdsAreCredited`).
- Profile names can exceed 120 characters when the credential name is long
  (`ProfileSync.LongCredentialMakesLongName`, exact condition in `NameFitsIff`).

## Model

| member | source | states |
|---|---|---|
| RelayCells.ArithmeticIsModular | apps/api/app/challenge/generate_v3.py:77-78 | the branch-free lane and residue steps used throughout are addition, negation and rotation modulo 257 and 8 |
| RelayCells.RunChain | apps/api/app/challenge/generate_v3.py:88-91 | running a chain cell by cell is the composition of its cells |
| RelayCells.ChainConcat | apps/api/app/challenge/generate_v3.py:88-91 | running a concatenation is running its parts one after the other |
| RelayCells.SummaryIsExact | apps/api/app/challenge/generate_v3.py:98-112 | the running pair (state_rotate, state_delta) is the exact affine form of the prefix on every state |
| RelayCells.IdentityIffNeutral | apps/api/app/challenge/generate_v3.py:113-128 | a chain is the identity on all states exactly when its affine form is neutral |
| RelayCells.IdentityChain | apps/api/app/challenge/generate_v3.py:94-129 | for every count and all draws the generated chain is the identity on every state, and the one-probe check never fires |
| RelayCells.InverseCloses | apps/api/app/challenge/generate_v3.py:113-125 | the computed terminal cell closes any prefix to the identity |
| RelayCells.TerminalIsForced | apps/api/app/challenge/generate_v3.py:113-125 | no other terminal rotation or delta would close the prefix |
| RelayCells.OneProbeIsNotEnough | apps/api/app/challenge/generate_v3.py:126-128 | the single probe alone would accept a chain that is not the identity |
| RelayCells.OneProbeDecidesIff | apps/api/app/challenge/generate_v3.py:126-128 | a chain the single probe accepts is the identity exactly if its rotations add up to none |
| RelayCells.SelfVerificationIsComplete | apps/api/app/challenge/generate_v3.py:794-805 | the three probes of the shipped self-verification accept a chain exactly when it is the identity on every state |
| RelayFaults.DriftIsExact | apps/api/app/challenge/generate_v3.py:163-177 | changing cells by increments adds the turned sum of the increments to the result, on every input |
| RelayFaults.DriftBounds | apps/api/app/challenge/generate_v3.py:163-177 | up to eight increments of at most 31 never wrap: the drift is bounded by their number and counts every one of them |
| RelayFaults.Mutate | apps/api/app/challenge/generate_v3.py:163-177 | three different lanes move by their drawn amounts, every other lane and the rotation stay |
| RelayFaults.IncrementsAreBounded | apps/api/app/challenge/generate_v3.py:171-173 | each corruption moves some lane and none by more than 31 |
| RelayFaults.SpikeIsCarried | apps/api/app/challenge/generate_v3.py:184-206 | one changed cell shows in the result exactly as its increment turned by the rest of the chain |
| RelayFaults.NudgeMovesOneLane | apps/api/app/challenge/generate_v3.py:184-206 | a candidate with one nudged lane changes exactly the result lane to which the suffix rotation carries it |
| RelayFaults.MutateQueryCell | apps/api/app/challenge/generate_v3.py:184-206 | the search never raises, on any chain and at any index: it stops at the lane carried to lane 0 with increment 1, and the query slot changes |
| RelayBundle.BuildPlan | apps/api/app/challenge/generate_v3.py:237-258 | every chain of the bundle is an identity chain whose shipped form differs exactly at its targets and whose initial form differs at most at its decoys |
| RelayBundle.BuildRuntimeBundle | apps/api/app/challenge/generate_v3.py:219-262 | all five configured chains are built with these properties for all draws |
| RelayBundle.ShiftIsExact | apps/api/app/challenge/generate_v3.py:219-262 | a chain with any subset of its corruptions left in place adds one fixed shift to every input |
| RelayBundle.ShiftIsBounded | apps/api/app/challenge/generate_v3.py:220-226 | that shift is at most 31 per remaining corruption in each lane, and zero exactly when nothing is left broken |
| RelayBundle.FrameLanesRevealCorruption | apps/api/app/challenge/generate_v3.py:664-673 | lane, policy, routing and codec together return an input unchanged exactly when none of their six corruptions remains, for every input |
| RelayBundle.QueryCorruptionSwapsTheTenantClause | apps/api/app/challenge/generate_v3.py:457-480 | the query corruption moves the identity clause from the literal tenant row to the normalised one and leaves the other three clauses |
| RelayBundle.SevenCorruptionsAreJointlyRequired | apps/api/app/challenge/generate_v3.py:712-723 | the emitted frame is the expected one exactly when all seven corruptions are repaired; any other accepted frame is a digest collision |
| RelayDecoys.DecoyIsVoidIff | apps/api/app/challenge/generate_v3.py:163-169 | the write of a query decoy changes nothing exactly if the lane written already holds the successor of the lane read; never if both are the same lane |
| RelayDecoys.QueryDecoyIsVoidIff | apps/api/app/challenge/generate_v3.py:251-258 | in terms of the draws: the query chain at the start of history is the identity exactly if the drawn write is void |
| RelayDecoys.QueryDecoyLeavesSlotIff | apps/api/app/challenge/generate_v3.py:167-169 | in terms of the draws: the query at the start of history leaves the literal-identity slot exactly if the lane written is the one that the rotations of the first 74 cells name and the amount changes the residue of 23 |
| RelayDecoys.DrawnDecoyMoves | apps/api/app/challenge/generate_v3.py:163-180 | on every input the decoy shows in exactly one lane, by the drawn amount |
| RelayDecoys.PrefixTellsTheCarriedLane | apps/api/app/challenge/generate_v3.py:113-125 | in an identity chain the rotations up to a cell determine where the rest carries its lanes |
| RelayDecoys.DecoysOfEveryKind | apps/api/app/challenge/generate_v3.py:163-169 | concrete draws: a void decoy, one that changes the chain but stays in the slot, and one that leaves it |
| RelayCheckpoints.SegmentationsAgreeIff | apps/api/app/challenge/generate_v3.py:765-781 | generator segments and audit slices agree on a chain exactly when its length is below 8 or a multiple of 8 |
| RelayCheckpoints.SegmentsPartition | apps/api/app/challenge/generate_v3.py:279-284 | the eight checkpoint segments partition every chain |
| RelayCheckpoints.Checkpoints | apps/api/app/challenge/generate_v3.py:278-284 | checkpoint k digests the rotations and deltas of segment k |
| RelayCheckpoints.AuditLocatesCorruption | apps/api/app/challenge/generate_v3.py:209-216 | the audit of a partly repaired chain disagrees with a checkpoint exactly where the segment holds an unrepaired corruption, or the digest collides |
| CellSource.EverySpellingDenotes | apps/api/app/challenge/generate_v3.py:141-149 | each of the four number spellings denotes the number |
| CellSource.TextDenotesCell | apps/api/app/challenge/generate_v3.py:140-160 | reading the text of a cell gives the cell back, for every variant |
| CellSource.SpellingsDiffer | apps/api/app/challenge/generate_v3.py:141-149 | two styles spell a number alike only where the source gives both the same branch |
| CellSource.NextVariantDiffers | apps/api/app/challenge/generate_v3.py:1340-1342 | the next variant always changes the text of a cell, so one retry is enough |
| Numerals.NumeralRoundTrip | apps/api/app/challenge/generate_v3.py:143-146 | decimal and hexadecimal numerals denote the number they were printed from |
| Numerals.PaddedOrder | scenarios/counterfeit-release/generator.py:121 | below the width, zero-padded numbers sort as text in number order |
| RelayHistory.WavesFitIff | apps/api/app/challenge/generate_v3.py:1298-1301 | the seven wave commits are increasing and inside the history exactly when there are at least thirteen commits |
| RelayHistory.QuietCommit | apps/api/app/challenge/generate_v3.py:1335-1344 | a commit that is no transition changes the meaning of no cell |
| RelayHistory.WaveCommit | apps/api/app/challenge/generate_v3.py:1325-1334 | a transition repairs its decoy and corrupts its target and changes no other cell |
| RelayHistory.AfterWave | apps/api/app/challenge/generate_v3.py:1325-1334 | after wave k exactly the first k targets are corrupted and the first k decoys repaired |
| RelayHistory.MissedWave | apps/api/app/challenge/generate_v3.py:1298-1301 | a wave that shares its commit with an earlier one never corrupts its target |
| RelayHistory.BranchesArePartial | apps/api/app/challenge/generate_v3.py:1366-1371 | the cells at the named wave commits are neither those of HEAD nor the repaired ones |
| RelayHistory.Respell | apps/api/app/challenge/generate_v3.py:1335-1344 | a quiet commit rewrites the two files whose turn it is, in the spelling of its commit or the next one, and no other; both texts change unless the two are one file |
| RelayHistory.RunWave | apps/api/app/challenge/generate_v3.py:1325-1334 | a wave writes the texts of its two paths in the spellings of its commit, and they denote the new cells |
| RelayHistory.RoundPercentIsNearest | apps/api/app/challenge/generate_v3.py:1298-1301 | the rounding of the wave commits goes to the nearest number, and to the even one of two |
| RelayRotation.QuietCommitsTakeTurns | apps/api/app/challenge/generate_v3.py:1335-1344 | two quiet commits in a row change the texts of different pairs of files |
| RelayRotation.NextPairDiffersIff | apps/api/app/challenge/generate_v3.py:1339 | neighbouring pairs differ exactly if the number of files does not divide 17 and is more than two, when it does not divide 43 |
| RelayRotation.EveryPathHasItsTurn | apps/api/app/challenge/generate_v3.py:1335-1344 | as many quiet commits in a row as there are files change the text of every file, if 17 does not divide their number |
| RelayRotation.HistoryRotates | apps/api/app/challenge/generate_v3.py:1312-1353 | the three together, on the trees of an import alone |
| RelayRotation.WavesChangeTwo | apps/api/app/challenge/generate_v3.py:1325-1334 | a wave changes no text but those of its decoy and its target |
| RelayHistory.ImportCommits | apps/api/app/challenge/generate_v3.py:1312-1353 | along the whole loop every tree denotes the cells expected at its commit |
| RelayHistory.WavesArrived | apps/api/app/challenge/generate_v3.py:1355-1362 | the final checks pass exactly when all waves happened, and then the cells are those of HEAD |
| RelayHistory.ImportDeadLetter | apps/api/app/challenge/generate_v3.py:1298-1362 | the import succeeds exactly when the file plan adds up and there are at least thirteen commits; then every tree means what its wave count says, every commit changes the texts planned for it, and every record is imported once, in order |
| RelayHistoryText.CellTextIsFaithful | apps/api/app/challenge/generate_v3.py:140-160 | the notation of cell_source has the properties the history needs, for seals without quotes |
| Distribution.FloorStep | apps/api/app/challenge/generate_v3.py:1313-1323 | the floor form takes the sizes of its closed form at every commit |
| Distribution.CeilingStep | scenarios/counterfeit-release/generator.py:214-220 | the ceiling form takes the sizes of its closed form at every commit |
| Distribution.BatchesAreBalanced | apps/api/app/challenge/generate_v3.py:1419-1424 | no two batches differ by more than one record, in either form |
| Distribution.FloorBatches | apps/api/app/challenge/generate_v3.py:1419-1439 | every record is emitted exactly once, in order, and the cursor converges for two or more commits |
| Distribution.CeilingBatches | scenarios/counterfeit-release/generator.py:211-239 | every record is emitted exactly once, in order, and the empty-commit error occurs exactly when some commit has neither record nor transition |
| Utf8.TextRoundTrip | apps/api/app/challenge/generate.py:24-25 | decoding gives back every encoded text, so data lengths in bytes are exact |
| FastImport.StreamRoundTrip | apps/api/app/challenge/generate.py:27-61 | a reader of the blob, commit, M, D and reset subset recovers every list of writable commands from its bytes |
| FastImportWriter.TextIsPrinted | apps/api/app/challenge/generate.py:48-61 | the text composed piece by piece is what the grammar prints |
| FastImportWriter.ImportState.Blob | apps/api/app/challenge/generate.py:27-34 | a blob takes the next mark and writes its exact bytes |
| FastImportWriter.ImportState.Commit | apps/api/app/challenge/generate.py:36-61 | a commit writes its blobs and then one commit naming them, and becomes the last commit |
| FastImportWriter.ImportState.Reset | apps/api/app/challenge/generate.py:715-718 | a branch is reset to the last commit, or there is none yet |
| FastImportWriter.ImportState.ResetTo | apps/api/app/challenge/generate_v3.py:1366-1371 | a branch is set to an earlier commit, named by its mark |
| FastImportReplay.MarksAreConsecutive | apps/api/app/challenge/generate.py:28-29 | marks are 1, 2, 3 and so on: unique, increasing, without gaps |
| FastImportReplay.CallsReplay | apps/api/app/challenge/generate.py:36-61 | replaying the commands of any calls succeeds (each M names an earlier blob, each mark is new) and each branch shows the fold of the file maps |
| FastImportReplay.WrittenStreamReplays | apps/api/app/challenge/generate.py:18-61 | the bytes the writer holds are read back as exactly its commands, and their replay shows the fold of the file maps |
| FastImportReplay.GitStreamReplays | apps/api/app/challenge/generate.py:18-61 | the same for the words git itself uses: whatever the import wrote is read back and replays |
| FastImportReplay.LineFeedPathsAreAmbiguous | apps/api/app/challenge/generate.py:55-58 | a path with a line feed writes a D line of its own: two different commits have the same bytes |
| RelayRepository.HistoryIsPainted | apps/api/app/challenge/generate_v3.py:1284-1350 | the trees git holds after each commit are the trees of the history, file by file |
| RelayRepository.RelayHistoryReplays | apps/api/app/challenge/generate_v3.py:1284-1350 | the bytes of the relay history are read back as its commands, and the replayed repository holds at every commit texts denoting exactly the cells that the waves so far imply |
| RelayWorkspace.BundleIsWorkspace | apps/api/app/challenge/generate_v3.py:228-318 | the five built chains on different paths, targets and decoys sorted by path, meet everything the history import relies on, in the notation of cell_source |
| RelayWorkspace.GenerateRelay | apps/api/app/challenge/generate_v3.py:1262-1362 | from the random draws on: the bundle is built and its import succeeds exactly under the file plan and the thirteen commits, with the whole promised history |
| RelayWorkspace.GeneratedRelayReplays | apps/api/app/challenge/generate_v3.py:1284-1371 | a stream that holds a generated history and then resets branches replays to a repository that holds at every commit the cells the waves so far imply, and at every branch those of its commit; commits without a wave change the texts of all 704 cells in turn, two at a time |
| RelayImport.WriteCommits | apps/api/app/challenge/generate_v3.py:1312-1353 | the loop writes one commit per entry of the history and remembers the marks of exactly the wave commits |
| RelayImport.ExportBranches | apps/api/app/challenge/generate_v3.py:1364-1371 | the two branches are set to the second and the second to last wave |
| RelayImport.ImportRelay | apps/api/app/challenge/generate_v3.py:1262-1371 | from the random draws to the repository: it succeeds exactly under the file plan with thirteen commits; then its stream is read back, every commit, main and both branches hold the cells expected there, HEAD ships the final cells, and the two branches are neither shipped nor repaired |
| RepositoryImport.ScheduleImport | apps/api/app/challenge/generate.py:621-713 | noise files and variants are emitted once each and in order, before each noise commit of a stretch as many variants have come as were due, the regression stands behind the early variants, and the import converges exactly when there is no noise or a commit to carry it |
| RepositoryImport.Schedule.WriteNoise | apps/api/app/challenge/generate.py:631-652 | a maintenance commit takes an even share of the remaining files |
| RepositoryImport.Schedule.WriteStretch | apps/api/app/challenge/generate.py:679-706 | between the noise commits of a stretch exactly its variants are written |
| RepositoryHead.NoisePathsDiffer | apps/api/app/challenge/generate.py:94-96 | different noise files have different paths: the number can be read back from the path |
| RepositoryHead.HeadHolds | apps/api/app/challenge/generate.py:599-713 | after any part of the schedule the tip holds exactly the files supplied so far, the noise files so far, and the freeze record until the first maintenance commit |
| RepositoryHead.SuppliedTexts | apps/api/app/challenge/generate.py:599-706 | a file of the snapshot, of a variant or of the regression stands at the tip with the text of the last commit that has it |
| RepositoryHead.NoiseTexts | apps/api/app/challenge/generate.py:631-652 | every noise file written so far stands at the tip with its own text |
| RepositoryHead.CommitsAreStamped | apps/api/app/challenge/generate.py:599-706 | the import makes one commit for the snapshot, one for the freeze record and one for each slot of the schedule, all on main, each with its own files, message and time |
| RepositoryHead.WorkIsSupplied | apps/api/app/challenge/generate.py:654-706 | the files supplied by a schedule are those of the core, of its first variants and of the regression |
| RepositoryHead.HeadCount | apps/api/app/challenge/generate.py:609-611 | these are as many as the union of the supplied files, the noise files and the freeze record: none coincide |
| RepositoryHead.ImportRepository | apps/api/app/challenge/generate.py:575-719 | the import fails exactly when there are noise files and no commit planned for them; otherwise its stream is read back, and main and both named branches hold file_count files exactly when the core files are not more, variants and regression write core files only, and some maintenance commit deletes the freeze record; every file at the tip has its own text |
| RepositoryHead.FreezeRecordStays | apps/api/app/challenge/generate.py:609-611 | without a regression and with two commits the freeze record is still at HEAD, which holds one file too many |
| RepositoryImport.AllAreDue | apps/api/app/challenge/generate.py:681-689 | the due rule has written every variant by the last noise commit, so the loop behind it finds none |
| RepositoryImport.VariantsAreEven | apps/api/app/challenge/generate.py:679-706 | the numbers of variants due between neighbouring noise commits of a stretch differ by one at most |
| RepositoryImport.EarlyVariantsAreTheShare | apps/api/app/challenge/generate.py:676-677 | the early stretch has exactly its share of the variants, or two if the share is less and there are any |
| RepositoryImport.TruthsAmongThree | apps/api/app/challenge/generate.py:681-706 | of three early variants in a row two state the truth, the last one always does, and no late one |
| RepositoryImport.VariantsAreASixth | apps/api/app/challenge/generate.py:619-623 | one commit in six is a variant, rounded down, from 24 up to 192 of them, and none without a regression or a source of variants |
| RepositoryImport.CommitCountIsMetIff | apps/api/app/challenge/generate.py:614-625 | the history has the requested number of commits, or as many as are reserved and one more for a regression, whichever is larger; so exactly the requested number when there is room for a noise commit or no regression to introduce |
| RepositoryImport.OneCommitTooMany | apps/api/app/challenge/generate.py:614-625 | asked for 27 commits with a regression and variants, the import writes 28 |
| RunBudget.CreatedBudgetIsSufficient | apps/api/app/api/runs.py:118-140 | every created run starts with a budget that satisfies BudgetSpec and the Scenario minimum, and without token budgets for Antigravity |
| RunBudget.SufficientIff | apps/api/app/challenge/spec.py:14-59 | a budget is valid exactly if of each of its four pairs both fields are set or neither is, time and tool calls are, and the soft value is at least one and less than the hard one; sufficient if it also has the tool calls of the Scenario |
| RunBudget.CreatedIff | apps/api/app/api/runs.py:110-140 | a request creates a run exactly if its values are in bounds and the budget it asks for, with the defaults for fields not named, is valid, sufficient and without a token budget where none can be kept |
| RunBudget.CreatedAsRequested | apps/api/app/api/runs.py:118-140 | the created budget field by field: as requested, the default for a field not named, and the Scenario Provider-request budget if neither of its fields is |
| RunBudget.EntriesReachTheMergedBudget | apps/api/app/api/runs.py:431-449 | the appended overrides turn the effective budget into exactly the validated one |
| RunBudget.AdjustmentIsExact | apps/api/app/api/runs.py:404-449 | an accepted adjustment leaves the validated budget in force, valid and sufficient, and the log only grows |
| RunBudget.AdjustRunBudget | apps/api/app/api/runs.py:395-449 | the handler with its two loops accepts, rejects and appends as specified |
| RunBudget.AdjustmentsTakeEffect | apps/api/app/api/runs.py:404-449 | for every accepted request and every field: a value in the request is in force, an explicit null clears one of the four optional fields, and every other field keeps its value |
| RunBudget.AcceptedIff | apps/api/app/api/runs.py:395-430 | a request is accepted exactly if its values are in bounds, it asks for no token budget where none can be kept, and the budget with these fields is valid and sufficient |
| RunBudget.AppendedOverrides | apps/api/app/api/runs.py:431-449 | the overrides appended are fields the request names, with its values, each once |
| RunBudget.PollCatchesUp | apps/api/app/runner/engine.py:1955-2002 | the engine never rejects accepted adjustments: after a read it holds the effective budget |
| RunBudget.HalfAnAdjustmentWouldBeLost | apps/api/app/runner/engine.py:1990-2001 | reading half of one adjustment would lose it for good, which is why atomic appends matter |
| RunBudget.MergeBudgetOverrides | apps/web/src/lib/budget.ts:10-21 | the client computes the fold that skips nulls |
| RunBudget.DisplayAgreesIff | apps/web/src/lib/budget.ts:10-21 | the client shows the value in force of a field unless its last override is a null and the field ever had a value |
| RunBudget.RemovedBudgetIsStillShown | apps/web/src/lib/budget.ts:10-21 | on every run two accepted requests, setting and removing the token budget, leave none in force while the client shows the old one |
| RunBudget.RequiredFieldsAreShownCorrectly | apps/web/src/lib/budget.ts:10-21 | required fields are always shown correctly, since adjustments never write nulls for them |
| RunLifecycle.AppendKeepsNumbering | apps/api/app/events.py:10-21 | appending with the maximum plus one keeps the sequences 1..n |
| RunLifecycle.TidyMeans | apps/api/app/worker.py:895-903 | in a log kept by these transactions only archiving and engine notes follow the end of a run |
| RunLifecycle.ArchivedIsLast | apps/api/app/security.py:212-217 | an archived run is found by no request any more: it is archived at most once and only engine notes follow |
| RunLifecycle.OneEventKeepsConsistent | apps/api/app/events.py:10-21 | a row and its log that change together by one timely event stay in agreement |
| RunLifecycle.ArchiveKeeps | apps/api/app/api/runs.py:161-186 | archiving an ended run keeps the row and its log in agreement and the status |
| RunLifecycle.AdjustKeeps | apps/api/app/api/runs.py:382-462 | an accepted adjustment keeps the row consistent and puts the merged budget in force |
| RunLifecycle.CancelKeeps | apps/api/app/api/runs.py:465-485 | cancelling always leaves the run ended and never changes an ended one |
| RunLifecycle.ClaimKeeps | apps/api/app/worker.py:246-266 | claiming logs the one claim of the run |
| RunLifecycle.SetStageKeeps | apps/api/app/worker.py:744-762 | a stage of execute keeps row and log in agreement and leaves a cancelled run alone |
| RunLifecycle.CompleteKeeps | apps/api/app/worker.py:839-896 | completing leaves the run ended, with or without an exhausted budget |
| RunLifecycle.FailKeeps | apps/api/app/worker.py:994-1040 | failing leaves the run ended and a cancelled run cancelled |
| RunLifecycle.OrphanKeeps | apps/api/app/worker.py:146-188 | reconciliation ends every interrupted run, archived or not |
| RunnerMachine.ThreadStepIsSound | apps/api/app/worker.py:268-557 | every step of execute, with every outcome, keeps its run consistent and stays in step with the status; it leaves an ended run behind unless the transaction of fail itself raised, which changes nothing and ends the thread; what a run goes through is stated by RunnerTranscript |
| RunnerRows.RowStepHolds | apps/api/app/worker.py:65-95 | for one run, its thread and its claims: every step keeps consistency, place and budget, and undoes nothing the run has reached |
| RunnerMachine.StatusMovesInOrder | apps/api/app/worker.py:268-557 | one place in execute brings each status about, in the order preparing, running, scoring, completed |
| RunnerMachine.PollStep | apps/api/app/runner/engine.py:1955-2002 | whenever the investigation reads the override log it ends with the budget in force |
| RunnerMachine.RequestKeeps | apps/api/app/api/runs.py:161-531 | every API request keeps the row consistent and changes the status only to cancelled |
| RunnerMachine.RequestKeepsMatch | apps/api/app/api/runs.py:382-531 | no request can throw a worker thread off its place |
| RunnerSystem.StepKeepsInvariant | apps/api/app/worker.py:65-95 | every transaction of requests, threads, the main loop, crashes and restarts keeps the invariant and undoes nothing a run has reached |
| RunnerSystem.HistoryKeepsInvariant | apps/api/app/worker.py:65-95 | the invariant holds after every interleaving |
| RunnerProtocol.EveryLogIsProper | apps/api/app/worker.py:268-557 | in every history the log of every run keeps to one protocol, event by event, and tells where its thread stands; pauses and resumes take turns during the investigation, budgets are adjusted only up to its end |
| RunnerTranscript.CompletedRunsWentThroughAll | apps/api/app/worker.py:268-535 | in every history the work in the log of a completed run is a full transcript: set-up, hidden checks each with its result, audit, scorecard, one semantic review in one of four forms, the finished scorecard, and completion, behind a note of an exhausted budget or not |
| RunnerTranscript.AuditsFollowAllChecks | apps/api/app/worker.py:406-445 | in every log, also of runs that failed or were cancelled, the audit starts only behind the set-up and hidden checks that all have their results |
| RunnerTranscript.UndisturbedRunsComplete | apps/api/app/worker.py:268-535 | each outcome has its meaning: a claimed run that nothing disturbs writes exactly the transcript for its number of checks, kind of review and budget, and completes |
| RunnerTranscript.ChecksAreLogged | apps/api/app/worker.py:785-799 | a hidden check that is asked for is in the log at once |
| RunnerTranscript.ExceptionsFailTheRun | apps/api/app/worker.py:536-552 | an exception anywhere fails the run with nothing in between; a hidden check that raises is noted first |
| RunnerTranscript.CancelledRunsAreLeft | apps/api/app/worker.py:778-783 | a thread leaves a cancelled run within five steps that are no engine events, override reads or retries, and writes nothing in them |
| RunnerTranscript.RequestsAreAnsweredIff | apps/api/app/api/runs.py:161-531 | by the log alone: exactly when each request changes a run |
| RunnerHistory.CreatedRuns | apps/api/app/api/runs.py:79-160 | an accepted creation adds one queued run with its own time, budget and first event and changes nothing else; a rejected one adds none |
| RunnerHistory.LimitsFollowTheSetting | apps/api/app/worker.py:113-120 | the limit of a round of filling is the last setting held between 1 and 16, or the fallback |
| RunnerHistory.SettingIsTheLatest | apps/api/app/worker.py:113-120 | in every history the setting is the last one configured, or none |
| RunnerHistory.EveryLogTellsItsRun | apps/api/app/events.py:10-21 | in every history each log is numbered 1..n and its fold is the status, pause and archival of its run; only archiving, at most once, and engine notes follow the end; archived runs have ended; the budget in force is valid |
| RunnerHistory.EndsAreForever | apps/api/app/worker.py:839-896 | whatever happens next, an ended run keeps its status and logs only grow |
| RunnerHistory.MainLoopMoves | apps/api/app/worker.py:65-111 | a round of filling ends exactly when all slots under its limit are taken or no queued run is left that is not archived; otherwise only a crash, a reconciliation or reading the limit moves the main loop |
| RunnerHistory.ClaimedIff | apps/api/app/worker.py:246-266 | a run is claimed exactly while a round of filling has a slot for it and it is an oldest of the queued runs that are not archived, and a claim that fails changes nothing |
| RunnerHistory.ThreadsComeAndGo | apps/api/app/worker.py:97-130 | a thread comes only with the claim of its run and goes only with a crash or by reaping, which takes it exactly when it has come to its end |
| RunnerHistory.ThreadsAndClaims | apps/api/app/worker.py:97-139 | each run is claimed at most once and at most sixteen futures exist; the run of an exited thread has ended exactly if it was not lost in fail or was cancelled; while the Runner is up a run is interrupted exactly if it is not cancelled and has a live thread or was lost in fail |
| RunnerHistory.LostMeans | apps/api/app/worker.py:536-557 | a run is lost exactly if, since the last crash, a thread of its own died because the transaction of fail raised |
| RunnerHistory.TwoExceptionsLoseTheRun | apps/api/app/worker.py:536-557 | at any place in execute an exception followed by one inside fail leaves the run interrupted, without a thread once it is reaped |
| RunnerHistory.LosingHistory | apps/api/app/worker.py:122-130 | a concrete history after which the Runner polls on while a claimed run stays preparing with no thread |
| RunnerHistory.RestartFailsExactly | apps/api/app/worker.py:146-188 | a restart changes exactly the runs that are not cancelled and had a live thread or were lost in fail, and fails them |
| RunnerFairness.ClaimsAreFair | apps/api/app/worker.py:246-266 | in every history whose creation times never go back, runs are claimed in the order of their creation and no claimable run is older than a claimed one |
| RunnerFairness.StepKeepsOrderIff | apps/api/app/worker.py:246-266 | a step breaks that order exactly if it creates a run dated before a claimed one |
| RunnerFairness.FirstComeFirstServed | apps/api/app/worker.py:246-266 | whatever the clocks say, a run claimed before another one that already existed was not created after it |
| RunnerHistory.RestartLeavesNoneInterrupted | apps/api/app/worker.py:146-188 | after a crash and its reconciliation every run is queued or ended, whatever requests came in between |
| RunnerHistory.EngineAlwaysFollows | apps/api/app/runner/engine.py:1955-2002 | in every history the engine, when it reads the override log, holds exactly the effective and sufficient budget |
| RunnerHistory.StatusChangesHaveTheirCause | apps/api/app/worker.py:268-557 | a run completes only at the end of its own thread, fails only after an exception or a restart, and is cancelled only by request |
| RunnerHistory.RowChangesHaveTheirCause | apps/api/app/api/runs.py:382-531 | budgets change only by adjustments of active runs, pauses only while running or when the run ends, archival only by request; worker threads change none of these |
| RunnerService.RunRow.AppendEvent | apps/api/app/events.py:10-21 | the new sequence is the maximum of the log plus one |
| RunnerService.RunRow.Archive | apps/api/app/api/runs.py:161-186 | the handler performs the archive transaction and refuses active runs |
| RunnerService.RunRow.Adjust | apps/api/app/api/runs.py:382-462 | the handler performs the adjustment transaction |
| RunnerService.RunRow.Cancel | apps/api/app/api/runs.py:465-485 | the handler performs the cancel transaction |
| RunnerService.RunRow.Pause | apps/api/app/api/runs.py:488-511 | the handler performs the pause transaction |
| RunnerService.RunRow.Resume | apps/api/app/api/runs.py:514-531 | the handler performs the resume transaction |
| RunnerService.RunRow.EnterStage | apps/api/app/worker.py:744-762 | set_stage as a transaction |
| RunnerService.RunRow.Finish | apps/api/app/worker.py:839-896 | complete as a transaction |
| RunnerService.RunRow.Abort | apps/api/app/worker.py:994-1040 | fail as a transaction |
| RunnerService.Runner.OldestQueued | apps/api/app/worker.py:246-257 | the query finds an oldest claimable run, or there is none |
| RunnerService.Runner.ClaimNext | apps/api/app/worker.py:246-266 | claim is one step of the machine |
| RunnerService.Runner.FillAvailableSlots | apps/api/app/worker.py:97-111 | the runs it claimed are the oldest claimable ones, in order of creation, and nothing else changed; after it no claimable run is left or the limit it read is reached |
| RunnerService.Runner.ReapFinished | apps/api/app/worker.py:122-130 | exactly the finished futures go |
| RunnerService.Runner.ReconcileOrphanedRuns | apps/api/app/worker.py:146-188 | reconciliation is the restart step and reports how many runs it failed |
| EvidenceChain.ChainRecords | scenarios/counterfeit-release/generator.py:89-177 | the loop builds the hash-linked records on their opaque paths |
| EvidenceChain.VerifyChain | scenarios/counterfeit-release/generator.py:701-721 | the embedded verifier walks the records in the order of their ids |
| EvidenceChain.WalkAcceptsIff | scenarios/counterfeit-release/generator.py:710-721 | the verifier accepts exactly the sequences in which every hash is right and every predecessor is the previous hash, and reports count and root |
| EvidenceChain.GeneratedChainsAreAccepted | scenarios/counterfeit-release/generator.py:89-177 | every generated chain of at most a million records is accepted, in whatever order the directory is listed |
| EvidenceChain.LongerChainsAreRefused | scenarios/counterfeit-release/generator.py:121 | every longer chain is refused, because seven-digit ids sort among six-digit ones, or the digest collides |
| EvidenceChain.RootBindsRecords | scenarios/counterfeit-release/generator.py:701-721 | two accepted sets of records with one root are the same records, or a collision or a preimage of GENESIS is at hand |
| EvidenceChain.MissingPredecessorIsNoticed | scenarios/counterfeit-release/generator.py:716-717 | a record whose predecessor was dropped or overwritten makes the verifier refuse, or the digest is broken |
| TextOrder.SortIsAscending | scenarios/counterfeit-release/generator.py:710 | sorting by distinct ids gives ascending ids and the same records |
| GraphLedger.MaterialIsReadable | apps/api/app/challenge/generate_v3.py:421-424 | path NUL digest LF text determines its entries |
| GraphLedger.SeparatorInAPathIsAmbiguous | apps/api/app/challenge/generate_v3.py:421-424 | with a separator inside a path one entry could pass for two |
| GraphLedger.BuildGraphLedger | apps/api/app/challenge/generate_v3.py:404-435 | the ledger lists the digests of the sorted files under their root |
| GraphLedger.Verify | apps/api/app/challenge/generate_v3.py:689-701 | the embedded verifier accepts exactly when every listed file is there with its digest and the root matches |
| GraphLedger.BuiltLedgersMatch | apps/api/app/challenge/generate_v3.py:404-435 | the verifier accepts every built ledger on every repository that holds its files |
| GraphLedger.RootBindsEntries | apps/api/app/challenge/generate_v3.py:421-425 | equal roots mean equal paths and digests, or a collision |
| GraphLedger.RootBindsContents | apps/api/app/challenge/generate_v3.py:689-701 | a repository that passes against a ledger with the published root holds exactly the published contents, or a collision is at hand |
| GraphLedger.RootBindsFiles | apps/api/app/challenge/generate_v3.py:404-435 | two sets of files with one root are the same files, or a collision is at hand |
| ProfileSync.FoldedCandidatesDiffer | apps/api/app/model_discovery.py:411-420 | numbered names differ even after case folding, by the digits after their last space |
| ProfileSync.CandidatesNameTheCredential | apps/api/app/model_discovery.py:402-416 | every candidate but the plain one is a beginning of the display name, as long as there is room for, the credential name behind a dot, and from the third on its number |
| ProfileSync.FailuresAreFew | apps/api/app/model_discovery.py:411-420 | no more numbered names can fail than there are used names |
| ProfileSync.UniqueProfileName | apps/api/app/model_discovery.py:397-420 | the search ends for every finite set of used names with the first free candidate, fresh after folding, and records it |
| ProfileSync.NameFitsIff | apps/api/app/model_discovery.py:402-416 | a name fits 120 characters exactly when it is plain or its suffix leaves room for at least one kept character |
| ProfileSync.LongCredentialMakesLongName | apps/api/app/model_discovery.py:402-416 | a taken one-character name and a credential name of 117 to 120 characters: the candidate found is longer than 120 |
| ProfileSync.NameIsFreeIff | apps/api/app/model_discovery.py:177-188 | a name is free exactly if every profile that has it, whatever the case, is archived or not for the owner to use |
| ProfileSync.ByModelMeans | apps/api/app/model_discovery.py:166-173 | the lookup by model finds live profiles of the credential, the last one for each model |
| ProfileSync.Catalog.SyncOne | apps/api/app/model_discovery.py:196-226 | a discovered model ends with a live profile the owner may use, a new one only where none was live, under the first candidate that is free |
| ProfileSync.Catalog.Sync | apps/api/app/model_discovery.py:166-235 | after a sync every discovered model has a live profile the owner may use; a second sync over the same catalog changes nothing; new profiles are named after their items; one live profile per model stays one; counts and results are exact |
| Telemetry.ToolLifecycle | apps/api/app/telemetry.py:309-373 | one row per call, built with the counts consumed so far |
| Telemetry.RowsPair | apps/api/app/telemetry.py:316-331 | the row of the k-th call of an id holds the k-th result of the id, if there is one |
| Telemetry.EveryCallHasItsRow | apps/api/app/telemetry.py:318-373 | every call has its row, in the order of the calls |
| Telemetry.ResultsAreUsedOnce | apps/api/app/telemetry.py:324-331 | no result is used twice |
| Telemetry.PairedIsTheSmallerCount | apps/api/app/telemetry.py:324-331 | of each id exactly min(calls, results) rows are paired |
| Telemetry.PercentileIsMonotone | apps/api/app/telemetry.py:665-674 | a percentile lies between the extremes and grows with its rank |
| Telemetry.DistributionIsOrdered | apps/api/app/telemetry.py:644-662 | min <= p50 <= p95 <= max and the average lies between min and max, after rounding, for every non-empty list |
| Telemetry.DistributionMeans | apps/api/app/telemetry.py:644-674 | each number of a distribution is what it is called, but for half a thousandth: extremes, sum by count, middle value, and the value at 95 hundredths of the way |
| Telemetry.InterpolationIsLinear | apps/api/app/telemetry.py:665-674 | at a whole position the value there, between two positions in proportion |
| Telemetry.AverageTimesCount | apps/api/app/telemetry.py:655-662 | the average times the count is the sum |
| Telemetry.ExtremesAreTakenOn | apps/api/app/telemetry.py:655-662 | min and max are values of the list that bound all others |
| Telemetry.OnlyTheValuesCount | apps/api/app/telemetry.py:655-662 | the order of the measurements does not matter |
| Telemetry.TurnSummary | apps/api/app/telemetry.py:103-136 | each turn counts once, only a begun turn can complete, and the average duration is at most the largest |
| ModelParameters.Inspector.Inspect | apps/api/app/model_parameters.py:38-58 | the walk with its running key counter |
| ModelParameters.WalkDecides | apps/api/app/model_parameters.py:38-58 | the walk accepts exactly the trees whose height, total number of keys and key names are within the limits, and ends with the total |
| ModelParameters.ValidateModelParameters | apps/api/app/model_parameters.py:31-76 | validation accepts exactly the parameter sets that satisfy all limits |
| ModelParameters.SettingsFitIff | apps/api/app/model_parameters.py:66-76 | the settings of a set are accepted exactly if of each member in force temperature is a number from 0 to 2, top_p one from 0 to 1, the three token limits are integers from 1 on, and num_predict is -1 or an integer from 1 on |
| ModelParameters.ScrubCleans | apps/api/app/model_parameters.py:82-91 | the scrub leaves no sensitive key at any depth and changes exactly the trees that have one |
| ModelParameters.ScrubIsIdempotent | apps/api/app/model_parameters.py:82-91 | scrubbing twice is scrubbing once |
| ModelParameters.ScrubKeepsTheRest | apps/api/app/model_parameters.py:82-91 | along every path without a sensitive key the scrub commutes with looking up |
| ModelParameters.SafeKeepsIff | apps/api/app/model_parameters.py:93-97 | safe_model_parameters leaves alone exactly the sets without managed and sensitive keys |
| ModelParameters.SafeKeepsTheRest | apps/api/app/model_parameters.py:93-97 | managed and sensitive keys are gone from the top, and under every other key stands the scrubbed value |
| ModelParameters.AcceptedSetsAreSafe | apps/api/app/model_parameters.py:31-97 | every accepted set is a fixed point of safe_model_parameters |
| ModelParameters.SafeIsIdempotent | apps/api/app/model_parameters.py:79-97 | safe_model_parameters is idempotent |
| ModelParameters.NoCredentialIsStored | apps/api/app/model_parameters.py:9-97 | no path through an accepted set, nor through the safe form of any set, passes a key that names a credential |
| ExportSanitizer.SanitizeIsExact | apps/api/app/telemetry.py:139-159 | an export holds the redaction text under every sensitive key at every depth, and exactly such trees are exported as they are |
| ExportSanitizer.SanitizeIsIdempotent | apps/api/app/telemetry.py:139-159 | sanitizing twice is sanitizing once |
| ExportSanitizer.KeysStay | apps/api/app/telemetry.py:142-150 | every key stays in place, and other values are the sanitized ones |
| ExportSanitizer.RestIsExported | apps/api/app/telemetry.py:139-159 | along every path without a sensitive key the export has the same keys, lengths and plain values, and shows any other value as its text |
| ExportSanitizer.NoSecretIsExported | apps/api/app/telemetry.py:139-185 | a path through an export that passes a key naming a secret ends there, at the redaction text |
| Scoring.ContainsOrderedSubsequence | scenarios/counterfeit-release/grading/hidden.py:861-869 | true exactly when the expected values embed in order |
| Scoring.GreedyIsAhead | scenarios/counterfeit-release/grading/hidden.py:861-869 | the greedy cursor is never behind any embedding |
| Scoring.RatioPointsAreMonotone | apps/api/app/scoring.py:1325-1328 | more never earns less, and the points are reached exactly at the maximum |
| Scoring.RatioPointsAreInProportion | apps/api/app/scoring.py:1325-1328 | the points are the nearest whole number to their share of the maximum |
| Scoring.RatioIsMonotone | scenarios/counterfeit-release/grading/hidden.py:41-44 | the share stays between nothing and the maximum, never falls with the value and is reached at the target |
| Scoring.RatioIsInProportion | scenarios/counterfeit-release/grading/hidden.py:41-44 | below its target a value earns the nearest whole number to its share |
| Scoring.LeastIsTheMinimum | scenarios/counterfeit-release/grading/hidden.py:709-773 | the capped score is the least of the net score and the triggered caps |
| Scoring.CapOrderDoesNotMatter | scenarios/counterfeit-release/grading/hidden.py:716-773 | caps can be applied in any order |
| Scoring.BothGradersHave1200Points | scenarios/counterfeit-release/grading/hidden.py:10-24 | the weights of both graders sum to 1200 |
| Scoring.ReleaseScoreIsAtMost1200 | scenarios/counterfeit-release/grading/hidden.py:704-720 | every score of the release grader is at most 1200 |
| Scoring.IncidentScoreIsAtMost1200 | apps/api/app/scoring.py:588-634 | every score of the incident grader is at most 1200 |
| Scoring.DeductedIsTheTotal | scenarios/counterfeit-release/grading/hidden.py:656-701 | the deductions recorded add up to every positive count times its points |
| Scoring.Grade.GradeRelease | scenarios/counterfeit-release/grading/hidden.py:656-773 | the running score ends as the points less all charges, or nothing, or the lowest maximum triggered if that is less; without a trigger score and charges add up to the points; at most 1200 |
| Scoring.EachDimensionCounts | scenarios/counterfeit-release/grading/hidden.py:30-36 | every dimension counts by its own value, nothing below zero and no more than its own weight, and nothing else enters the sum |
| Scoring.ScoreIsBounded | apps/api/app/scoring.py:588-634 | the score lies between 0 and every triggered cap and never exceeds the raw score, which never exceeds the sum of the weights |
| Scoring.FinalScoreMeans | apps/api/app/scoring.py:588-634 | the final score of either grader is the only number that is at most every cap and at most the points less the deductions, and is one of these or nothing |
| Scoring.MoreChargesNeverHelp | scenarios/counterfeit-release/grading/hidden.py:656-713 | one more charge never raises the final score, whatever caps apply |
| Scoring.MoreStrictnessNeverHelps | apps/api/app/scoring.py:588-634 | one more deduction or cap never raises the score |
| Scoring.ApplyCaps | apps/api/app/scoring.py:633-634 | the loop over the caps computes the capped score |
| GraderEvidence.MutationEventIndices | apps/api/app/scoring.py:810-824 | exactly the mutating calls are listed, in ascending order |
| GraderEvidence.SuccessfulVerificationAfter | apps/api/app/scoring.py:842-861 | true exactly when some verification call of the mode has its id last called after the boundary and the last result of that id is both good and verified, stated on the events alone |
| GraderEvidence.AfterTheLastMutation | apps/api/app/scoring.py:842-861 | a verification call is credited exactly if it passed and either was called after every mutation or has its id used again after every mutation; no assumption on ids |
| GraderEvidence.CreditedTooEarlyIff | apps/api/app/scoring.py:106-110 | a credited call precedes some mutation exactly if it passed, some mutation follows it, and its id comes back after all mutations |
| GraderEvidence.DistinctIdsAreJudgedRight | apps/api/app/scoring.py:214-243 | with distinct call ids a call is credited exactly if it passed and was called after every mutation |
| GraderEvidence.PostChangeVerified | apps/api/app/scoring.py:214-243 | the whole question for one mode: yes exactly for a passing verification after all mutations or one whose id comes back after them; an unfounded yes exactly if every passing verification precedes some mutation and the id of one comes back; never with distinct ids |
| GraderEvidence.RepeatedIdsAreCredited | apps/api/app/scoring.py:106-110 | four events with a repeated call id: the only verification precedes the mutation and is credited |
| GraderEvidence.RecoveredFaultRuleCount | apps/api/app/scoring.py:924-953 | the count is the number of faults whose first call is followed by a call of the same name and arguments whose last result is good, stated on the lists alone |
| GraderEvidence.RecoveredIsAtMostFaults | apps/api/app/scoring.py:924-953 | no fault is counted twice |
| GraderEvidence.RetryRecovers | apps/api/app/scoring.py:924-953 | repeating the failed call with a good result recovers the fault |
| GraderEvidence.RecoveriesStay | apps/api/app/scoring.py:924-953 | a further call with a new id, whatever its result, loses no recovery |
| GraderEvidence.FaultRecoveryCount | scenarios/counterfeit-release/grading/hidden.py:124-155 | of every fault seen, counted once, whether a later good result of the same call recovered it |
| GraderEvidence.ReleaseRetriedMeans | scenarios/counterfeit-release/grading/hidden.py:124-155 | what recovers a fault, on the lists alone: a good result behind the fault whose call has the same name and, unless the name is one of five, the same arguments |
| Overtime.Scorecard.ApplyOvertimePenalty | apps/api/app/overtime.py:20-77 | the scorecard loses the total penalty, never below zero, and its outcome is censored exactly when a limit counts as exceeded |
| Overtime.ExceedsIff | apps/api/app/overtime.py:43-53 | a dimension counts as exceeded exactly when more than its limit was used and the cap is positive |
| Overtime.OverrunMeans | apps/api/app/overtime.py:50-53 | below the cap the overrun times the limit is what was used beyond the limit; beyond it the cap counts |
| Overtime.PenaltyInFull | apps/api/app/overtime.py:43-57 | the penalty is the sum of four charges, each for its own limit and usage |
| Overtime.ScoreLosesThePenalty | apps/api/app/overtime.py:57-67 | a score in hundredths loses exactly the penalty, or all it has |
| Overtime.ZeroCapHidesOverruns | apps/api/app/overtime.py:43-53 | one and the same overrun counts as exceeded with a cap of one and not with a cap of zero |
| Overtime.TotalBounds | apps/api/app/overtime.py:43-57 | the total lies between 0 and the rounded cap times the weights |
| Overtime.DefaultPenaltyIsAtMost180 | apps/api/app/overtime.py:20-32 | with the default cap and weights at most 180 points are lost |
| Overtime.MoreUsageNeverHelps | apps/api/app/overtime.py:43-67 | the remaining score never grows with any usage and never exceeds the score before |
| Overtime.WithinLimitsNothingIsLost | apps/api/app/overtime.py:43-57 | a run within its limits loses nothing |

## Left out

- Docker, HTTP, OAuth, subprocess git, SQL and tar I/O; git itself beyond the replay of the fast-import subset.
- The agent engine and the sandbox beyond the events and override reads they contribute: outcomes are arbitrary.
- Event payloads, stage texts, timestamps other than creation, scores and artifacts of a run row.
- Which user may use which run or model: a refused request is no step; an archived run is found by nobody.
- Lost updates between concurrent requests without a row lock: transactions are atomic steps here.
- An exception raised after `complete` has committed, and a `BaseException` such as `SystemExit` out of a scenario hook,
  which passes the handlers of `execute` and of `reap_finished` alike.
- More than one Runner process at a time.
- Path quoting and directory conflicts in git trees: a tree is a map from path to content.
- Frame text as base64url JSON: a frame is compared as a value and through its digest.
- Content of generated prose, noise files and history variants: only their schedule, their paths and their texts as given.
- Floating point: the transition commits round exact percentages, where the source rounds products of doubles that can
  fall on the other side of a half; the shares of noise and variants before the regression are parameters.
- Provider turns, stage timelines and the remaining summary counters of the telemetry bundle.
- Named branches of the capsule and release-custody repositories, and the prose of their commits.
- JSON text: parameter trees are values, the encoder is a parameter giving a size or failing.
- React pages, prose corpora, SQL seeds, credential refresh, CLI parsing, LLM judging, password and session code.
- EvidenceChain.GeneratedChainsAreAccepted: assumes the opaque record paths are distinct, because they are truncated digests; MissingPredecessorIsNoticed covers overwritten records.
- RelayWorkspace.GenerateRelay: assumes that the opaque cell paths do not collide, because they are truncated digests, and that the drawn seals hold no quotes, because they are hexadecimal digests.
- RelayHistory.ImportDeadLetter: the cut of the records into batches is computed before the loop over the commits, because it does not depend on the cells.
- ProfileSync.Catalog.Sync: the query order of live profiles is the table order, because the source leaves it unspecified; it matters only if a model already had several live profiles.
- GraderEvidence.FaultRecoveryCount: arguments are compared as one text, because their structure plays no other part.
