# Formal model of the audit pipeline

The repository audits battery records before any forecasting model may use them: it searches for exact overlap
between record groups, replays forecasts so that no prediction can see its own label, inspects BIFF8 workbook bytes
without executing them, rebuilds every reduction a second time, and rests on a few numeric kernels. This project models
that logic in Dafny and proves what the code and its documentation promise about it. `dafny verify dfyconfig.toml`
checks everything.

| part | files |
|---|---|
| shared vocabulary | `Basics` |
| exact overlap search | `Winnowing`, `Overlap`, `Confirmation`, `OverlapIndex`, `PipelinePlan`, `OverlapPipeline` |
| causal replay | `HashChain`, `SealedLedger`, `ReplayLogs`, `CausalBarrier`, `CausalVerifier`, `BarrierCompleteness`, `ReplayClients`, `ReplaySafety`, `ReplayFuture`, `KeyParity`, `RunLedger`, `Replay` |
| BIFF8 records | `BiffRecords`, `WorkbookGuard`, `ContinueChains`, `StaticScan`, `GuardRefinement`, `SampleStreams`, `ContextResolution` |
| reducers and rebuilds | `KeyIndex`, `StepEvidence`, `GroupObservations`, `GroupEvents`, `GroupMeaning`, `RecordGenerator`, `StepSummaryJoin`, `TargetGroup`, `TargetVerify`, `EqualFields`, `Clock`, `Chronology` |
| numeric kernels | `HolmTesting`, `SystematicResampling`, `Hyperslabs`, `DatasetScan`, `PlaneAlgebra`, `RecursiveLeastSquares`, `KalmanTrend`, `TrendForecasts` |

The main results, in words:

- **Overlap.** If `run_pipeline` completes, any 32 equal consecutive rows of two groups lie in a recorded span with the
  right alignment, and every recorded span is equal throughout and counts its energies truly. Both hold for every hash
  function: completeness needs only that equal inputs have equal digests, soundness compares tokens. The three
  fingerprinters and the two confirmations are proved against one specification each, so they agree.
- **Replay.** Every fsync is a step of its own, and a crash may fall between any two. For every client of the writer and
  the label services, a reveal that requires an origin follows the durable checkpoint of that origin. Causality, that no
  prediction is durable after its target was read and that every reveal past the context follows the origin before it,
  is the client's duty: it holds exactly when every accepted call is disciplined. The program is such a client; no step
  up to a commit depends on a later event; its files are sound at every crash point; its ledger holds exactly the
  planned rows; its logs are accepted by the verifier; and acceptance of arbitrary logs implies the block, origin and
  binding structure.
- **BIFF8.** The strict guard is equivalent to local conditions on the framed records. It implies that the static scan
  completes, that the diagnosis frames the same records, and that the resolver settles the CONTINUE marker. A clean scan
  implies the guard, except for chart substreams. The sheet directory is checked exactly as the bytes say.
- **Reducers.** The producer, a reducer that pulls a generator which fills the group's lists, and the rebuild return one
  and the same group result, and the result says the truth about the runs of the records. Chronology reduced sheet by
  sheet and stitched equals chronology of the concatenation,
  exactly when no readable keys face each other across a sheet without rows.
- **Kernels.** Holm equals closed testing, systematic resampling is fair, hyperslabs tile, recursive least squares
  minimises the weighted batch cost, the straight-line fit is the least-squares line, the local-trend filter keeps its
  covariance positive definite and is at every step the one best fit to prediction and observation, and all trend
  models extend straight lines exactly.

## Where the code and its promise part

- The writer and the label services do not enforce causality by themselves: `append_origin` accepts a batch whose target
  was already read, and `reveal_next` an unbound reveal past the context (`ReplayClients.LateBatchIsAccepted`,
  `ReplayClients.UnboundRevealIsAccepted`). The exact condition on the caller is `ReplayClients.CausalIffDisciplined`;
  `_run_online_generation` meets it (`ReplaySafety.HonestRuns`).
- `verify_causal_barrier` slices with the context it reads from the ledger. For a negative context the slice counts from
  the end; sealed logs that the whole verifier accepts are exhibited (`Replay.NegativeContextIsAccepted`). A predicted
  unit starts at origin `context - 1` exactly when the context is not negative
  (`CausalBarrier.FirstOriginMeetsContext`).
- `rebuild` does not repeat the sign checks of the step reducer and the summary join. `collect_group` succeeds exactly
  when `rebuild` does and no identifier or time is negative; the workbook decoder refuses negative ones, so the two
  agree on every stream it emits (`TargetGroup.CollectGroup`, `TargetVerify.Rebuild`,
  `TargetVerify.NegativeNumberIsRebuilt`).
- `scan_biff8_records` accepts chart substreams that `guard_biff` refuses; that is the only difference on scans without
  blockers (`GuardRefinement.CleanScanIsGuarded`), and such bytes exist (`SampleStreams.SamplesAreClean`).
- On p-values `holm_rejections` is closed testing and monotone at every level (`HolmTesting.ProbabilitiesAgree`,
  `HolmTesting.LoweringKeepsRejections`). Over all reals the exact conditions are those of
  `HolmTesting.HolmIsClosedTesting` and `HolmTesting.LoweringIsSafe`; the inputs that fail them are no p-values
  (`HolmTesting.NegativeLevelDiffers`).
- `aggregate` loses the pair across a sheet without rows, exactly when readable keys face each other across it
  (`Chronology.AggregateIsWholeReduction`, `Chronology.EmptySheetLosesPair`). `workbook` yields no such sheet
  (`Chronology.SheetsWithRowsLoseNothing`).
- Several checks can never fail: the origin check of the barrier once the blocks tile, the key assertion that closes a run,
  the segment reconstruction check of `collect_group`, and the boundary comparison of `aggregate`.

## How the source is represented

- A raised exception is a `Failure`; which of several exceptions is raised first is not distinguished.
- A file is a sequence of records in trusted storage: what was written is what is read. SHA-256, canonical JSON and CSV
  texts, whole-file digests and the packing check of a measurement are function parameters, so the results hold for any
  of them. Tamper evidence is stated with an exhibited collision, because no function into 64 hexadecimal digits is
  injective.
- The SQL join is any enumeration, without repeats, of the cross-group equal-digest pairs; the nested loop is one.
- A client of the replay classes uses one writer, one access log and one label service for each unit.
- `load` in `GroupEvents` stands for opening a member and decoding its workbook into a finite event sequence.
- A forecasting model in the replay is a function of the revealed prefix; trained states are fixed before the stream.
- Floating-point numbers are exact reals. The two-by-two matrices of the kernels are written out by entries.
- Sequences of bytes hold values below 256; all integers of the source are unbounded there too, or range-checked by it.

## Model

| member | source | states |
|---|---|---|
| OverlapPipeline.RunPipeline | experiments/audit_cap/ren_overlap_pipeline.py:109-225 | A run completes exactly when the plan is sound, every source emits exactly its planned rows with decodable tokens, and the candidates fit the budget; then every run of 32 equal consecutive tokens of two groups, at any offsets, lies in a recorded span with the right alignment; every recorded span is token-equal throughout, has its endpoints at the rows the source emitted there, and counts the positions with two energies, with a missing one and with two that differ; and the published counts are the numbers of ledger lines: all, those with a position that lacks an energy, those with a position where the energies differ. For every hash and every order of candidates. |
| PipelinePlan.LedgerFindsEveryRun | experiments/audit_cap/ren_overlap_pipeline.py:170-183 | Completeness: whatever the hash and whatever enumeration of the equal-digest pairs, the ledger they produce contains every shared run of 32 tokens |
| PipelinePlan.LedgerRecordsOnlyRuns | experiments/audit_cap/ren_overlap_pipeline.py:87-106 | Soundness: every ledger line names two groups in order, a span of 32 to 56 rows equal in the emitted tokens, the emitted positions of its two first rows, and energy counts that are sizes of the sets of its positions with two energies, with a missing one, and with two that differ |
| PipelinePlan.CountsAreTrue | experiments/audit_cap/ren_overlap_pipeline.py:181-183 | The published counts of a true ledger are the numbers of its lines, of those with a position without an energy on some side, and of those with a position where the two energies differ |
| PipelinePlan.RunHasCandidate | experiments/audit_cap/ren_overlap_index.py:64-78 | A run of 32 equal tokens makes the index join two fingerprints of the two groups at one relative position inside the run, early enough for the eight seed rows to lie in it |
| PipelinePlan.CandidatesInRange | experiments/audit_cap/ren_overlap_index.py:64-78 | Every joined candidate names two groups in order and an in-range anchor in each, so confirmation never leaves a spool |
| PipelinePlan.FingerprintsIndexable | experiments/audit_cap/ren_overlap_index.py:49-62 | The fingerprints of any spool are accepted by `add` |
| PipelinePlan.StoredInIndex | experiments/audit_cap/ren_overlap_pipeline.py:76-84 | After all groups are added, the slice of each group is exactly its own fingerprints |
| Winnowing.WinnowingGuarantee | experiments/audit_cap/ren_overlap.py:11-13 | Two token sequences sharing any run of K+WINDOW-1 tokens both select a fingerprint with the same digest at the same relative position inside the run, ties included |
| Winnowing.WinnowedUnique | experiments/audit_cap/ren_overlap.py:49-84 | The selected positions, in order and once each, determine the output: two winnowings of the same digests are the same sequence |
| Winnowing.FingerprintersAgree | experiments/audit_cap/ren_overlap.py:70-84 | Production fingerprinter, oracle and index verifier return equal sequences for equal parameters |
| Winnowing.WinnowingIsIndexable | experiments/audit_cap/ren_overlap.py:49-67 | Offsets grow strictly, none exceeds rows-K, and the output is empty exactly when fewer than K+WINDOW-1 tokens were given |
| Winnowing.SelectionMovesRight | experiments/audit_cap/ren_overlap.py:65-67 | Sliding the window right never moves its rightmost minimum left, so remembering the last emitted offset is enough |
| Winnowing.DequeFront | experiments/audit_cap/ren_overlap.py:57-67 | The front of the monotonic deque is the rightmost minimum of the window |
| Winnowing.DequePush | experiments/audit_cap/ren_overlap.py:60-62 | Popping the dominated tail and appending keeps exactly the suffix minima |
| Overlap.Shingles | experiments/audit_cap/ren_overlap.py:36-46 | Rejects a length below one or a token that is not 40 bytes; otherwise yields the digest of every length-k shingle at its offset |
| Overlap.Winnow | experiments/audit_cap/ren_overlap.py:49-67 | The deque loop fails exactly on bad parameters or tokens and otherwise returns the winnowing |
| Overlap.ReferenceWinnow | experiments/audit_cap/ren_overlap.py:70-84 | The oracle with one explicit minimum per window fails on the same inputs and returns the winnowing |
| Overlap.ReferenceFingerprints | experiments/audit_cap/ren_overlap_pipeline.py:60-73 | The bounded second pass over a spool returns the winnowing with the fixed parameters |
| Overlap.ConfirmProjection | experiments/audit_cap/ren_overlap.py:87-106 | True exactly for equal sequences of at least the minimum length; fails exactly on a bad minimum or an invalid token reached through equal valid ones |
| Confirmation.VerdictSound | experiments/audit_cap/ren_overlap_index.py:81-139 | A confirmed span is token-equal throughout, 32 to 56 rows long, keeps the alignment of its anchor, and its three energy counts are the sizes of the sets of its positions with an energy on both sides, without one on some side, and with two that differ |
| Confirmation.AnchorInRunIsConfirmed | experiments/audit_cap/ren_overlap_index.py:109-124 | An anchor anywhere inside a run of 32 equal rows is confirmed with a span that contains the run |
| Confirmation.VerdictOfSpan | experiments/audit_cap/ren_overlap_index.py:112-124 | The verdict depends only on the maximal equal span in the bounded context, however it is found |
| Confirmation.MaximalSpanUnique | experiments/audit_cap/ren_overlap_index.py:112-121 | There is one maximal equal span around a seed |
| OverlapIndex.ConfirmAnchor | experiments/audit_cap/ren_overlap_index.py:81-139 | Fails exactly when the anchor is out of bounds or a row that is read before the decision holds an invalid token; otherwise returns the verdict of the anchor |
| OverlapPipeline.ReferenceMatch | experiments/audit_cap/ren_overlap_pipeline.py:87-100 | For every in-range anchor the independent matcher returns the same verdict; out of range it fails or returns nothing, as stated |
| OverlapIndex.DiskIndex.Add | experiments/audit_cap/ren_overlap_index.py:49-62 | Accepts exactly a new group with strictly increasing in-range offsets, nonempty for eligible lengths; a refused group leaves the tables unchanged |
| OverlapIndex.DiskIndex.constructor | experiments/audit_cap/ren_overlap_index.py:22-38 | A new index has no group and no fingerprint |
| OverlapIndex.NestedJoinEnumerates | experiments/audit_cap/ren_overlap_index.py:64-78 | The nested-loop join lists, for every index, every joined pair once and nothing else, so an enumeration as the pipeline assumes exists |
| OverlapIndex.SourcePosition | experiments/audit_cap/ren_overlap_index.py:142-153 | Maps an offset to the planned row at that offset, and fails exactly when no span reaches it or a span before it is empty |
| OverlapIndex.OffsetsReachable | experiments/audit_cap/ren_overlap_index.py:142-153 | With nonempty spans an offset maps exactly when it lies inside the group |
| OverlapPipeline.SpoolGroup | experiments/audit_cap/ren_overlap_pipeline.py:131-154 | Spools the source exactly when it emits the planned rows one for one, and then the spool is the emitted tokens and energies in order |
| OverlapPipeline.VerifyIndex | experiments/audit_cap/ren_overlap_pipeline.py:76-84 | Accepts exactly a spool of the stated size whose stored rows are its winnowing |
| OverlapPipeline.MatchPass | experiments/audit_cap/ren_overlap_pipeline.py:162-183 | Within the budget, writes exactly the ledger of the candidates and its counts |
| OverlapPipeline.VerifyPass | experiments/audit_cap/ren_overlap_pipeline.py:184-201 | Accepts exactly the true ledger with the true counts: a changed, missing, reordered or extra line is refused |
| OverlapPipeline.Reconcile | experiments/audit_cap/ren_overlap_pipeline.py:202-212 | Accepts exactly when every stored slice is the winnowing of its spool and the group table has the spooled row counts |
| HashChain.TamperEvidence | experiments/audit_cap/ledger.py:130-151 | Two verified chains with one row count and one final hash hold the same payload texts, or two different inputs with one digest are exhibited |
| HashChain.FinalHashIsChainHash | experiments/audit_cap/ledger.py:140-150 | A verified chain ends in the hash of its texts alone |
| HashChain.ChainedSnoc | experiments/audit_cap/replay.py:336-350 | Appending a record with the running hash keeps a chain verified |
| HashChain.VerifyLinks | experiments/audit_cap/replay.py:359-378 | Accepts exactly the chains whose every link names the previous hash and carries its own, and reports count and final hash |
| SealedLedger.AddHashChain | experiments/audit_cap/ledger.py:44-65 | Refuses chain columns in the frame; otherwise chains every row in order, and the result verifies with the frame as its data |
| SealedLedger.WriteSealedLedger | experiments/audit_cap/ledger.py:92-127 | What is written and sealed is accepted by the verifier; the seal holds the file digest, the columns, the number of rows and the hash of their texts |
| SealedLedger.VerifySealedLedger | experiments/audit_cap/ledger.py:130-151 | Accepts exactly a file with the sealed digest and columns, a sound chain, and the sealed count and final hash |
| SealedLedger.SealBindsPayloads | experiments/audit_cap/ledger.py:130-151 | Equal sealed count and final hash bind the payloads, up to an exhibited collision; one seal also binds file digest and columns |
| ReplayClients.RevealFollowsCommit | experiments/audit_cap/replay.py:408-569 | For every client of the writer and the services and every crash point, unconditionally: events of a unit are read in order, each right after its durable authorisation, and a reveal that requires an origin follows the one durable checkpoint of that origin and carries the hash of the last row durable with it |
| ReplayClients.CausalIffDisciplined | experiments/audit_cap/replay.py:408-569 | What causality needs of the caller, exactly: for every sequence of calls, no prediction becomes durable after its target was read and every reveal past the context follows the origin before it, if and only if every accepted reveal past the context required the newest event and every accepted batch predicted only unread events |
| ReplayClients.BatchIsDisciplined | experiments/audit_cap/replay.py:408-412 | A batch of one origin that predicts the next event meets the condition exactly when the event after the origin has not been read |
| ReplayClients.LateBatchIsAccepted | experiments/audit_cap/replay.py:408-413 | A concrete client: two bootstrap reveals and then an accepted batch whose target was already read, so its history is not causal |
| ReplayClients.UnboundRevealIsAccepted | experiments/audit_cap/replay.py:528-536 | A concrete client with context 2: a third reveal that requires no origin is accepted, so its history is not causal |
| ReplaySafety.CrashLeavesSoundFiles | experiments/audit_cap/replay.py:408-569 | For every client and every crash point the three files verify as chains, no origin has two checkpoints, every durable checkpoint seals a complete block of durable rows, and every durable authorisation carries the hashes of the durable checkpoint it requires |
| ReplaySafety.HonestRuns | experiments/audit_cap/replay.py:961-987 | The program, over any units and streams, is the client that makes the stated calls; each is accepted when made and meets the condition for causality |
| ReplaySafety.HonestRevealIsCausal | experiments/audit_cap/replay.py:961-987 | At every crash point of the program the history is causal: each event read past the context was preceded by the checkpoint of the origin before it, that checkpoint by every row of its origin, and the read by every row that targets the event or an earlier one |
| ReplaySafety.HonestCrash | experiments/audit_cap/replay.py:408-450 | A crash of the program between any two fsyncs leaves sound prefixes of the finished files in which every durable checkpoint owns a complete block of rows of its unit and origin |
| ReplayFuture.CommitIgnoresFuture | experiments/audit_cap/replay.py:961-987 | Two worlds that agree on the earlier units, on the first o+1 events of a unit and on its length take the same durable steps up to the checkpoint of origin o, and leave the same files there |
| ReplayLogs.OriginRowsArePlanned | experiments/audit_cap/replay.py:692-724 | A row is predicted at an origin exactly when it names one of the two targets, a planned horizon whose event lies in the stream and a planned model, targets the event that many steps on, waits for the label of that event, and carries the forecast of the model from the revealed prefix |
| ReplayLogs.OriginRowsFit | experiments/audit_cap/replay.py:692-724 | Every row of an origin targets a later event of the stream, and with horizon 1 every origin before the last event has rows |
| CausalBarrier.AcceptanceImplies | experiments/audit_cap/replay.py:790-889 | Soundness for arbitrary logs: each predicted row lies in the one block of its origin, owned by one checkpoint; origins are consecutive; the reveal after an origin carries the checkpoint hash and the final hash of the block; every target was revealed; the row has the one context and was committed before its label; and the events of its unit were revealed in order, by unbound bootstrap up to the context and each after the origin before it past it |
| CausalBarrier.OriginsAreConsecutive | experiments/audit_cap/replay.py:862-875 | The predicted origins of a unit are exactly an interval that ends one before the last reveal |
| CausalBarrier.OriginIsOneBlock | experiments/audit_cap/replay.py:790-811 | Each predicted origin is one contiguous block of ledger rows, bound to its last row hash |
| CausalBarrier.RevealNamesItsBlock | experiments/audit_cap/replay.py:822-835 | The reveal after an origin names it and carries both hashes of its checkpoint |
| CausalBarrier.OriginCheckIsRedundant | experiments/audit_cap/replay.py:812-816 | Once the blocks tile the ledger, the separate check that every origin has a checkpoint cannot fail |
| CausalBarrier.FirstOriginMeetsContext | experiments/audit_cap/replay.py:851-868 | A predicted unit starts at origin max(context, 0) - 1, which is context-1 if and only if the context is not negative |
| Replay.NegativeContextIsAccepted | experiments/audit_cap/replay.py:790-889 | For every encoding, one row with context -1, its checkpoint and its reveal make sealed artifacts that the whole verifier accepts, and origin context-1 is missing |
| CausalVerifier.VerifyCausalBarrier | experiments/audit_cap/replay.py:755-898 | Accepts exactly the artifacts whose chains, seal, lineage and barrier conditions hold |
| CausalVerifier.CheckBarrier | experiments/audit_cap/replay.py:777-889 | The loops over the parsed logs decide the declarative barrier |
| CausalVerifier.CheckBlocks | experiments/audit_cap/replay.py:790-811 | Accepts exactly checkpoints whose row ranges tile the ledger, one unit and origin each, bound to the last row hash |
| CausalVerifier.CheckBindings | experiments/audit_cap/replay.py:817-835 | Accepts exactly when every requiring reveal names an existing checkpoint with both its hashes |
| CausalVerifier.CheckUnit | experiments/audit_cap/replay.py:844-884 | Decides the reveal conditions of one predicted unit |
| CausalVerifier.IndexCheckpoints | experiments/audit_cap/replay.py:777-789 | Builds the lookup of all checkpoints, refused exactly when a unit and origin repeat |
| CausalVerifier.SortedOrigins | experiments/audit_cap/replay.py:840-843 | Lists the distinct origins of a unit, increasing |
| CausalVerifier.VerifyJsonlChain | experiments/audit_cap/replay.py:359-378 | Succeeds exactly on sound chains and returns their evidence |
| BarrierCompleteness.HonestBarrierHolds | experiments/audit_cap/replay.py:961-997 | Completeness: for streams at least as long as the context, the logs of the program satisfy the barrier exactly when some stream is longer |
| BarrierCompleteness.RunKeeps | experiments/audit_cap/replay.py:934-987 | After any number of units the three files agree with each other and every unit is revealed to its end or not at all |
| BarrierCompleteness.CommitKeeps | experiments/audit_cap/replay.py:408-445 | Committing a new origin keeps the files consistent |
| BarrierCompleteness.OriginShapes | experiments/audit_cap/replay.py:966-987 | Committing the newest origin and revealing the next event extends the reveal pattern of its unit by one and leaves the others alone |
| Replay.DurableJsonlChain.Append | experiments/audit_cap/replay.py:336-350 | Appends one record with the running hash; the chain of the log verifies before and after every call |
| Replay.DurablePredictionWriter.AppendOrigin | experiments/audit_cap/replay.py:408-445 | Refused exactly for an empty or repeated origin, leaving no trace; otherwise every row is durable before the checkpoint, and the row chain still verifies |
| Replay.DurablePredictionWriter.RequireCheckpoint | experiments/audit_cap/replay.py:447-453 | Returns the checkpoint of a committed origin, and refuses any other |
| Replay.EventLabelService.RevealNext | experiments/audit_cap/replay.py:528-569 | Reveals the next event after its authorisation is durable; refused exactly at the end of the stream or for an uncommitted origin, leaving no trace |
| Replay.PredictRevealedOrigin | experiments/audit_cap/replay.py:661-752 | Refuses a prefix without exactly origin+1 events; otherwise a row is in the result exactly when its target, horizon and model are planned and its event lies in the stream, with origin+horizon as target and label sequence and the forecast from the prefix as its point |
| Replay.RunUnit | experiments/audit_cap/replay.py:961-987 | One fold turns the files into those of the specification: bootstrap, then commit and reveal origin by origin |
| Replay.RunOnlineGeneration | experiments/audit_cap/replay.py:901-1026 | Succeeds exactly with sound parameters, streams at least as long as the context and one longer; then the sealed files are those of the honest run and are accepted by the verifier, the ledger holds exactly the rows of every unit, of every origin from context-1 to the last but one event, of every target, planned horizon inside the stream and model, and the closing key assertion holds |
| RunLedger.RunPredictsThePlan | experiments/audit_cap/replay.py:961-987 | The ledger of a finished run holds exactly the planned rows of every unit and origin, each with the event it targets and the forecast from the events revealed by then |
| Replay.AssertCommonKeyParity | experiments/audit_cap/replay.py:572-590 | Accepts exactly rows in which all models share the keys of the first and no row is repeated |
| KeyParity.RunHasCommonKeys | experiments/audit_cap/replay.py:1008-1008 | In every finished run all models share all planned keys and no key is repeated, so the closing assertion never fails |
| Replay.SealedArtifactsAccepted | experiments/audit_cap/replay.py:455-484 | A seal made over chained logs passes every check up to the barrier |
| WorkbookGuard.GuardBiff | experiments/audit_cap/ren_workbook_reader.py:36-78 | Accepts exactly the streams that frame completely, whose adjacent records satisfy the local conditions and that end in EOF ([MS-XLS] sections 2.1.4, 2.4.21 and 2.4.58) |
| WorkbookGuard.CheckRecord | experiments/audit_cap/ren_workbook_reader.py:50-76 | One record passes the loop body exactly when it meets the conditions stated on it and the kind before it |
| BiffRecords.FramesFit | experiments/audit_cap/ren_workbook_reader.py:46-52 | Framed records are adjacent and lie inside the data |
| BiffRecords.FramesCount | experiments/audit_cap/ren_p1r1_static_gate.py:109 | A framed stream has at most a quarter as many records as bytes, so 64 Mi records suffice for 256 MiB |
| ContinueChains.ContinuationContext | experiments/audit_cap/ren_static_context.py:44-75 | Fails exactly when framing fails or a record is oversize or encrypted; otherwise reports the number of records, all bytes, and the CONTINUE chains |
| ContinueChains.ChainsAreMaximalRuns | experiments/audit_cap/ren_static_context.py:59-71 | Every reported chain is a maximal run of CONTINUE records with the record before it, the record after it, its first offset and its payload size |
| ContinueChains.ChainsCountContinues | experiments/audit_cap/ren_static_context.py:59-66 | The chains account for every CONTINUE record |
| ContinueChains.GuardedChains | experiments/audit_cap/ren_workbook_reader.py:55-62 | Under the guard every chain follows a 0x004D record and precedes a 0x00A1 record |
| ContinueChains.GuardedContext | experiments/audit_cap/ren_static_context.py:50-58 | Whatever the guard accepts, the diagnosis frames without error |
| StaticScan.ScanBiff8Records | experiments/audit_cap/ren_p1r1_xls_static.py:174-292 | Returns the report of the declarative scan: the records up to the first limit, framing error or encrypted record, with the union of their blockers, payload blockers included, the type table and the completeness flag; a target mismatch is raised exactly when some BOUNDSHEET points at no BOF of its type (0 at 16, 1 at 64, 2 at 32, 6 at 6, unknown at unknown), and an unlisted substream exactly when some BOF other than the globals is not pointed at |
| StaticScan.SheetDirectory | experiments/audit_cap/ren_p1r1_xls_static.py:280-285 | The two directory blockers on the bytes: a BOUNDSHEET of size 8 or more without a scanned BOF of size 4 or more of its type at its offset, and a BOF other than the globals that no BOUNDSHEET points at |
| StaticScan.StopsMean | experiments/audit_cap/ren_p1r1_xls_static.py:195-209 | Why a scan stops, on the bytes it leaves: the record limit with bytes left, fewer than four bytes, or a size that exceeds what is left |
| StaticScan.FormulaCacheIsNonfinite | experiments/audit_cap/ren_p1r1_xls_static.py:133-148 | A cached formula number is reported nonfinite exactly when it is no marked special value and the eleven exponent bits of its binary64 form are all set |
| StaticScan.ObjectBlockersMean | experiments/audit_cap/ren_p1r1_xls_static.py:150-171 | An object is truncated exactly when subrecords do not fill its payload; otherwise it is malformed exactly when a common-object subrecord has a size other than 18 or follows a sound one |
| StaticScan.ScanReachesEnd | experiments/audit_cap/ren_p1r1_xls_static.py:196-208 | The scan reaches the end exactly when the data frames within the limit and nothing is encrypted |
| StaticScan.BlockerComesFromRecord | experiments/audit_cap/ren_p1r1_xls_static.py:217-272 | A record-level blocker is raised exactly when some scanned record raises it |
| StaticScan.TypesCount | experiments/audit_cap/ren_p1r1_xls_static.py:210-216 | The type table counts every record of a kind and names its first and last offset |
| GuardRefinement.GuardedScanCompletes | experiments/audit_cap/ren_p1r1_xls_static.py:174-292 | Guard refinement: the scan with 64 Mi records is complete over all framed records, raises no framing, BOF or EOF blocker, and raises the CONTINUE marker exactly when a CONTINUE record exists |
| GuardRefinement.CleanScanIsGuarded | experiments/audit_cap/ren_p1r1_xls_static.py:225-245 | Conversely, a scan without blockers is accepted by the guard for any vocabulary with its kinds, if and only if it holds no chart substream |
| SampleStreams.SamplesAreClean | experiments/audit_cap/ren_p1r1_xls_static.py:225-285 | Concrete bytes, globals that list one sheet and its substream: the worksheet and the chart are both scanned completely without a blocker; the guard accepts the worksheet and refuses the chart |
| SampleStreams.SheetScan | experiments/audit_cap/ren_p1r1_xls_static.py:280-285 | Of such streams exactly those whose sheet type and substream agree raise no blocker; the others raise the target mismatch and nothing else |
| SampleStreams.PrintChainIsGuarded | experiments/audit_cap/ren_workbook_reader.py:55-62 | Concrete bytes with a CONTINUE record between a 0x004D and a 0x00A1 record, which the guard accepts |
| GuardRefinement.CleanRecordIsGuarded | experiments/audit_cap/ren_p1r1_xls_static.py:217-272 | A record that raises no blocker meets the local conditions of the guard exactly when it does not open a chart |
| GuardRefinement.GuardedRecordIsResidual | experiments/audit_cap/ren_p1r1_xls_static.py:217-272 | A record that meets the local conditions of the guard raises none of the framing, BOF, EOF, formula, object or reference blockers |
| GuardRefinement.CompleteScanFrames | experiments/audit_cap/ren_p1r1_xls_static.py:290 | A scan is complete exactly for nonempty data that frames without an encrypted record, within the limits |
| GuardRefinement.GuardedOpen | experiments/audit_cap/ren_workbook_reader.py:63-75 | Under the guard a substream is open exactly when the record before is not an EOF |
| ContextResolution.ResolveContextMarkers | experiments/audit_cap/ren_static_context_resolution.py:10-61 | Fails exactly on mismatched identity, authority or directory; otherwise settles exactly the two markers whose evidence holds |
| ContextResolution.BlockersAreConserved | experiments/audit_cap/ren_static_context_resolution.py:38-57 | Every blocker is either resolved or remains, with multiplicity, and only the two context markers can be resolved |
| ContextResolution.EmbeddedResolvedIff | experiments/audit_cap/ren_static_context_resolution.py:27-39 | The embedded-object marker is resolved exactly when it was raised, some entry was taken for an embedded object, and the diagnosis lists every such entry as a stream with the root CompObj marker |
| ContextResolution.ContinueResolvedIff | experiments/audit_cap/ren_static_context_resolution.py:40-57 | For two reports of one byte string the CONTINUE marker is resolved exactly when the data is within the limit and every run of CONTINUE records stands between a PLS and a SETUP record |
| ContextResolution.GuardedMarkerIsResolved | experiments/audit_cap/ren_static_context_resolution.py:40-57 | For guarded data the CONTINUE marker is present exactly when a CONTINUE record is, and then it is resolved |
| ContextResolution.ChainsArePrintChains | experiments/audit_cap/ren_static_context_resolution.py:53-55 | The resolver's condition on the chains is the local condition on the records |
| StepEvidence.IterStepEvidence | experiments/audit_cap/ren_step_evidence.py:23-65 | Succeeds exactly on a nonempty stream without negative identifiers, gaps in record numbers or cycle reversals, and yields one segment for every maximal run, whose counters are the numbers of its rows with that sign or that change |
| StepEvidence.SegmentsSummariseRuns | experiments/audit_cap/ren_step_evidence.py:39-62 | Every segment tells its run: first and last row, length, extreme currents, sign counts that add up to the length, and the counts of every kind of change between neighbours |
| StepEvidence.SegmentsTellRuns | experiments/audit_cap/ren_step_evidence.py:39-62 | Every counter of a segment is the size of a set of rows of its run: current above, below or at zero; time smaller or equal, voltage larger or smaller, current other, charge smaller than in the row before |
| StepEvidence.RunsAreMaximal | experiments/audit_cap/ren_step_evidence.py:39-41 | The runs are the rows in order, cut exactly where the key changes |
| StepEvidence.ChronologyMeans | experiments/audit_cap/ren_step_evidence.py:30-36 | The checks between neighbours hold exactly when the record numbers count up by one from the first and no cycle comes back after a later one |
| GroupObservations.JoinsArePartition | experiments/audit_cap/ren_step_summary_join.py:44-73 | Every segment index and every summary index is listed by exactly one join, the one with its key, and keys do not repeat |
| GroupObservations.ExtrasMatchSegments | experiments/audit_cap/ren_target_group.py:85-89 | The producer's segments and its energy entries always match in number, keys and rows: the mismatch errors cannot occur |
| GroupObservations.ExtrasKnowEnergy | experiments/audit_cap/ren_target_group.py:96-97 | A segment without missing energies ends with an energy |
| GroupObservations.SignsAreValid | experiments/audit_cap/ren_target_group.py:110-116 | Every segment of a cycle falls in exactly one sign class |
| GroupMeaning.GroupDescribes | experiments/audit_cap/ren_target_group.py:85-137 | The group result on the runs of its records: the ends, energies and missing energies of every run; joins by key with their status and differences; energy differences exactly for unique fully metered runs; and for every cycle its runs by the sign of all their currents, with charge and discharge less the charges of the last rows of the charging and the discharging runs |
| GroupMeaning.ObservationIsDescribed | experiments/audit_cap/ren_target_group.py:102-129 | A run is positive exactly when all its currents are above zero, negative when all are below, zero when all are zero, mixed otherwise; each difference is the capacity of its column less the sum of the last charges of exactly these runs |
| GroupMeaning.PartsAreRuns | experiments/audit_cap/ren_target_group.py:66-77 | The runs are the records in order, with their positions and energies, cut exactly where the key changes |
| KeyIndex.PlacesAreExact | experiments/audit_cap/ren_step_summary_join.py:44-48 | The positions listed for a key are all of its positions, increasing |
| KeyIndex.FirstSeenIsDistinct | experiments/audit_cap/ren_step_summary_join.py:44-48 | The insertion order lists every key once |
| KeyIndex.FirstSeenIsInOrder | experiments/audit_cap/ren_step_summary_join.py:44-48 | The keys are listed in the order of their first appearance |
| KeyIndex.SeenConcat | experiments/audit_cap/ren_target_verify.py:99-104 | Indexing both sides apart and appending the new keys of the second gives the order of one common dictionary |
| KeyIndex.Index | experiments/audit_cap/ren_target_verify.py:99-103 | One dictionary per side holds every key with all its positions |
| KeyIndex.IndexBoth | experiments/audit_cap/ren_step_summary_join.py:44-48 | One dictionary for both sides holds every key with its positions on either side |
| StepSummaryJoin.JoinStepSummaries | experiments/audit_cap/ren_step_summary_join.py:33-76 | Fails exactly where the reducer or a negative summary does; otherwise returns the segments, the table and one join for every key, with the runs and summaries of the key, its status, and for a unique key the differences from the first and last row of the run |
| StepSummaryJoin.JoinEntry | experiments/audit_cap/ren_step_summary_join.py:50-73 | A key seen twice on a side is ambiguous, one seen on one side only is named so, and only a key seen once on both is compared |
| TargetGroup.CollectGroup | experiments/audit_cap/ren_target_group.py:20-137 | Succeeds exactly on rebuildable sources without negative identifiers or times, and returns the group result, which says of the runs what is stated of the group: segments, joins, energies and cycle observations |
| RecordGenerator.RecordRows.Next | experiments/audit_cap/ren_target_group.py:38-78 | One pull of the generator: it yields exactly the next record row, filling the lists on the way, ends exactly after all members, and raises only when some member is unreadable |
| TargetGroup.ReduceRows | experiments/audit_cap/ren_step_evidence.py:23-65 | The reducer pulling the generator row by row succeeds exactly when the whole sources are readable, nonempty, chronological and without negative numbers, although it may abandon the generator midway |
| TargetGroup.JoinEnergies | experiments/audit_cap/ren_target_group.py:90-100 | An energy comparison exists exactly for a unique key all of whose rows carry energy |
| TargetGroup.ObserveCycles | experiments/audit_cap/ren_target_group.py:102-129 | One observation per cycle in order of appearance: its runs by the sign that all their currents have, and the capacities against the last charges of the charging and the discharging runs |
| TargetVerify.Rebuild | experiments/audit_cap/ren_target_verify.py:31-164 | Succeeds exactly on distinct named members whose streams cover their schemas and whose records are nonempty and chronological, and returns the same group result, which says of the runs what is stated of the group |
| TargetVerify.TakeRow | experiments/audit_cap/ren_target_verify.py:61-86 | The counter-by-counter update is one step of the segment reduction |
| TargetVerify.IndexApart | experiments/audit_cap/ren_target_verify.py:98-104 | Two dictionaries give the order and the positions of one |
| TargetVerify.Verify | experiments/audit_cap/ren_target_verify.py:167-170 | Accepts exactly a saved value that is the rebuilt group, field for field and finite |
| TargetVerify.NegativeNumberIsRebuilt | experiments/audit_cap/ren_target_verify.py:59-60 | For every row with a negative identifier or clock, such as record number -1, a one-row source that the rebuild accepts and the producer refuses |
| EqualFields.EqualIsIdentity | experiments/audit_cap/ren_target_verify.py:13-28 | The recursive comparison accepts exactly the identical value, and only a finite one |
| GroupEvents.EventsAreCounted | experiments/audit_cap/ren_target_group.py:48-78 | The coverage list accounts for every record, every step summary and every cycle row of the group |
| GroupEvents.CoversIsVisiting | experiments/audit_cap/ren_target_group.py:41-59 | A stream covers a schema exactly when it has one event for every row from 2 on of every sheet, in order, a step summary on the sheet named step, a cycle row on the sheet named cycle, and a record on any other |
| GroupEvents.EventIsListed | experiments/audit_cap/ren_target_group.py:52-78 | Every event is listed with its member and source position behind the events of its kind before it |
| Clock.ClocksAgree | experiments/audit_cap/ren_chronology.py:25-32 | The two clock decoders agree on every string |
| Clock.ClockRoundTrip | experiments/audit_cap/ren_chronology.py:25-32 | Every time written with any number of hour digits and none to six fraction digits is decoded to its microseconds |
| Clock.MatchIsExact | experiments/audit_cap/ren_chronology.py:19 | The pattern accepts exactly the strings of its form, and its groups are the only reading of one |
| Clock.SplitParts | experiments/audit_cap/ren_chronology.py:57-58 | Splitting an accepted string gives back its groups |
| Chronology.KeysAgree | experiments/audit_cap/ren_chronology.py:35-61 | The two key readers agree on a row if and only if it has at least five cells; on a short row one raises and the other finds no key |
| Chronology.KeyMeans | experiments/audit_cap/ren_chronology.py:35-44 | A key is read exactly from five cells: four number cells that hold its whole numbers, of magnitude at most 2^53, and a text cell that the clock decodes to its time |
| Chronology.ReduceKeys | experiments/audit_cap/ren_chronology.py:80-101 | The streaming reduction computes what the reference computes from the whole list, and every count is the size of a set of rows: unreadable or negative ones, those of a status, and those that stand to the readable row before them as the count says; the missing ones are the record numbers left out |
| Chronology.ReferenceCounts | experiments/audit_cap/ren_chronology.py:104-133 | The comprehensions of the reference count what they say, on the rows |
| Chronology.EdgeIsReference | experiments/audit_cap/ren_chronology.py:64-77 | A boundary is what the reference says about its two keys, so the comparison inside `aggregate` never fails |
| Chronology.Aggregate | experiments/audit_cap/ren_chronology.py:168-184 | Refuses no sheets; otherwise adds the sheets and the edges between them, and counts the boundaries, those with an unreadable key and those whose record numbers do not follow |
| Chronology.AggregateIsWholeReduction | experiments/audit_cap/ren_chronology.py:168-184 | Stitching gives the rows, invalid and negative counts of the concatenated keys always, and its transitions if and only if no two readable keys face each other across sheets without rows; otherwise exactly those pairs are lost |
| Chronology.SheetsWithRowsLoseNothing | experiments/audit_cap/ren_chronology.py:136-184 | Sheets that all have rows, as `workbook` yields them, are stitched without loss |
| Chronology.EmptySheetLosesPair | experiments/audit_cap/ren_chronology.py:174-175 | With an empty sheet between two rows the stitched transitions differ from those of the concatenation |
| HolmTesting.HolmRejections | experiments/audit_cap/design_simulation.py:108-118 | For a nonnegative level, or p-values in [0,1] at any level, rejects exactly the hypotheses that closed testing rejects: every index set with the hypothesis has a p-value at most alpha over its size |
| HolmTesting.HolmIsClosedTesting | experiments/audit_cap/design_simulation.py:108-118 | Over all reals, step-down and closed testing agree if and only if the level is nonnegative or no value lies above it but within its share |
| HolmTesting.ProbabilitiesAgree | experiments/audit_cap/design_simulation.py:108-118 | On p-values in [0,1] step-down and closed testing agree at every level |
| HolmTesting.NegativeLevelDiffers | experiments/audit_cap/design_simulation.py:112-116 | Two values below zero, which are no p-values, and a negative level at which the step-down rejects and closed testing does not |
| HolmTesting.StepDown | experiments/audit_cap/design_simulation.py:111-118 | The loop over a sorted order rejects exactly the ranks before the first failed threshold |
| HolmTesting.TiesDoNotMatter | experiments/audit_cap/design_simulation.py:110 | The rejected set does not depend on how ties are ordered |
| HolmTesting.LoweringIsSafe | experiments/audit_cap/design_simulation.py:108-118 | Over all reals, lowering values never removes a rejection if and only if the level is nonnegative or there is at most one hypothesis |
| HolmTesting.LoweringKeepsRejections | experiments/audit_cap/design_simulation.py:108-118 | Lowering p-values in [0,1] never removes a rejection, whatever the level; nor does lowering any values at a nonnegative level |
| HolmTesting.SelectCandidate | experiments/audit_cap/design_simulation.py:218-230 | Selects exactly the first passing candidate of least mean loss, when it is alone or beats its runner-up at the family level |
| SystematicResampling.ResamplingIsFair | experiments/n0_plus/sn1_synthetic_models.py:339-343 | For weights summing to one and any offset in [0,1), each index is picked its expected number of times, rounded down or up |
| SystematicResampling.PicksAreOrdered | experiments/n0_plus/sn1_synthetic_models.py:339-343 | Every pick is an index and the picks never go back |
| SystematicResampling.PickCount | experiments/n0_plus/sn1_synthetic_models.py:340-343 | The exact count of an index, from the positions its cumulative interval holds |
| Hyperslabs.HyperslabsOf | experiments/audit_cap/audit_large_pack.py:730-752 | Refuses exactly a block of the wrong rank for a nonempty array, and otherwise yields the boxes of a block that is axis by axis as long as the preferred size, the array and the limit allow; a box is as long as the block unless the array ends |
| Hyperslabs.BlockIsLargest | experiments/audit_cap/audit_large_pack.py:741-744 | On every axis the block is the largest length within the preferred size and the array whose product with the preferred later axes stays within the limit, or one |
| Hyperslabs.SlabsTile | experiments/audit_cap/audit_large_pack.py:745-752 | For any shape and block each index of the array lies in exactly one box, and nothing else lies in any |
| Hyperslabs.SlabsAreBounded | experiments/audit_cap/audit_large_pack.py:741-744 | For any positive preferred block no box is empty or holds more cells than allowed |
| Hyperslabs.BlockIsBounded | experiments/audit_cap/audit_large_pack.py:741-744 | The product of the computed block stays within the limit although the room is judged by the preferred sizes |
| DatasetScan.ScanDataset | experiments/audit_cap/audit_large_pack.py:816-846 | Reading box by box gives the counts and extrema of one pass over the whole array: the numbers of finite cells, of those that are no number and of the infinite ones of either sign, and the extreme values and magnitudes |
| DatasetScan.ReadsEveryCellOnce | experiments/audit_cap/audit_large_pack.py:816-819 | The cells read over all boxes are a permutation of the cells of the array |
| DatasetScan.StatsPermute | experiments/audit_cap/audit_large_pack.py:820-846 | The accumulated counts and extrema do not depend on the order of the cells |
| DatasetScan.StatsMean | experiments/audit_cap/audit_large_pack.py:820-846 | Every cell is counted in its class, and the extrema are the least and greatest finite values and magnitudes |
| RecursiveLeastSquares.RlsPoint | experiments/n0_plus/sn1_synthetic_models.py:324-336 | Needs two values; otherwise the forecasts are values of the only line with the least exponentially weighted squared error, in which the line through the first two values counts as a prior of weight one in 10000 |
| RecursiveLeastSquares.StateAfter | experiments/n0_plus/sn1_synthetic_models.py:327-332 | After any prefix the covariance is symmetric and inverts the positive definite information matrix, and the parameters solve the weighted normal equations |
| RecursiveLeastSquares.SolvesStep | experiments/n0_plus/sn1_synthetic_models.py:327-332 | One update keeps this, and its denominator exceeds the forgetting factor |
| RecursiveLeastSquares.InformationIsWeightedSum | experiments/n0_plus/sn1_synthetic_models.py:327-332 | The information is the faded prior plus every design outer product weighted by its age |
| RecursiveLeastSquares.CovarianceStaysPositive | experiments/n0_plus/sn1_synthetic_models.py:326-332 | The covariance is positive definite after any prefix |
| RecursiveLeastSquares.CostFromState | experiments/n0_plus/sn1_synthetic_models.py:327-332 | The weighted cost anywhere is the cost at the recursion's parameters plus the information's form of the distance |
| RecursiveLeastSquares.StateMinimisesCost | experiments/n0_plus/sn1_synthetic_models.py:327-332 | The parameters are the only ones with the least exponentially weighted cost |
| RecursiveLeastSquares.StaysOnLine | experiments/n0_plus/sn1_synthetic_models.py:324-336 | On a straight line the parameters stay those of the line |
| KalmanTrend.KalmanPrediction | experiments/audit_cap/models.py:101-119 | Fails on an empty prefix; otherwise carries ahead the level and slope that a filter over the prefix ends with: it starts at the first value and the first difference with variance ten times the squared scale, and every step is the best fit to the prediction and the observation |
| KalmanTrend.ObserveIsStep | experiments/audit_cap/models.py:109-117 | One round is a step: its state is the only minimiser of the squared distance from the prediction, by the inverse of the predicted covariance, plus the squared residual over the noise, and its covariance inverts the sum of the two precisions |
| KalmanTrend.LoopIsRun | experiments/audit_cap/models.py:101-117 | The states of the loop are a filter over the prefix: the stated start, and a step for every further value |
| KalmanTrend.RunIsUnique | experiments/audit_cap/models.py:101-117 | Start and steps determine the filter: there is only one over a prefix |
| KalmanTrend.FilterAfter | experiments/audit_cap/models.py:109-117 | The filter is defined after any prefix and its covariance stays positive definite |
| KalmanTrend.PredictionKeepsPositive | experiments/audit_cap/models.py:111 | Prediction keeps the covariance positive definite |
| KalmanTrend.CorrectionKeepsPositive | experiments/audit_cap/models.py:113-117 | The innovation variance is positive, and correction keeps the covariance positive definite, scaling its determinant by the noise share |
| KalmanTrend.CorrectionAddsPrecision | experiments/audit_cap/models.py:113-117 | Correction adds the precision of the observation to the prior precision, and its state solves the combined normal equations |
| KalmanTrend.FilterOnLine | experiments/audit_cap/models.py:106-116 | On a straight line the level is the last value and the slope that of the line |
| PlaneAlgebra.MinorsMakePositive | experiments/audit_cap/models.py:111-117 | A symmetric matrix with positive minors has a positive form at every nonzero vector |
| PlaneAlgebra.PositiveMakesMinors | experiments/audit_cap/models.py:111-117 | A positive definite matrix has positive minors |
| TrendForecasts.PredictPrefix | experiments/audit_cap/models.py:122-168 | Fails on a nonpositive horizon or an empty prefix; otherwise returns the last value, a point of the line through the first and last value, a point of the least-squares line of the newest values, or the level and slope of the one best-fit filter carried ahead; and on every affine prefix the trend models return the exact extrapolation |
| TrendForecasts.FitMinimisesError | experiments/audit_cap/models.py:38-45 | No line has a smaller sum of squared residuals than the fitted one |
| TrendForecasts.FitOnLine | experiments/audit_cap/models.py:38-45 | The fit of points on a line is the line |
| TrendForecasts.ForecastsExtendLine | experiments/audit_cap/models.py:139-146 | On every affine prefix of length at least two, drift, filter and local fit with a window of at least two all give the exact extrapolation |
| TrendForecasts.RlsExtendsLine | experiments/n0_plus/sn1_synthetic_models.py:324-336 | So does recursive least squares |

## Left out

- StaticScan.ScanBiff8Records: the per-category counters, the object and reference labels they count, and the stream digest are not reported.
- TargetGroup.CollectGroup: which of several failures comes first, and the closing of an abandoned generator, are not captured.
- TargetVerify.Verify: the JSON form of a group is a parameter; key order inside JSON objects and negative zero are not distinguished.
- OverlapPipeline.RunPipeline: file creation, fsync of the spools, JSON side files and the completion documents are dropped; a file reads back as it was written, so the digest comparisons of unchanged files do not appear.
- Replay.RunOnlineGeneration: fitting, tuning and failure tables are not modelled; a failed model is a row without a point prediction.
- HolmTesting.SelectCandidate: the paired t tests are function parameters; the rest of `decide_losses` is arithmetic on arrays.
- HolmTesting.ArgSort: stands for the stable NumPy sort; stability itself is not stated because the result does not need it.
- SystematicResampling.ResamplingIsFair: the random offset is a parameter, and the weights sum to one exactly; the particle filter around the resampling is not modelled.
- Hyperslabs.SlabsAreBounded: stated for positive preferred entries, as the chunk shape of a dataset has; nothing is claimed for others.
- DatasetScan.ScanDataset: models real-valued data with NaN and infinities; complex data, storage checks and read errors are not modelled.
- RecursiveLeastSquares.RlsPoint: stated for a positive forgetting factor; the source uses 0.98.
- KalmanTrend.KalmanPrediction: stated for a positive scale and observation noise and nonnegative level and slope noise, as every candidate configuration has.
- TrendForecasts.PredictPrefix: the exponential and ridge branches need logarithms and a fitted regression and are not modelled; the window of the local fit is at least one, as in every candidate configuration.
- Rounding, overflow and formatting of floating-point numbers.
- Python type checks such as the exclusion of booleans from integers.
- Metric scoring and label maturity after the replay, the data gates, recovery and manifest verifiers, the API adapter, the agent arms and process supervision: long checklists or library behaviour with little state of their own.
- OLE containers, xlrd and the workbook event decoder: the event stream is an input.
