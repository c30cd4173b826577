# Flash-loan scanner: a verified model

The scanner looks for flash loans on Ethereum. A scan job runs one worker per lending protocol; each
worker extracts candidate interactions from transactions and events, verifies them, stores verdicts
and legs, and sums them up per transaction, while a job manager records progress and streams it to a
browser. For a single transaction the service turns the call trace into evidence, a rebuilt call tree
and a fund-flow graph.

The project models these parts in Dafny and proves what they promise:

- the job machine under every interleaving of requests and workers (`JobManager`, `ScanMachine`,
  `RunScripts`, `JobProgress`) with its coming to an end (`ScanLiveness`), and the browser store as a
  replica of it (`ScanReplica`, `ScanBroadcast`, `ScanLag`);
- one protocol run with failures at any call, its convergence under re-running and its event stream
  (`ProtocolRunner`, `RunConvergence`, `RunLocality`, `RunEvents`, `RunCounters`), the cursor loop
  alone and with its stores (`RunLoop`, `LoopConvergence`) and the summaries (`Aggregator`);
- Balancer extraction, the event-based and the trace-backed verifiers, and the pipeline from vault
  events to stored verdicts (`BalancerExtractor`, `ExtractRules`, `Verifiers`, `TraceVerifiers`,
  `VerdictRules`, `BalancerPipeline`);
- call traces: flattening, prefix searches, evidence, token calls and the rebuilt tree (`TraceTree`,
  `RunCover`, `TraceEvidence`, `TraceRules`, `TraceSearch`, `TokenCalls`, `FrameForest`,
  `InvocationTree`);
- the fund-flow graph: the order of flows, the execution walk over shared arrays, decimal amounts,
  selection and lanes (`FlowOrder`, `ExecutionWalk`, `WalkProgress`, `WalkBranches`, `DecimalAmounts`,
  `FlowSelection`, `FlowChoice`, `LaneGraph`, `FundFlowLane`, `LaneShows`);
- the trace cache and the trees it hands out (`TraceCache`).

`Text`, `Sorting` and `ScanTypes` hold shared definitions. Code that updates state is modelled by
classes and methods with loops, each proved against a function of its inputs or of the old state, and
the properties are lemmas about those functions. Pure code is modelled by functions.

Conventions. The chain, the database and the trace provider are given as values: transactions with
decoded events, tables as maps keyed as in `database/scanner/results.go`, one answer per transaction.
A call into a store, a fetcher or a verifier may fail at any point; a run with a budget of n succeeds
in n calls and fails at the next. Fresh ids are parameters. An interaction id is a hash of chain,
transaction and ordinal and is represented by them, for one chain. Addresses in scan records are
normalised text. Strings are trimmed and lower-cased as ASCII.

Where the code is not quite what one would expect, the model follows it, and the exact condition is
proved together with an input that fails it:

- sorting flows by their order code leaves them in execution order exactly when no later flow is ten
  or more levels per step further up (`FlowOrder.SortKeepsExecutionOrder`, fails for
  `FlowOrder.DeepTraceMisordered`);
- the saved ranges of the cursor loop stand for its cursor exactly when no completed batch wraps around
  in 64 bits (`RunLoop.CursorCovers`, fails for `RunLoop.HugeBatchMovesBack`), and single-block batches
  never leave block 0 (`RunLoop.CursorGrowsExactly`, `RunLoop.BatchOfOneStays`);
- the totals a client shows are the job's exactly when no worker has reported new counts since the
  step whose overview reached the client last (`ScanLag.TotalsShownExactly`, fails for
  `ScanLag.DelayedBroadcastShowsOldTotals`); once the job has finished and its last overview got
  through, they are.

String equality of amounts is equality of numbers for amounts without leading zeros, which is how big
integers are printed on both sides (`DecimalAmounts.DecimalsAddUp`); for other numerals the lengths have
to agree as well (`DecimalAmounts.RepaymentMatchExactly`).

`dafny verify dfyconfig.toml` checks the whole project.

## Model

| member | source | states |
|---|---|---|
| ScanMachine.ScanSafe | flashloan-scanner/api/service/runner_bridge.go:69-147 | In every reachable state of every interleaving of requests and workers: at most one job is pending or running; totals are the sums over protocols, strict <= verified <= candidates <= findings; a job that is not active has no live worker; it is completed exactly when all its protocols are, and its totals then count every finding |
| ScanMachine.FinishedStays | flashloan-scanner/api/service/job_manager.go:139-201 | From any state of a run to any later one: jobs stay, their totals never fall, and a finished job never changes again |
| ScanMachine.StepSound | flashloan-scanner/api/service/job_manager.go:31-77 | One step of the machine, a request included, keeps the whole invariant; a second request while a job is active is refused |
| ScanMachine.EmitSound | flashloan-scanner/api/service/observer.go:21-78 | Recording the next event of a worker keeps the job in step with what the worker has emitted |
| ScanMachine.JoinSound | flashloan-scanner/api/service/runner_bridge.go:116-146 | When all workers are done, an error was collected exactly when some protocol of the job is not completed |
| ScanMachine.SetUpSound | flashloan-scanner/api/service/runner_bridge.go:107-114 | A job that fails before its workers are forked has no completed protocol and is reported as failed |
| ScanMachine.StepKeepsJob | flashloan-scanner/api/service/job_manager.go:229-250 | No single step removes a job, lowers its totals or touches a job that is done |
| JobProgress.JobsShowWorkers | flashloan-scanner/api/service/observer.go:21-78 | In every reachable state each protocol of a job shows exactly what its worker has told: its block, its findings in full, newest first, the latest of them, the blocks of the request, and an error only after a failure |
| JobProgress.AcceptedExactly | flashloan-scanner/api/service/job_manager.go:31-77 | A request is accepted exactly when it names a chain, a range in order and known protocols, and every job is completed or failed |
| JobProgress.ChannelHolds | flashloan-scanner/api/service/job_manager.go:355-377 | A channel offered messages holds what it held and the first of them that fit |
| JobProgress.EventIsLogged | flashloan-scanner/api/service/job_manager.go:203-325 | A worker's start, findings and end are logged for its protocol with their blocks, a failure as an error, a progress not at all |
| JobProgress.JobIsLogged | flashloan-scanner/api/service/job_manager.go:139-201 | Start and end of the job are logged for no protocol, a failure as an error |
| JobProgress.FirstHashFound | frontend/src/store/useScanStore.ts:34-37 | The hash read off a log text is the first place with 0x and 64 hexadecimal digits |
| JobProgress.FindingLogsItsHash | flashloan-scanner/api/service/job_manager.go:252-271 | A finding is logged with the hash of its transaction |
| RunScripts.RunIsScript | flashloan-scanner/scanner/orchestrator/protocol_runner.go:109-216 | The events of every protocol run are accepted by the observer automaton: the grammar, counts that never fall and equal the findings told |
| RunScripts.ScriptReads | flashloan-scanner/scanner/orchestrator/protocol_runner.go:109-127 | Within an accepted event list no prefix is rejected, only the whole has ended, counts are in order and a completed run has counted every finding |
| RunScripts.CleanRunTells | flashloan-scanner/scanner/orchestrator/protocol_runner.go:192-214 | A run with work that succeeds tells of a finding right after it started |
| JobManager.NormalizeProtocols | flashloan-scanner/api/service/job_manager.go:482-502 | Refuses an empty list and any unknown protocol; otherwise the distinct protocols in request order |
| JobManager.Manager.HasActiveJob | flashloan-scanner/api/service/job_manager.go:44-48 | True exactly when some job is pending or running, whatever the map order |
| JobManager.Manager.CreateJob | flashloan-scanner/api/service/job_manager.go:31-77 | Refused for chain 0, a reversed range, bad protocols or an active job; otherwise exactly one new pending job is added |
| JobManager.Manager.Subscribe | flashloan-scanner/api/service/job_manager.go:101-137 | Only existing jobs can be subscribed to; the new channel is empty with the given or the default capacity and no other channel changes |
| JobManager.Manager.Broadcast | flashloan-scanner/api/service/job_manager.go:355-377 | Every channel of the job is offered the message and drops it exactly when full; channels of other jobs are untouched |
| JobManager.Manager.RecalculateTotals | flashloan-scanner/api/service/job_manager.go:394-403 | The loop over the protocol map adds up the counts of all protocols, in whatever order it visits them |
| JobManager.Manager.MarkJobStarted | flashloan-scanner/api/service/job_manager.go:139-158 | The status becomes running, one log entry is added, the overview and the log entry are broadcast in this order |
| JobManager.Manager.MarkJobCompleted | flashloan-scanner/api/service/job_manager.go:160-179 | The same for completion |
| JobManager.Manager.MarkJobFailed | flashloan-scanner/api/service/job_manager.go:181-201 | The same for failure, with the error message |
| JobManager.Manager.RecordProtocolStarted | flashloan-scanner/api/service/job_manager.go:203-227 | Unknown job or protocol is an error and changes nothing; otherwise the protocol runs from its start block, and snapshot, overview and log entry are broadcast |
| JobManager.Manager.RecordProtocolProgress | flashloan-scanner/api/service/job_manager.go:229-250 | Sets the block and counts of the protocol, recomputes the totals, broadcasts snapshot and overview |
| JobManager.Manager.RecordFinding | flashloan-scanner/api/service/job_manager.go:252-271 | Puts the finding first, makes it the latest of its protocol, logs it, and broadcasts finding and log entry only |
| JobManager.Manager.RecordProtocolCompleted | flashloan-scanner/api/service/job_manager.go:273-299 | Final counts and status, recomputed totals, snapshot, overview and log entry |
| JobManager.Manager.RecordProtocolFailed | flashloan-scanner/api/service/job_manager.go:301-325 | Failure with block and error, counts kept, recomputed totals, snapshot, overview and log entry |
| ScanReplica.ReplicaAgrees | frontend/src/store/useScanStore.ts:144-187 | For every sequence of job operations whose messages arrive in order and complete, the store agrees with the job after each: status, error, totals, findings, last 200 log entries and protocols; only latest findings may lag until the next operation of another kind |
| ScanReplica.OpAgrees | flashloan-scanner/api/service/job_manager.go:139-325 | One operation and its messages take agreement to agreement, and bring every lagging latest finding up to date unless the operation is a finding |
| ScanReplica.OverviewAgrees | frontend/src/store/useScanStore.ts:75-92 | An overview brings status, error, totals and all protocols up to date |
| ScanReplica.StartAgrees | frontend/src/store/useScanStore.ts:114-143 | A store that starts a scan agrees with the job created for the same request |
| ScanReplica.LogIsLatest | flashloan-scanner/api/service/job_manager.go:379-392 | The log of a job is its 200 latest entries, newest first, whatever the operations |
| ScanReplica.LatestFindingShown | frontend/src/store/useScanStore.ts:144-187 | How far the client lags: after any operations it shows every protocol, latest finding included, exactly as the job had it right after the last operation that was not a finding |
| ScanLiveness.StuckExactly | flashloan-scanner/api/service/runner_bridge.go:92-147 | In every reachable state a job has a next step exactly as long as it is pending or running: no interleaving leaves it stuck |
| ScanLiveness.StepNearer | flashloan-scanner/api/service/runner_bridge.go:92-147 | Every step about a job brings it nearer to its end (stage, workers to start, events to tell), and every other step leaves job and workers alone, so only finitely many steps are taken |
| ScanLiveness.CompletionOpenExactly | flashloan-scanner/api/service/runner_bridge.go:69-147 | From every reachable state a job has a continuation that ends it, and one that completes it exactly when its set-up has not failed and none of its workers is bound to fail |
| ScanLiveness.DoomedStays | flashloan-scanner/api/service/runner_bridge.go:116-146 | A job one of whose workers fails, or whose set-up failed, never escapes that, whatever else is done |
| ScanLiveness.SettledExactly | flashloan-scanner/api/service/job_manager.go:355-377 | With a subscriber, drops included, some step or broadcast is left exactly until the job is finished and everything is sent |
| ScanBroadcast.FinishedJobIsShown | flashloan-scanner/api/service/job_manager.go:355-377 | In the scan machine with a subscriber, however broadcasts of different goroutines interleave and whatever is dropped: once a job has finished and its last overview got through, the client shows its status, error, totals and protocols as they are |
| ScanBroadcast.FindingsConserved | flashloan-scanner/api/service/job_manager.go:252-271 | While nothing is dropped, once all broadcasts are out the client lists exactly the findings of the job, each as often |
| ScanBroadcast.FinishedClientIsRight | flashloan-scanner/api/service/runner_bridge.go:92-147 | A client that lost nothing shows a finished job as completed exactly when all protocols it shows are, with totals that are the sums over them and in order, and that count every finding it lists if the job completed |
| ScanLag.ShownAsOf | flashloan-scanner/api/service/job_manager.go:355-377 | At every state of every run, drops included, the client shows status, error, totals and completed protocols of the job as of the step whose overview reached it last |
| ScanLag.TotalsShownExactly | flashloan-scanner/api/service/job_manager.go:229-250 | The totals shown never exceed those of the job, and equal them exactly when no worker has reported new counts since that step |
| ScanLag.DelayedBroadcastShowsOldTotals | flashloan-scanner/api/service/job_manager.go:355-377 | For any request of two protocols and any two protocol runs that begin with a finding the system has a run with nothing dropped and everything sent after which the totals shown are not those of the job |
| ScanLag.DelayedInRealRuns | flashloan-scanner/api/service/runner_bridge.go:92-147 | The same with the events of two concrete protocol runs that find one transaction each |
| ProtocolRunner.Runner.RunOnce | flashloan-scanner/scanner/orchestrator/protocol_runner.go:109-217 | The run with its early exits, store calls, statistics and deferred end equals the specified run: same store, same counters, same events, for every point at which a call fails |
| ProtocolRunner.Runner.Prepare | flashloan-scanner/scanner/orchestrator/protocol_runner.go:130-151 | Fetching, listing and extraction, each of which may fail, with the counters they set and the two early exits |
| ProtocolRunner.Runner.UpsertInteractions | flashloan-scanner/database/scanner/results.go:165-193 | The rows of all candidates are written and their verdicts reset; other rows stay |
| ProtocolRunner.Runner.ReplaceGroups | flashloan-scanner/scanner/orchestrator/protocol_runner.go:156-160 | The leg groups are written one by one in the given order, up to the call that fails |
| ProtocolRunner.Runner.VerifyCandidates | flashloan-scanner/scanner/orchestrator/protocol_runner.go:162-190 | Every candidate is verified and written in order, and the distinct transactions are collected in the order first seen |
| ProtocolRunner.Runner.VerifyCandidate | flashloan-scanner/scanner/orchestrator/protocol_runner.go:164-184 | One candidate: the block advances, the verdict and then the legs are written, and only then it is counted |
| ProtocolRunner.Runner.AggregateTx | flashloan-scanner/scanner/orchestrator/protocol_runner.go:192-214 | One transaction: its summary is stored and counted, then the finding and a progress are reported |
| RunConvergence.RunsConverge | flashloan-scanner/scanner/orchestrator/protocol_runner.go:144-217 | Any number of runs cut off anywhere, followed by one that succeeds, leave the same interactions, legs and summaries as one clean run, for all orders of leg groups |
| RunConvergence.NearRunsAgree | flashloan-scanner/scanner/orchestrator/protocol_runner.go:272-278 | Two successful runs from stores that differ only by partial work of the same task end in the same store, whatever order the leg groups come in |
| RunConvergence.RunNear | flashloan-scanner/scanner/orchestrator/protocol_runner.go:109-217 | However far a run gets, it only does work of its own task: other rows, legs and summaries stay, and legs of candidates without extracted legs are the old ones or their verified form |
| RunConvergence.RunSettles | flashloan-scanner/scanner/orchestrator/protocol_runner.go:164-184 | A successful run leaves every candidate with its verdict on the extracted legs and with the legs the verifier returned |
| RunConvergence.ReplaceWrites | flashloan-scanner/database/scanner/results.go:245-268 | After the leg groups are written in any order, each group holds exactly the extracted legs and all other legs stay |
| RunConvergence.VerifiersAreStable | flashloan-scanner/scanner/verifier/aave_v3_trace.go:40-101 | The three verifiers, trace-backed or not, judge the legs they returned as they judged the original ones, so their runs converge |
| RunLocality.RunIsLocal | flashloan-scanner/scanner/orchestrator/protocol_runner.go:144-217 | A run on a store cut down to the transactions of its candidates and legs leaves the cut-down result, with the same events, counters and end |
| RunEvents.RunReports | flashloan-scanner/scanner/orchestrator/protocol_runner.go:109-216 | Every run reports Started, then finding and progress pairs, one per distinct transaction in first-seen order, then Failed, or an optional last progress and Completed; counters never fall, strict <= verified <= findings. Each finding is the stored summary of its transaction's rows, each progress shows the highest block of all candidates and the summaries told so far and how many of these are verified and strict; a failure shows the highest block the run got to, a success at least the end block |
| RunCounters.RunCounts | flashloan-scanner/scanner/orchestrator/protocol_runner.go:144-217 | A run that succeeds has counted the transactions observed, the candidates extracted, and those of them stored as verified, and as strict |
| RunEvents.AggregatesReport | flashloan-scanner/scanner/orchestrator/protocol_runner.go:192-214 | The aggregation loop tells exactly one finding per transaction as long as no call fails |
| RunEvents.TxOrderDistinct | flashloan-scanner/scanner/orchestrator/protocol_runner.go:185-189 | The transactions reported on are distinct, and a longer run only extends the list |
| RunEvents.VerifiersKeepOrder | flashloan-scanner/scanner/verifier/aave_v3_trace.go:40-101 | The three verifiers, trace-backed or not, never call an unverified interaction strict, as the event theorem requires |
| RunLoop.Cursor.RunLoop | flashloan-scanner/scanner/orchestrator/protocol_runner.go:219-270 | The loop, its errors and its waits, turn by turn, equals the specified walk of the cursor; an error ends it without losing the cursor |
| RunLoop.TurnExactly | flashloan-scanner/scanner/orchestrator/protocol_runner.go:237-263 | A turn fails exactly when there was no answer, or there was something to scan and the scan or the saving went wrong; a turn that fails or waits changes nothing, any other saves its range and moves the cursor to its end |
| RunLoop.CursorCovers | flashloan-scanner/scanner/orchestrator/protocol_runner.go:219-270 | Over every run, with any answers, failures and restarts: saved ranges cover 0 to the cursor, are in order, never overlap an earlier range that ended above 0 and end at or below a latest block that was seen, exactly when the 64-bit end of every batch whose scan completed did not wrap around |
| RunLoop.CursorGrowsExactly | flashloan-scanner/scanner/orchestrator/protocol_runner.go:243-263 | A completed scan moves the cursor forward exactly when its batch does not wrap around, and the cursor was positive before or the batch has two blocks and a block after 0 exists |
| RunLoop.RangeFollowsExactly | flashloan-scanner/scanner/orchestrator/protocol_runner.go:243-257 | The range of a scan starts right after the cursor and does not end before it starts exactly when the 64-bit sums do not wrap around; then it ends at the batch end or the latest block |
| RunLoop.HugeBatchMovesBack | flashloan-scanner/scanner/orchestrator/protocol_runner.go:254-257 | A batch size and two answers of a fresh loop after which the saved cursor has moved backwards |
| RunLoop.BatchOfOneStays | flashloan-scanner/scanner/orchestrator/protocol_runner.go:243-246 | With single-block batches the cursor stays at 0 for ever |
| LoopConvergence.LoopConverges | flashloan-scanner/scanner/orchestrator/protocol_runner.go:219-270 | The loop and its stores together: with any latest-block answers, runs cut off at any call, cursors that cannot be saved and restarts, what the stores say about every transaction outside the blocks still to be scanned is what one clean pass over the saved ranges leaves |
| LoopConvergence.LoopIsRunLoop | flashloan-scanner/scanner/orchestrator/protocol_runner.go:219-270 | The cursor and the saved ranges of that loop are those of the cursor loop on the turns it met |
| LoopConvergence.SuccessNear | flashloan-scanner/scanner/orchestrator/protocol_runner.go:144-217 | A run over the first blocks of a range that succeeds on two stores differing only by partial work of the range leaves them differing only by partial work of what remains |
| LoopConvergence.AttemptNear | flashloan-scanner/scanner/orchestrator/protocol_runner.go:109-217 | A run within a range, cut off or not, only does partial work of that range |
| LoopConvergence.RunKeepsOthers | flashloan-scanner/scanner/orchestrator/protocol_runner.go:144-217 | A run leaves rows, legs and summaries of transactions in other blocks as they were |
| Aggregator.AggregateByTx | flashloan-scanner/scanner/aggregator/simple.go:30-73 | No rows give no summary; otherwise block of the first row, flags, counts and protocols are those of the rows, whatever the order of the protocol set |
| Aggregator.SummaryConsistent | flashloan-scanner/scanner/aggregator/simple.go:30-73 | A summary exists exactly when there are rows, and has the block of the first, says whether any is verified, whether any is verified and strict and how many are, counts all, and lists each protocol once, in byte order |
| Aggregator.RowsInOrder | flashloan-scanner/scanner/aggregator/simple.go:30-47 | The rows of a transaction are listed once each, by strictly ascending ordinal |
| BalancerExtractor.GroupFlashLoans | flashloan-scanner/scanner/extractor/balancer_v2.go:133-167 | The map of groups built event by event holds, for each key in first-seen order, its numbered candidate and one leg per event of the group |
| BalancerExtractor.ExtractFromFlashLoanEvents | flashloan-scanner/scanner/extractor/balancer_v2.go:106-175 | The candidates and legs listed are those of the specified grouping of the official vaults' events |
| BalancerExtractor.Extract | flashloan-scanner/scanner/extractor/balancer_v2.go:41-65 | Top-level calls first, events otherwise, transaction by transaction; one undecodable call fails the whole extraction |
| BalancerExtractor.ExtractFlashLoan | flashloan-scanner/scanner/extractor/balancer_v2.go:209-257 | One candidate and one leg per token of the call, with the amount at the same position if there is one |
| BalancerExtractor.LegsConserveEvents | flashloan-scanner/scanner/extractor/balancer_v2.go:151-172 | Legs and events correspond one to one: the legs carry exactly the events, as a multiset, with token, amount and fee |
| BalancerExtractor.OrdinalsFollowEvents | flashloan-scanner/scanner/extractor/balancer_v2.go:133-149 | Candidate n is the group first seen after exactly n others, and is named by ordinal n |
| BalancerExtractor.EventCandidatesAreStrict | flashloan-scanner/scanner/verifier/balancer_v2.go:67-104 | An event-derived candidate of a successful transaction verifies as strict exactly when all its events carry amounts, and each leg gets the fee of the first log with the same vault, recipient, token and amount |
| BalancerExtractor.LoanIsFirstRecord | flashloan-scanner/scanner/verifier/balancer_v2.go:145-163 | For an event's own leg the verifier finds the first log that records the same loan |
| ExtractRules.ExtractExactly | flashloan-scanner/scanner/extractor/balancer_v2.go:41-65 | Extraction fails exactly when some transaction calls a vault with data that cannot be decoded; otherwise its candidates are exactly those of the transactions |
| ExtractRules.TxExactly | flashloan-scanner/scanner/extractor/balancer_v2.go:82-175 | A vault call gives one candidate, from the vault to the recipient called with; otherwise every candidate stems from a vault log, and every vault log has one, from the vault to the recipient logged |
| ExtractRules.CallLegsExactly | flashloan-scanner/scanner/extractor/balancer_v2.go:209-257 | A call has one leg for each token it names, with the amount at the same place if there is one |
| BalancerPipeline.EventCandidatesStoredStrict | flashloan-scanner/scanner/orchestrator/protocol_runner.go:144-190 | End to end: after a successful run the store holds every event-derived candidate of a successful transaction as strict, with one settled leg per event of its group |
| BalancerPipeline.CandidatesDistinct | flashloan-scanner/scanner/extractor/balancer_v2.go:133-149 | Over transactions with distinct hashes all extracted candidates have distinct ids |
| BalancerPipeline.BalancerRunsConverge | flashloan-scanner/scanner/orchestrator/protocol_runner.go:144-217 | Scanning observed transactions for Balancer loans converges under re-running; nothing is assumed but distinct transaction hashes |
| Verifiers.VerifyBalancer | flashloan-scanner/scanner/verifier/balancer_v2.go:42-105 | Equals the verdict stated over all legs: excluded for a failed transaction, no event or any unmatched leg, and otherwise strict with every leg settled by its first matching event |
| Verifiers.VerifyAave | flashloan-scanner/scanner/verifier/aave_v3.go:42-122 | The same for Aave: strict exactly when no matched event has an interest rate mode, and debt opening when one has |
| Verifiers.VerifyUniswap | flashloan-scanner/scanner/verifier/uniswap_v2.go:42-123 | The same for Uniswap: one swap event must match the legs of both sides, and gives the amounts paid in |
| Verifiers.MatchesUniswapLegs | flashloan-scanner/scanner/verifier/uniswap_v2.go:180-201 | True exactly when the outputs are what the last leg of each side borrowed and at least one side asks for something |
| Verifiers.MatchUniswapSwapEvent | flashloan-scanner/scanner/verifier/uniswap_v2.go:167-178 | The first swap to the receiver that matches the legs |
| Verifiers.LoanFits | flashloan-scanner/scanner/verifier/aave_v3.go:171-189 | The event found for a leg is of the list and fits asset, receiver and amount, and none is found only if none fits |
| VerdictRules.AaveVerdict | flashloan-scanner/scanner/verifier/aave_v3.go:42-122 | Verified exactly when the transaction succeeded, the pool logged a flash loan and every leg is lent by a log; strict exactly when no leg's first log took debt; the reason of an exclusion is the first of these that fails, and each leg is settled by its first log |
| VerdictRules.BalancerVerdict | flashloan-scanner/scanner/verifier/balancer_v2.go:42-104 | The same for Balancer, always strict, with the fee of the first log |
| VerdictRules.UniswapVerdict | flashloan-scanner/scanner/verifier/uniswap_v2.go:42-123 | Verified and strict exactly when the transaction succeeded, the swap was called with data, and some swap of the pair to the receiver paid out what the last leg of each side asks for; each leg gets what the first such swap took in on its side |
| VerdictRules.LoanIsFirstLog | flashloan-scanner/scanner/verifier/aave_v3.go:171-189 | The event found for a leg is the first log of the transaction that lends it |
| TraceVerifiers.VerifyWithTrace | flashloan-scanner/scanner/verifier/aave_v3_trace.go:40-101 | The trace stage of all three verifiers, with fallback on unavailable traces, missing trace, debt opening, missing callback, missing repayment and strict branches |
| TraceVerifiers.StrictExactly | flashloan-scanner/scanner/verifier/aave_v3_trace.go:63-100 | With a trace, strict is reported exactly when the base verified, no leg opened debt, some frame below the root is a successful provider-to-receiver call, and some frame is a repayment call on an asset of the legs |
| TraceVerifiers.StrictImplies | flashloan-scanner/scanner/verifier/balancer_v2_trace.go:34-88 | For every answer of the trace provider strict implies verified, all evidence flags and strict legs, and neither verified nor strict is reported unless the base reported it |
| VerdictRules.TracedVerdict | flashloan-scanner/scanner/verifier/aave_v3_trace.go:63-100 | With a trace, verified holds exactly when the base verified and a leg opened debt or some frame below the root calls back; strict, every evidence flag and the exclusion are likewise said of the frames |
| VerdictRules.UntracedVerdict | flashloan-scanner/scanner/verifier/aave_v3_trace.go:50-66 | Without a trace nothing is verified; a failing provider leaves the base verdict exactly when the failure says that tracing is unavailable, and is an error otherwise |
| VerdictRules.UnavailableMessages | flashloan-scanner/scanner/verifier/trace_fallback.go:25-35 | A message that says so anywhere says that tracing is unavailable |
| VerdictRules.LegIsAnnotated | flashloan-scanner/scanner/verifier/aave_v3_trace.go:161-174 | A leg is marked as seen, and unless it opened debt as strict and, if it was not, settled; nothing else changes |
| TraceVerifiers.BaseVerdicts | flashloan-scanner/scanner/verifier/aave_v3.go:76-121 | A verified base verdict is strict exactly when no leg opened debt, and then all its legs are strict and settled |
| TraceVerifiers.TraceKeepsLegs | flashloan-scanner/scanner/verifier/uniswap_v2_trace.go:106-117 | Annotating the legs of a strict verdict changes none of them |
| TraceVerifiers.VerifyAgain | flashloan-scanner/scanner/verifier/uniswap_v2_trace.go:34-88 | Verifying the legs that a verification returned gives the same verdict and the same legs, for each protocol |
| TraceVerifiers.AnnotateTraceLegs | flashloan-scanner/scanner/verifier/aave_v3_trace.go:161-174 | Each leg is marked as seen, strict unless it opened debt, and settled if it was not |
| TraceVerifiers.CollectAssets | flashloan-scanner/scanner/verifier/aave_v3_trace.go:118-132 | The lower-cased assets of the legs |
| TraceTree.FlattenTraceFrames | flashloan-scanner/api/service/trace_summary.go:245-277 | The closure that appends to a shared list gives the pre-order list with dotted ids and call indexes |
| TraceTree.FlattenIsPreorder | flashloan-scanner/api/service/trace_summary.go:251-273 | In the flattened list call indexes are positions and each frame's subtree is a run with prefix-related ids |
| TraceTree.SubtreeIsRun | flashloan-scanner/api/service/trace_summary.go:251-273 | The subtree of every frame is one contiguous run, itself the flattening of that frame |
| TraceTree.PrefixTestExact | flashloan-scanner/api/service/trace_summary.go:379-388 | The string-prefix test accepts, for the i-th frame, exactly the ids of the run that starts at i and is as long as its subtree |
| TraceTree.SiblingsApart | flashloan-scanner/api/service/trace_summary.go:270-273 | Ids below different children are never related, although one child number may be a prefix of another |
| TraceEvidence.CollectSubtreeFrameIDs | flashloan-scanner/api/service/trace_summary.go:379-388 | The ids that pass the prefix test, in list order |
| TraceEvidence.DedupeStrings | flashloan-scanner/api/service/trace_summary.go:390-407 | First occurrences of the non-empty strings, in order |
| TraceEvidence.BuildTraceInteractionEvidence | flashloan-scanner/api/service/trace_summary.go:279-332 | Per interaction the callback frames, the joined subtrees of all of them, and the repayment frames |
| TraceEvidence.SubtreeIDsExact | flashloan-scanner/api/service/trace_summary.go:379-388 | On a flattened trace the collected ids are those of one run: the frame and its descendants, nothing else |
| TraceEvidence.CallbackSubtreesInCallOrder | flashloan-scanner/api/service/trace_summary.go:306-311 | Joining the subtrees of all callbacks, nested ones included, and deduplicating lists exactly the covered frames once each, in call order |
| TraceEvidence.CallbackSubtreesIncrease | flashloan-scanner/api/service/trace_summary.go:306-311 | The callback subtree ids of an interaction are strictly increasing in call index, nested callbacks included |
| TraceEvidence.TagTraceFrames | flashloan-scanner/api/service/trace_summary.go:334-363 | Each frame gets the tags of the evidence sets it is in |
| TraceEvidence.CallbackTagExact | flashloan-scanner/api/service/trace_summary.go:334-363 | A frame is tagged callback_path exactly when it lies in the run of a callback frame of some interaction |
| TraceRules.EvidenceExactly | flashloan-scanner/api/service/trace_summary.go:279-332 | A frame is evidence of a callback exactly when the provider successfully calls the receiver in it, and of a repayment exactly when it is a successful token call with the provider or an asset at one end |
| TraceRules.TagsExactly | flashloan-scanner/api/service/trace_summary.go:334-363 | A frame is tagged as token action, repayment path and error exactly when it calls a token, looks like a repayment of some interaction, and failed |
| TraceRules.FlowOfCall | flashloan-scanner/api/service/trace_summary.go:174-243 | The flow of a frame that calls a token: of the token called, between the parties of the call data, of its amount in decimal |
| RunCover.JoinedRunsInOrder | flashloan-scanner/api/service/trace_summary.go:390-407 | Concatenating nested or disjoint runs and keeping first occurrences lists the covered positions once, increasing |
| TraceSearch.DirectCallIsLaterCallback | flashloan-scanner/scanner/verifier/aave_v3_trace.go:103-116 | The recursive search finds a call exactly when the flat list has a callback frame other than its first |
| TraceSearch.RepaymentCallIsListed | flashloan-scanner/scanner/verifier/aave_v3_trace.go:134-159 | The recursive search finds a repayment call exactly when some listed frame meets its test |
| TraceSearch.CallbackEvidenceAgrees | flashloan-scanner/api/service/trace_summary.go:293-304 | Verifier and trace summary look for the same callbacks: one sees a direct call exactly when the other names a callback frame that is not the root |
| TokenCalls.DecodeOfEncoded | flashloan-scanner/api/service/trace_summary.go:455-516 | Round trip: decoding the call data of a transfer, transferFrom or approve gives back its parties and amount |
| TokenCalls.CutShortIsNoAction | flashloan-scanner/api/service/trace_summary.go:505-516 | Call data that ends before its last argument does is no token action |
| FrameForest.GroupByParent | frontend/src/pages/TransactionDetail.tsx:960-967 | Pushing frames one by one into a map by parent gives the specified groups |
| FrameForest.GroupsListChildren | frontend/src/pages/TransactionDetail.tsx:961-967 | The group of a key lists the frames with that parent key, in list order |
| InvocationTree.ChildrenOfFrame | frontend/src/pages/TransactionDetail.tsx:961-967 | On a flattened trace the group of a frame lists the frames of its calls, in call order |
| InvocationTree.SortedAsListed | frontend/src/pages/TransactionDetail.tsx:954-959 | Sorting any permutation of the frames of a trace restores the flattening order |
| FrameForest.BuildInvocationNodes | frontend/src/pages/TransactionDetail.tsx:943-1006 | On every frame list on which the recursion ends, the nodes are the forest built from the sorted, grouped frames |
| FrameForest.RebuildableExactly | frontend/src/pages/TransactionDetail.tsx:969-972 | The recursion ends exactly when no chain of children from a root meets a frame again |
| FrameForest.DistinctIDsSuffice | frontend/src/pages/TransactionDetail.tsx:960-972 | Frame lists with distinct ids can always be rebuilt, whatever parents they name |
| FrameForest.ImportantExactly | frontend/src/pages/TransactionDetail.tsx:974-985 | A frame is not shown for its own sake exactly when it is two levels deep or more, calls no token, did not fail, is on no callback or repayment path and is no event |
| InvocationTree.TraceForest | frontend/src/pages/TransactionDetail.tsx:943-1006 | The frames of a flattened trace, in any order, can be rebuilt, and the forest shown is the call tree, pruned |
| InvocationTree.RawRoundTrip | frontend/src/pages/TransactionDetail.tsx:969-1006 | Flatten, send in any order and rebuild in raw mode gives one tree, and it is the call tree |
| InvocationTree.PrunedViewExact | frontend/src/pages/TransactionDetail.tsx:974-985 | In pruned mode a frame is shown exactly when it or some frame below it is important, in call order |
| FlowOrder.SortFundFlowsByTrace | flashloan-scanner/api/service/fund_flow_graph.go:477-500 | The flows with the code of their frame, stably sorted by code and frame id |
| FlowOrder.OrderIsOfLast | flashloan-scanner/api/service/fund_flow_graph.go:477-492 | The order of a flow is ten times the call index plus the depth of the last frame listed with its id |
| Sorting.SortIsTheStableSort | flashloan-scanner/api/service/fund_flow_graph.go:493-499 | A list is what Sort gives exactly when it is in order and keeps elements that tie in their order: what a stable sort promises, and nothing else meets it |
| FlowOrder.CodesIncreaseExactly | flashloan-scanner/api/service/trace_summary.go:251-273 | The codes callIndex*10+depth increase along the trace exactly when no step returns from ten or more levels at once |
| FlowOrder.TenLevelsSuffice | flashloan-scanner/api/service/fund_flow_graph.go:481-483 | For traces nested at most ten deep the codes increase and sorting leaves the flows in execution order |
| FlowOrder.SortKeepsExecutionOrder | flashloan-scanner/api/service/fund_flow_graph.go:477-500 | Sorting leaves the flows of a summary in execution order exactly when, of any two frames with a flow, the later is fewer than ten levels per step further up, or just ten and its id is not the smaller |
| FlowOrder.DeepTraceMisordered | flashloan-scanner/api/service/fund_flow_graph.go:481-499 | Traces with one token call in the innermost of twelve or more nested calls and another in the next call of the root: their flows are not left in execution order |
| ExecutionWalk.ExtractKeyExecutionSegments | flashloan-scanner/api/service/fund_flow_graph.go:502-601 | The walk over shared arrays that nested visits re-sort under the outer loops equals the specified walk over maps of lists |
| ExecutionWalk.Walker.WalkBranch | flashloan-scanner/api/service/fund_flow_graph.go:538-590 | One visit of the walk, with its in-place sort and the loop over what nested visits leave, as a function of the shared state |
| ExecutionWalk.Walker.SortInPlace | flashloan-scanner/api/service/fund_flow_graph.go:552-575 | The group of one address is overwritten in its own array, and no other group changes |
| ExecutionWalk.SegmentsSafe | flashloan-scanner/api/service/fund_flow_graph.go:502-601 | At most 160 flows with distinct frames, strictly sorted by order and frame id; each later than the borrow, no approval, not paying the borrow source unless that is the receiver, and reached from the receiver by at most four returned flows that never continue past receiver or repayment target; every seed is among them |
| WalkProgress.SegmentsGoOn | flashloan-scanner/api/service/fund_flow_graph.go:534-601 | The branches are the visits of a walk that begins with the first seed and makes all seeds; each visit above depth 3 that does not end at the receiver or repayment target goes on at once, one deeper, with the flow out of there that comes first (at or after it, then nearest, then by frame id), unless that frame was visited; and every visit is a seed or made from such a flow |
| WalkProgress.SeedsExactly | flashloan-scanner/api/service/fund_flow_graph.go:509-532 | The seeds are the first four flows, in order, after the borrow and no approvals, out of the receiver and to none of receiver, repayment target and borrow source |
| WalkBranches.ThreeAreVisited | flashloan-scanner/api/service/fund_flow_graph.go:553-588 | A visit above the last depth from where nothing leads back goes on with every flow there that fewer than three others come before |
| WalkBranches.FirstSeedBranches | flashloan-scanner/api/service/fund_flow_graph.go:502-601 | So each flow out of where the first seed paid that fewer than three others come before is among the branches |
| ExecutionWalk.WalkCount | flashloan-scanner/api/service/fund_flow_graph.go:538-590 | A visit at depth 0, 1, 2 or 3 adds at most 40, 13, 4 or 1 flows |
| ExecutionWalk.WalkPermutes | flashloan-scanner/api/service/fund_flow_graph.go:552-575 | Re-sorting during a visit never changes which flows a group holds or how many |
| DecimalAmounts.AddDecimalStrings | flashloan-scanner/api/service/fund_flow_graph.go:803-842 | The carry loop over bytes and the reversal in place equal schoolbook addition |
| DecimalAmounts.Reverse | flashloan-scanner/api/service/fund_flow_graph.go:838-840 | The swap loop reverses the used part of the buffer |
| DecimalAmounts.SumRawAmounts | flashloan-scanner/api/service/fund_flow_graph.go:787-801 | Blank and zero amounts are skipped, the first other one replaces the total, the rest are added |
| DecimalAmounts.AddDecimalExact | flashloan-scanner/api/service/fund_flow_graph.go:803-841 | Two amounts of digits add up to the sum of their values, however blank or padded they are; a blank side leaves the other as it is, whatever it says |
| DecimalAmounts.AddDigitsExact | flashloan-scanner/api/service/fund_flow_graph.go:818-837 | For digits of any length the value of the sum is the sum of the values plus the carry |
| DecimalAmounts.SumExact | flashloan-scanner/api/service/fund_flow_graph.go:787-842 | The sum of any amounts is exact, canonical for canonical amounts, and n amounts give at most n - 1 digits more than the longest |
| DecimalAmounts.CanonicalUnique | flashloan-scanner/api/service/fund_flow_graph.go:230-231 | Canonical numerals are equal as strings exactly when they are as numbers |
| DecimalAmounts.RepaymentMatchExactly | flashloan-scanner/api/service/fund_flow_graph.go:230-231 | A flow matches the expected repayment as a string exactly when it is worth that much and as many digits long; if the parts have no leading zeros, exactly when it is worth that much and has none |
| DecimalAmounts.DecimalsAddUp | flashloan-scanner/api/service/trace_summary.go:493-503 | For amounts as a big integer prints them the sum is the decimal of the sum, and the string match is equality of numbers |
| FlowSelection.PickKeyTopupFlows | flashloan-scanner/api/service/fund_flow_graph.go:603-645 | The first three flows of the ranked list with keys not taken before |
| FlowSelection.TopUpsOptimal | flashloan-scanner/api/service/fund_flow_graph.go:603-645 | At most three flows with distinct keys in rank order; every candidate left out shares its key with a pick that ranks no later, or meets three picks that all rank no later |
| FlowSelection.PickPreferredOrderedFlow | flashloan-scanner/api/service/fund_flow_graph.go:913-928 | The specified choice: first non-empty tier, earliest flow, first listed on ties |
| FlowSelection.PreferredExact | flashloan-scanner/api/service/fund_flow_graph.go:913-928 | The choice is the best flow of the first non-empty tier, and there is none exactly when all tiers are empty |
| FlowSelection.BestIsUnique | flashloan-scanner/api/service/fund_flow_graph.go:913-928 | Only one flow is the best |
| FundFlowLane.BuildFundFlowLane | flashloan-scanner/api/service/fund_flow_graph.go:126-355 | The lane collected from the node map and the segment list is that of the specified edges: borrow, execution, top-ups, repayment |
| FundFlowLane.PickFlows | flashloan-scanner/api/service/fund_flow_graph.go:189-244 | The borrow and the repayment flow are the preferred ones of their five tiers |
| FlowChoice.BorrowIsBest | flashloan-scanner/api/service/fund_flow_graph.go:189-207 | The borrow flow is of the best rank (exact amount from the provider, from another than the sender, from any; else not from the sender, else any) and the earliest of it; there is none exactly when no flow of the asset reaches the receiver |
| FlowChoice.RepayIsBest | flashloan-scanner/api/service/fund_flow_graph.go:226-244 | The repayment flow is of the best rank (expected amount to the repayment address, to the provider, to any; else to the provider, else any) and the earliest of it |
| FlowChoice.BorrowSourceIs | flashloan-scanner/api/service/fund_flow_graph.go:208-213 | The borrow is drawn from the source of its flow, else from the first known of provider, factory and pair |
| FlowChoice.RepaymentTargetIs | flashloan-scanner/api/service/fund_flow_graph.go:245-251 | The repayment is drawn to the target of its flow, else to the first known of repayment address, provider, pair and factory |
| FlowChoice.SameKeyExactly | flashloan-scanner/api/service/fund_flow_graph.go:634-638 | Two top-ups count as the same exactly when source, asset and amount agree, as long as no address holds a bar |
| FlowChoice.TopUpsExactly | flashloan-scanner/api/service/fund_flow_graph.go:267-290 | The top-ups are at most three flows that may top up, distinct and in order of sender, exact amount and execution, and every such flow left out is accounted for |
| FlowChoice.DebtTokenExactly | flashloan-scanner/api/service/fund_flow_graph.go:655-658 | Of all hexadecimal addresses only that of the variable debt token counts as debt |
| LaneShows.CallsAreNamed | flashloan-scanner/api/service/fund_flow_graph.go:747-766 | Flows of transfer, transferFrom and approve calls are drawn under these names |
| LaneShows.LaneShowsExactly | flashloan-scanner/api/service/fund_flow_graph.go:201-332 | The lane shows the borrow, from source to receiver, and the repayment, from receiver to target, exactly when they are due, once and with their amounts; every top-up into the receiver and every branch from its source to its target by a segment of its kind and key; and nothing else |
| LaneShows.RepaymentShownIsTheSum | flashloan-scanner/api/service/fund_flow_graph.go:139-145 | The repayment shown is worth exactly the sum of principal, premium and fee |
| LaneShows.RolesShownExactly | flashloan-scanner/api/service/fund_flow_graph.go:147-171 | A node carries exactly the roles it plays: borrow source, repayment target, top-up source, receiver, hop |
| LaneShows.FallbackShowsExactly | flashloan-scanner/api/service/fund_flow_graph.go:357-437 | The fallback lane shows exactly the borrow from the lender to the receiver and the repayment from the receiver to the payee, when they are due |
| LaneGraph.LaneBuilder.PushNode | flashloan-scanner/api/service/fund_flow_graph.go:147-171 | The id is the normalised address; a blank one adds nothing, a known node gains the role in sorted order, a new one is added |
| LaneGraph.LaneBuilder.PushSegment | flashloan-scanner/api/service/fund_flow_graph.go:173-187 | A segment is added exactly when both ends have an id |
| LaneGraph.NodesByAddress | flashloan-scanner/api/service/fund_flow_graph.go:339-344 | The listed nodes are exactly those of the map, in strictly increasing address order, however the map is iterated |
| LaneGraph.DedupeFundFlowSegments | flashloan-scanner/api/service/fund_flow_graph.go:660-682 | The first segment of every key is kept, in order |
| FundFlowLane.LaneIsGraph | flashloan-scanner/api/service/fund_flow_graph.go:334-354 | Every lane is a well-formed graph: distinct node ids and addresses in order, both ends of every segment are nodes, distinct segment keys, first occurrences kept and no key lost |
| LaneGraph.LaneIsDetermined | flashloan-scanner/api/service/fund_flow_graph.go:339-344 | Two lanes of the same drawing are equal, so map iteration order cannot show |
| LaneGraph.ListedIsWellFormed | flashloan-scanner/api/service/fund_flow_graph.go:334-354 | Any drawing whose segments end in drawn nodes is listed as a well-formed graph |
| FundFlowLane.BorrowComesFromProvider | flashloan-scanner/api/service/fund_flow_graph.go:192-207 | If the provider pays the receiver exactly the borrowed amount, the borrow is drawn from the earliest such flow |
| FundFlowLane.RepaymentIsWorthTheDebt | flashloan-scanner/api/service/fund_flow_graph.go:226-244 | If the receiver pays the repayment address or the provider principal, premium and fee, the flow drawn goes to one of them and is worth exactly that |
| FundFlowLane.TopUpsStandApart | flashloan-scanner/api/service/fund_flow_graph.go:264-288 | Top-ups come after the borrow, pay the receiver from elsewhere and repeat no execution branch |
| FundFlowLane.BuildFallbackFundFlowLane | flashloan-scanner/api/service/fund_flow_graph.go:357-437 | Without a trace: the lane of the provider-to-receiver and receiver-to-target edges that exist |
| FundFlowLane.FallbackIsGraph | flashloan-scanner/api/service/fund_flow_graph.go:395-437 | With a receiver, which the graph builder insists on, fallback lanes are well-formed graphs too |
| TraceCache.CachedProvider.TraceTransaction | flashloan-scanner/scanner/trace/cached.go:23-49 | Replies as the base answers, in frames that are new and not the cache's; asks the base exactly when the key is new; keeps the answer exactly when it is a trace |
| TraceCache.CloneCallFrame | flashloan-scanner/scanner/trace/cached.go:51-75 | A tree of the same value made of new frames only |
| TraceCache.Session | flashloan-scanner/scanner/trace/cached.go:23-49 | For every sequence of lookups, with arbitrary changes to all frames handed out in between, the answers are those of a deterministic case-insensitive base |
| TraceCache.AskedExactly | flashloan-scanner/scanner/trace/cached.go:28-48 | Over a session the base is asked about a hash once if it has a trace, in any spelling, and at every lookup if it has none or fails |

## Left out

- ScanBroadcast.FinishedJobIsShown: the client is subscribed from the creation of its job; the bounded channel is represented by letting any message be dropped, which includes every overflow; closing channels while a broadcast is in flight is not modelled.
- ScanMachine.ScanSafe: seeding of protocol addresses and building of runners are one step that may fail; a request handler that stops between creating and starting a job is the `Created` stage with no further step.
- ScanLiveness.StuckExactly: a protocol run that hangs in a call is not modelled; the events of every worker are finite.
- RunConvergence.RunsConverge: assumes that candidates have distinct ids and that no other protocol writes rows of the same transactions in between, because an interaction id does not contain the protocol.
- LoopConvergence.LoopConverges: runs are those of one protocol; the extractor's answer for a transaction is fixed data, and its failure is one of the calls a run can be cut off at.
- BalancerPipeline.EventCandidatesStoredStrict: follows the event-based verifier; with a trace-backed one the verdict is that of `TraceVerifiers.StrictExactly`.
- FrameForest.BuildInvocationNodes: titles, phases, badges and meta lines of a node are presentation; frame lists on which the source recurses without end are outside its precondition, and `FrameForest.RebuildableExactly` says which they are.
- TraceVerifiers.VerifyWithTrace: the three trace verifiers are one method with a protocol parameter; verification notes are not kept.
- FundFlowLane.BuildFundFlowLane: titles, subtitles, counter-based ids, asset labels and shortened amounts of a lane are not kept; lanes are built for given flows, so the filtering of flows by evidence and by zero address in the graph builder is not modelled.
- TraceCache.Session: lookups come one after another; two concurrent misses may both ask the provider, which the source allows.
- TokenCalls.DecodeOfEncoded: addresses keep their lower-case form instead of EIP-55 checksum case, and malformed hexadecimal inside an address word is not repaired.
- ScanReplica.ReplicaAgrees: error messages of the socket handler, which mark the client as failed without a job event, are not job operations and are not part of the stream.
- JobManager.Manager.Subscribe: unsubscribing and channel closing are not modelled.
- Wall-clock timestamps, leg ids, created and updated columns, log texts beyond the transaction hash they mention.
- Concurrency inside one job-manager method: each critical section is one step.
- ABI decoding, hashing, RPC, SQL, HTTP, WebSocket, YAML and command-line code.
- AggregateRange, the Aave and Uniswap calldata extractors, the registry, seeding, fixtures, reports and retry: they would only add easy members.
