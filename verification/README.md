# Verified model of helix-dev-tools

This project models the parts of helix-dev-tools that carry algorithmic promises and proves those
promises in Dafny 4.11. `dafny verify dfyconfig.toml` checks all of it.

- **EvoLoop promotion and rollback.** `Capsules`, `KpiWindow` and `Promotion` model the capsule
  records, the rolling KPI window and the promotion runner with its clock, gate, context and writer;
  `KpiTheorems` and `PromotionTheorems` hold what is proved: when a regression is possible at all,
  what each decision means, what a dry run foretells, and that no source is promoted twice.
- **Mem0 outbox.** `Breakers`, `Outbox` and `QuotaDrain` model the circuit breaker, the flusher with
  its budget gate, and the drain to two backends; `OutboxTheorems` and `QuotaDrainTheorems` prove
  delivery over every interleaving of appends and flushes, exactly when a capsule is pushed twice, and
  exactly when a breaker gets stuck.
- **Mem0 parity.** `Parity` and `ParitySync` model the audit and the sync over a store of records;
  `ParityTheorems` and `ParityConvergence` prove what the report means and exactly when one sync is
  enough.
- **Base64.** The encoder's loop against an independent decoder in the sense of section 4 of RFC 4648.
- **Log search.** `Tokenizer` and `AgentraceSearch` prove that the index and the ranking agree with
  TF-IDF counted from the texts.
- **Branch cleanup.** `BranchCleanup`, its theorems, `BranchCleanupDryRun` and `BranchCleanupRepository`: which git
  commands are issued, why, and what the dry run foretells.
- **Commit linters.** `Regex` and `CommitLint`: the two expressions as languages and the exact
  difference between the two linters.
- **Small algorithms.** `Fanout` (ticket matching), `Distribute` (round-robin), `Signals`
  (pagination), `Etime` (elapsed times).
- **Support.** `GoStrings`, `Durations`, `Repeats`, `Sorting`, `Wrappers`.

Objects the program updates in place are classes whose methods are proved equal to a function of
their state before the call; the theorems are about those functions. Whatever the program takes from
outside (clock, gate, context, writers, pushers, remote services, git) is a function of a call number
or of the calls made before, so that the theorems hold for every behaviour of it over time.

Where the code and its own documentation disagree, or the code has a corner its documentation does not mention, the
model follows the code:

- internal/mem0outbox/drain.go:27-29 says that no capsule is pushed twice. The managed backend is
  pushed again after an OSS refusal (`QuotaDrainTheorems.ManagedPushedTwice`), and both are after a lost
  cursor write (`QuotaDrainTheorems.BothPushedTwice`). `QuotaDrainTheorems.PushedTwiceIff` says exactly when, for each backend.
- internal/mem0outbox/circuit_breaker.go:265-267 says the recovery count is the number of closings
  from the half-open state. A success while open is counted too (`Breakers.RecoveryWithoutProbe`; exact
  condition in `Breakers.RecoveriesCounted`).
- internal/mem0outbox/outbox.go:268-272 lets a flush take the half-open probe and return without
  reporting an outcome. The breaker then refuses for ever (`OutboxTheorems.StuckForever`; exact
  condition in `OutboxTheorems.ProbeStuckIff`).
- internal/cli/mem0_parity.go:508-512 does not ask whether a memory is already used
  (`ParityConvergence.OverlapLosesExactMatch`; exact condition in `ParityConvergence.SyncConvergesIff`).
- internal/cli/commit_format_lint.go:25-26 says both linters exempt the same messages. A bypass prefix
  followed by nothing but blanks is exempt for the hook only (`CommitLint.BareBypass`; exactly when in
  `CommitLint.BypassLost`).
- internal/evoloop/promote.go:159-164 speaks of hard regressions on flat histories. A flat window
  regresses exactly when no reading is dated and the mean is positive (`KpiTheorems.FlatRegressesIff`).
- internal/evoloop/runner.go:112-182 checks candidates against the history, not against each other, so
  a source can be promoted twice in one run (exact condition in `PromotionTheorems.PromotedOnceIff`).
- internal/evoloop/runner.go:189-203 takes an undated window's empty capsule id for a source, so a
  promotion of the empty id can be rolled back without evidence (exact condition in
  `PromotionTheorems.EvidenceIff`).

## Model

| member | source | states |
|---|---|---|
| KpiWindow.RollingKPIWindow | internal/evoloop/promote.go:117-157 | the loops over rollups and samples leave exactly the statistics of the in-window readings: count, mean, n-1 variance and latest dated reading; with fewer than two readings every field but the bounds stays zero |
| KpiWindow.MeanAndVariance | internal/evoloop/promote.go:140-155 | the two summing loops give the mean and the n-1 variance of the samples |
| KpiWindow.LatestRollupID | internal/evoloop/runner.go:251-265 | the id of the first in-window rollup with the greatest creation time, the empty id when none is dated |
| KpiWindow.LatestIsFirstMaximum | internal/evoloop/promote.go:132-138 | the strict comparison keeps the first of the rollups with the greatest creation time, and the zero capsule exactly when none is dated |
| KpiWindow.TwoScansAgree | internal/evoloop/runner.go:251-265 | for a named machine with two samples or more, the reading reported as Latest is the KPI of the very capsule whose id latestRollupID returns: the first of the latest, or the zero capsule if none is dated |
| KpiWindow.ComparisonIsSigmaTest | internal/evoloop/promote.go:165-174 | the regression test on squares is the source's test on the standard deviation, for every nonnegative s with s*s equal to the variance, zero deviation included |
| KpiTheorems.SamuelsonBound | internal/evoloop/promote.go:140-156 | no sample is further from the mean than (n-1)/sqrt(n) standard deviations, for the n-1 variance |
| KpiTheorems.FlatWindow | internal/evoloop/promote.go:165-172 | with zero variance every sample equals the mean, so a latest reading that is a sample cannot lie below it |
| KpiTheorems.RegressionNeedsSamples | internal/evoloop/promote.go:165-174 | a regression with a dated in-window rollup needs positive variance and sigma^2 * n <= (n-1)^2 |
| KpiTheorems.DefaultSigmaNeedsThreeSamples | internal/evoloop/runner.go:103-106 | at the default sigma 1.0 nothing with a dated reading regresses on fewer than three samples |
| KpiTheorems.SingleDrop | internal/evoloop/promote.go:165-174 | on every machine, n-1 healthy readings and one drop regress exactly when sigma^2 * n <= (n-1)^2, so the bound is attained at every n |
| KpiTheorems.RegressionPossibleIff | internal/evoloop/promote.go:165-174 | for every machine, a window of n samples with a dated reading that regresses at sigma exists if and only if sigma^2 * n <= (n-1)^2 |
| KpiTheorems.FlatRegressesIff | internal/evoloop/promote.go:165-172 | a window of zero variance regresses if and only if no reading in it is dated and the mean is positive |
| KpiTheorems.UndatedRegressesIff | internal/evoloop/promote.go:126-138 | an undated window regresses if and only if its mean is positive and at least sigma standard deviations, because Latest is then the constant zero |
| KpiTheorems.UndatedPairRegresses | internal/evoloop/promote.go:126-174 | so the sample bound needs a dated reading: any two equal positive undated readings of a machine regress at every sigma |
| KpiTheorems.OrderIndependence | internal/evoloop/promote.go:117-157 | permuting the rollups keeps count, mean and variance, and keeps Latest and the verdict when tied readings agree |
| KpiTheorems.ScaleIndependence | internal/evoloop/promote.go:165-174 | shifting all KPIs or scaling them by a positive factor keeps the verdict when a dated reading exists |
| Promotion.AlreadyPromoted | internal/evoloop/promote.go:247-257 | true exactly when some earlier capsule records a promotion of the id |
| Promotion.FindPromotionForRollup | internal/evoloop/promote.go:269-287 | the promotion of the id with the latest creation time, the earliest of equals, or none |
| Promotion.DistinctMachines | internal/evoloop/runner.go:232-249 | the machines of the rollups in order of first appearance |
| Promotion.PromoteRunner.Evaluate | internal/evoloop/runner.go:112-166 | the decision on one candidate: eligibility, earlier promotion, gate error, exit code, in that order, with one gate call exactly when both filters pass |
| Promotion.PromoteRunner.PromoteOne | internal/evoloop/runner.go:112-182 | one round of the candidate loop: context, decision, counters, then the write; the decision is counted before a write can fail |
| Promotion.PromoteRunner.RollBackMachine | internal/evoloop/runner.go:189-221 | one round of the rollback loop: context, window, regression, target promotion, clock reading, counters, then the write |
| Promotion.PromoteRunner.Run | internal/evoloop/runner.go:88-223 | the whole run as a function of options, seams and the world before it: summary, error, outbox, gate calls, clock readings |
| PromotionTheorems.FoundIffRecorded | internal/evoloop/promote.go:247-287 | FindPromotionForRollup finds a promotion exactly when AlreadyPromoted says there is one, and what it finds is one of the latest |
| PromotionTheorems.MachinesOnce | internal/evoloop/runner.go:232-249 | every named machine with a rollup is listed exactly once, and nothing else is |
| PromotionTheorems.VerdictAt | internal/evoloop/runner.go:112-166 | the i-th decision is about the i-th candidate and sees the gate call its predecessors leave open |
| PromotionTheorems.RunAccounts | internal/evoloop/runner.go:88-223 | promoted, skipped, failed and rollbacks count the decisions by state; the first decisions are the candidates' in order, all of them when no error occurs, the rest are rollbacks |
| PromotionTheorems.DecisionMeaning | internal/evoloop/runner.go:131-171 | a candidate is skipped exactly when it is ineligible or already promoted, and promoted exactly when it is eligible and its gate call ran and exited 0 |
| PromotionTheorems.NoPromoteAndRollBack | internal/evoloop/runner.go:134-214 | in one run no capsule id gets both a promoted and a rolled-back decision |
| PromotionTheorems.RollbackMeaning | internal/evoloop/runner.go:189-214 | every rollback names a machine whose window regresses and a recorded promotion of that machine's latest in-window rollup |
| PromotionTheorems.OneRollbackPerMachine | internal/evoloop/runner.go:189-214 | no two rollbacks of a run are for the same machine |
| PromotionTheorems.RollbackDated | internal/evoloop/runner.go:189-214 | a rollback whose window is undated names the empty capsule id, and the history holds a promotion of the empty id |
| PromotionTheorems.RollbackEvidence | internal/evoloop/runner.go:189-214 | behind each rollback that names a capsule id stands a window of positive variance whose size meets the sample bound for the sigma used, so at least three samples at the default sigma |
| PromotionTheorems.RollbackWithoutEvidence | internal/evoloop/runner.go:189-214 | with a promotion of the empty id in the history, two equal undated readings of any machine are rolled back without such evidence |
| PromotionTheorems.EvidenceIff | internal/evoloop/runner.go:189-214 | every rollback of a run that reaches the rollback pass rests on evidence, whatever the rollups are, if and only if the history holds no promotion of the empty id |
| PromotionTheorems.WritesFollowDecisions | internal/evoloop/runner.go:169-221 | a wet run appends exactly one promotion for each promoted candidate, in candidate order, and then one rollback for each rollback; a run that ends in an error may be one short |
| PromotionTheorems.DryRunPreviewsWetRun | internal/evoloop/runner.go:173-216 | with a writer that never fails a dry run returns the same summary and error as the wet run and makes the same gate calls, even if gate, clock and context keep state; the dry run leaves the outbox alone and the wet run appends exactly what the summary calls for |
| PromotionTheorems.DryRunWritesNothing | internal/evoloop/runner.go:173-216 | a dry run leaves the outbox as it is, whatever the seams do |
| PromotionTheorems.PromotionsWritten | internal/evoloop/runner.go:169-182 | an error-free wet run writes one promotion of a source for every time it promotes it, a failing run at most that many, a dry run none |
| PromotionTheorems.WrittenPromotes | internal/evoloop/promote.go:179-257 | what BuildPromotionCapsule writes is recognised by AlreadyPromoted, once its metadata is read back, as a promotion of its source and of nothing else |
| PromotionTheorems.NotPromotedAgain | internal/evoloop/runner.go:134-140 | a source with a written promotion is not promoted again by a run whose history shows it |
| PromotionTheorems.PromotedAtMost | internal/evoloop/runner.go:112-182 | a run promotes a source at most as often as eligible candidates carry its id |
| PromotionTheorems.RunPromotesOnce | internal/evoloop/runner.go:112-182 | a run with at most one eligible candidate of an id brings the promotions of that source to at most one |
| PromotionTheorems.AtMostOnePromotion | internal/evoloop/runner.go:88-223 | over any sequence of runs, each shown what was written before it and given distinct eligible candidates, every source is promoted at most once |
| PromotionTheorems.UngatedRunPromotesAll | internal/evoloop/runner.go:112-182 | a working run without a gate writes one promotion for every eligible candidate, since candidates are checked against the history only |
| PromotionTheorems.PromotedOnceIff | internal/evoloop/runner.go:112-182 | a working run writes at most one promotion of a source, whatever its gate answers, if and only if no two eligible candidates share its id |
| PromotionTheorems.DuplicateCandidatePromotedTwice | internal/evoloop/runner.go:112-182 | two eligible candidates with the same id, anywhere in the list, are both written by a working run without a gate |
| Breakers.Defaulted | internal/mem0outbox/circuit_breaker.go:103-120 | the defaults always give a usable configuration and leave a usable one alone |
| Breakers.ComputeBackoff | internal/mem0outbox/circuit_breaker.go:224-236 | the doubling loop with its 64-bit overflow guard yields base * 2^k capped at the maximum, for every trip index |
| Breakers.CircuitBreaker.Allow | internal/mem0outbox/circuit_breaker.go:134-155 | grants and the state afterwards, as a function of state and clock |
| Breakers.CircuitBreaker.RecordSuccess | internal/mem0outbox/circuit_breaker.go:166-189 | the state after a success |
| Breakers.CircuitBreaker.RecordFailure | internal/mem0outbox/circuit_breaker.go:200-215 | the state after a failure |
| Breakers.EveryCallConsistent | internal/mem0outbox/circuit_breaker.go:134-239 | every public call keeps the invariant: legal transition path, statistics equal to the history, hold doubled per consecutive trip and capped, one probe out exactly while half open |
| Breakers.ReachableConsistent | internal/mem0outbox/circuit_breaker.go:134-239 | hence every breaker that calls can reach from a constructed one satisfies it, for every configuration and clock |
| Breakers.RecoveriesCounted | internal/mem0outbox/circuit_breaker.go:166-189 | over every list of calls the recovery count is the number of closings out of half-open plus the successes that arrived while open; so it is the documented number if and only if no success arrives while the breaker is open |
| Breakers.RecoveryWithoutProbe | internal/mem0outbox/circuit_breaker.go:265-272 | under every configuration, enough failures to trip the breaker and then a success make one recovery with no closing out of half-open |
| Breakers.HoldIsExact | internal/mem0outbox/circuit_breaker.go:138-145 | an open breaker refuses exactly until its hold has run out, and never past the maximum |
| Breakers.OneProbe | internal/mem0outbox/circuit_breaker.go:146-152 | while the probe is out every request is refused and nothing changes, at whatever time |
| Outbox.Flusher.PushCapsule | internal/mem0outbox/outbox.go:329-377 | one push: rate limit, other error or success, with breaker, cursor write, ledger and ceiling in the source's order |
| Outbox.Flusher.PassGates | internal/mem0outbox/outbox.go:268-291 | the breaker gate before the budget gate |
| Outbox.Flusher.RunBatch | internal/mem0outbox/outbox.go:306-380 | the batch loop from the cursor over whole lines, blank and corrupt ones included |
| Outbox.Flusher.FlushOnce | internal/mem0outbox/outbox.go:257-382 | a whole flush as a function of the seams and the box before it |
| OutboxTheorems.FlushDelivers | internal/mem0outbox/outbox.go:257-382 | whatever fails, a flush accepts a prefix of the pending capsules and leaves the rest pending; only a lost cursor write can leave the last accepted one pending too |
| OutboxTheorems.RemainingAppend | internal/mem0outbox/outbox.go:88-105 | appending a line appends its capsule to what is pending, wherever the cursor stands |
| OutboxTheorems.HistoryAccounted | internal/mem0outbox/outbox.go:257-382 | over every interleaving of appends and flushes the accepted list is the appended one up to what is pending, in order, each capsule at least once and repeats directly behind the first, with at most one repeat per flush that can lose a cursor write |
| OutboxTheorems.ExactlyOnceInOrder | internal/mem0outbox/outbox.go:257-382 | without lost cursor writes, what was accepted followed by what is pending is exactly what was appended |
| OutboxTheorems.AtLeastOnce | internal/mem0outbox/outbox.go:257-382 | the same from an empty outbox, lost cursor writes included: no appended capsule is missing, equal ones counted as often as they were appended |
| OutboxTheorems.HealthyFlushProgress | internal/mem0outbox/outbox.go:257-382 | when nothing fails, a flush that passes the gates moves the batch limit, everything pending, or as many capsules as the budget allows, and reports a frozen budget exactly when that stopped it |
| OutboxTheorems.GatesPassed | internal/mem0outbox/outbox.go:268-291 | the gates are passed exactly when the breaker grants the request and an active budget with a positive ceiling has room left |
| OutboxTheorems.RoomMovesAll | internal/mem0outbox/outbox.go:367-376 | with room under the ceiling for all of them, or without a budget, all of them move |
| OutboxTheorems.BudgetHolds | internal/mem0outbox/outbox.go:274-291 | with an active budget and a positive ceiling nothing is pushed at the ceiling, it is overshot by less than one capsule price, and the ledger never charges more than was accepted |
| OutboxTheorems.StuckForever | internal/mem0outbox/circuit_breaker.go:146-152 | a half-open breaker whose probe is out refuses every later flush for ever |
| OutboxTheorems.ProbeStuckIff | internal/mem0outbox/outbox.go:268-346 | a flush that takes the probe leaves the breaker in that state exactly when the budget gate stops it, nothing is pending, or the first push fails with anything but a rate limit |
| QuotaDrain.QuotaDrainer.Drain | internal/mem0outbox/drain.go:48-105 | a whole drain to both backends as a function of the store before it |
| QuotaDrain.QuotaDrainer.DryRun | internal/mem0outbox/drain.go:182-209 | the dry run counts the pending capsules and the corrupt lines and changes nothing |
| QuotaDrainTheorems.DrainDelivers | internal/mem0outbox/drain.go:48-105 | whatever fails, a drain confirms the next pending capsules on both backends; an OSS refusal leaves one more with the managed backend, a lost cursor write one more with both |
| QuotaDrainTheorems.FirstCall | internal/mem0outbox/drain.go:172-180 | the report of a drain tells whether its first call was accepted by the managed backend and by the OSS backend |
| QuotaDrainTheorems.PushedTwiceIff | internal/mem0outbox/drain.go:23-30 | over every history, lost cursor writes included, a backend has accepted some capsule twice if and only if a drain made its first call for a capsule that backend already held and was accepted again; otherwise it has the confirmed capsules exactly once, in order |
| QuotaDrainTheorems.DualDelivery | internal/mem0outbox/drain.go:48-105 | over every history without lost cursor writes the OSS backend gets every capsule once, in order, and the managed backend one more per OSS refusal, so the two lists are equal if and only if there was none |
| QuotaDrainTheorems.ManagedPushedTwice | internal/mem0outbox/drain.go:172-180 | one OSS refusal and a retry push the same capsule to the managed backend twice |
| QuotaDrainTheorems.BothPushedTwice | internal/mem0outbox/drain.go:90-97 | one lost cursor write and a retry push the same capsule to both backends twice, though neither ever refuses |
| Parity.IndexFinds | internal/cli/mem0_parity.go:492-509 | the head of an index bucket is the first listed memory with that provenance |
| Parity.FindByContent | internal/cli/mem0_parity.go:514-537 | the first unused memory whose text contains the title, or a snippet longer than 32 |
| Parity.Classify | internal/cli/mem0_parity.go:505-540 | exact before content before missing, for one entry |
| Parity.CompareParity | internal/cli/mem0_parity.go:477-544 | the index loop and the matching loop leave the whole report as a function of manifest and listing |
| ParityTheorems.VerdictMeaning | internal/cli/mem0_parity.go:505-540 | an entry is exact if and only if some memory carries its provenance, and content if and only if none does and an unused memory matches by text; the match named is such a memory |
| ParityTheorems.ContentMatchesDistinct | internal/cli/mem0_parity.go:516-518 | a memory used by any earlier entry is never content-matched again |
| ParityTheorems.OrderedPartition | internal/cli/mem0_parity.go:504-541 | the three lists split the manifest, list by list in manifest order |
| ParityTheorems.ProvenIffNothingLeft | internal/cli/mem0_parity.go:764-769 | parity is proven exactly when content and missing are both empty, and the provenance counts sum to the number of memories |
| ParityTheorems.ProvenIffAllPresent | internal/cli/mem0_parity.go:764-769 | parity is proven exactly when some memory carries each entry's provenance, so the order of the listing does not matter |
| ParityTheorems.KindCountsMeaning | internal/cli/mem0_parity.go:506 | each kind is counted as often as it occurs in the manifest |
| ParityTheorems.WrittenRecordRecognised | internal/cli/mem0_parity.go:659-682 | the metadata a sync writes for a clean entry is found under the entry's own key, over whatever metadata was there |
| ParityTheorems.NewRecordRecognisedIff | internal/cli/mem0_parity.go:617-671 | a newly added record is recognised if and only if the normalised path is a nonempty fixed point of normalisation and the source id is not blank |
| ParitySync.Mem0Client.SyncParity | internal/cli/mem0_parity.go:580-615 | updates, then additions, stopping at the first error; a failed update reports no additions |
| ParityConvergence.SyncConvergesIff | internal/cli/mem0_parity.go:477-615 | after an error-free sync of clean entries the next audit is proven if and only if no content match overwrote the last copy of an exactly matched key |
| ParityConvergence.SyncConverges | internal/cli/mem0_parity.go:477-615 | without a memory that is both an exact and a content match, one sync proves parity and a second sync updates 0 and adds 0 |
| ParityConvergence.OverlapLosesExactMatch | internal/cli/mem0_parity.go:508-518 | the overlap is reachable, since the exact branch does not ask whether a memory is used, and then parity is not proven |
| ParityConvergence.SyncLosesNothing | internal/cli/mem0_parity.go:580-615 | no sync, failed or not, loses a memory, changes its text or touches a metadata field it does not own |
| ParityConvergence.DryRunPredictsSync | internal/cli/mem0_parity.go:588-613 | a dry run changes nothing and counts exactly what an error-free sync then does |
| Base64.EncodeBase64 | internal/cli/github_harden.go:415-440 | the loop of shifts and padding returns a text that decodes to the input, namely the encoding by groups |
| Base64.DecodeEncode | internal/cli/github_harden.go:415-440 | the decoding of RFC 4648 section 4 undoes the encoding of every byte sequence |
| Base64.EncodeDecode | internal/cli/github_harden.go:415-440 | every text that decoding accepts is the encoding of the bytes it stands for |
| Base64.Injective | internal/cli/github_harden.go:415-440 | different byte sequences have different encodings |
| Base64.Shape | internal/cli/github_harden.go:429-437 | the length is 4*ceil(n/3) and the padding is exactly the last (3 - n mod 3) mod 3 characters |
| Tokenizer.Tokenize | internal/agentrace/search.go:157-167 | the token counts of a text |
| Tokenizer.SplitCounts | internal/agentrace/search.go:159-161 | splitting yields each word exactly as often as it stands in the text as a maximal run of word characters |
| Tokenizer.TokenMeaning | internal/agentrace/search.go:157-167 | a word is a token exactly when it has at least two characters and stands somewhere in the text as a whole word |
| AgentraceSearch.Index.IndexFile | internal/agentrace/search.go:61-85 | the lines of one file: blank and invalid ones are passed over, the others become entries and are counted |
| AgentraceSearch.CountTerms | internal/agentrace/search.go:79-85 | each term of an entry raises its document frequency by one, in whatever order the map yields the terms |
| AgentraceSearch.Index.WeighAll | internal/agentrace/search.go:89-97 | exactly the counted terms get a weight, ln(1 + N/df) |
| AgentraceSearch.BuildIndex | internal/agentrace/search.go:41-100 | the index of any list of files agrees with the documents counted by brute force |
| AgentraceSearch.Weighs | internal/agentrace/search.go:124-131 | an indexed term's weight is positive, so the replacement of a zero weight never applies, and tf times the weight is the term's brute-force contribution |
| AgentraceSearch.ScoreSign | internal/agentrace/search.go:132-136 | an entry's TF-IDF score is positive exactly when it shares a word with the query |
| AgentraceSearch.Index.ScoreEntry | internal/agentrace/search.go:118-131 | the sum over the query terms, in any map order, is the brute-force TF-IDF sum |
| AgentraceSearch.Index.Candidates | internal/agentrace/search.go:117-136 | one candidate for exactly each entry sharing a query word |
| AgentraceSearch.Index.Search | internal/agentrace/search.go:103-155 | different entries sharing a query word, each with its TF-IDF score, descending; all of them without a positive limit, and under a limit no entry left out outscores one kept |
| BranchCleanup.ParseBranchesLoop | internal/branchcleanup/cleanup.go:179-191 | the branch names of a listing, trimmed and without marks, blank ones dropped |
| BranchCleanup.ParseRemoteBranchesLoop | internal/branchcleanup/cleanup.go:193-210 | the remote names, without pointers, origin/main and origin/master |
| BranchCleanup.GitRunner.DeleteLocalMerged | internal/branchcleanup/cleanup.go:102-126 | the merged pass as a function of what git answers |
| BranchCleanup.GitRunner.DeleteSquashMerged | internal/branchcleanup/cleanup.go:128-154 | the squash pass, which ignores a failing listing or log |
| BranchCleanup.GitRunner.DeleteRemoteMerged | internal/branchcleanup/cleanup.go:156-174 | the remote pass |
| BranchCleanup.CleanupWithOptions | internal/branchcleanup/cleanup.go:83-177 | the whole run: commands issued, result, and the local branches left, which are the old ones minus LocalDeleted in a wet run and the old ones in a dry run |
| BranchCleanupTheorems.ProtectedNeverDeleted | internal/branchcleanup/cleanup.go:112-116 | no `branch -d` is issued for main, master, develop or the branch checked out |
| BranchCleanupTheorems.DryRunOnlyReads | internal/branchcleanup/cleanup.go:117-168 | a dry run issues no `branch -d` and no `push --delete` |
| BranchCleanupTheorems.WetRunReportsDeletions | internal/branchcleanup/cleanup.go:119-173 | LocalDeleted and RemoteDeleted are exactly what git deleted, in order |
| BranchCleanupTheorems.DeletionsCaused | internal/branchcleanup/cleanup.go:102-174 | nothing is deleted unless git listed it as merged, or reported no commit of its own in the command just before |
| BranchCleanupTheorems.RemoteMainKept | internal/branchcleanup/cleanup.go:203 | main and master of origin are never pushed for deletion, whatever other remotes there are, given that git lists each remote branch with its remote and a slash |
| BranchCleanupTheorems.MergedBranchesAccounted | internal/branchcleanup/cleanup.go:112-126 | each listed merged branch is accounted for once, as deleted or as skipped |
| BranchCleanupTheorems.RemoteBranchesAccounted | internal/branchcleanup/cleanup.go:164-173 | each listed remote branch is reported once, as deleted or, named on origin, as skipped; in a dry run all as deleted |
| BranchCleanupDryRun.DryRunForetells | internal/branchcleanup/cleanup.go:83-177 | a dry run asks what the wet run asks, fails as it does, and reports exactly the branches the wet run attempts to delete, in order, provided that no question the wet run does ask was answered otherwise because of a deletion before it |
| BranchCleanupDryRun.DryRunReportsExactly | internal/branchcleanup/cleanup.go:100-154 | a dry run reports a local branch as deleted if and only if it is neither protected nor current and was listed as merged, or listed as unmerged with an empty log |
| BranchCleanupDryRun.WetDeletesAnnounced | internal/branchcleanup/cleanup.go:83-177 | under the same proviso what a wet run deletes is, in order, part of what the dry run announced, and all of it exactly when no deletion fails |
| BranchCleanupRepository.RepositoryForetold | internal/branchcleanup/cleanup.go:102-174 | the proviso holds for every run and every option where a deletion changes only the replies it bears on (merged listings, and the log of the branch that is gone) and the unmerged listing names each branch once and no merged one: no run asks such a question after such a deletion |
| BranchCleanupRepository.DeletionShows | internal/branchcleanup/cleanup.go:102-126 | there are such repositories in which a deletion shows in the next listing |
| BranchCleanupDryRun.ListingRead | internal/branchcleanup/cleanup.go:179-191 | reading a listing gives the listed names in order, whatever their marks |
| BranchCleanupDryRun.RemoteLineRead | internal/branchcleanup/cleanup.go:193-208 | a listed branch of origin is read by its name, except main, master and pointers |
| BranchCleanupDryRun.DetachedHeadReported | internal/branchcleanup/cleanup.go:94-116 | with a detached head the note in any merged listing is taken for a branch, and the dry run reports it as deleted unless it reads like a protected name |
| CommitLint.StrictMeans | internal/cli/commit_format_lint.go:21-23 | the pre-flight expression accepts exactly a listed type, an optional single-token scope, colon and blank, and a subject that does not start with a space |
| CommitLint.ConventionalMeans | internal/cli/githook_commit_msg.go:35 | the hook's expression, anchored at the start only, accepts exactly lower-case letters, an optional scope, colon and blank, and at least one more character |
| CommitLint.PreflightImpliesHook | internal/cli/commit_format_lint.go:47-62 | every message the pre-flight linter accepts passes the format layer of the hook, bypass prefixes and trimming included |
| CommitLint.LintersDiffer | internal/cli/githook_commit_msg.go:54-64 | exactly which messages the hook lets through and the pre-flight linter rejects: a bypass prefix with only blanks behind it, or a line that meets the hook's parts but not the stricter type, scope or first subject character |
| CommitLint.BypassLost | internal/cli/commit_format_lint.go:47-57 | trimming takes the exemption from a line with a bypass prefix exactly when only blanks follow the prefix |
| CommitLint.BareBypass | internal/cli/commit_format_lint.go:25-31 | each bypass prefix alone passes the hook and fails the pre-flight linter |
| CommitLint.InclusionStrict | internal/cli/commit_format_lint.go:22 | there are such messages: a type outside the list |
| Fanout.Engine.Scores | internal/fanout/fanout.go:147-160 | one keyword score for each profile, in whatever order the map yields them |
| Fanout.Engine.MatchAgent | internal/fanout/fanout.go:144-173 | the least id among the agents of highest positive keyword score, cursor-parent when no agent scores |
| Fanout.MatchUnique | internal/fanout/fanout.go:162-172 | there is only one such agent, so map order and the unstable sort do not matter |
| Fanout.Engine.AssignTickets | internal/fanout/fanout.go:110-139 | a priority-descending permutation of exactly the unowned tickets, each for the agent its text matches |
| Fanout.UnownedMeans | internal/fanout/fanout.go:115-120 | every ticket without owner is kept as often as it occurs, every other is left out |
| Fanout.AssignmentsAgree | internal/fanout/fanout.go:122-137 | two runs over the same tickets make the same assignments, each as often, however the sort breaks ties |
| Distribute.SprintDistribute | cmd/sprintboard-mcp/main.go:966-1018 | refusals leave the store alone; otherwise the open tickets go round-robin and the store's owners follow the assignments |
| Distribute.Fairness | cmd/sprintboard-mcp/main.go:994-1010 | with n agents of different ids and k open tickets there are k assignments in ticket order, and agent j gets k/n of them plus one if j < k mod n |
| Distribute.Balanced | cmd/sprintboard-mcp/main.go:994-1010 | no agent gets two tickets more than another |
| Distribute.OpenAreTickets | cmd/sprintboard-mcp/main.go:996-998 | exactly the tickets in backlog or ready are distributed |
| Distribute.OwnersMean | cmd/sprintboard-mcp/main.go:1008 | only assigned tickets change hands, none appears or disappears, and tickets of different ids are owned as assigned |
| Signals.Client.ListSignals | internal/coordination/client.go:175-209 | pages are asked for in order until one fails, one is empty or the total is reached; the outcome is all their signals or the failure, and one counter rises accordingly |
| Signals.ListingExistsIff | internal/coordination/client.go:177-205 | the listing has an outcome exactly when some page fails or ends it, which is what the method asks for |
| Signals.BoundedTotalsStop | internal/coordination/client.go:202-204 | some page does whenever the reported totals have a bound |
| Signals.ListingUnique | internal/coordination/client.go:175-209 | the outcome and the number of requests are determined by the server |
| Signals.Reassembles | internal/coordination/client.go:175-209 | against a fixed list served in pages of 100 the client returns exactly that list after max(1, ceil(n/100)) requests |
| Signals.BareArraysStopAtOnePage | internal/coordination/client.go:376-384 | against a server of bare arrays it stops after one page, so the list is complete if and only if it has at most 100 signals |
| Etime.ParsePrinted | internal/cli/resource_guard_stale.go:137-165 | what the parser makes of a printed value, in each of the three printed shapes |
| Etime.ParseInvertsPrint | internal/cli/resource_guard_stale.go:137-165 | for all days, h < 24, m < 60, s < 60 and any zero padding of the days, parsing returns the printed duration if and only if it fits 64 bits of nanoseconds |

## Left out

- KpiWindow.RollingKPIWindow: works over exact reals and carries the variance, not its square root; floating-point rounding, overflow and NaN are not modelled.
- Promotion.PromoteRunner.Run: a missing runner, the default clock, and the truncation of gate output to 4096 bytes are left out; the constant app id and actor fields are dropped; ids, texts and number formats come from an injected formatter, and the text of errors is a constructor.
- Promotion.PromoteRunner.Evaluate: an absent gate counts as a gate that exits 0, as in the source; gate output is kept whole.
- Outbox.Flusher.FlushOnce: a flush by one process with a cursor file; without a cursor path the source calls each cursor write done, keeps nothing and starts from the top on every flush, which no caller in the repository asks for; file errors other than failed cursor writes, an unreadable or negative cursor, torn cursor writes, the mutexes and the six-decimal rounding of the ledger file are not modelled; offsets count characters, not bytes; JSON decoding is a parameter.
- Breakers.CircuitBreaker.Allow: elapsed times are exact; the saturation of time differences at 292 years is not modelled.
- Breakers.HoldIsExact: states the hold of a breaker that is open; BackoffRemaining is left out as it repeats that subtraction.
- QuotaDrain.QuotaDrainer.Drain: an empty cursor path, as for the flusher, the report's duration and the pending field of the dry run's report beyond its count are left out.
- Parity.CompareParity: the report's timestamp and account names are dropped; lower-casing is a parameter and the length test on snippets counts characters; paths use forward slashes.
- ParitySync.Mem0Client.SyncParity: the remote service is a map with failing calls; HTTP, authentication and the paged listing are left out.
- ParityConvergence.SyncConverges: assumes a service that never reuses an id and a listing that shows the whole account.
- AgentraceSearch.BuildIndex: takes the directory listing and the lines each file's scanner yields; a malformed pattern and lines over the scanner's limit are left out; JSON validity, lower-casing and the logarithm are parameters, the last with only its sign above 1.
- AgentraceSearch.Index.Search: scores are exact reals, so ties that floating-point summation order could create or break do not appear.
- Sorting.SortBy: stands for the library sort, of which only the permutation and the order are used.
- BranchCleanup.CleanupWithOptions: git is any function from the commands issued so far to replies, and only a successful `branch -d` changes the local branches; its argument strings are constructors; CleanupFleet, which calls it once per repository, is left out.
- BranchCleanupDryRun.DryRunForetells: compares two runs against the same git, and says nothing where some question of the wet run is answered otherwise because of a deletion before it.
- BranchCleanupTheorems.RemoteMainKept: protects main and master only, because the code excludes nothing else; remote develop and the current branch's remote can be deleted.
- CommitLint.PreflightImpliesHook: concerns the format layer; the attribution patterns of the hook, reading the message file and the extraction of a message from a shell command are left out.
- Distribute.SprintDistribute: decoding the arguments and rendering the reply are left out; an assignment to a ticket the store does not hold is ignored, as in the source.
- Fanout.Engine.AssignTickets: the default profiles, the owner manifest and the handoff documents are left out; lower-casing is a parameter.
- Signals.Client.ListSignals: asks for a server with a page that fails or ends the listing, because the source's loop runs for ever on any other; HTTP, logging and cancellation are left out.
- Etime.ParseInvertsPrint: concerns one field; starting ps and splitting its output are left out.
- Configuration, command wiring, report rendering, process handling, the sprint board's storage and the remaining packages are not part of this model: they are input and output, or single comparisons.
