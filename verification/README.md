# FraudShield: verified models

A Dafny model of the parts of FraudShield whose correctness rests on more than
one function: the durable job queue, the audit log, FraudDNA campaign
clustering, the chain from runtime evidence to a confirmed banking impact, risk
scoring and the indicator store. `dafny verify dfyconfig.toml` checks all of it.

## How the program is represented

* A database transaction is one atomic step, and a read outside a transaction is
  a step of its own. Repositories and workers are classes whose methods change
  table-valued fields; each method is proved against a function or predicate on
  table values, and the theorems about whole runs are about those.
* `JobTable` and `JobRepository` hold the queue and one worker's turn with
  arbitrary statements of others between its transactions. `QueueProtocol`,
  `LeaseTiming` and `IdempotentEnqueue` are state machines over unbounded runs,
  with `fail` and `enqueue` split where the program splits them.
* `AuditChain` takes HMAC and the JSON printer as parameters that are free of
  collisions; keys, the head record, the pre-key-id row shape and batching are
  modelled.
* `Similarity` and `Campaigns` use exact rationals. `Correlator` holds the two
  imperative paths, `CampaignInvariants` and `CampaignIndependence` what runs
  keep, `CampaignRefinement` that the two paths agree.
* `Evidence`, `Collectors`, `Lineage`, `Verifier`, `EndToEnd` and `DeviceEgress`
  follow one analysis from what a collector may record to what the impact
  reports; base64, hex, URL quoting and text normalisation are parameters.
  `Investigation` is the AI stage around the verifier.
* `StaticRules`, `Scoring` and `RiskScorer` hold the risk score and its
  confidence, `AcceptanceOrder` how many engine findings count in which order,
  and `RuleAgreement` when scoring and verification speak of the same event.
  `CampaignCapacity` bounds the runs that can be refused, and `CampaignTables`
  says what the tables hold when some are.
* `Timestamps` shows that printed instants sort like instants, and `ClaimTexts`
  that the claim query over such texts is the one of the queue model.
* What the operations compute is said a second time, without their functions and
  tables: `JobColumns` for the queue, `RelatedSamples` for correlations,
  `CollectorMeaning`, `EventMeaning` and `LineageMeaning` for evidence, `VerdictMeaning`,
  `ImpactMeaning` and `InvestigationMeaning` for verdicts, impact and the AI stage,
  `ScoreMeaning` for the risk score.
* Worker ids are distinct, also when cut to the column width, and each worker is
  one sequential process. Samples of a campaign run have distinct hashes and
  creation times. Both are hypotheses of the theorems that need them.

## Where the code is weaker than its documentation

Each of these is a lemma about all inputs. Where a property fails on some of them
it is stated as an if-and-only-if with a condition a caller can check first.

* `AuditChain.RoundTrip`, `AuditChain.LegacyKeyIdNeverVerifies`: key id `legacy` or empty.
* `IdempotentEnqueue.RefusedCallIsAnsweredIffKeyFits`, `IdempotentEnqueue.SequentialReplay`:
  keys over 256 characters. The HTTP route caps the header at 256
  (`fraudshield/api/routes/jobs.py:46-53`), so only a direct call of `enqueue` meets this.
* `JobTable.FailKeepsRowsIff`: `fail` without a worker id, its default, rewrites completed
  rows. The worker always passes its id.
* `QueueProtocol.RecoverableIffAttemptsLeft`: death on the last attempt.
* `CampaignInvariants.StepKeepsInvIffIdsLast`, `CampaignCapacity.CapacityIsSharp`: the
  thousandth campaign, which takes at least 2000 samples.
* `CampaignRefinement.AnswersAgreeIff`: a sample submitted again.
* `Lineage.EmptyTargetTracesForeignItems`: an empty package name.
* `EndToEnd.DeliveryIsAnIngress`, `DeviceEgress.SmsEventNeverLeaves`: the sandbox's own
  delivery counts as entering, a marker sent by SMS never as leaving.
* `Verifier.OtpConfirmedWithoutMarker`: confirmation without a marker match.
* `Investigation.OwnConfirmationIff`: repeated hypothesis ids.
* `AcceptanceOrder.AcceptedIgnoresOrderIff`, `RiskScorer.ConfidenceIgnoresOrderIff`: the
  accepted count, and with it the confidence, depends on the order of engine findings.
* `RuleAgreement.FiresIffDeviceSawNetwork`, `RuleAgreement.ConfirmedButSilent`: a confirmed
  exfiltration the scoring rule does not see; `RuleAgreement.ShippedObserversAgree` shows
  that the shipped observers never produce it.

## Model

| member | source | states |
|---|---|---|
| `Timestamps.TextOrderIsInstantOrder` | fraudshield/core/repository.py:20-21 | for any two valid UTC instants, character order of their `isoformat()` texts is the order of the instants, although a zero fraction is dropped |
| `Timestamps.FractionOrder` | fraudshield/core/repository.py:20-21 | a text without a fraction sorts before every text of the same second that has one |
| `Timestamps.FixedTextOrder` | fraudshield/core/repository.py:20-21 | printing equally long tuples in fixed-width fields preserves and reflects their order, whatever follows |
| `Timestamps.TupleOrderIsInstantOrder` | fraudshield/core/repository.py:832-841 | the order of calendar fields is the order of instants, across months, leap years and centuries |
| `JobTable.ApplyKeepsTableInv` | fraudshield/core/repository.py:827-962 | every write statement keeps the row invariant: running iff owner and expiry are set, queued and cancelled rows have attempts left, failed rows have none, a result exists iff completed |
| `JobTable.StaleDecisionBreaksRows` | fraudshield/core/repository.py:907-925 | the write half of `fail` keeps the invariant if and only if the decision read earlier still agrees with the row |
| `JobTable.CompletedIsAbsorbing` | fraudshield/core/repository.py:871-962 | no statement of a worker, submitter or admin changes a completed row |
| `JobTable.FailKeepsRowsIff` | fraudshield/core/repository.py:898-933 | without a worker id `fail` selects a row in any state: the invariant survives if and only if that row is not completed; with a worker id only running rows are selected |
| `JobTable.ConcurrentStepOnOwnedRow` | fraudshield/core/repository.py:857-933 | while a worker owns a row, another party's statement moves at most the lease expiry |
| `JobTable.OwnershipOnlyByClaim` | fraudshield/core/repository.py:857-933 | no series of other parties' statements gives a worker a row, and a row it still owns afterwards has changed in its lease only |
| `JobTable.ClaimFindsOne` | fraudshield/core/repository.py:832-844 | if some row is eligible, the ordered claim query returns one that precedes every other eligible row |
| `JobColumns.EnqueuedRow` | fraudshield/core/repository.py:704-723 | the new row is the request: queued, unclaimed and due now, texts cut to their columns, priority and attempt limit kept inside 0..1000 and 1..20 and moved to the nearer bound outside |
| `JobColumns.ClaimedInRequestedOrder` | fraudshield/core/repository.py:832-844 | of two jobs submitted to a queue in which nothing else can be claimed, the one requested with the smaller priority value is claimed next, and the older one of the same priority |
| `JobColumns.LessUrgentWaits` | fraudshield/core/repository.py:832-844 | a job of larger priority value, or as urgent and younger, is never claimed before another that can be |
| `JobColumns.ColumnsOfStatement` | fraudshield/core/repository.py:827-962 | of every column of a row: which statements change it and to what |
| `JobColumns.SelectedRows` | fraudshield/core/repository.py:827-962 | which rows each statement selects, by status, owner, lease and key |
| `JobColumns.ClaimableAfter` | fraudshield/core/repository.py:832-844 | from when on a row can be claimed: a new or requeued one at once, a failed turn's after its delay, a claimed one past its lease while attempts are left, a finished one never |
| `ClaimTexts.ClaimQueryOverTexts` | fraudshield/core/repository.py:832-844 | the claim query over the stored time texts returns exactly the rows that the comparison of instants selects first |
| `JobRepository.JobRepository.Enqueue` | fraudshield/core/repository.py:682-734 | search, insert and recovery read as separately scheduled steps: which result each ending gives and what the table then is, the new row being that of JobColumns.EnqueuedRow; a conflict means a stored row holds the key for a different request |
| `JobRepository.JobRepository.FindByIdempotencyKey` | fraudshield/core/repository.py:762-767 | finds a row with the key exactly when one exists |
| `JobRepository.JobRepository.Claim` | fraudshield/core/repository.py:827-855 | claims nothing exactly when no row is eligible, otherwise the first by priority and creation time, with the new owner, expiry and attempt count |
| `JobRepository.JobRepository.RenewLease` | fraudshield/core/repository.py:857-869 | renews exactly the running row this worker owns, for at least five seconds, and reports whether it did |
| `JobRepository.JobRepository.Complete` | fraudshield/core/repository.py:871-896 | completes exactly a running row that the given worker, if any, owns; otherwise refuses and changes nothing |
| `JobRepository.JobRepository.DecideFailure` | fraudshield/core/repository.py:898-912 | the read half of `fail`: retry exactly while attempts are left, and the time from which the row may be claimed again |
| `JobRepository.JobRepository.RecordFailure` | fraudshield/core/repository.py:913-933 | the write half of `fail`: records verdict, retry time and clipped error in exactly the row that the given worker, if any, owns |
| `JobRepository.JobRepository.Cancel` | fraudshield/core/repository.py:935-946 | cancels exactly queued rows |
| `JobRepository.JobRepository.Retry` | fraudshield/core/repository.py:948-962 | requeues exactly failed and cancelled rows with a fresh attempt counter |
| `JobRepository.DurableWorker.ProcessNext` | fraudshield/worker.py:81-124 | with other parties between any two of its transactions, a turn that still owns its row records the whole outcome there: result, or verdict by its own attempt counter, retry in 30 seconds, completion time and error; otherwise it leaves no trace |
| `JobRepository.AppliedInTwoParts` | fraudshield/worker.py:81-124 | statements run before and after a scheduling point compose |
| `QueueProtocol.QueueInvariant` | fraudshield/core/repository.py:827-962 | every row reachable under any interleaving of any number of workers, heartbeats, deaths, submitters and admins meets the row invariant, the split `fail` included |
| `QueueProtocol.DecisionIsFresh` | fraudshield/core/repository.py:907-925 | whenever the write half of `fail` applies, the decision taken by its read half is still right |
| `QueueProtocol.CompletedForever` | fraudshield/core/repository.py:871-896 | a completed job keeps every column for the rest of every run |
| `QueueProtocol.ReclaimFences` | fraudshield/core/repository.py:827-855 | another worker's claim takes the row from the worker that is busy with it |
| `QueueProtocol.FencedForTheTurn` | fraudshield/worker.py:81-124 | from then on every renew, complete and fail of the old owner leaves the row alone until its turn ends |
| `QueueProtocol.FencedStep` | fraudshield/core/repository.py:857-933 | one step of that argument: a fenced worker stays fenced or becomes idle, and its own step does not touch the row |
| `QueueProtocol.MeasureDecreases` | fraudshield/core/repository.py:827-962 | 2 * (max_attempts - attempts), plus 1 when running, strictly decreases on claim, fail and complete and is reset only by an admin retry |
| `QueueProtocol.AttemptBudget` | fraudshield/core/repository.py:827-962 | a history with r admin retries of a job contains at most (r + 1) * max_attempts claims of it |
| `QueueProtocol.ClaimsBounded` | fraudshield/core/repository.py:827-962 | the same bound from any reachable state, by the attempts left there |
| `QueueProtocol.StrandedForever` | fraudshield/core/repository.py:829-837 | a worker that dies on the last attempt leaves the job running for ever |
| `QueueProtocol.RecoverableIffAttemptsLeft` | fraudshield/core/repository.py:829-837 | from every state that runs reach, a job abandoned by its worker can be claimed again in some continuation if and only if it has attempts left |
| `QueueProtocol.StrandedIsReachable` | fraudshield/core/repository.py:829-837 | a job submitted with one attempt, claimed, and abandoned by its worker reaches such a state |
| `QueueProtocol.OwnershipStep` | fraudshield/core/repository.py:827-933 | no event but its own claim makes a worker an owner; while it owns, only its own heartbeat moves the lease |
| `LeaseTiming.PunctualHeartbeatKeepsLease` | fraudshield/worker.py:55-79 | if every renewal is at most L - min(60, max(2, L/3)) seconds late, no claim can select the job until the worker leaves the job body, whatever the others do |
| `LeaseTiming.ClaimedLeaseIsKept` | fraudshield/worker.py:55-91 | in any run, a claim that takes effect is followed by a held lease for as long as the heartbeats are punctual |
| `LeaseTiming.OverdueLeaseIsClaimed` | fraudshield/core/repository.py:829-837 | the bound is exact: past the lease a second worker's claim succeeds if and only if attempts are left, and then fences the first |
| `LeaseTiming.SlackIsPositive` | fraudshield/worker.py:57 | a lease tolerates some lateness if and only if it is at least three seconds long |
| `LeaseTiming.IntervalIs` | fraudshield/worker.py:57 | a heartbeat every third of the lease, but between two seconds and a minute |
| `LeaseTiming.UnexpiredRowIsNotClaimed` | fraudshield/core/repository.py:829-837 | a claim cannot select the row of a punctual worker |
| `IdempotentEnqueue.OneCreatorPerKey` | fraudshield/core/repository.py:682-734 | under any interleaving at most one row carries a key, at most one caller is told it created it, and there is such a caller exactly when there is such a row |
| `IdempotentEnqueue.ReplayGetsTheSameRow` | fraudshield/core/repository.py:736-753 | another caller with a key of at most 256 characters gets that row if its request is equal and a conflict if not, unless the database itself failed |
| `IdempotentEnqueue.RefusedCallIsAnsweredIffKeyFits` | fraudshield/core/repository.py:704-734 | the key is stored cut to 256 characters and looked up whole: a refused caller is answered from the stored row if and only if its key fits |
| `IdempotentEnqueue.SequentialReplay` | fraudshield/core/repository.py:682-734 | no race is needed: the same request sent again after the first call is answered from its row if its key fits, and by the escaping database error if not |
| `IdempotentEnqueue.InvRun` | fraudshield/core/repository.py:682-734 | the invariant over all calls in flight behind these theorems holds on every run |
| `AuditChain.AuditRepository.AppendEvent` | fraudshield/core/repository.py:471-554 | appends one chained row and moves the head; every column is the caller's own text or its beginning, in its own column, the hashes are those of address and user agent, and the roles are the clipped ones, sorted, without repeats |
| `AuditChain.StoredColumns` | fraudshield/core/repository.py:530-548 | the same of every row any writer appends |
| `AuditChain.ReadableIff` | fraudshield/core/repository.py:447-455 | which writers a key ring reads: the current code under a retained key and an id that is neither empty nor `legacy`, older code under a retained `legacy` key or else the current one |
| `AuditChain.RolesAreASet` | fraudshield/core/repository.py:490 | two role lists leave the same row if and only if they hold the same clipped roles, in whatever order |
| `SortedTexts.SortedSetIgnoresOrder` | fraudshield/core/repository.py:490 | sorting a set of texts gives the same list if and only if the texts are the same |
| `AuditChain.AuditRepository.VerifyChain` | fraudshield/core/repository.py:591-666 | the batched loop computes the batch-free verification for every batch size |
| `AuditChain.SelectedIsTheQuery` | fraudshield/core/repository.py:597-600 | the selected rows are exactly those up to the head, in sequence order |
| `AuditChain.WrittenShape` | fraudshield/core/repository.py:492-554 | any series of appends yields dense sequence numbers, each row on top of its predecessor, and the head at the last |
| `AuditChain.RoundTrip` | fraudshield/core/repository.py:591-666 | an untouched log with any key rotations verifies as valid if and only if the key ring reads every writer back, and then with full count and the right head hash |
| `AuditChain.LegacyKeyIdNeverVerifies` | fraudshield/core/repository.py:607-640 | one row written under the key id `legacy`, which the configuration accepts, anywhere in a log makes it invalid for every verifier, the writer included |
| `AuditChain.TamperEvidence` | fraudshield/core/repository.py:591-666 | with the head untouched, a valid verdict means the stored rows up to the head are the appended rows in order and number on every integrity field |
| `AuditChain.EqualDownTheChain` | fraudshield/core/repository.py:641-656 | equal hashes at one row force equal rows all the way down |
| `AuditChain.ValidMeansLinked` | fraudshield/core/repository.py:604-666 | a valid verdict means every row links to its predecessor and the last one to the head |
| `AuditChain.CheckStops` | fraudshield/core/repository.py:611-653 | verification stops at the first row it cannot read and reports its number and the count before it |
| `AuditChain.CheckToTheEnd` | fraudshield/core/repository.py:657-666 | a log whose rows all link is checked to its end, and then head sequence and hash decide; otherwise the next number is reported as the first invalid one |
| `AuditChain.CheckStopsAtFirst` | fraudshield/core/repository.py:607-656 | any log is checked up to the first row that does not link: its number, the count before it, and whether its key is missing |
| `AuditChain.BeyondHeadIsIgnored` | fraudshield/core/repository.py:597-600 | rows beyond the head never change the verdict |
| `Similarity.JaccardBounds` | fraudshield/deceptiscope/frauddna/similarity.py:9-14 | lies in 0..1, is symmetric, is 1 only for equal non-empty sets and 0 only for disjoint ones |
| `Similarity.SeedImpliesHardLink` | fraudshield/deceptiscope/frauddna/similarity.py:100-116 | without a shared signer, Firebase project or payload the score is at most 0.30, so the seed threshold implies a hard anchor |
| `Similarity.AnchorsNeededToSeed` | fraudshield/deceptiscope/frauddna/similarity.py:100-116 | the seed threshold is reached if and only if two strong anchors are shared, or a signer or Firebase project with 0.20, or a payload with 0.25, from the weighted rest |
| `Similarity.ScoreBounds` | fraudshield/deceptiscope/frauddna/similarity.py:100-116 | the score lies in 0..1 without the clamp, and score and hard link are symmetric |
| `Similarity.HardLinkHasReason` | fraudshield/deceptiscope/frauddna/similarity.py:40-98 | a hard link always leaves a match reason, so the relatedness filter never drops it |
| `RelatedSamples.JaccardCounts` | fraudshield/deceptiscope/frauddna/similarity.py:9-14 | counting: the similarity is the share of the values of either sample that both have |
| `RelatedSamples.ReasonsIff` | fraudshield/deceptiscope/frauddna/similarity.py:40-98 | when each match reason is given, and with what percentage |
| `RelatedSamples.PercentIs` | fraudshield/deceptiscope/frauddna/similarity.py:50-76 | percentages are cut to whole numbers, not rounded |
| `RelatedSamples.IdenticalSampleIs` | fraudshield/deceptiscope/frauddna/similarity.py:23-38 | a sample compared with itself is alike in whatever it has, with one reason |
| `RelatedSamples.ComponentsAre` | fraudshield/deceptiscope/frauddna/similarity.py:40-129 | for two different samples each component is its own similarity |
| `Similarity.FraudDNASimilarityCalculator.Compare` | fraudshield/deceptiscope/frauddna/similarity.py:23-129 | the step-by-step comparison equals the declarative one, reasons in order included |
| `Similarity.Accumulate` | fraudshield/deceptiscope/frauddna/similarity.py:100-116 | the += accumulation yields the weighted score and the clamp never bites |
| `Campaigns.CampaignMapIsCampaignOf` | fraudshield/core/repository.py:1189-1207 | per-sample look-ups and the look-up map agree |
| `Campaigns.NextIndexExists` | fraudshield/core/repository.py:1234-1245 | the largest stored number plus one, starting from 1, always exists |
| `Correlator.CampaignCorrelator.CorrelateInMemory` | fraudshield/deceptiscope/frauddna/campaigns.py:153-237 | the loops over the dictionaries take exactly the in-memory step, whose answer RelatedSamples.AnswerIsExact gives, the half-done founding on id exhaustion included |
| `Correlator.CampaignCorrelator.EngineUsesCalculator` | fraudshield/deceptiscope/frauddna/campaigns.py:34-46 | a correlator's own calculator meets the hypothesis of the campaign theorems |
| `Correlator.CampaignCorrelator.CorrelateInDatabase` | fraudshield/deceptiscope/frauddna/campaigns.py:57-151 | the transaction takes exactly the database step, whose answer RelatedSamples.StoredAnswerIsExact gives, and is undone when the new id is refused |
| `Correlator.CampaignCorrelator.Scan` | fraudshield/deceptiscope/frauddna/campaigns.py:157-184 | one pass collects the related samples of RelatedSamples.RelatedExactly in order and the campaign of the first hard-linked one that has one |
| `Correlator.CampaignCorrelator.Recruit` | fraudshield/deceptiscope/frauddna/campaigns.py:211-215 | the founding loop recruits every sample at the seed threshold once and maps it at once |
| `Correlator.FraudDNARepository.SaveFingerprint` | fraudshield/core/repository.py:1012-1074 | an upsert keeps the place of a sample it already has |
| `Correlator.FraudDNARepository.ListFingerprints` | fraudshield/core/repository.py:1092-1110 | all rows but the excluded sample's, in creation order |
| `Correlator.FraudDNARepository.SaveCampaign` | fraudshield/core/repository.py:1112-1164 | upserts the row and adds each membership once |
| `Correlator.FraudDNARepository.GenerateNextIndex` | fraudshield/core/repository.py:1234-1245 | the loop finds one more than the largest stored number |
| `CampaignInvariants.StepKeepsInvIffIdsLast` | fraudshield/deceptiscope/frauddna/campaigns.py:189-230 | a step on a new sample keeps the campaign invariant if and only if it does not run out of ids; then members stay mapped to a campaign that does not exist |
| `CampaignInvariants.CampaignsAreConnected` | fraudshield/deceptiscope/frauddna/campaigns.py:157-230 | after any run of distinct samples any two members of a campaign are joined by a chain of hard links inside it |
| `CampaignInvariants.Partition` | fraudshield/deceptiscope/frauddna/campaigns.py:189-230 | each sample is in at most one campaign, map and member lists agree both ways, and the aggregate lists hold exactly the values of the founder and the later joiners |
| `CampaignInvariants.AssignedIffAnchoredOrSeeding` | fraudshield/deceptiscope/frauddna/campaigns.py:157-227 | a new sample gets a campaign if and only if a hard-linked sample is in one or some sample reaches the seed threshold |
| `CampaignInvariants.TargetSpec` | fraudshield/deceptiscope/frauddna/campaigns.py:175-184 | the target is a hard-linked sample's campaign and is missing only if no hard-linked sample has one |
| `CampaignInvariants.TargetIsFirst` | fraudshield/deceptiscope/frauddna/campaigns.py:175-184 | it is the campaign of the first hard-linked sample of the corpus that has one |
| `CampaignInvariants.FoundersSpec` | fraudshield/deceptiscope/frauddna/campaigns.py:211-215 | founders are the sample and, once each, the samples at or above the seed threshold |
| `CampaignInvariants.SortKeeps` | fraudshield/deceptiscope/frauddna/campaigns.py:186-187 | sorting loses and invents no related sample |
| `RelatedSamples.AnswerIsExact` | fraudshield/deceptiscope/frauddna/campaigns.py:157-235 | a correlation reports exactly the samples that reach the threshold, share a hard anchor, or look alike in code, behaviour, network, icon or package name, each with its own score, reasons, labels and later campaign, the most similar first |
| `RelatedSamples.StoredAnswerIsExact` | fraudshield/deceptiscope/frauddna/campaigns.py:71-102 | the tables report the same samples, whatever they hold |
| `RelatedSamples.RelatedExactly` | fraudshield/deceptiscope/frauddna/campaigns.py:157-184 | one pass over the corpus finds a sample if and only if it looks related, and describes it by its own fingerprint |
| `RelatedSamples.SortOrders` | fraudshield/deceptiscope/frauddna/campaigns.py:186-187 | the sort is descending and keeps the order of equally similar samples |
| `RelatedSamples.FoundedCampaignIsNamed` | fraudshield/deceptiscope/frauddna/campaigns.py:208-227 | a founded campaign takes the next number and the label of its founder, or its package name without one |
| `RelatedSamples.EnrichedRowIs` | fraudshield/deceptiscope/frauddna/campaigns.py:191-206 | a campaign that a sample joins keeps number and title and merges the sample's values into its sorted lists |
| `CampaignInvariants.RunInv` | fraudshield/deceptiscope/frauddna/campaigns.py:153-237 | the invariant holds after every accepted run of distinct samples, and the corpus is the run |
| `CampaignCapacity.ShortRunsAreAccepted` | fraudshield/deceptiscope/frauddna/campaigns.py:208-218 | a run of at most 1999 distinct samples is never refused, so the campaign theorems hold of it without looking at its results |
| `CampaignCapacity.CapacityIsSharp` | fraudshield/deceptiscope/frauddna/campaigns.py:208-218 | 2000 distinct samples can be too many: 999 pairs, a loner, and a sample linked to the loner, which is refused |
| `CampaignTables.RefusedSamplesLeaveNoTrace` | fraudshield/deceptiscope/frauddna/campaigns.py:57-151 | after any run of distinct samples the tables hold what they, and the dictionaries, hold after the run without its refused samples |
| `CampaignTables.StoredCampaignsAreConnected` | fraudshield/deceptiscope/frauddna/campaigns.py:57-151 | on every run of distinct samples, refusals included, any two stored members of a campaign are joined by a chain of hard links inside it |
| `CampaignTables.StoredPartition` | fraudshield/deceptiscope/frauddna/campaigns.py:57-151 | and each stored sample is in at most one campaign, memberships name stored rows on both sides, and the stored aggregates are exact |
| `CampaignIndependence.SoftSignalsNeverMerge` | fraudshield/deceptiscope/frauddna/campaigns.py:24-31 | on every run, correlators that differ in icon similarity, package similarity or relatedness threshold build the same campaigns |
| `CampaignIndependence.SoftSignalsNeverMergeStored` | fraudshield/deceptiscope/frauddna/campaigns.py:57-151 | the same for the tables: on every run, repeated samples and refusals included, the stored rows and memberships are the same |
| `CampaignIndependence.StrongOfSort` | fraudshield/deceptiscope/frauddna/campaigns.py:186-187 | selecting the strong samples commutes with the stable sort |
| `CampaignIndependence.FoundersAreHard` | fraudshield/deceptiscope/frauddna/campaigns.py:208-215 | founders depend on scores alone |
| `CampaignRefinement.StepsAgree` | fraudshield/deceptiscope/frauddna/campaigns.py:57-237 | from corresponding states both paths give the same id, row, member set and ordered related samples, and reach corresponding states unless ids run out |
| `CampaignRefinement.RunsAgree` | fraudshield/deceptiscope/frauddna/campaigns.py:57-237 | after any accepted run of distinct samples the tables hold what the dictionaries hold |
| `CampaignRefinement.AnswersAgree` | fraudshield/deceptiscope/frauddna/campaigns.py:57-237 | every answer of such a run is the same on both paths, a first refusal included |
| `CampaignRefinement.FillIsClaim` | fraudshield/deceptiscope/frauddna/campaigns.py:146-149 | filling in unknown ids and claiming the members of the assigned campaign give the same list |
| `CampaignRefinement.SameMap` | fraudshield/core/repository.py:1189-1207 | table look-ups agree with the dictionary however LIMIT 1 picks |
| `CampaignRefinement.AnswersAgreeIff` | fraudshield/deceptiscope/frauddna/campaigns.py:57-237 | over new and repeated samples: the two paths answer equally if and only if the sample has no campaign, or it anchors to a campaign that is another one than its own, or one its values add nothing to |
| `Evidence.RuntimeEvidenceBuilder.Add` | fraudshield/deceptiscope/dynamic.py:91-120 | new state in every case: duplicate, refused by the model, or added with the next dense id; a claim of payload correlation never appears unless given |
| `Evidence.RecordsOnce` | fraudshield/deceptiscope/dynamic.py:91-120 | recording gives no key two items, and every key recorded for the first time one |
| `Evidence.CompactionAddsNoClaim` | fraudshield/deceptiscope/dynamic.py:1050-1061 | compaction never turns nested or clipped data into a top-level claim |
| `Evidence.CollectedIdsAreUnique` | fraudshield/deceptiscope/dynamic.py:109 | builder ids are unique and not empty |
| `Collectors.DynamicLiteAnalyzer.ExtractTokenEvidence` | fraudshield/deceptiscope/dynamic.py:818-835 | records each matching line not recorded before exactly once, as a log-observed item of the scanned kind with confidence 0.75, unless the model refuses one; a kind without a pattern is an exception |
| `Collectors.DynamicLiteAnalyzer.ExtractNetworkDestinations` | fraudshield/deceptiscope/dynamic.py:837-865 | records each destination found, noise excepted, exactly once, as a log-observed item with confidence 0.60 that claims nothing |
| `Collectors.DynamicLiteAnalyzer.CollectSyntheticSms` | fraudshield/deceptiscope/dynamic.py:628-661 | records exactly the delivery, a sighting of the marker when logcat shows it, and the security lines, once each and with their confidences; the delivery is the only instrumented item and comes first |
| `Collectors.FridaHost.NormalizeToEvidence` | fraudshield/deceptiscope/runtime/frida_host.py:128-184 | every event not recorded before becomes one instrumented item, in order, with its kind, process, metadata and time; each item is made of the first event with its key, and none is a claim, a delivery or a correlation |
| `Collectors.DeviceCannotForgeKinds` | fraudshield/deceptiscope/runtime/frida_host.py:186-202 | no observer or event type maps to a delivery, a correlation or a DNS record |
| `Collectors.EventMetadataClaimsNothing` | fraudshield/deceptiscope/runtime/frida_host.py:146-170 | whatever metadata a device sends, the recorded metadata has no top-level claim |
| `CollectorMeaning.TokenKeysAre` | fraudshield/deceptiscope/dynamic.py:825-835 | which lines a kind records: those that name the package and match its pattern |
| `CollectorMeaning.NetworkKeysAre` | fraudshield/deceptiscope/dynamic.py:837-865 | which destinations are recorded: all on lines that name the package, without trailing punctuation, but for the platform's schema domain |
| `CollectorMeaning.SmsKeysAre` | fraudshield/deceptiscope/dynamic.py:628-661 | what the synthetic SMS experiment records, and when a sighting of the marker is among it |
| `CollectorMeaning.TrimmedIs` | fraudshield/deceptiscope/dynamic.py:846 | four signs are cut off the end of a destination, and nothing else |
| `CollectorMeaning.DestinationKindIs` | fraudshield/deceptiscope/dynamic.py:849 | web addresses are network destinations, everything else is a name |
| `CollectorMeaning.LogConfidenceIs` | fraudshield/deceptiscope/dynamic.py:818-865 | how sure a logcat record is, by its kind |
| `CollectorMeaning.EventKeysAre` | fraudshield/deceptiscope/runtime/frida_host.py:128-184 | every device event is recorded, and nothing else |
| `CollectorMeaning.TokenKeysInOrder` | fraudshield/deceptiscope/dynamic.py:825-835 | lines are recorded in their order |
| `CollectorMeaning.NetworkKeysInOrder` | fraudshield/deceptiscope/dynamic.py:837-865 | destinations in the order of the lines |
| `CollectorMeaning.EventKeysInOrder` | fraudshield/deceptiscope/runtime/frida_host.py:128-184 | device events in theirs |
| `CollectorMeaning.RecordedMeans` | fraudshield/deceptiscope/runtime/frida_host.py:171-180 | the record of an event bears its process and time where it gives them |
| `EventMeaning.KindOfEvent` | fraudshield/deceptiscope/runtime/frida_host.py:186-202 | the kind of every accepted event, by its observer or its type |
| `EventMeaning.RecordedFields` | fraudshield/deceptiscope/runtime/frida_host.py:146-170 | every recorded metadata field and its source; the destination is the endpoint, else the URL, else the destination |
| `EventMeaning.DescriptionNames` | fraudshield/deceptiscope/runtime/frida_host.py:142-144 | the description names type and API, and the marker when the device flagged one |
| `EventMeaning.CompactedIsBounded` | fraudshield/deceptiscope/dynamic.py:1050-1061 | nothing compacted is longer than 1000 characters, fifty list entries or twenty keys, at any depth |
| `EventMeaning.CompactionKeeps` | fraudshield/deceptiscope/dynamic.py:1054-1061 | texts, flags, numbers and list entries that fit are kept |
| `Lineage.DataLineageCorrelator.Correlate` | fraudshield/deceptiscope/lineage/correlator.py:101-200 | the loops over markers and evidence compute the declarative lineages, and numbering past P999 is an exception |
| `Lineage.DataLineageCorrelator.Trace` | fraudshield/deceptiscope/lineage/correlator.py:114-158 | steps and chain of one marker |
| `Lineage.DataLineageCorrelator.IsVerifiedBodyEgress` | fraudshield/deceptiscope/lineage/correlator.py:202-258 | the scan with its early exits decides the body-egress predicate |
| `Lineage.DataLineageCorrelator.FindMarkerMatch` | fraudshield/deceptiscope/lineage/correlator.py:260-289 | first matching text field in order |
| `Lineage.MatchIsCarrying` | fraudshield/deceptiscope/lineage/markers.py:46-54 | a match is reported exactly when the text carries the marker in one of its encodings |
| `LineageMeaning.CarriesIff` | fraudshield/deceptiscope/lineage/markers.py:30-54 | a text carries a marker if and only if it contains it as it is, in base64 with or without padding, in hex of either case, or URL-quoted |
| `LineageMeaning.CarriesSomewhereIff` | fraudshield/deceptiscope/lineage/correlator.py:260-289 | an item carries it in its description, or in a text at the top of its metadata or in a dictionary there |
| `LineageMeaning.BodyCarriesIff` | fraudshield/deceptiscope/lineage/correlator.py:219-256 | the body fields are five, as text or bytes |
| `LineageMeaning.AttributedIff` | fraudshield/deceptiscope/lineage/correlator.py:37-53 | process and declared package, as far as given and at least one, are the target or a process of it |
| `LineageMeaning.ShownMeans` | fraudshield/deceptiscope/lineage/correlator.py:37-53 | a false value shows as nothing, a text as it is, anything else as it prints |
| `LineageMeaning.CaseIs` | fraudshield/deceptiscope/lineage/correlator.py:134-136 | lower and upper case move exactly the 26 letters of the other case |
| `LineageMeaning.IsIngressIff` | fraudshield/deceptiscope/lineage/correlator.py:12-19 | which six names in API or kind mean entering |
| `LineageMeaning.IsEgressIff` | fraudshield/deceptiscope/lineage/correlator.py:21-30 | which eight names mean leaving, unless one means entering |
| `LineageMeaning.StepsAreTheTracedItems` | fraudshield/deceptiscope/lineage/correlator.py:114-158 | one step per item that carries the marker, in order, numbered from one, with the item's id, description, API or kind, and phase |
| `LineageMeaning.LineageIs` | fraudshield/deceptiscope/lineage/correlator.py:160-198 | a lineage starts at the first traced item, has a sink exactly when some traced item leaves, and is complete as its steps are |
| `LineageMeaning.LineagesAre` | fraudshield/deceptiscope/lineage/correlator.py:101-200 | one lineage per traced marker, in the order of the markers, under consecutive numbers |
| `Lineage.CompleteIff` | fraudshield/deceptiscope/lineage/correlator.py:160-170 | with unique ids a lineage is complete if and only if an attributed item brings the marker in and an attributed instrumented item carries it out in a body field |
| `Lineage.ChainSpec` | fraudshield/deceptiscope/lineage/correlator.py:156-172 | the chain lists the step ids once each in order of appearance and starts with the source |
| `Lineage.SinkSpec` | fraudshield/deceptiscope/lineage/correlator.py:162-173 | the sink is the last step that leaves the app, and missing only if none does |
| `Lineage.MatchedTextOccurs` | fraudshield/deceptiscope/lineage/correlator.py:147-155 | the matched value a step reports occurs in a text field of its item |
| `Lineage.NumbersAreDense` | fraudshield/deceptiscope/lineage/correlator.py:184-198 | lineages are numbered without gaps and every marker with a step has one |
| `Lineage.OnlyBodiesProveExfiltration` | fraudshield/deceptiscope/lineage/correlator.py:208-217 | even with colliding ids, nothing is complete without an instrumented item whose body carries the marker |
| `Lineage.CompletenessIgnoresOrder` | fraudshield/deceptiscope/lineage/correlator.py:160-170 | completeness does not depend on the order or timing of the evidence |
| `Lineage.CompletenessIsStable` | fraudshield/deceptiscope/lineage/correlator.py:160-170 | more evidence under fresh ids never makes a lineage incomplete |
| `Lineage.EmptyTargetTracesForeignItems` | fraudshield/deceptiscope/lineage/correlator.py:126-128 | an unattributed item is traced if and only if the target package is empty |
| `Verifier.OtpConfirmedIff` | fraudshield/deceptiscope/verifier.py:103-122 | confirmed if and only if there is an SMS capability, a trusted delivery and a trusted access or correlation |
| `Verifier.OtpConfirmedWithoutMarker` | fraudshield/deceptiscope/verifier.py:103-122 | an instrumented SMS access after the delivery suffices: no marker match is needed, although the explanation speaks of one |
| `Verifier.ExfiltrationConfirmedIff` | fraudshield/deceptiscope/verifier.py:171-207 | confirmed if and only if some marker record is no later than some network record and some of these records claims a payload correlation |
| `Verifier.AccessibilityConfirmedIff` | fraudshield/deceptiscope/verifier.py:252-280 | confirmed if and only if the capability is declared and some record shows a system-level binding |
| `Verifier.ConfirmedIff` | fraudshield/deceptiscope/verifier.py:51-64 | a hypothesis is confirmed if and only if its category's conditions are in the findings; seven categories never are |
| `Verifier.ConfirmationIsStable` | fraudshield/deceptiscope/verifier.py:103-122 | more runtime evidence and any experiment results never un-confirm a hypothesis |
| `Verifier.AiCannotConfirm` | fraudshield/deceptiscope/verifier.py:317-355 | confirmation depends on category and findings, never on the AI's status, confidence or texts |
| `Verifier.FailureIsInconclusive` | fraudshield/deceptiscope/verifier.py:123-126 | a relevant failed or timed-out experiment yields confirmed or inconclusive, never a contradiction |
| `Verifier.ContradictedIff` | fraudshield/deceptiscope/verifier.py:127-146 | contradicted if and only if the experiment completed without a relevant failure and the expected record is absent, or the AI said so and nothing speaks for it |
| `Verifier.StrengthSeparates` | fraudshield/deceptiscope/verifier.py:119-147 | strength is at least 0.95 exactly for confirmed hypotheses and at most 0.75 for all others |
| `VerdictMeaning.StatusIs` | fraudshield/deceptiscope/verifier.py:66-330 | the five verdicts in the order in which the findings decide between them, for every category |
| `VerdictMeaning.SupportedIff` | fraudshield/deceptiscope/verifier.py:66-330 | supported if and only if neither confirmed, nor left open, nor contradicted, and something in the findings speaks for it, or the AI claims as much for another category than OTP interception |
| `VerdictMeaning.CapabilitiesMean` | fraudshield/deceptiscope/verifier.py:423-453 | which permissions, components and signals make an app capable of each behaviour |
| `VerdictMeaning.RelevantFailureMeans` | fraudshield/deceptiscope/verifier.py:101-126 | which failed or timed-out experiments leave a category open |
| `VerdictMeaning.ContradictingMeans` | fraudshield/deceptiscope/verifier.py:127-130 | which completed experiment and missing record contradict a category |
| `VerdictMeaning.OtpStrengthIs` | fraudshield/deceptiscope/verifier.py:119-147 | the strength of every OTP verdict by what was seen |
| `VerdictMeaning.ExfiltrationStrengthIs` | fraudshield/deceptiscope/verifier.py:199-227 | the same for exfiltration |
| `VerdictMeaning.AccessibilityStrengthIs` | fraudshield/deceptiscope/verifier.py:268-291 | the same for accessibility abuse |
| `VerdictMeaning.GeneralStrengthIs` | fraudshield/deceptiscope/verifier.py:310-340 | the same for the categories without a procedure |
| `VerdictMeaning.OtpSignalsMean` | fraudshield/deceptiscope/verifier.py:86-99 | each runtime signal is listed as observed if and only if a record shows it, and as missing otherwise |
| `VerdictMeaning.ExfiltrationSignalsMean` | fraudshield/deceptiscope/verifier.py:184-197 | the same for exfiltration |
| `VerdictMeaning.AccessibilitySignalsMean` | fraudshield/deceptiscope/verifier.py:256-266 | the same for accessibility abuse, the declared capability included |
| `VerdictMeaning.RecordIs` | fraudshield/deceptiscope/verifier.py:391-420 | a verification passes verdict and signals on unchanged and cites the runtime records, static findings and experiments that bear on its category, all of them below thirty |
| `VerdictMeaning.FirstComeFirst` | fraudshield/deceptiscope/verifier.py:544-554 | distinct values keep the order of their first occurrence |
| `VerdictMeaning.RuntimeIdsInOrder` | fraudshield/deceptiscope/verifier.py:509-518 | runtime ids are listed in the order of the records |
| `VerdictMeaning.MatchingIdsInOrder` | fraudshield/deceptiscope/verifier.py:495-506 | static ids in the order of the findings |
| `Verifier.CollectUnique` | fraudshield/deceptiscope/verifier.py:544-554 | the early-stopping loop returns the first distinct non-empty values up to the limit |
| `Verifier.UniqueStringsSpec` | fraudshield/deceptiscope/verifier.py:544-554 | no duplicates, nothing empty, nothing invented, and nothing lost below the limit |
| `EndToEnd.APKAnalysisPipeline.TraceLineage` | fraudshield/deceptiscope/pipeline.py:234-266 | appends the correlation record exactly when some lineage is complete and no such record exists |
| `EndToEnd.CompleteLineageIff` | fraudshield/deceptiscope/lineage/correlator.py:101-200 | some lineage is complete if and only if some marker enters and leaves |
| `EndToEnd.RecordedIffExfiltrated` | fraudshield/deceptiscope/pipeline.py:242-266 | on collected evidence the pipeline appends its correlation record if and only if some marker entered and left |
| `ImpactMeaning.RecordSays` | fraudshield/deceptiscope/pipeline.py:250-266 | the appended record is a claim at time zero, attributed to the package, that names the OTP marker whichever marker left |
| `EndToEnd.ExfiltrationConfirmedExactly` | fraudshield/deceptiscope/pipeline.py:233-266 | on collected evidence the verifier's exfiltration conditions hold if and only if a marker entered, left in an instrumented body, and a network destination was recorded |
| `EndToEnd.CredentialImpactExactly` | fraudshield/deceptiscope/impact.py:89-115 | a credential exfiltration impact is confirmed if and only if that holds and such a hypothesis was investigated |
| `EndToEnd.TakeoverImpactExactly` | fraudshield/deceptiscope/impact.py:184-199 | an account takeover is confirmed if and only if both prerequisites are, spelled out down to the evidence |
| `EndToEnd.JudgedConfirmedIff` | fraudshield/deceptiscope/impact.py:56-115 | whichever verification of a category comes last, its judgement is confirmed exactly when the category was investigated and its conditions hold; the reported items are those of ImpactMeaning |
| `EndToEnd.ImpactCitesEvidence` | fraudshield/deceptiscope/impact.py:72-216 | every id the verified impacts cite belongs to runtime or static evidence |
| `EndToEnd.ImpactIgnoresTheAi` | fraudshield/deceptiscope/impact.py:27-216 | hypotheses over the same categories confirm the same impacts |
| `ImpactMeaning.OtpImpactIs` | fraudshield/deceptiscope/impact.py:49-82 | the reported OTP item: confirmed if investigated and proven, supported on the mere capability, not observed without it |
| `ImpactMeaning.CredentialImpactIs` | fraudshield/deceptiscope/impact.py:84-115 | the reported credential item, by proof, static signs, and the last verdict |
| `ImpactMeaning.AccessibilityImpactIs` | fraudshield/deceptiscope/impact.py:117-147 | the reported accessibility item, and transactions confirmed with it and possible where it is supported |
| `ImpactMeaning.TakeoverImpactIs` | fraudshield/deceptiscope/impact.py:184-199 | takeover confirmed with both halves, possible with a sign of either, not observed otherwise |
| `ImpactMeaning.CodeLoadingImpactIs` | fraudshield/deceptiscope/impact.py:149-171 | code loading is confirmed by a trusted runtime record and by no hypothesis |
| `ImpactMeaning.PayloadImpactIs` | fraudshield/deceptiscope/impact.py:173-182 | a recovered payload is a confirmed one, cited by its id |
| `ImpactMeaning.DerivedItemsCite` | fraudshield/deceptiscope/impact.py:184-216 | takeover and transactions cite what their parts cite, and a confirmed load exactly the load records |
| `ImpactMeaning.ConfirmedItemsCite` | fraudshield/deceptiscope/impact.py:72-131 | a confirmed item cites every runtime record that bears on its category |
| `ImpactMeaning.SupportedItemsCite` | fraudshield/deceptiscope/impact.py:72-131 | an item that is only supported cites static findings alone, and only those that speak for it |
| `EndToEnd.DeliveryIsAnIngress` | fraudshield/deceptiscope/dynamic.py:642-648 | the analyzer's own delivery record already counts as the marker entering |
| `EndToEnd.AfterDeliveryOnlyTheBodyCounts` | fraudshield/deceptiscope/pipeline.py:233-266 | after a delivery, exfiltration is proven if and only if an instrumented body carries the marker out |
| `EndToEnd.SmsAccessIsAnIngress` | fraudshield/deceptiscope/lineage/correlator.py:139-143 | an SMS access record counts as entering whatever API it names |
| `EndToEnd.NetworkLeavesUnlessApiEnters` | fraudshield/deceptiscope/lineage/correlator.py:139-143 | a network record counts as leaving unless its API name contains an entering indicator |
| `DeviceEgress.DeviceBodyLeaves` | fraudshield/deceptiscope/runtime/frida_host.py:166-180 | the item recorded from an event that reads like leaving and whose clipped body preview carries the marker is exactly the evidence of leaving the lineage asks for |
| `DeviceEgress.NetworkEventCarriesOutIff` | fraudshield/deceptiscope/lineage/correlator.py:139-143 | a network event reads like leaving if and only if its API name contains no entering indicator |
| `DeviceEgress.NormalizedEventsLeave` | fraudshield/deceptiscope/runtime/frida_host.py:128-184 | from device events to leaving: if normalisation refuses nothing and some new event of the target package carries the marker in its body preview, the evidence shows the marker leaving |
| `DeviceEgress.SmsEventNeverLeaves` | fraudshield/deceptiscope/runtime/frida_host.py:186-202 | an event of the SMS observer or of an SMS type, a send included, is recorded as SMS access: it counts as entering and never as leaving |
| `DeviceEgress.CompactLookup` | fraudshield/deceptiscope/dynamic.py:1050-1061 | compaction keeps every short key with its compacted value |
| `DeviceEgress.EventMetadataKeeps` | fraudshield/deceptiscope/runtime/frida_host.py:146-170 | the recorded target package and body preview are the event's own |
| `Investigation.ValidateHypothesisPayload` | fraudshield/deceptiscope/investigation.py:904-930 | reads at most 20 items in order and reports at most ten problems |
| `Investigation.AcceptedAreGrounded` | fraudshield/deceptiscope/investigation.py:904-992 | whatever the AI sends, accepted hypotheses fit the output model and cite only known evidence, at least one item; every other item is reported |
| `Investigation.ValidateFeedbackPayload` | fraudshield/deceptiscope/investigation.py:933-970 | unknown hypotheses and forbidden fields are reported, later updates of an id replace earlier ones |
| `Investigation.ReadFeedbackFits` | fraudshield/deceptiscope/investigation.py:957-969 | accepted feedback refers to known hypotheses and stays within the limits |
| `Investigation.CollectLimited` | fraudshield/deceptiscope/investigation.py:1017-1029 | clipped, distinct, non-empty texts up to the limit; nothing for a value that is not a list |
| `Investigation.AssignIds` | fraudshield/deceptiscope/investigation.py:466-502 | dense unique ids in the order of first occurrence, equal findings once, nothing dropped below the limit |
| `Investigation.KnownIdsFit` | fraudshield/deceptiscope/investigation.py:1013-1014 | citing assigned evidence never breaks the id pattern of the output model |
| `Investigation.ApplyVerifications` | fraudshield/deceptiscope/verifier.py:358-388 | the merge loop keeps order and length and applies verdict, then feedback |
| `Investigation.MergeKeepsIdentity` | fraudshield/deceptiscope/verifier.py:366-388 | merging touches neither identity, category, confidence nor citations |
| `Investigation.FinalStatusIsAVerdict` | fraudshield/deceptiscope/verifier.py:363-371 | every final status and strength is the verifier's, for the last hypothesis with that id |
| `Investigation.FinalStatusIsItsOwnVerdict` | fraudshield/deceptiscope/verifier.py:363-371 | with unique ids it is the hypothesis's own, whatever the feedback says |
| `Investigation.FinalConfirmationIsEvidenced` | fraudshield/deceptiscope/verifier.py:363-371 | a final confirmation always rests on the findings, for some hypothesis of that id |
| `Investigation.RepeatedIdBorrowsAVerdict` | fraudshield/deceptiscope/verifier.py:363-371 | ids are not checked for uniqueness: a concrete repeated one makes a hypothesis that nothing can confirm appear confirmed |
| `Investigation.OwnConfirmationIff` | fraudshield/deceptiscope/verifier.py:363-371 | a final confirmation is the hypothesis's own for all findings and feedback if and only if the last hypothesis with its id has its category, or neither category can be confirmed |
| `Investigation.MergeFits` | fraudshield/deceptiscope/investigation.py:121-152 | verdict and feedback keep a hypothesis inside the output model |
| `InvestigationMeaning.AcceptedIff` | fraudshield/deceptiscope/investigation.py:904-992 | an item is accepted if and only if it is an object that cites known evidence and has an enumerated category and status, a confidence in range, an allowed id, a title and a reasoning; otherwise which of these failed is reported |
| `InvestigationMeaning.AcceptedAsSent` | fraudshield/deceptiscope/investigation.py:972-992 | an accepted hypothesis says what was sent, field by field, as far as it fits |
| `InvestigationMeaning.ReadInOrder` | fraudshield/deceptiscope/investigation.py:914-930 | accepted hypotheses and problems come in the order of the items |
| `InvestigationMeaning.KnownInOrder` | fraudshield/deceptiscope/investigation.py:1013-1014 | known ids stay in the order of the list |
| `InvestigationMeaning.FitsModelIff` | fraudshield/deceptiscope/investigation.py:121-152 | the output model, limit by limit |
| `EvidenceIds.EvidenceIdIff` | fraudshield/deceptiscope/investigation.py:466-502 | the id pattern of the output model is met by the assigned ids and by no other text |
| `InvestigationMeaning.LimitedMeans` | fraudshield/deceptiscope/investigation.py:1017-1029 | a limited list holds clipped texts of the given one, once each, and all of them below the limit |
| `InvestigationMeaning.LastUpdateCounts` | fraudshield/deceptiscope/investigation.py:944-969 | an id is updated if and only if it is known and some object addresses it, and then by the last that does |
| `InvestigationMeaning.FeedbackProblems` | fraudshield/deceptiscope/investigation.py:944-957 | exactly which items are reported, and as what |
| `InvestigationMeaning.UpdateSays` | fraudshield/deceptiscope/investigation.py:958-969 | an update says what was sent, clipped |
| `InvestigationMeaning.FinalSays` | fraudshield/deceptiscope/verifier.py:366-388 | what the final hypothesis takes from verdict and feedback |
| `InvestigationMeaning.FinalMisses` | fraudshield/deceptiscope/verifier.py:373-386 | what is missing is what hypothesis, verdict and feedback miss, at most twelve |
| `Investigation.AIInvestigatorClient.VerifyAndFinalize` | fraudshield/deceptiscope/investigation.py:593-635 | the whole stage: order, ids and citations kept, output model satisfied, own verdicts under unique ids, for any AI reply |
| `Scoring.EngineEvidence` | fraudshield/deceptiscope/scoring.py:391-429 | the greedy loop adds to each category exactly the sum over engines of min(25, clamped eligible points), and its entries add up to what each engine is granted |
| `Scoring.OneMoreFinding` | fraudshield/deceptiscope/scoring.py:400-414 | one more finding adds what its engine and category gain and nothing elsewhere |
| `Scoring.EnginePointsIgnoreOrder` | fraudshield/deceptiscope/scoring.py:391-429 | these points are the same for every order of the findings |
| `StaticRules.MatchRules` | fraudshield/deceptiscope/scoring.py:265-292 | the rule loop and the three combinations list exactly the matching rules and add up their points per category |
| `StaticRules.MoreFeaturesMatchMore` | fraudshield/deceptiscope/scoring.py:77-94 | more features never match fewer rules or score fewer points |
| `ScoreMeaning.CategoriesSaturate` | fraudshield/deceptiscope/scoring.py:301-303 | points beyond 100 in a category are not told apart |
| `ScoreMeaning.StaticScoreIsTheMean` | fraudshield/deceptiscope/scoring.py:229-234 | the static score is the nearest whole number to the mean of the four categories weighted 34, 30, 20 and 16, plus at most ten points of fraud delta |
| `ScoreMeaning.CategoryAlone` | fraudshield/deceptiscope/scoring.py:229-234 | one category alone scores at most its weight, and all of it from 100 points on |
| `ScoreMeaning.TheftPoints` | fraudshield/deceptiscope/scoring.py:78-86 | what every static feature and combination is worth in credential theft and payment manipulation |
| `ScoreMeaning.DeceptionPoints` | fraudshield/deceptiscope/scoring.py:87-93 | the same in fraud impersonation and evasion |
| `ScoreMeaning.GrantedIs` | fraudshield/deceptiscope/scoring.py:400-414 | an engine is granted in a category what it asks for, up to 25; the limit of 30 for one finding never matters |
| `ScoreMeaning.OtpRuleFires` | fraudshield/deceptiscope/scoring.py:99-111 | what fires the OTP rule, record by record |
| `ScoreMeaning.ExfilRuleFires` | fraudshield/deceptiscope/scoring.py:114-130 | what fires the exfiltration rule |
| `ScoreMeaning.SightingRulesFire` | fraudshield/deceptiscope/scoring.py:133-166 | the other rules fire on the sight of their kinds |
| `ScoreMeaning.RuntimeAdjustmentIs` | fraudshield/deceptiscope/scoring.py:169-241 | what each runtime rule adds, and the limits of 25 per category and 35 in all |
| `ScoreMeaning.BandsAndConfirmation` | fraudshield/deceptiscope/scoring.py:452-460 | the severity bands, and how far runtime evidence confirms the score |
| `AcceptanceOrder.AcceptedIgnoresOrderIff` | fraudshield/deceptiscope/scoring.py:400-415 | the number of accepted findings is the same for every order if and only if, per engine and category, everything fits under the cap or for some k the k smallest requests reach it and the k - 1 largest do not |
| `AcceptanceOrder.AllAcceptedInEveryOrderIff` | fraudshield/deceptiscope/scoring.py:400-415 | every asking finding is accepted in every order if and only if each would still find room as the last of its engine and category |
| `AcceptanceOrder.ExtremeOrders` | fraudshield/deceptiscope/scoring.py:400-415 | no order accepts more than the one with the smallest requests first, and none fewer than its reverse |
| `AcceptanceOrder.AcceptedSplits` | fraudshield/deceptiscope/scoring.py:409-414 | engines and categories do not compete for acceptance |
| `AcceptanceOrder.AcceptedDependsOnOrder` | fraudshield/deceptiscope/scoring.py:411-415 | a concrete pair of findings of which one order accepts one and the other two |
| `RiskScorer.RiskScorer.Calculate` | fraudshield/deceptiscope/scoring.py:243-389 | static, runtime and overall score, severity, confidence, runtime confirmation and accepted count, as the functions whose values ScoreMeaning and ConfidenceIsThousandths give |
| `RiskScorer.ConfidenceIsThousandths` | fraudshield/deceptiscope/scoring.py:350-363 | the chain of caps and roundings is a sum of whole thousandths, and the lower limit of 0.35 never applies |
| `RiskScorer.ConfidenceBounds` | fraudshield/deceptiscope/scoring.py:350-363 | the confidence lies between 0.37 and 0.98, at most 0.68 for partial analyses and at most 0.85 without runtime evidence |
| `RiskScorer.ConfidenceSeesRulesIff` | fraudshield/deceptiscope/scoring.py:350-363 | two numbers of rules give the same confidence if and only if they saturate alike, coverage is full, or the limit for partial analyses hides both |
| `RiskScorer.ConfidenceIgnoresOrderIff` | fraudshield/deceptiscope/scoring.py:350-415 | the confidence is the same for every order of the engine findings if and only if it does not tell the most generous order from the least generous one |
| `RiskScorer.ConfidenceDependsOnOrder` | fraudshield/deceptiscope/scoring.py:350-415 | where nothing hides the count, two findings of one engine already give two different confidences |
| `RiskScorer.AssessmentNeverFalls` | fraudshield/deceptiscope/scoring.py:243-363 | more features, findings, runtime evidence or coverage never lower the score, nor the confidence |
| `Scoring.RuntimeStage` | fraudshield/deceptiscope/scoring.py:314-339 | the capped greedy stage gives each category the capped sum of the rules that fire, and lists exactly those rules |
| `Scoring.OverallIgnoresOrder` | fraudshield/deceptiscope/scoring.py:294-345 | the overall score is invariant under permutation of the findings |
| `Scoring.OverallNeverFalls` | fraudshield/deceptiscope/scoring.py:294-345 | it lies in 0..100 and never falls when static points, findings, fraud delta or runtime evidence grow |
| `Scoring.RoundIsMonotone` | fraudshield/deceptiscope/scoring.py:303 | rounding half to even preserves order |
| `Scoring.RulesKeepFiring` | fraudshield/deceptiscope/scoring.py:99-166 | a runtime rule that fires keeps firing under more evidence |
| `Scoring.ConfirmedOtpFires` | fraudshield/deceptiscope/scoring.py:99-111 | a confirmed OTP hypothesis always fires RUNTIME-OTP-001 |
| `RuleAgreement.ConfirmedExfiltrationFiresIff` | fraudshield/deceptiscope/scoring.py:114-130 | on the pipeline's evidence a confirmed exfiltration fires RUNTIME-EXFIL-001 if and only if some collected network record has a confidence of at least 0.7 |
| `RuleAgreement.CollectorsGather` | fraudshield/deceptiscope/dynamic.py:837-865 | a network record comes from a logcat line or from a device event, by what the collectors promise |
| `RuleAgreement.FiresIffDeviceSawNetwork` | fraudshield/deceptiscope/scoring.py:114-130 | over the collectors: a confirmed exfiltration fires RUNTIME-EXFIL-001 if and only if some network record was made of a device event |
| `RuleAgreement.ConfirmedButSilent` | fraudshield/deceptiscope/scoring.py:114-130 | an event the host accepts and three records that their collectors make of it, on which the exfiltration is confirmed and the rule silent: a marker in the body preview of a web view event, beside a delivery and a destination known from logcat |
| `RuleAgreement.ShippedObserversAgree` | fraudshield/deceptiscope/runtime/scripts/network_observer.js:39-60 | no such list arises when every instrumented record comes from a shipped source, since only the network observer reports bodies: then every confirmed exfiltration fires the rule |
| `Indicators.IndicatorRepository.Upsert` | fraudshield/core/repository.py:287-367 | whole new row and sightings in every case, errors without change, and the tables keep reflecting the history |
| `Indicators.StillReflects` | fraudshield/core/repository.py:306-366 | severity and confidence stay the maxima over all upserts of a key and the count stays the number of distinct sources, a missing source being one |
| `Indicators.ClampedIs` | fraudshield/core/repository.py:303 | a confidence in range is kept, one outside goes to the nearer bound |
| `Indicators.GreaterIs` | fraudshield/core/repository.py:338-339 | the order of severities, and the greater of two confidences |
| `Indicators.OrderDoesNotMatter` | fraudshield/core/repository.py:287-367 | histories with the same upserts in any order store the same severity, confidence, count and sightings |

## Left out

- SQL, migrations, connection pools, PostgreSQL collation and SKIP LOCKED: tables are maps and sequences, a transaction one step, text columns in binary order.
- HMAC-SHA256, JSON text and encodings: parameters; only freedom from collisions is assumed, and only of the first two together.
- Floating-point rounding: rationals throughout; the final rounding of the risk score is half to even on the exact value. The same holds of the confidence: every odd number of rules below nine is a tie in its third decimal, which binary fractions may round the other way; only the exact values of `RiskScorer.ConfidenceIsThousandths` depend on it.
- QueueProtocol.QueueInvariant: its workers pass their ids to `complete` and `fail`, as the worker does; for calls without one see `JobTable.FailKeepsRowsIff`.
- QueueProtocol.AttemptBudget: bounds claims, and does not promise that a job ever ends, which is false.
- Artifact files, APK processing, cleanup of terminal jobs and the listing endpoints.
- AuditChain.AuditRepository.AppendEvent: roles are texts already; reading the new row back is not modelled.
- AuditChain.TamperEvidence: rows beyond the head are outside the promise, see `AuditChain.BeyondHeadIsIgnored`.
- Campaign objects as references: the in-memory correlator hands out the object it keeps; campaigns are values here, so a caller's later edits of one are not captured. Member lists read from the tables are sets, as rows that joined at one instant have no order.
- Correlator.CampaignCorrelator.CorrelateInDatabase: which membership `LIMIT 1` returns is a parameter, a fixed choice per set of candidates.
- Package name similarity and icon hashing: parameters, with no assumption at all.
- Non-canonical evidence: trust levels are the five canonical ones, metadata is always a dictionary, and items have no fields beyond those of the evidence model. Lower- and upper-casing is ASCII.
- Collectors.DynamicLiteAnalyzer.ExtractTokenEvidence: patterns and destination matching are parameters; exactly the matching lines are recorded. Launch, package state, file system and screenshot collectors are not modelled; they add system-observed or instrumented items without claims in the same way.
- Printing of metadata for duplicate detection: equal metadata stands for equal printed metadata.
- Synthetic marker generation, redaction before capture, device sessions and their scripts.
- Explanation texts, titles, impact signals and summaries; the search for `dumpsys` in printed metadata is a parameter.
- Fallback from `experiment_results` to `dynamic_experiment_results` in the findings.
- Prompts, model calls, JSON parsing of AI replies and experiment planning: decoded replies are arbitrary inputs.
- RiskScorer.RiskScorer.Calculate: the sorted list of matched rules with titles, rationales and artifacts is not modelled.
- Indicators.IndicatorRepository.Upsert: per-kind normalisation is a parameter; row ids, metadata and context are not modelled, and deletion of synthetic records is outside.
- Brand impersonation, MITRE mapping, fraud delta, SDK classification, archives, payload recovery, PDF reports, the HTTP API and the frontend: they would add only table look-ups and threshold checks.
