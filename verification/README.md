# Growth engine: models and proofs

Dafny models of the stateful and decision-making parts of the growth engine, with proofs of what they keep
over whole runs. Every module follows one component; a method written with loops and fields follows the
source's own steps and is proved equal to a function, and the results are proved about that function.

| module | component |
|---|---|
| `ResumableLoop`, `BatchExecutor`, `BatchReplay`, `BatchCounts`, `BatchRows`, `BatchInterleaving`, `BatchShipped`, `BatchRunner` | the resumable Phase 2 batch over its insert-once tables: crashes, replay, what its counters count and its rows hold, several executors at once, the statements as written, the classes |
| `Matching`, `Blocking`, `Scoring`, `Resolver`, `CandidateProvider`, `CandidateEvidence`, `CandidateIds`, `Normalization` | Phase 2 comparison, which candidates are compared, scores and rankings, adjudication, candidates with their evidence and ids, names and domains |
| `Clocks`, `RateLimiter`, `TtlCache`, `RetryClient`, `RetryPolicy` | the provider client: sliding windows, cache, retries, what is retried and reported |
| `AnalysisQueue`, `QueueOrder` | the leased job queue and its worker, the order in which jobs are given out |
| `CampaignSteps`, `CampaignDates`, `CampaignRetries`, `CampaignDriver`, `CampaignExecution` | handing campaign steps to the mail system: the protocol, the dates of the steps, retries after crashes, the database driver, the classes |
| `Intake`, `IntakeStore` | Phase 1 duplicates, the batch fold, persistence |
| `Scanner`, `Template` | template rendering |
| `Allocation`, `UrlSelection`, `IntentScoring`, `IntentRules` | experiment buckets, page selection, intent and routing |
| `Text`, `Counting`, `Wrappers` | white space, prefixes, string order and separators, counting positions, `Option` and `Result` |

Main results, hardest first:

* `BatchReplay.CrashesDoNotShow`, `BatchExecutor.CrashEquivalence`: a batch killed between any two commits, any
  number of times, and run again under its request key, ends in the tables and the result of one undisturbed
  execution. `BatchReplay.ReplayIsFaithful` says exactly when asking again gives the same answer (no lead handed
  off twice), `BatchReplay.ReturnsIffConsistent` exactly when there is an answer at all.
* `BatchInterleaving.AnyInterleavingIsOneExecution`, `EveryoneEndsAlike`: any number of executors at work under one
  request key at once, commit by commit in any order, leave the tables of one execution, and end as it does;
  `EveryoneGetsThrough`: none of them waits for another.
* `BatchCounts.ResultCountsPositions`, `FailureCountsPositions`, `RunCountsPositions`, `BatchRows.EverythingIsOnRecord`: every
  number a batch reports or records is the number of handoffs, or of candidates, that it says it is, and every row of every
  handoff is on record.
* `Resolver.Outcome`, `ResolutionCounts`, `OrderMattersOnlyThroughTheBudget`, `NoStealing`: the chain of early returns
  counts matchable candidates, depends on their order only through what the budget cuts, and never gives a match
  away. `Blocking.SelectedIffNear` and `UnresolvedIffNothingNear` say which candidates are considered at all, `Scoring.ScoreIs`
  and `DecisionExplains` what a decision rests on. `CandidateProvider.FirstPartyEvidenceDecides` carries this from extraction to
  decision, `CandidateEvidence.VerifiedOnlyOnSite` and `MatchedOnlyOnSite` back from a decision to the pages fetched, and
  `CandidateIds.DistinctIff` and `ProducedResolves` say exactly when the provider's candidates have the distinct
  ids that counting and order independence need.
* `CampaignSteps.ExactlyOnceHandOff`, `InTimeCompletionSucceeds`, `StaleForGood`: any interleaving of orchestrators,
  stopping anywhere. `CampaignRetries.RetryRecoversIffSamePayload`, `DifferentRetriesNeverRecover` and
  `OneCrashCanStickForGood`: what a retry after a crash can and cannot do. `CampaignDriver.SomethingAdvancesIff`:
  what it takes of the claim procedure and the database driver for any of this to happen. `CampaignDates.ClaimGrantedIff`,
  `NextStepWaits`: when a step is handed out, and never before its date.
* `AnalysisQueue.EveryRunKeepsInv`, `InTimeReportSucceeds`, `ReportLandsIff`, `DisciplineFences`,
  `ConversationAnalysisWorker.RunOnce`: any interleaving of workers, and when a stale report can land. `QueueOrder.PicksIff`,
  `NothingIsOvertaken`, `WaitIsBounded`: the oldest jobs first, and how long a job can wait.
* `RateLimiter.EveryWindowWithinBudget`, `TtlCache.SurvivesExactlyPotential`, `StoreProtectsIff`,
  `RetryClient.TinyFishClient.SendWithRetries`, `RetryPolicy.FollowedIff`, `ReportsOfARequest`, `WaitsDouble`.
* `IntakeStore.WhatIntakeGuarantees`, `RerunOnlyClosesQuarantined`, `PersistingTwiceIsOnce`.
* `Template.RenderedIsFinal`, `ParseRoundTrip`, `UnparseRoundTrip`.

Where the code does not do what its own documentation or shape suggests, the model follows the code:

* The claim procedure (`20260902150000_campaign_step_claims.sql:96-101`) looks the next step up by `sequence_version_id`
  and `step_no`, which are columns of the table and output variables of the procedure alike. The database rejects such
  names unless it is told to prefer one reading, which no migration does; so no enrollment with a step left is ever
  granted a claim (`CampaignDriver.NothingIsClaimed`).
* The only database class for campaigns opens its connections with rows keyed by name (`campaign_db.py:31-32`), reads the answers of
  releasing and completing a step by position (`campaign_db.py:61`, `campaign_db.py:127`), and passes plain dicts as parameters
  (`campaign_db.py:94-99`). With such a driver the read raises and the transaction is rolled back, so that no
  enrollment ever advances, no claim is given back before its lease runs out, and no send is persisted. How the names
  are read and what the driver does are parameters of the model (`CampaignDriver.AsShipped` is about the ones there
  are); an enrollment can advance if and only if the names are read as columns, rows answer to positions and names and
  dicts can be passed (`CampaignDriver.SomethingAdvancesIff`). Results that need any of this say so.
* The statement that inserts a candidate (`phase2/repository.py:109-122`) has 26 columns and is passed 26 values, but has 27
  placeholders. The driver refuses it, so no candidate is ever stored, and a batch returns if and only if no lead in it
  has candidates; then it has matched nobody (`BatchShipped.NoCandidateIsStored`, `ShippedReturnsIff`). The statement is a
  parameter of the batch, and the other results about batches hold for any.
* The documentation at `campaign_execution.py:135-140` says that a retry recovers a persisted send by its key. The stored procedure
  raises unless mailbox, time, recipient, subject and body are the same as before
  (`CampaignRetries.RetryRecoversIffSamePayload`). A worker that dies after persisting a send leaves it behind for the
  one that takes its claim over, and retries with another time never get past that step
  (`CampaignRetries.DifferentRetriesNeverRecover`, and `OneCrashCanStickForGood` where claims are granted and sends persisted).
* A replayed quarantined record becomes a duplicate and its quarantine row stays open for good
  (`IntakeStore.RerunLeavesQuarantineOpen`, `OrphanedQuarantineStaysOpen`).
* Storing a key the cache already holds leaves it in its old place, so it can be the next to go
  (`TtlCache.StoreProtectsIff`, `RestoredKeyCanBeEvicted`).
* Two processes under one worker id are not fenced from each other: a report counts for whichever claim its worker id
  holds (`AnalysisQueue.ReportLandsIff`, `SharedWorkerIdIsNotFenced`).
* Beyond the candidate budget the order of the candidates does matter (`Resolver.BudgetOfOneKeepsTheFirst`).
* The appended candidate can repeat an id, and the match then reports the other candidate's fields
  (`CandidateProvider.FallbackCanRepeatAnId`, `CandidateIds.DistinctIff`); a local variable can be read unassigned
  (`CandidateProvider.UnboundExactly`).
* A failed batch cannot be taken up again under its key, and two decisions about one lead fail it
  (`BatchReplay.ReturnsIffConsistent`).
* A payload that is not an object ends a request unreported (`RetryClient.EndIsReported`).
* A signal repeated in front of its event's first signal supersedes it (`IntentScoring.RepeatingInFront`).

Library behaviour is a parameter: hashing and digests, lower-casing, host extraction, token similarity,
validation and normalisation of a record, decay and rounding (`IntentRules` says where the halving of the decay is used), the HTTP attempts, rendering's `str`, and the
choices a database makes among equal rows. The batch results hold for any deterministic provider and resolver;
`BatchExecutor.Resolving` makes the adjudication of `Resolver` the resolver. Floats are reals. Clocks never go backwards, and a sleep lasts at
least as long as asked. Times that only label rows are left out.

## Model

| member | source | states |
|---|---|---|
| ResumableLoop.LoopAgain | src/sentinellayer_growth_engine/phase2/execution.py:150-178 | starting the loop over from any state it left changes nothing up to there and is then the loop itself |
| ResumableLoop.LoopSettles | src/sentinellayer_growth_engine/phase2/execution.py:150-178 | whatever the loop got done is settled in the state it leaves |
| ResumableLoop.WorkAgain | src/sentinellayer_growth_engine/phase2/execution.py:150-205 | resumed work equals work from the start, or dies without having changed anything |
| ResumableLoop.LoopCompletes | src/sentinellayer_growth_engine/phase2/execution.py:150-178 | the loop gets through exactly as far as its turns are taken |
| BatchExecutor.CrashEquivalence | src/sentinellayer_growth_engine/phase2/execution.py:112-214 | any killed attempts, then an undisturbed one: the tables of one undisturbed attempt, and its ending or that read back from the closed run |
| BatchExecutor.AfterAnyAttempts | src/sentinellayer_growth_engine/phase2/execution.py:112-214 | for every batch whose turns are resumable and whose finish closes the run, any killed attempts and then a whole one leave the tables of one whole attempt |
| BatchExecutor.AttemptsStayUnderway | src/sentinellayer_growth_engine/phase2/execution.py:114-139 | between attempts the tables are always those after some number of leads, or the final ones |
| BatchExecutor.ClosedRunIsLeftAlone | src/sentinellayer_growth_engine/phase2/execution.py:114-139 | an attempt on a closed run writes nothing and answers what is on record, or raises |
| BatchExecutor.TurnIsResumable | src/sentinellayer_growth_engine/phase2/repository.py:91-278 | a resolution persisted again is absorbed by the conflict clauses, whatever was written since |
| BatchExecutor.InsertAllAdds | src/sentinellayer_growth_engine/phase2/repository.py:105-260 | inserting adds exactly the keys written and rewrites no row |
| BatchExecutor.BatchIsRestartable | src/sentinellayer_growth_engine/phase2/execution.py:150-205 | the source's batch meets the conditions of crash equivalence |
| BatchReplay.CrashesDoNotShow | src/sentinellayer_growth_engine/phase2/execution.py:112-214 | with distinct leads the last attempt after any crashes leaves the tables and returns the result of one undisturbed attempt |
| BatchReplay.ReplayIsFaithful | src/sentinellayer_growth_engine/phase2/execution.py:134-135 | a completed key asked for again writes nothing, and answers the same if and only if no lead was handed off twice |
| BatchReplay.ReturnsIffConsistent | src/sentinellayer_growth_engine/phase2/execution.py:150-214 | an undisturbed attempt returns exactly when every handoff gets a decision, no lead two different ones, and all candidates can be inserted |
| BatchReplay.InsertedIffNew | supabase/migrations/20260927160734_phase2_entity_resolution_storage.sql:155-156 | within a run a decision is inserted exactly when its lead has none yet |
| BatchReplay.LoopCounts | src/sentinellayer_growth_engine/phase2/repository.py:262-275 | after every lead the run's counters are those of the distinct leads decided so far |
| BatchReplay.EscalationsAgree | src/sentinellayer_growth_engine/phase2/repository.py:262-275 | with distinct leads the escalations recorded are those the executor counted |
| BatchReplay.DecisionIdNamesLead | src/sentinellayer_growth_engine/phase2/resolver.py:21-24 | decision ids of different leads differ |
| BatchReplay.ResolverIdentifies | src/sentinellayer_growth_engine/phase2/resolver.py:21-24 | the resolver's decisions name their lead through their ids |
| BatchReplay.RowsAreImmutable | src/sentinellayer_growth_engine/phase2/repository.py:20 | no candidate, comparison, decision or trace row is ever rewritten over any attempts |
| BatchCounts.ResultCountsPositions | src/sentinellayer_growth_engine/phase2/execution.py:145-214 | a returned result counts the handoffs: all, those that found the provider unavailable, those matched, those that need research |
| BatchCounts.FailureCountsPositions | src/sentinellayer_growth_engine/phase2/execution.py:154-192 | a run that fails is closed with the number of handoffs that found the provider unavailable, up to and including the failing one |
| BatchCounts.RunCountsPositions | src/sentinellayer_growth_engine/phase2/repository.py:262-275 | the recorded counters count the first handoffs of leads, the candidates found for them, and those that need research |
| BatchCounts.RequestIsRefused | src/sentinellayer_growth_engine/phase2/execution.py:104-139 | a blank key, no budget, or a key of another version raises and writes nothing |
| BatchRows.TurnAddsItsRows | src/sentinellayer_growth_engine/phase2/repository.py:105-260 | a turn rewrites no row, adds only rows of its handoff, and leaves each of their keys with a row |
| BatchRows.EverythingIsOnRecord | src/sentinellayer_growth_engine/phase2/repository.py:91-278 | an attempt that returns has every candidate, comparison, relationship, decision and trace row of every handoff on record |
| BatchRows.WritesAre | src/sentinellayer_growth_engine/phase2/repository.py:105-260 | a handoff writes exactly those rows, each of the run and under its own id |
| BatchInterleaving.EveryInterleavingKeepsInv | src/sentinellayer_growth_engine/phase2/execution.py:112-214 | whatever the order of the processes' commits, the foremost one is where a single execution is, and the others are behind it |
| BatchInterleaving.AnyInterleavingIsOneExecution | src/sentinellayer_growth_engine/phase2/execution.py:134-214 | any interleaving of executors under one key, each stopping anywhere, leaves the tables of one execution, part of the way or whole; whoever is over ended as it, or as its closed run is read back |
| BatchInterleaving.EveryoneEndsAlike | src/sentinellayer_growth_engine/phase2/execution.py:134-214 | with distinct leads all executors that are over ended as the one execution |
| BatchInterleaving.EveryoneGetsThrough | src/sentinellayer_growth_engine/phase2/execution.py:112-214 | a process that comes up once a handoff and three times more is over, whatever the others do |
| BatchInterleaving.ClosedRunIsReadBack | src/sentinellayer_growth_engine/phase2/execution.py:134-139 | a process that comes to a closed run is over at once, as the run is read back |
| BatchInterleaving.TurnedAway | src/sentinellayer_growth_engine/phase2/repository.py:80-86 | a process whose request is not legal or whose key stands for another version raises and changes no table |
| BatchInterleaving.BatchIsReclosable | src/sentinellayer_growth_engine/phase2/repository.py:400-433 | closing a closed run again writes what is there, and leaves every handoff settled or failing as it was |
| BatchShipped.NoCandidateIsStored | src/sentinellayer_growth_engine/phase2/repository.py:107-152 | with a placeholder too many in the candidate statement no attempts ever store a candidate |
| BatchShipped.ShippedReturnsIff | src/sentinellayer_growth_engine/phase2/repository.py:109-122 | with the statement as written a batch returns if and only if no lead has candidates, and then matches nobody and calls for research on every lead |
| BatchRunner.Phase2Repository.CreateRun | src/sentinellayer_growth_engine/phase2/repository.py:25-89 | inserts the run unless the key is taken, answers the run on record or a version error |
| BatchRunner.Phase2Repository.PersistResolution | src/sentinellayer_growth_engine/phase2/repository.py:91-278 | one transaction: all rows and counters, or nothing and an error, of the candidate statement or of a lead decided before; true exactly for a new decision |
| BatchRunner.Phase2Repository.CompleteRun | src/sentinellayer_growth_engine/phase2/repository.py:400-433 | closes a known run and changes nothing else |
| BatchRunner.InsertCandidates | src/sentinellayer_growth_engine/phase2/repository.py:105-152 | the loop inserts every candidate row once, or raises at the first if its statement is refused |
| BatchRunner.InsertTraces | src/sentinellayer_growth_engine/phase2/repository.py:244-260 | the loop inserts every trace row once, numbered in order |
| BatchRunner.Phase2BatchExecutor.Turn | src/sentinellayer_growth_engine/phase2/execution.py:150-178 | one handoff: its rows and the four counters, or an exception with only a provider error counted |
| BatchRunner.Phase2BatchExecutor.Proceed | src/sentinellayer_growth_engine/phase2/execution.py:150-178 | the loop is at the first failing handoff, at its last commit, or at the end |
| BatchRunner.Phase2BatchExecutor.Run | src/sentinellayer_growth_engine/phase2/execution.py:95-214 | tables and ending are those of the attempt specified |
| Matching.CompareCandidate | src/sentinellayer_growth_engine/phase2/matching.py:30-174 | the signals are exactly those with evidence, in order, the score their sum, eligibility strong and not negative |
| Matching.NotedExactly | src/sentinellayer_growth_engine/phase2/matching.py:30-136 | a code is signalled exactly when its evidence is present |
| Matching.StrongSignals | src/sentinellayer_growth_engine/phase2/matching.py:138-166 | a strong signal is noted exactly when the candidate has strong evidence |
| Matching.CandidateAliasTokens | src/sentinellayer_growth_engine/phase2/blocking.py:16-20 | the tokens of the name and of all aliases |
| Blocking.SelectedIffNear | src/sentinellayer_growth_engine/phase2/blocking.py:23-61 | with room in the budget a candidate is selected if and only if it shares the lead's domain, its registrable domain, or a word of its name or an alias |
| Blocking.SelectedAreTheFirstNear | src/sentinellayer_growth_engine/phase2/blocking.py:49-61 | what is selected are the first such candidates in their order, as many as the budget admits |
| Blocking.UnresolvedIffNothingNear | src/sentinellayer_growth_engine/phase2/blocking.py:23-61 | a lead is left unresolved exactly when no candidate shares domain or word with it |
| Scoring.ScoreIs | src/sentinellayer_growth_engine/phase2/matching.py:30-174 | the score, point by point, from domains, words and places |
| Scoring.EligibleIff | src/sentinellayer_growth_engine/phase2/matching.py:138-174 | eligible exactly with something strong for it and nothing against it, and then worth 90 points at least |
| Scoring.PlausibleIff | src/sentinellayer_growth_engine/phase2/resolver.py:87-92 | plausible exactly with anything for it and nothing against it |
| Resolver.Outcome | src/sentinellayer_growth_engine/phase2/resolver.py:35-209 | the status in terms of the candidates alone; the close-margin branch is never taken; no returned decision breaks the state contract |
| Resolver.ResolutionCounts | src/sentinellayer_growth_engine/phase2/resolver.py:74-209 | with distinct ids: one matchable candidate is a match of high confidence naming it, two or more a conflict |
| Resolver.OrderMattersOnlyThroughTheBudget | src/sentinellayer_growth_engine/phase2/blocking.py:49-61 | with distinct ids two orders of which the budget keeps the same candidates give the identical result, and of which it keeps others never the same decision |
| Resolver.OrderDoesNotMatter | src/sentinellayer_growth_engine/phase2/resolver.py:44-49 | within the candidate budget any permutation of the candidates gives the identical decision |
| Resolver.BudgetOfOneKeepsTheFirst | src/sentinellayer_growth_engine/phase2/blocking.py:58-61 | under a budget of one an order that starts with another block match never gives the same decision |
| Resolver.NoStealing | src/sentinellayer_growth_engine/phase2/resolver.py:117-150 | whatever the budget, further candidates at the end turn a match only into a match of the same identity or into a conflict |
| Resolver.AdjudicateOutcome | src/sentinellayer_growth_engine/phase2/models.py:184-201 | every decision returned satisfies the state contract, anything else raises |
| Resolver.DescendingIsUnique | src/sentinellayer_growth_engine/phase2/resolver.py:45-49 | there is only one order of comparisons with distinct ids that the sort can give |
| Resolver.SortPermutes | src/sentinellayer_growth_engine/phase2/resolver.py:45-49 | sorting loses and adds nothing |
| Resolver.WinnerIsSelected | src/sentinellayer_growth_engine/phase2/resolver.py:119 | the candidate looked up by the winning id is a selected one |
| Scoring.ComparisonsAreRanked | src/sentinellayer_growth_engine/phase2/resolver.py:45-49 | a decision carries one comparison a selected candidate, eligible ones first, then by score, then by id |
| Scoring.DecisionExplains | src/sentinellayer_growth_engine/phase2/resolver.py:51-209 | what a decision leaves open, its trace, the rejected, the signals that decided, and when its confidence is high |
| Scoring.SortedSetIs | src/sentinellayer_growth_engine/phase2/resolver.py:185 | the evidence reported is the winner's, strictly ascending |
| Resolver.BlockedMembers | src/sentinellayer_growth_engine/phase2/blocking.py:49-61 | blocking only leaves candidates out and keeps ids distinct |
| CandidateProvider.CandidateObjects | src/sentinellayer_growth_engine/phase2/tinyfish_provider.py:378-522 | the loop produces the candidates specified, or reads the unassigned variable |
| CandidateProvider.UnboundExactly | src/sentinellayer_growth_engine/phase2/tinyfish_provider.py:410-496 | the unassigned read happens exactly when there is a domain and evidence but no entity reached the assignment |
| CandidateProvider.ProducesFirstParty | src/sentinellayer_growth_engine/phase2/tinyfish_provider.py:490-522 | evidence on the lead's domain yields a first-party candidate, and all candidates are well built |
| CandidateProvider.FirstPartyEvidenceDecides | src/sentinellayer_growth_engine/phase2/tinyfish_provider.py:378-522 | evidence on the lead's domain and one entity past the filters always lead to a match or a conflict within the state contract |
| CandidateProvider.FallbackCanRepeatAnId | src/sentinellayer_growth_engine/phase2/tinyfish_provider.py:499-522 | the appended candidate can repeat an id, and the match then reports the other's fields |
| CandidateEvidence.VerifiedOnlyOnSite | src/sentinellayer_growth_engine/phase2/tinyfish_provider.py:464-518 | a candidate is verified, or has its URL or identity confirmed, only with a page of the lead's registrable domain among its own evidence |
| CandidateEvidence.MatchedOnlyOnSite | src/sentinellayer_growth_engine/phase2/tinyfish_provider.py:378-522 | no lead is matched, with whatever budget, unless a page of its registrable domain was fetched |
| CandidateEvidence.MadeAsDescribed | src/sentinellayer_growth_engine/phase2/tinyfish_provider.py:397-483 | an entity is verified exactly if it is not merely related, was found on the lead's site, and has the lead's domain or none; its identity is tied if it has the lead's name as well |
| CandidateEvidence.CandidatesComeFrom | src/sentinellayer_growth_engine/phase2/tinyfish_provider.py:378-522 | every candidate is that of the first entity considered with its id, as described, or the one appended for the lead |
| CandidateEvidence.EveryFirstIsMade | src/sentinellayer_growth_engine/phase2/tinyfish_provider.py:393-483 | every first entity of an id has its candidate, as described |
| CandidateEvidence.AppendedIff | src/sentinellayer_growth_engine/phase2/tinyfish_provider.py:486-521 | the lead's own candidate is appended exactly when no entity is shown to be the lead, the lead has a domain and a page of its site was fetched, with those pages in their order as evidence |
| CandidateEvidence.ClaimsSay | src/sentinellayer_growth_engine/phase2/tinyfish_provider.py:541-550 | the currentness is what the first claim about the name says in a word of the vocabulary |
| CandidateIds.SameKey | src/sentinellayer_growth_engine/phase2/tinyfish_provider.py:438 | the key an id is hashed from determines normalised name, domain and type, whatever the domain contains |
| CandidateIds.EntityIds | src/sentinellayer_growth_engine/phase2/tinyfish_provider.py:438-442 | the ids of the candidates from entities are exactly those the kept entities give |
| CandidateIds.EntitiesDistinct | src/sentinellayer_growth_engine/phase2/tinyfish_provider.py:438-442 | candidates from entities never share an id |
| CandidateIds.DistinctIff | src/sentinellayer_growth_engine/phase2/tinyfish_provider.py:485-522 | the produced ids are distinct unless the lead's own candidate is appended although a brand of its name and domain was kept |
| CandidateIds.ProducedResolves | src/sentinellayer_growth_engine/phase2/tinyfish_provider.py:485-522 | outside that one case resolution counts the produced candidates, and their order matters only through the budget |
| CandidateProvider.SelectFetchUrls | src/sentinellayer_growth_engine/phase2/tinyfish_provider.py:337-354 | the distinct pages of the lead's domain in the order of their first hits, as many as allowed or all of them |
| Normalization.NormalizeNameIsIdempotent | src/sentinellayer_growth_engine/phase2/normalization.py:22-32 | normalising a normalised name changes neither it nor its tokens |
| Normalization.RunsOfJoined | src/sentinellayer_growth_engine/phase2/normalization.py:22-32 | splitting undoes joining |
| Normalization.NormalizedWords | src/sentinellayer_growth_engine/phase2/normalization.py:22-27 | a normalised name splits into the words that count |
| Normalization.SameNormalName | src/sentinellayer_growth_engine/phase2/normalization.py:22-32 | names are normalised alike exactly when they have the same words that count |
| Normalization.NameWordsAre | src/sentinellayer_growth_engine/phase2/normalization.py:22-27 | the words that count are the runs of letters and digits other than company suffixes |
| Normalization.RunsSplit | src/sentinellayer_growth_engine/phase2/normalization.py:25 | a character that is not kept splits a text in two |
| Normalization.SuffixesAre | src/sentinellayer_growth_engine/phase2/normalization.py:6-61 | the ten company suffixes and the fourteen suffixes names are registered under |
| Normalization.RegistrableIs | src/sentinellayer_growth_engine/phase2/normalization.py:64-75 | a name of more than two labels is registered as its last two, or three under such a suffix |
| Normalization.LabelsOfJoined | src/sentinellayer_growth_engine/phase2/normalization.py:68 | splitting undoes joining of labels |
| Clocks.Clock.Sleep | src/sentinellayer_growth_engine/tinyfish_rate_limit.py:61-65 | time advances by at least what was asked |
| RateLimiter.WindowBound | src/sentinellayer_growth_engine/tinyfish_rate_limit.py:52-95 | pacing bounds every half-open window, wherever it starts |
| RateLimiter.BoundedWindowsArePaced | src/sentinellayer_growth_engine/tinyfish_rate_limit.py:52-95 | a history within budget in every window is paced: the bound is exact |
| RateLimiter.EveryWindowWithinBudget | src/sentinellayer_growth_engine/tinyfish_rate_limit.py:52-95 | every minute, hour and day window of every run of the limiter keeps its budget |
| RateLimiter.PoppedIsUnexpired | src/sentinellayer_growth_engine/tinyfish_rate_limit.py:85-95 | popping expired heads leaves exactly the unexpired part of the grant log |
| RateLimiter.GrantTracks | src/sentinellayer_growth_engine/tinyfish_rate_limit.py:54-59 | a grant checked against an earlier pruning still keeps deque and log in step |
| RateLimiter.OldestExpires | src/sentinellayer_growth_engine/tinyfish_rate_limit.py:58-65 | waiting for the oldest grant leaves strictly fewer |
| RateLimiter.CountsFall | src/sentinellayer_growth_engine/tinyfish_rate_limit.py:85-95 | as time passes fewer grants count |
| RateLimiter.TinyFishRateLimiter.PopExpired | src/sentinellayer_growth_engine/tinyfish_rate_limit.py:85-95 | the loop leaves the part of the log unexpired at the reading |
| RateLimiter.TinyFishRateLimiter.Prune | src/sentinellayer_growth_engine/tinyfish_rate_limit.py:85-95 | all four deques are in step with their logs at the readings taken |
| RateLimiter.TinyFishRateLimiter.AcquireSearch | src/sentinellayer_growth_engine/tinyfish_rate_limit.py:52-65 | terminates with exactly one grant, and does not sleep when there is room, nor sleep beyond the time at which there is, but for a hundredth of a second |
| RateLimiter.TinyFishRateLimiter.AcquireFetch | src/sentinellayer_growth_engine/tinyfish_rate_limit.py:67-83 | terminates; raises the quota error exactly when the day load at its reading leaves no room, and otherwise grants exactly the requests a minute can hold, sleeping no longer than until there is room, but for a hundredth of a second |
| TtlCache.GetKeeps | src/sentinellayer_growth_engine/provider_resilience.py:37-45 | a lookup keeps order, table and their agreement |
| TtlCache.SetKeeps | src/sentinellayer_growth_engine/provider_resilience.py:47-55 | a store keeps the cache well formed and within its size |
| TtlCache.StepPotential | src/sentinellayer_growth_engine/provider_resilience.py:37-55 | no operation on another key costs a key more than one place |
| TtlCache.TouchedKeySurvives | src/sentinellayer_growth_engine/provider_resilience.py:37-55 | a key just inserted or hit survives any run of fewer operations on other keys than the cache holds |
| TtlCache.SurvivesWhilePotentialLasts | src/sentinellayer_growth_engine/provider_resilience.py:37-55 | a key survives as many operations on others as there are entries before it and free places |
| TtlCache.SurvivesExactlyPotential | src/sentinellayer_growth_engine/provider_resilience.py:37-55 | a key survives every run of n operations on others if and only if n is at most the older entries and free places |
| TtlCache.StoreProtectsIff | src/sentinellayer_growth_engine/provider_resilience.py:47-55 | a stored key survives every run of one operation less than the cache holds if and only if it was absent, evicted by that store, or last |
| TtlCache.TouchPutsAtEnd | src/sentinellayer_growth_engine/provider_resilience.py:37-55 | a hit, or a store of an absent key, puts the key at the safe end |
| TtlCache.RestoredKeyCanBeEvicted | src/sentinellayer_growth_engine/provider_resilience.py:47-55 | any other store leaves its key evictable by fewer operations on others than the cache holds entries |
| TtlCache.TTLCache.Get | src/sentinellayer_growth_engine/provider_resilience.py:37-45 | a hit is the latest value stored under the key, before it expired |
| TtlCache.TTLCache.Set | src/sentinellayer_growth_engine/provider_resilience.py:47-55 | evicts from the front down to a free place, stores, and does nothing for a lifetime that is not positive |
| TtlCache.TTLCache.Clear | src/sentinellayer_growth_engine/provider_resilience.py:57-58 | empties the cache |
| RetryClient.SettlingIsFirst | src/sentinellayer_growth_engine/tinyfish_client.py:304-444 | the settling attempt is the first that cannot be retried, or the last allowed |
| RetryClient.EndIsReported | src/sentinellayer_growth_engine/tinyfish_client.py:485-543 | the last report describes the end, unless that is a payload that is not an object |
| RetryPolicy.FollowedIff | src/sentinellayer_growth_engine/tinyfish_client.py:393-405 | an HTTP answer with attempts left is followed by another attempt if and only if its status is 429, 500, 502, 503 or 504 |
| RetryPolicy.SettlesIff | src/sentinellayer_growth_engine/tinyfish_client.py:341-424 | the settling attempt is the one that all earlier ones lead to and none follows |
| RetryPolicy.StatusIsReportedAs | src/sentinellayer_growth_engine/tinyfish_client.py:446-473 | which failure each status is reported as |
| RetryPolicy.EndIsReportedAs | src/sentinellayer_growth_engine/tinyfish_client.py:361-424 | which result every other end gives |
| RetryPolicy.ReportsOfARequest | src/sentinellayer_growth_engine/tinyfish_client.py:373-424 | the reports in order: one for each attempt an HTTP status answered, and one for the last unless it was a payload of another kind than an object |
| RetryPolicy.RefusalIsReportedIff | src/sentinellayer_growth_engine/tinyfish_client.py:343-358 | a refusal is reported exactly when the quota is exhausted, with the attempts made |
| RetryPolicy.RetryAfterIsObeyed | src/sentinellayer_growth_engine/tinyfish_client.py:475-482 | a server that says how long to stay away is obeyed |
| RetryPolicy.WaitsDouble | src/sentinellayer_growth_engine/tinyfish_client.py:406-424 | otherwise the waits after n attempts make up 2^n - 1 + n (n + 1) / 8 seconds |
| RetryClient.TinyFishClient.Acquire | src/sentinellayer_growth_engine/tinyfish_client.py:304-444 | one charge, or the limiter's exception and none |
| RetryClient.TinyFishClient.Try | src/sentinellayer_growth_engine/tinyfish_client.py:304-444 | one attempt settles the request, or leads to the next, or is refused uncharged |
| RetryClient.TinyFishClient.SendWithRetries | src/sentinellayer_growth_engine/tinyfish_client.py:304-444 | as many charges as attempts, settled by the settling attempt, reported and cached accordingly; it asks to sleep for exactly the delays of the attempts retried |
| RetryClient.TinyFishClient.RequestJson | src/sentinellayer_growth_engine/tinyfish_client.py:304-444 | a cache hit charges nothing; anything else is settled or refused; an entry that has not expired is always answered from the cache |
| AnalysisQueue.EveryRunKeepsInv | src/sentinellayer_growth_engine/conversation_analysis_queue.py:37-208 | every interleaving: owner and lease go with processing, attempts count claims, results are written once by the latest claimant |
| AnalysisQueue.TerminalRowsAreAbsorbing | src/sentinellayer_growth_engine/conversation_analysis_queue.py:62-208 | completed and failed jobs never change |
| AnalysisQueue.LeaseProtects | src/sentinellayer_growth_engine/conversation_analysis_queue.py:62-171 | while a lease lasts nobody else touches the row |
| AnalysisQueue.InTimeReportSucceeds | src/sentinellayer_growth_engine/conversation_analysis_queue.py:173-208 | a completion or failure before the lease runs out succeeds |
| AnalysisQueue.SharedWorkerIdIsNotFenced | src/sentinellayer_growth_engine/conversation_analysis_queue.py:173-208 | from any state, a worker id that claims its expired job again lets in the report it still owes under the older claim |
| AnalysisQueue.ReportLandsIff | src/sentinellayer_growth_engine/conversation_analysis_queue.py:173-208 | a report made under any claim lands if and only if the job is processing and its latest claimant has the reporter's worker id |
| AnalysisQueue.DisciplineFences | src/sentinellayer_growth_engine/conversation_analysis_queue.py:62-208 | if no worker id claims a job again while a report of its own is outstanding, no run lets a stale report land |
| AnalysisQueue.NewQueueIsFenced | src/sentinellayer_growth_engine/conversation_analysis_queue.py:37-208 | every disciplined run of a new queue keeps its reports to the latest claim |
| AnalysisQueue.StaleReportIsReached | src/sentinellayer_growth_engine/conversation_analysis_queue.py:62-193 | a run of a new queue in which the analysis stored was made under the first of two claims |
| AnalysisQueue.BouncesOnlyGrow | src/sentinellayer_growth_engine/conversation_analysis_queue.py:195-208 | recorded failures are never lost |
| AnalysisQueue.EnqueuedIffNew | src/sentinellayer_growth_engine/conversation_analysis_queue.py:37-60 | a reply gets a job exactly when it has none, and the job waits untouched |
| AnalysisQueue.FailureOnRecord | src/sentinellayer_growth_engine/conversation_analysis_queue.py:195-209 | a failure gives the job back, or up from the fifth attempt on, with up to 4000 characters of the error |
| QueueOrder.PicksIff | src/sentinellayer_growth_engine/conversation_analysis_queue.py:70-78 | the statement takes exactly the sets of free, unlocked rows that are oldest first and leave none behind without need |
| QueueOrder.ClaimTakesTheOldest | src/sentinellayer_growth_engine/conversation_analysis_queue.py:62-95 | whatever a claim changes: within the bounds on its arguments such a set of rows, each in this way; nothing else |
| QueueOrder.EveryBatchCanBeTaken | src/sentinellayer_growth_engine/conversation_analysis_queue.py:62-95 | and every such set can be taken |
| QueueOrder.NothingIsOvertaken | src/sentinellayer_growth_engine/conversation_analysis_queue.py:75 | a job claimed was enqueued no later than any free, unlocked one that the claim passes by |
| QueueOrder.WaitIsBounded | src/sentinellayer_growth_engine/conversation_analysis_queue.py:70-78 | a free job is claimed within as many claims as there are jobs ahead of it, and coming to be, and one more |
| AnalysisQueue.ConversationAnalysisQueue.Enqueue | src/sentinellayer_growth_engine/conversation_analysis_queue.py:37-60 | one job a reply; enqueueing again changes nothing |
| AnalysisQueue.ConversationAnalysisQueue.Claim | src/sentinellayer_growth_engine/conversation_analysis_queue.py:62-171 | the chosen rows are claimed, or the arguments, whatever they are, are rejected and nothing changes |
| AnalysisQueue.ConversationAnalysisQueue.Complete | src/sentinellayer_growth_engine/conversation_analysis_queue.py:173-193 | succeeds exactly for the holder, and completes the row |
| AnalysisQueue.ConversationAnalysisQueue.Fail | src/sentinellayer_growth_engine/conversation_analysis_queue.py:195-208 | succeeds exactly for the holder, and fails or requeues the row |
| AnalysisQueue.ConversationAnalysisWorker.RunOnce | src/sentinellayer_growth_engine/conversation_analysis_queue.py:218-237 | within its leases the worker settles every job it claimed; a batch size out of bounds raises and claims nothing |
| CampaignSteps.ExactlyOnceHandOff | src/sentinellayer_growth_engine/campaign_execution.py:44-169 | every interleaving: no step is passed without its own send on file, and no two sends are of one campaign, person and step |
| CampaignSteps.EveryRunKeepsInv | supabase/migrations/20260902150000_campaign_step_claims.sql:13-177 | sends filed under their own key, tokens issued once, claims about the next step |
| CampaignSteps.KeyIsInjective | src/sentinellayer_growth_engine/mail_handoff.py:76-85 | keys determine campaign, person and step when campaign and step ids have no colon |
| CampaignSteps.KeyFindsItsOwnSend | supabase/migrations/20260905110000_persist_rendered_send.sql:46-58 | a key never finds another step's send |
| CampaignSteps.SendsNeverChange | supabase/migrations/20260905110000_persist_rendered_send.sql:46-73 | a persisted send is never replaced |
| CampaignSteps.OnlyTheHolderAdvances | supabase/migrations/20260902150000_campaign_step_claims.sql:153-177 | an enrollment advances one step at a time, by the holder of its token, after its send |
| CampaignSteps.StaleForGood | supabase/migrations/20260902150000_campaign_step_claims.sql:132-177 | a worker whose claim was taken over changes nothing by completing or releasing, in any later state |
| CampaignSteps.ClaimSurvives | supabase/migrations/20260902150000_campaign_step_claims.sql:74-76 | nothing others do takes a claim away while its lease lasts |
| CampaignSteps.InTimeCompletionSucceeds | src/sentinellayer_growth_engine/campaign_execution.py:154-164 | whatever the others do, a holder within its lease advances the enrollment if and only if its driver reads rows by position |
| CampaignDates.ClaimGrantedIff | supabase/migrations/20260902150000_campaign_step_claims.sql:51-130 | a claim is granted exactly for a live, due, unleased enrollment with steps left and a prepared next step, the names being read as columns; what it marks and answers |
| CampaignDates.ClosedIffDone | supabase/migrations/20260902150000_campaign_step_claims.sql:86-97 | without a claim the tables change only by closing a due enrollment that has no steps left |
| CampaignDates.StartedWhenDue | supabase/migrations/20260902150000_campaign_step_claims.sql:66-76 | an execution starts only on an enrollment whose date has come, with its next step |
| CampaignDates.EndedWhenDue | supabase/migrations/20260902150000_campaign_step_claims.sql:66-97 | no enrollment is closed before its date or with steps left |
| CampaignDates.PausedIsLeftAlone | supabase/migrations/20260902150000_campaign_step_claims.sql:66-68 | a paused or ended enrollment is not claimed, completed or released |
| CampaignDates.CompletionSetsDate | src/sentinellayer_growth_engine/campaign_execution.py:147-153 | a completion moves the date to so many days of 86400 seconds after the time its send was scheduled for |
| CampaignDates.SentAsClaimed | src/sentinellayer_growth_engine/mail_handoff.py:30-85 | a send persisted is of the step claimed, to the person's address, and says what was rendered |
| CampaignDates.RefusedIsNotSent | supabase/migrations/20260905110000_persist_rendered_send.sql:34-44 | what the mail system does not accept is not put on file |
| CampaignDates.NextStepWaits | supabase/migrations/20260902150000_campaign_step_claims.sql:70-72 | over any run a step is claimed no earlier than the days the step before it asks for after its send was scheduled |
| CampaignDriver.NothingAdvances | src/sentinellayer_growth_engine/campaign_db.py:107-127 | with rows not readable by position no run takes any enrollment past a step |
| CampaignDriver.ClaimsOnlyRunOut | src/sentinellayer_growth_engine/campaign_db.py:52-61 | with such rows no run gives a claim back before its lease runs out |
| CampaignDriver.NothingIsSent | src/sentinellayer_growth_engine/campaign_db.py:63-105 | without dict parameters or rows keyed by name no run persists a send |
| CampaignDriver.AsShipped | supabase/migrations/20260902150000_campaign_step_claims.sql:96-101 | with procedure and connections as they are no run from fresh tables claims, persists or advances anything, and from any tables none persists, advances or gives a claim back early |
| CampaignDriver.NothingIsClaimed | supabase/migrations/20260902150000_campaign_step_claims.sql:18-36 | unless the ambiguous names of the lookup are read as columns no run grants a claim, persists a send or advances a step |
| CampaignDriver.SomethingAdvancesIff | src/sentinellayer_growth_engine/campaign_db.py:31-127 | some run from fresh tables advances some enrollment if and only if the claim procedure's names are read as columns, rows answer to positions and names, and dicts can be passed |
| CampaignDriver.AloneIsARun | src/sentinellayer_growth_engine/campaign_execution.py:118-169 | an execution by itself leaves the tables of one run of the step model |
| CampaignDriver.AloneSucceedsIff | src/sentinellayer_growth_engine/campaign_execution.py:118-169 | an undisturbed execution with a granted claim succeeds if and only if the driver works and no other send of the step is on file; the tables are given for both cases |
| CampaignRetries.RetryRecoversIffSamePayload | src/sentinellayer_growth_engine/campaign_execution.py:118-169 | among others at work, a request made within its lease advances the enrollment if and only if the driver works and no send or the very same is on file |
| CampaignRetries.DifferentRetriesNeverRecover | supabase/migrations/20260905110000_persist_rendered_send.sql:47-58 | with a send on file whose worker lost its claim, no run whose requests all differ from it advances the enrollment |
| CampaignRetries.TakeoverOrphans | supabase/migrations/20260902150000_campaign_step_claims.sql:74-130 | taking over the claim of a worker that died after persisting leaves its send orphaned |
| CampaignRetries.OneCrashCanStickForGood | src/sentinellayer_growth_engine/campaign_execution.py:135-169 | where claims are granted and sends persisted, one crash after persisting keeps the enrollment at its step, from fresh tables on, for as long as every request differs |
| CampaignRetries.RefusedRetry | supabase/migrations/20260905110000_persist_rendered_send.sql:47-58 | where claims are granted and sends persisted, a request that differs in anything after that crash and takeover fails and changes no table |
| CampaignExecution.CampaignDatabase.Claim | supabase/migrations/20260902150000_campaign_step_claims.sql:13-130 | the claim procedure check by check, the lookup of the next step raising unless its names are read as columns |
| CampaignExecution.CampaignDatabase.Release | src/sentinellayer_growth_engine/campaign_db.py:52-61 | runs the procedure and reads its row: gives back exactly the claim of this token, or raises and changes nothing where the row has no positions |
| CampaignExecution.CampaignDatabase.Complete | src/sentinellayer_growth_engine/campaign_db.py:107-127 | runs the procedure and reads its row: advances exactly the holder of this token, or raises and changes nothing where the row has no positions |
| CampaignExecution.CampaignDatabase.Enqueue | src/sentinellayer_growth_engine/campaign_db.py:63-105 | inserts once a key, returns the same send, raises for a different one and where the driver cannot pass dicts or name columns |
| CampaignExecution.CampaignExecutionOrchestrator.Execute | src/sentinellayer_growth_engine/campaign_execution.py:118-169 | claim, render, persist, complete, each call able to raise; success means the step advanced with a send on file, failure that it stayed |
| Intake.DuplicateIff | src/sentinellayer_growth_engine/phase1/pipeline.py:45-103 | a record is a duplicate exactly when a stored one has its fingerprint and its id or source |
| Intake.CheckDuplicate | src/sentinellayer_growth_engine/phase1/pipeline.py:45-103 | the two searches find the first replay, else the first copy |
| Intake.KindIff | src/sentinellayer_growth_engine/phase1/pipeline.py:45-103 | a replay exactly if stored under its own id, else a copy of the first of its source under another id |
| Intake.WhatBecomesOfARecord | src/sentinellayer_growth_engine/phase1/pipeline.py:106-160 | duplicates are set aside, others judged by their validation, and exactly what is accepted is handed off, under its lead |
| Intake.PrepareResults | scripts/ingest_scrapercity_phase1.py:149-166 | every record against the stored ones and the earlier ones of the batch |
| Intake.BatchDuplicateIff | scripts/ingest_scrapercity_phase1.py:149-166 | in a batch of one source, duplicate exactly when a stored or earlier record has the fingerprint |
| Intake.FreshCount | scripts/ingest_scrapercity_phase1.py:149-166 | as many new records as fingerprints not stored before |
| Intake.RerunIsAllDuplicates | scripts/ingest_scrapercity_phase1.py:182-192 | a stored batch prepared again is all replays |
| IntakeStore.WhatIntakeGuarantees | scripts/ingest_scrapercity_phase1.py:149-192 | any sequence of batches: each record has the state of its first final result, an accepted one is handed off in that result's canonical form, and a quarantine row is resolved exactly when its record is accepted |
| IntakeStore.FirstFinalResultDecides | src/sentinellayer_growth_engine/phase1/repository.py:125-152 | over any calls a record takes the state of the first accepted or duplicate result about it, else of the last |
| IntakeStore.PreparedIsSound | src/sentinellayer_growth_engine/phase1/pipeline.py:106-160 | what preparing a batch of derived records yields is well formed |
| IntakeStore.EveryRunKeepsInv | src/sentinellayer_growth_engine/phase1/repository.py:113-232 | every sequence of calls keeps: each source has a state, accepted ones are handed off, quarantined ones are in quarantine, and a quarantine row is resolved exactly when its source is accepted |
| IntakeStore.NoCollisions | src/sentinellayer_growth_engine/phase1/fingerprints.py:78-96 | with ids derived from source, key and content no call ever fails |
| IntakeStore.EvidenceIsImmutable | src/sentinellayer_growth_engine/phase1/repository.py:234-309 | sources, observations, findings, decisions and handoffs are never rewritten |
| IntakeStore.AbsorbingStatesStay | src/sentinellayer_growth_engine/phase1/repository.py:125-152 | accepted and duplicate are final |
| IntakeStore.PersistingTwiceIsOnce | src/sentinellayer_growth_engine/phase1/repository.py:113-232 | persisting a result again changes nothing |
| IntakeStore.RerunOnlyClosesQuarantined | scripts/ingest_scrapercity_phase1.py:182-192 | ingesting again only turns the batch's quarantined records into duplicates |
| IntakeStore.RerunLeavesQuarantineOpen | src/sentinellayer_growth_engine/phase1/repository.py:218-221 | ingesting again makes a quarantined record a duplicate and leaves its quarantine row open |
| IntakeStore.OrphanedQuarantineStaysOpen | src/sentinellayer_growth_engine/phase1/repository.py:125-152 | the open quarantine row of a duplicate stays open over any further calls |
| IntakeStore.Phase1Repository.PersistResult | src/sentinellayer_growth_engine/phase1/repository.py:113-232 | one transaction, a replay answer, or the collision error |
| IntakeStore.Phase1Repository.WriteEvidence | src/sentinellayer_growth_engine/phase1/repository.py:234-309 | the loops insert every observation and finding once, and the decision |
| IntakeStore.Ingest | scripts/ingest_scrapercity_phase1.py:182-192 | persists the prepared results in order up to a collision; with derived ids all of them, keeping the invariant |
| Scanner.ScanUnparses | src/sentinellayer_growth_engine/campaign.py:57-67 | the pieces of a text put together give the text |
| Scanner.UnparseScans | src/sentinellayer_growth_engine/campaign.py:57-67 | leftmost pieces are what scanning their text finds |
| Scanner.NoHoleMeansNoMatch | src/sentinellayer_growth_engine/campaign.py:62 | a scan that finds nothing has missed nothing at any position |
| Template.MatchIsExact | src/sentinellayer_growth_engine/campaign.py:12 | the scanner without backtracking finds exactly what the pattern describes |
| Template.PlaceholderIsMatched | src/sentinellayer_growth_engine/campaign.py:12 | a placeholder can be read in only one way |
| Template.ParseRoundTrip | src/sentinellayer_growth_engine/campaign.py:57-61 | splitting then joining a template gives it back |
| Template.UnparseRoundTrip | src/sentinellayer_growth_engine/campaign.py:57-61 | joining then splitting pieces gives them back |
| Template.SplitDotsRoundTrip | src/sentinellayer_growth_engine/campaign.py:46-48 | the parts of a key joined give the key, and none has a dot |
| Template.FindValue | src/sentinellayer_growth_engine/campaign.py:46-54 | the loop finds the value at the path, or reports it missing or empty |
| Template.RenderSucceedsIff | src/sentinellayer_growth_engine/campaign.py:57-67 | success exactly when every placeholder has a value and the filled text has no placeholder; the result is that text |
| Template.RenderedIsFinal | src/sentinellayer_growth_engine/campaign.py:57-67 | rendered text holds no placeholder and renders to itself |
| Template.ValueCompletesPlaceholder | src/sentinellayer_growth_engine/campaign.py:61-66 | braces of template and value together make rendering fail closed |
| Template.FoundIff | src/sentinellayer_growth_engine/campaign.py:46-54 | a key has the value its parts lead to, if there is one and it is neither null nor blank; otherwise which error |
| Template.ErrorIsTheFirst | src/sentinellayer_growth_engine/campaign.py:57-67 | the error of a failed rendering is that of the first placeholder without a value, or a placeholder is left |
| Template.TextIsPutIn | src/sentinellayer_growth_engine/campaign.py:57-67 | a text without braces is put in as it is |
| Template.NameIff | src/sentinellayer_growth_engine/campaign.py:12 | which names a placeholder can have |
| Allocation.AssignVariant | src/sentinellayer_growth_engine/resolver.py:38-66 | the errors in order, else the first variant whose cumulative share exceeds the bucket |
| Allocation.AcceptedIff | src/sentinellayer_growth_engine/resolver.py:38-59 | accepted exactly if all are percentages that sum to no more than 100 and a millionth; otherwise which error |
| Allocation.AssignedBetween | src/sentinellayer_growth_engine/resolver.py:60-66 | a variant gets exactly the buckets between its cumulative boundaries, nobody those beyond the last |
| Allocation.AllocationIsExact | src/sentinellayer_growth_engine/resolver.py:33-66 | allocations in hundredths get exactly their number of buckets |
| Allocation.HundredthsStayInBounds | src/sentinellayer_growth_engine/resolver.py:58-59 | the tolerance admits no sum of hundredths beyond 100 |
| Allocation.AllocationIsFair | src/sentinellayer_growth_engine/resolver.py:33-66 | any accepted allocation gets its share to within one bucket and the tolerated excess over 100 percent |
| Allocation.AllAssignedIff | src/sentinellayer_growth_engine/resolver.py:60-66 | everybody is assigned exactly when the sum exceeds 99.99 |
| Allocation.AppendingMovesNobody | src/sentinellayer_growth_engine/resolver.py:60-66 | a variant added at the end moves nobody who was assigned |
| UrlSelection.SelectFetchUrls | src/sentinellayer_growth_engine/tinyfish_enrichment.py:177-222 | the two passes of nested loops select what is specified |
| UrlSelection.PurposeGetsItsBest | src/sentinellayer_growth_engine/tinyfish_enrichment.py:197-210 | a purpose gets its best page not selected yet, or nothing good is left for it |
| UrlSelection.SelectionIsComplete | src/sentinellayer_growth_engine/tinyfish_enrichment.py:177-222 | distinct good pages, the limit or all of them, and the first purposes represented |
| UrlSelection.EveryPurposeRepresented | src/sentinellayer_growth_engine/tinyfish_enrichment.py:197-210 | with room for every purpose each one with a good page is represented |
| UrlSelection.FirstPassTakesBest | src/sentinellayer_growth_engine/tinyfish_enrichment.py:197-210 | search by search the first pass adds the best good page not selected yet, if there is room and there is one |
| UrlSelection.SecondPassTakesRest | src/sentinellayer_growth_engine/tinyfish_enrichment.py:211-222 | search by search the second pass adds the other good pages, best first, as far as there is room |
| UrlSelection.SortedKeepsAlike | src/sentinellayer_growth_engine/tinyfish_enrichment.py:198-203 | pages as good as each other keep their order |
| IntentScoring.ComputeIntent | src/sentinellayer_growth_engine/intelligence_scoring.py:163-204 | raw intent is the sum of the ledger of first signals, the score its normalised value, the contributions the rounded ledger in order |
| IntentScoring.RankedIsTheLedgerInOrder | src/sentinellayer_growth_engine/intelligence_scoring.py:203 | the report is a permutation of the ledger, ordered by value, day and type, and otherwise in the order of the signals |
| IntentScoring.LedgerCountsEventsOnce | src/sentinellayer_growth_engine/intelligence_scoring.py:182-185 | an event is counted at most once |
| IntentScoring.RawIntentFades | src/sentinellayer_growth_engine/intelligence_scoring.py:187-191 | raw intent is never negative and never rises with time |
| IntentScoring.OneSignalMore | src/sentinellayer_growth_engine/intelligence_scoring.py:178-191 | a signal put in changes the sum by its value less that of the one it supersedes |
| IntentScoring.RepeatingChangesNothing | src/sentinellayer_growth_engine/intelligence_scoring.py:182-185 | a signal repeated anywhere after itself changes nothing |
| IntentScoring.RepeatingInFront | src/sentinellayer_growth_engine/intelligence_scoring.py:182-185 | a signal repeated in front of everything changes nothing exactly when the first of its event is worth the same |
| IntentScoring.RoutePriority | src/sentinellayer_growth_engine/intelligence_scoring.py:207-257 | the rules in sequence give a base rank bounded by a cap, and the modifiers are exactly those whose rule applied, in order |
| IntentScoring.ModifiersExplainThePriority | src/sentinellayer_growth_engine/intelligence_scoring.py:207-257 | fit, intent and the modifiers returned determine the priority |
| IntentScoring.PriorityNeverImproves | src/sentinellayer_growth_engine/intelligence_scoring.py:260-301 | as days pass with the same signals intent never rises and the priority never improves |
| IntentRules.LedgerEntries | src/sentinellayer_growth_engine/intelligence_scoring.py:176-202 | the ledger has an entry, with age, freshness and value, for the first counting signal of every event, and no other |
| IntentRules.ReportRounds | src/sentinellayer_growth_engine/intelligence_scoring.py:192-201 | the report gives the entries with freshness and value rounded |
| IntentRules.ReportIsRanked | src/sentinellayer_growth_engine/intelligence_scoring.py:203 | the report is in the order of value, then day, then type |
| IntentRules.FreshIsWhole | src/sentinellayer_growth_engine/intelligence_scoring.py:187-190 | a signal of today or of a day to come is worth its weight |
| IntentRules.ValueHalves | src/sentinellayer_growth_engine/intelligence_scoring.py:187-190 | from its day on its value halves with every half-life |
| IntentRules.PriorityIff | src/sentinellayer_growth_engine/intelligence_scoring.py:218-246 | which companies get which priority |
| IntentRules.ModifierIff | src/sentinellayer_growth_engine/intelligence_scoring.py:219-255 | when each modifier is reported |

## Left out

- ResumableLoop.Work: an execution dies between commits; inside a transaction the database's rollback makes that the same as dying before it.
- BatchReplay.CrashesDoNotShow: holds for one request key at a time; batches of different keys running at once share no rows, and that is not modelled.
- BatchInterleaving.AnyInterleavingIsOneExecution: two transactions that insert at the same moment are taken one after the other, as the unique indexes make them; all executors get the same handoffs and the same answers from their provider.
- BatchExecutor.CrashEquivalence: the provider's own observation and telemetry rows, and `bind_run`, are not modelled.
- Resolver.OrderDoesNotMatter: stated within the candidate budget, because beyond it the source keeps whichever block matches come first; `OrderMattersOnlyThroughTheBudget` says what holds there.
- Resolver.Outcome: the wording of trace events, questions and signal reasons, and official URL and origin fields.
- CandidateProvider.SelectFetchUrls: search queries, mission planning and evidence persistence around it.
- Normalization.NormalizeNameIsIdempotent: for lower-casing that leaves normal names alone; `normalize_domain` and URL parsing are parameters, and no idempotence is claimed for them.
- RateLimiter.EveryWindowWithinBudget: concurrent callers of one limiter, which the source does not lock; the search deques hold one-unit stamps.
- TtlCache.TTLCache.Get: concurrent callers, and clocks that go backwards.
- RetryClient.TinyFishClient.RequestJson: transport, JSON parsing and the schemas of results; an HTTP attempt is an outcome given from outside.
- AnalysisQueue.ConversationAnalysisQueue.Claim: which of equally old rows the database takes, and in what order it updates and returns them, is a parameter.
- CampaignSteps.ExactlyOnceHandOff: that no two sends of the table share an idempotency key is assumed; the migration creating public.sends, which would say so, is not part of this model.
- CampaignExecution.CampaignDatabase.Complete: the class's checks of its own arguments (UUID syntax, positive step number, time zone) and connection failures are not modelled, here and in its other calls.
- CampaignDriver.SomethingAdvancesIff: tables and functions that no migration here creates (people, sends, mailboxes, `is_suppressed`) are taken to fit the procedures that use them.
- CampaignSteps.ClaimStep: sequences, steps, people and versions are read as given; other parts may change an enrollment's status at any time, but not its step or token.
- CampaignExecution.CampaignExecutionOrchestrator.Execute: rendering enters as its outcome; `build_send_request` on its own is an execution that stops after building.
- Intake.DuplicateIff: JSON payloads and timestamps; a record's fingerprint stands for its content.
- IntakeStore.PersistingTwiceIsOnce: time columns and retry counts.
- Template.Lookup: `str` of values that are not text is given with the value.
- Allocation.AllocationIsExact: rounding of floating-point sums; `resolve_treatment` beyond the assignment is settled by reading its branches.
- IntentScoring.ComputeIntent: the keyword-based fit score.
- BatchRows.EverythingIsOnRecord: a row that two handoffs write under one key holds what the first of them wrote.
- QueueOrder.WaitIsBounded: over a stretch in which the leases taken do not run out and nobody reports on the waiting job; a worker that lets its leases run out puts the same jobs in front again and again.
- RetryPolicy.ReportsOfARequest: HTTP status, quota units, fingerprints and times in the reports.
- IntentRules.ValueHalves: for a decay that halves with every half-life, as powers of two do.
- CandidateIds.DistinctIff: asks that the key of the lead's own candidate does not collide, under the digest, with that of an entity.
- SMTP, IMAP, HTTP servers, the command line, dashboards and importers: input and output.
- Send claiming and delivery outcomes after a send is queued.
- Regex extractors, traffic and reply classification, keyword lists: no compact specification to prove against.
- Conversation, outreach, eligibility and recommendation tables: small finite tables, settled by reading.
- `next_state_after_observation` for LinkedIn outreach: no strong invariant over runs holds there.
